/** The flight recorder's file format (`src/gate.rs`): encoding, decoding that
    tolerates a torn tail, and compaction to a size cap. */
module Recorder {
  import opened Text

  type byte = b: int | 0 <= b < 256
  type Bytes = seq<byte>

  const U32: nat := 0x1_0000_0000
  const U64: nat := 0x1_0000_0000_0000_0000

  /** `KFMREC01` and a line feed. */
  const MAGIC: Bytes := [75, 70, 77, 82, 69, 67, 48, 49, 10]

  datatype RecEvent =
    | Output(ts: nat, name: Bytes, data: Bytes)
    | Resize(ts: nat, name: Bytes, cols: nat, rows: nat, cellW: nat, cellH: nat)

  /** The widths of the machine integers, and of the payload length field. */
  predicate Fits(ev: RecEvent) {
    && ev.ts < U64
    && match ev
       case Output(_, _, data) => |data| < U32
       case Resize(_, _, cols, rows, w, h) => cols < U32 && rows < U32 && w < U32 && h < U32
  }

  // ---- little-endian numbers ----

  function Le(n: nat, k: nat): (bs: Bytes)
    ensures |bs| == k
    decreases k, n
  {
    if k == 0 then [] else [n % 256] + Le(n / 256, k - 1)
  }

  function UnLe(bs: Bytes): nat {
    if bs == [] then 0 else bs[0] + 256 * UnLe(bs[1..])
  }

  function Pow256(k: nat): nat { if k == 0 then 1 else 256 * Pow256(k - 1) }

  lemma {:induction false} UnLeLe(n: nat, k: nat)
    requires n < Pow256(k)
    ensures UnLe(Le(n, k)) == n
    decreases k, n
  {
    if k > 0 {
      UnLeLe(n / 256, k - 1);
    }
  }

  lemma {:induction false} UnLeBound(bs: Bytes)
    ensures UnLe(bs) < Pow256(|bs|)
  {
    if bs != [] {
      UnLeBound(bs[1..]);
    }
  }

  lemma Widths()
    ensures Pow256(4) == U32 && Pow256(8) == U64
  {
    assert Pow256(2) == 0x1_0000;
    assert Pow256(4) == U32;
    assert Pow256(6) == 0x1_0000_0000_0000;
  }

  lemma ReadU32(n: nat)
    requires n < U32
    ensures UnLe(Le(n, 4)) == n
  {
    Widths();
    UnLeLe(n, 4);
  }

  lemma ReadU64(n: nat)
    requires n < U64
    ensures UnLe(Le(n, 8)) == n
  {
    Widths();
    UnLeLe(n, 8);
  }

  // ---- one record ----

  function Clipped(name: Bytes): Bytes { if |name| <= 255 then name else name[..255] }

  function Kind(ev: RecEvent): byte { if ev.Output? then 1 else 2 }

  function FieldA(ev: RecEvent): nat { if ev.Output? then 0 else ev.cols }

  function FieldB(ev: RecEvent): nat { if ev.Output? then 0 else ev.rows }

  function Payload(ev: RecEvent): Bytes {
    if ev.Output? then ev.data else Le(ev.cellW, 4) + Le(ev.cellH, 4)
  }

  /** Everything before the name: time, kind, and the length of the name. */
  function Head(ts: nat, kind: byte, nameLength: byte): (bs: Bytes)
    ensures |bs| == 10
  {
    Le(ts, 8) + [kind] + [nameLength]
  }

  /** Between name and payload: the two fields and the payload length. */
  function Fixed(a: nat, b: nat, payloadLength: nat): (bs: Bytes)
    ensures |bs| == 12
  {
    Le(a, 4) + Le(b, 4) + Le(payloadLength, 4)
  }

  /** The layout of a record of any kind. */
  datatype Frame = Frame(ts: nat, kind: byte, name: Bytes, a: nat, b: nat, payload: Bytes)

  predicate FrameFits(f: Frame) {
    f.ts < U64 && |f.name| <= 255 && f.a < U32 && f.b < U32 && |f.payload| < U32
  }

  function FrameBytes(f: Frame): (bs: Bytes)
    requires |f.name| <= 255
    ensures |bs| == 22 + |f.name| + |f.payload|
  {
    Head(f.ts, f.kind, |f.name|) + f.name + Fixed(f.a, f.b, |f.payload|) + f.payload
  }

  function FrameOf(ev: RecEvent): (f: Frame)
    ensures |f.name| <= 255
  {
    Frame(ev.ts, Kind(ev), Clipped(ev.name), FieldA(ev), FieldB(ev), Payload(ev))
  }

  /** `rec_encode`. */
  function Encode(ev: RecEvent): (bs: Bytes)
    ensures |bs| == 22 + |Clipped(ev.name)| + |Payload(ev)|
  {
    FrameBytes(FrameOf(ev))
  }

  /** What a decoder gets back: the same event with its name cut to 255 bytes. */
  function Clip(ev: RecEvent): RecEvent { ev.(name := Clipped(ev.name)) }

  /** One record read: its length, and the event unless its kind is unknown. */
  datatype Read = Torn | Record(event: Option<RecEvent>, length: nat)

  function Meaning(ts: nat, kind: byte, name: Bytes, a: nat, b: nat, payload: Bytes): Option<RecEvent> {
    if kind == 1 then Some(Output(ts, name, payload))
    else if kind == 2 && |payload| == 8 then Some(Resize(ts, name, a, b, UnLe(payload[..4]), UnLe(payload[4..])))
    else None
  }

  /** What stands behind the ten bytes that tell the length of the name. */
  datatype Fields = Short | Fields(name: Bytes, a: nat, b: nat, payload: Bytes)

  function ReadFields(rest: Bytes, nlen: nat): (f: Fields)
    ensures f.Fields? ==> |f.name| == nlen && nlen + 12 + |f.payload| <= |rest|
  {
    if |rest| < nlen + 12 then Short
    else ReadFixed(rest[..nlen], rest[nlen..nlen + 12], rest[nlen + 12..])
  }

  function ReadFixed(name: Bytes, fixed: Bytes, rest: Bytes): (f: Fields)
    requires |fixed| == 12
    ensures f.Fields? ==> f.name == name && |f.payload| <= |rest|
  {
    var plen := UnLe(fixed[8..12]);
    if |rest| < plen then Short
    else Fields(name, UnLe(fixed[..4]), UnLe(fixed[4..8]), rest[..plen])
  }

  /** The body of the loop of `rec_decode_all`. */
  function ReadRecord(cur: Bytes): (r: Read)
    ensures r.Record? ==> 22 <= r.length <= |cur|
  {
    if |cur| < 10 then Torn
    else
      match ReadFields(cur[10..], cur[9])
      case Short => Torn
      case Fields(name, a, b, payload) =>
        Record(Meaning(UnLe(cur[..8]), cur[8], name, a, b, payload), 22 + |name| + |payload|)
  }

  function ReadAll(cur: Bytes): seq<RecEvent>
    decreases |cur|
  {
    match ReadRecord(cur)
    case Torn => []
    case Record(event, n) => (if event.Some? then [event.value] else []) + ReadAll(cur[n..])
  }

  /** `rec_decode_all`; `None` is the bad-magic error. */
  function Decode(buf: Bytes): Option<seq<RecEvent>> {
    if MAGIC <= buf then Some(ReadAll(buf[|MAGIC|..])) else None
  }

  function EncodeAll(evs: seq<RecEvent>): Bytes {
    if evs == [] then [] else Encode(evs[0]) + EncodeAll(evs[1..])
  }

  // ---- the layout ----

  /** Byte `i` of a number, the lowest first. */
  lemma {:induction false} LeAt(n: nat, k: nat, i: nat)
    requires i < k
    ensures Pow256(i) > 0 && Le(n, k)[i] == n / Pow256(i) % 256
    decreases k, n
  {
    PowPositive(i);
    if i > 0 {
      LeAt(n / 256, k - 1, i - 1);
      DivideTwice(n, Pow256(i - 1));
    }
  }

  lemma {:induction false} PowPositive(i: nat)
    ensures Pow256(i) > 0
  {
    if i > 0 { PowPositive(i - 1); }
  }

  lemma DivideTwice(n: nat, p: nat)
    requires p > 0
    ensures n / 256 / p == n / (256 * p)
  {
    var q := n / 256 / p;
    var r, s := n % 256, n / 256 % p;
    assert n == 256 * (p * q + s) + r;
    assert 256 * (p * q + s) == 256 * p * q + 256 * s;
    assert 0 <= 256 * s + r < 256 * p;
    QuotientIs(n, 256 * p, q, 256 * s + r);
  }

  lemma QuotientIs(n: nat, m: nat, q: nat, r: nat)
    requires 0 < m && r < m && n == m * q + r
    ensures n / m == q
  {
    var x := n / m - q;
    assert n == m * (n / m) + n % m;
    assert m * x == r - n % m;
    OnlyZero(m, x);
  }

  lemma OnlyZero(m: int, x: int)
    requires -m < m * x < m
    ensures x == 0
  {
  }

  /** The number stands at `at` of the bytes in `k` bytes, the lowest first. */
  ghost predicate NumberAt(bs: Bytes, at: nat, k: nat, n: nat) {
    at + k <= |bs| && forall i: nat :: i < k ==> Pow256(i) > 0 && bs[at + i] == n / Pow256(i) % 256
  }

  lemma LeStands(before: Bytes, n: nat, k: nat, behind: Bytes)
    ensures NumberAt(before + Le(n, k) + behind, |before|, k, n)
  {
    hide Le, Pow256;
    forall i: nat | i < k ensures Pow256(i) > 0 && (before + Le(n, k) + behind)[|before| + i] == n / Pow256(i) % 256 {
      LeAt(n, k, i);
    }
  }

  lemma FrameNumbers(f: Frame)
    requires |f.name| <= 255
    ensures var bs, at := FrameBytes(f), 10 + |f.name|;
            && NumberAt(bs, 0, 8, f.ts) && NumberAt(bs, at, 4, f.a) && NumberAt(bs, at + 4, 4, f.b)
            && NumberAt(bs, at + 8, 4, |f.payload|)
  {
    hide Le, NumberAt, Pow256;
    var ts, a, b, len := Le(f.ts, 8), Le(f.a, 4), Le(f.b, 4), Le(|f.payload|, 4);
    var mid := [f.kind] + [|f.name|] + f.name;
    var bs := FrameBytes(f);
    assert bs == [] + ts + (mid + (a + (b + (len + f.payload))));
    LeStands([], f.ts, 8, mid + (a + (b + (len + f.payload))));
    var front := ts + mid;
    assert bs == front + a + (b + (len + f.payload));
    LeStands(front, f.a, 4, b + (len + f.payload));
    assert bs == (front + a) + b + (len + f.payload);
    LeStands(front + a, f.b, 4, len + f.payload);
    assert bs == (front + a + b) + len + f.payload;
    LeStands(front + a + b, |f.payload|, 4, f.payload);
  }

  lemma FrameRest(f: Frame)
    requires |f.name| <= 255
    ensures var bs, at := FrameBytes(f), 10 + |f.name|;
            bs[8] == f.kind && bs[9] == |f.name| && bs[10..at] == f.name && bs[at + 12..] == f.payload
  {
    hide Le;
  }

  lemma CellAt(bs: Bytes, at: nat, w: nat, h: nat)
    requires at <= |bs| && bs[at..] == Le(w, 4) + Le(h, 4)
    ensures |bs| == at + 8 && NumberAt(bs, at, 4, w) && NumberAt(bs, at + 4, 4, h)
  {
    hide Le, NumberAt;
    var front := bs[..at];
    assert bs == front + Le(w, 4) + Le(h, 4) && bs == (front + Le(w, 4)) + Le(h, 4) + [];
    LeStands(front, w, 4, Le(h, 4));
    LeStands(front + Le(w, 4), h, 4, []);
  }

  /** The layout of a record: the time in eight bytes, the kind, the length of the name, the
      name, two fields and the length of what follows in four bytes each, and that - output
      itself, or the size of a cell behind the size of the grid. */
  lemma RecordLayout(ev: RecEvent)
    ensures var bs, name := Encode(ev), Clipped(ev.name);
            var at := 10 + |name|;
            && NumberAt(bs, 0, 8, ev.ts) && bs[8] == (if ev.Output? then 1 else 2)
            && bs[9] == |name| && bs[10..at] == name
            && NumberAt(bs, at, 4, if ev.Output? then 0 else ev.cols)
            && NumberAt(bs, at + 4, 4, if ev.Output? then 0 else ev.rows)
            && NumberAt(bs, at + 8, 4, if ev.Output? then |ev.data| else 8)
            && (ev.Output? ==> bs[at + 12..] == ev.data)
            && (ev.Resize? ==>
                  |bs| == at + 20 && NumberAt(bs, at + 12, 4, ev.cellW) && NumberAt(bs, at + 16, 4, ev.cellH))
  {
    hide Le, NumberAt, FrameBytes, Clipped;
    FrameNumbers(FrameOf(ev));
    FrameRest(FrameOf(ev));
    if ev.Resize? { CellAt(Encode(ev), 22 + |Clipped(ev.name)|, ev.cellW, ev.cellH); }
  }

  // ---- reading what was written ----

  lemma HeadReads(ts: nat, kind: byte, n: byte, rest: Bytes)
    requires ts < U64
    ensures var cur := Head(ts, kind, n) + rest;
            UnLe(cur[..8]) == ts && cur[8] == kind && cur[9] == n && cur[10..] == rest
  {
    var cur := Head(ts, kind, n) + rest;
    assert cur[..8] == Le(ts, 8);
    ReadU64(ts);
  }

  lemma FixedReads(f: Frame, rest: Bytes)
    requires FrameFits(f)
    ensures ReadFixed(f.name, Fixed(f.a, f.b, |f.payload|), rest)
         == if |rest| < |f.payload| then Short else Fields(f.name, f.a, f.b, rest[..|f.payload|])
  {
    var x := Fixed(f.a, f.b, |f.payload|);
    assert x[..4] == Le(f.a, 4) && x[4..8] == Le(f.b, 4) && x[8..12] == Le(|f.payload|, 4);
    ReadU32(f.a);
    ReadU32(f.b);
    ReadU32(|f.payload|);
  }

  lemma FieldsRead(name: Bytes, fixed: Bytes, rest: Bytes)
    requires |fixed| == 12
    ensures ReadFields(name + fixed + rest, |name|) == ReadFixed(name, fixed, rest)
  {
    var cur := name + fixed + rest;
    assert cur[..|name|] == name;
    assert cur[|name|..|name| + 12] == fixed;
    assert cur[|name| + 12..] == rest;
  }

  lemma MeaningIsEvent(ev: RecEvent)
    requires Fits(ev)
    ensures Meaning(ev.ts, Kind(ev), Clipped(ev.name), FieldA(ev), FieldB(ev), Payload(ev)) == Some(Clip(ev))
  {
    if ev.Resize? {
      var p := Payload(ev);
      assert p[..4] == Le(ev.cellW, 4) && p[4..] == Le(ev.cellH, 4);
      ReadU32(ev.cellW);
      ReadU32(ev.cellH);
    }
  }

  /** Behind a head that was written, only the fields decide. */
  lemma HeadedRecord(ts: nat, kind: byte, n: byte, body: Bytes)
    requires ts < U64
    ensures ReadRecord(Head(ts, kind, n) + body)
         == match ReadFields(body, n)
            case Short => Torn
            case Fields(name, a, b, payload) =>
              Record(Meaning(ts, kind, name, a, b, payload), 22 + |name| + |payload|)
  {
    HeadReads(ts, kind, n, body);
  }

  lemma Layout(head: Bytes, name: Bytes, fixed: Bytes, payload: Bytes, rest: Bytes)
    ensures (head + name + fixed + payload) + rest == head + (name + fixed + (payload + rest))
  {
  }

  lemma CutBehind(head: Bytes, body: Bytes, n: nat)
    requires |head| <= n <= |head| + |body|
    ensures (head + body)[..n] == head + body[..n - |head|]
  {
  }

  /** A whole record of any kind, followed by anything, uses up exactly its bytes. */
  lemma FrameReads(f: Frame, rest: Bytes)
    requires FrameFits(f)
    ensures ReadRecord(FrameBytes(f) + rest)
         == Record(Meaning(f.ts, f.kind, f.name, f.a, f.b, f.payload), |FrameBytes(f)|)
  {
    hide Meaning, ReadFixed;
    var head, fixed := Head(f.ts, f.kind, |f.name|), Fixed(f.a, f.b, |f.payload|);
    Layout(head, f.name, fixed, f.payload, rest);
    HeadedRecord(f.ts, f.kind, |f.name|, f.name + fixed + (f.payload + rest));
    FieldsRead(f.name, fixed, f.payload + rest);
    FixedReads(f, f.payload + rest);
    assert (f.payload + rest)[..|f.payload|] == f.payload;
  }

  /** A written event followed by anything is read back, and exactly its bytes are used. */
  lemma ReadWhole(ev: RecEvent, rest: Bytes)
    requires Fits(ev)
    ensures ReadRecord(Encode(ev) + rest) == Record(Some(Clip(ev)), |Encode(ev)|)
  {
    hide Meaning, FrameBytes, ReadRecord;
    FrameReads(FrameOf(ev), rest);
    MeaningIsEvent(ev);
  }

  /** Records of kinds this program does not know are passed over by their length. */
  lemma UnknownIsSkipped(f: Frame, rest: Bytes)
    requires FrameFits(f) && f.kind != 1 && (f.kind == 2 ==> |f.payload| != 8)
    ensures ReadAll(FrameBytes(f) + rest) == ReadAll(rest)
  {
    hide FrameBytes, ReadRecord;
    FrameReads(f, rest);
    assert (FrameBytes(f) + rest)[|FrameBytes(f)|..] == rest;
    assert [] + ReadAll(rest) == ReadAll(rest);
  }

  lemma TornFields(f: Frame, k: nat)
    requires FrameFits(f) && k < |f.name| + 12 + |f.payload|
    ensures ReadFields((f.name + Fixed(f.a, f.b, |f.payload|) + f.payload)[..k], |f.name|) == Short
  {
    if k >= |f.name| + 12 {
      var fixed, rest := Fixed(f.a, f.b, |f.payload|), f.payload[..k - |f.name| - 12];
      CutBehind(f.name + fixed, f.payload, k);
      FieldsRead(f.name, fixed, rest);
      FixedReads(f, rest);
    }
  }

  /** No proper front part of a record is taken for a record. */
  lemma FrameTorn(f: Frame, n: nat)
    requires FrameFits(f) && n < |FrameBytes(f)|
    ensures ReadRecord(FrameBytes(f)[..n]) == Torn
  {
    if n >= 10 {
      var head, fixed := Head(f.ts, f.kind, |f.name|), Fixed(f.a, f.b, |f.payload|);
      var body := f.name + fixed + f.payload;
      assert FrameBytes(f) == head + body;
      CutBehind(head, body, n);
      HeadedRecord(f.ts, f.kind, |f.name|, body[..n - 10]);
      TornFields(f, n - 10);
    }
  }

  lemma ReadTorn(ev: RecEvent, n: nat)
    requires Fits(ev) && n < |Encode(ev)|
    ensures ReadRecord(Encode(ev)[..n]) == Torn
  {
    hide FrameBytes, ReadRecord;
    FrameTorn(FrameOf(ev), n);
  }

  // ---- whole recordings ----

  /** How many of the events lie wholly within the first `n` bytes. */
  function Whole(evs: seq<RecEvent>, n: nat): (k: nat)
    ensures k <= |evs|
    decreases |evs|
  {
    if evs == [] || n < |Encode(evs[0])| then 0 else 1 + Whole(evs[1..], n - |Encode(evs[0])|)
  }

  function ClipAll(evs: seq<RecEvent>): (r: seq<RecEvent>)
    ensures |r| == |evs| && forall i :: 0 <= i < |evs| ==> r[i] == Clip(evs[i])
  {
    if evs == [] then [] else [Clip(evs[0])] + ClipAll(evs[1..])
  }

  ghost predicate AllFit(evs: seq<RecEvent>) { forall i :: 0 <= i < |evs| ==> Fits(evs[i]) }

  lemma ReadAllTorn(ev: RecEvent, rest: Bytes, n: nat)
    requires Fits(ev) && n < |Encode(ev)|
    ensures ReadAll((Encode(ev) + rest)[..n]) == []
  {
    var code := Encode(ev);
    assert (code + rest)[..n] == code[..n];
    ReadTorn(ev, n);
  }

  lemma ReadAllNext(ev: RecEvent, rest: Bytes)
    requires Fits(ev)
    ensures ReadAll(Encode(ev) + rest) == [Clip(ev)] + ReadAll(rest)
  {
    var code := Encode(ev);
    assert (code + rest)[|code|..] == rest;
    ReadWhole(ev, rest);
  }

  lemma AllFitRest(evs: seq<RecEvent>)
    requires AllFit(evs) && evs != []
    ensures Fits(evs[0]) && AllFit(evs[1..])
  {
  }

  lemma ReadAllBehind(ev: RecEvent, rest: Bytes, n: nat)
    requires Fits(ev) && |Encode(ev)| <= n <= |Encode(ev)| + |rest|
    ensures ReadAll((Encode(ev) + rest)[..n]) == [Clip(ev)] + ReadAll(rest[..n - |Encode(ev)|])
  {
    hide Encode, Fits, ReadAll;
    CutBehind(Encode(ev), rest, n);
    ReadAllNext(ev, rest[..n - |Encode(ev)|]);
  }

  lemma {:induction false} ReadAllPrefix(evs: seq<RecEvent>, n: nat)
    requires AllFit(evs) && n <= |EncodeAll(evs)|
    ensures ReadAll(EncodeAll(evs)[..n]) == ClipAll(evs[..Whole(evs, n)])
    decreases |evs|
  {
    hide Encode, Clip, Fits, AllFit, EncodeAll, Whole, ReadAll, ClipAll;
    NothingRead();
    WholeNext(evs, n);
    if evs == [] {
      assert evs[..0] == [];
    } else {
      var first, rest := Encode(evs[0]), EncodeAll(evs[1..]);
      AllFitRest(evs);
      if n < |first| {
        assert evs[..0] == [];
        ReadAllTorn(evs[0], rest, n);
      } else {
        var m := n - |first|;
        var k := Whole(evs[1..], m);
        ReadAllPrefix(evs[1..], m);
        ReadAllBehind(evs[0], rest, n);
        TakeCons(evs, k);
        ClipAllCons(evs[0], evs[1..][..k]);
      }
    }
  }

  lemma TakeCons(evs: seq<RecEvent>, k: nat)
    requires k < |evs|
    ensures evs[..k + 1] == [evs[0]] + evs[1..][..k]
  {
  }

  lemma NothingRead()
    ensures ReadAll([]) == [] && ClipAll([]) == []
  {
  }

  lemma WholeNext(evs: seq<RecEvent>, n: nat)
    ensures evs == [] ==> EncodeAll(evs) == [] && Whole(evs, n) == 0
    ensures evs != [] ==> EncodeAll(evs) == Encode(evs[0]) + EncodeAll(evs[1..])
    ensures evs != [] && n < |Encode(evs[0])| ==> Whole(evs, n) == 0
    ensures evs != [] && n >= |Encode(evs[0])| ==> Whole(evs, n) == 1 + Whole(evs[1..], n - |Encode(evs[0])|)
  {
    hide Encode;
  }

  lemma ClipAllCons(ev: RecEvent, evs: seq<RecEvent>)
    ensures ClipAll([ev] + evs) == [Clip(ev)] + ClipAll(evs)
  {
    assert ([ev] + evs)[1..] == evs;
  }

  lemma DecodeBehindMagic(rest: Bytes)
    ensures Decode(MAGIC + rest) == Some(ReadAll(rest))
  {
    assert (MAGIC + rest)[|MAGIC|..] == rest;
  }

  /** Cut a recording anywhere behind its magic: what decodes is the longest run of
      events that lie wholly before the cut - nothing more, nothing less. */
  lemma DecodePrefix(evs: seq<RecEvent>, n: nat)
    requires AllFit(evs) && n <= |EncodeAll(evs)|
    ensures Decode((MAGIC + EncodeAll(evs))[..|MAGIC| + n]) == Some(ClipAll(evs[..Whole(evs, n)]))
  {
    var rest := EncodeAll(evs);
    CutBehind(MAGIC, rest, |MAGIC| + n);
    DecodeBehindMagic(rest[..n]);
    ReadAllPrefix(evs, n);
  }

  lemma {:induction false} WholeOfAll(evs: seq<RecEvent>)
    ensures Whole(evs, |EncodeAll(evs)|) == |evs|
    decreases |evs|
  {
    if evs != [] {
      WholeOfAll(evs[1..]);
    }
  }

  lemma ReadAllWhole(evs: seq<RecEvent>)
    requires AllFit(evs)
    ensures ReadAll(EncodeAll(evs)) == ClipAll(evs)
  {
    var all := EncodeAll(evs);
    ReadAllPrefix(evs, |all|);
    WholeOfAll(evs);
    assert all[..|all|] == all && evs[..|evs|] == evs;
  }

  predicate ShortNames(evs: seq<RecEvent>) { forall i :: 0 <= i < |evs| ==> |evs[i].name| <= 255 }

  lemma ClipAllSame(evs: seq<RecEvent>)
    ensures ClipAll(evs) == evs <==> ShortNames(evs)
  {
    if ClipAll(evs) == evs {
      forall i | 0 <= i < |evs| ensures |evs[i].name| <= 255 {
        assert Clip(evs[i]) == evs[i];
      }
    }
  }

  /** A full recording comes back as it was exactly when no name is over 255 bytes. */
  lemma RoundTripIff(evs: seq<RecEvent>)
    requires AllFit(evs)
    ensures Decode(MAGIC + EncodeAll(evs)) == Some(evs) <==> ShortNames(evs)
  {
    DecodeBehindMagic(EncodeAll(evs));
    ReadAllWhole(evs);
    ClipAllSame(evs);
  }

  // ---- compaction ----

  function Sizes(evs: seq<RecEvent>): (r: seq<nat>)
    ensures |r| == |evs|
  {
    if evs == [] then [] else Sizes(evs[..|evs| - 1]) + [|Encode(evs[|evs| - 1])|]
  }

  /** The newest `k` sizes together. */
  function Newest(sizes: seq<nat>, k: nat): nat
    requires k <= |sizes|
  {
    if k == 0 then 0 else Newest(sizes[..|sizes| - 1], k - 1) + sizes[|sizes| - 1]
  }

  /** Counting back from the newest: how many records are kept; the very newest
      always is. */
  function KeepCount(sizes: seq<nat>, budget: nat, some: bool): (k: nat)
    ensures k <= |sizes|
  {
    if sizes == [] then 0
    else
      var size := sizes[|sizes| - 1];
      if size > budget && some then 0
      else 1 + KeepCount(sizes[..|sizes| - 1], if size > budget then 0 else budget - size, true)
  }

  function Budget(cap: nat): nat { if cap < |MAGIC| then 0 else cap - |MAGIC| }

  function NewestOf(evs: seq<RecEvent>, k: nat): seq<RecEvent>
    requires k <= |evs|
  {
    evs[|evs| - k..]
  }

  function Kept(evs: seq<RecEvent>, cap: nat): seq<RecEvent> {
    NewestOf(evs, KeepCount(Sizes(evs), Budget(cap), false))
  }

  function Compacted(buf: Bytes, cap: nat): Bytes {
    if |buf| <= cap then buf
    else
      match Decode(buf)
      case None => buf
      case Some(evs) => MAGIC + EncodeAll(Kept(evs, cap))
  }

  /** Beyond the first record, counting back stops exactly where the budget does. */
  lemma {:induction false} KeepCountFits(sizes: seq<nat>, budget: nat)
    ensures var k := KeepCount(sizes, budget, true);
            Newest(sizes, k) <= budget && (k < |sizes| ==> Newest(sizes, k + 1) > budget)
    decreases |sizes|
  {
    if sizes != [] {
      var init, size := sizes[..|sizes| - 1], sizes[|sizes| - 1];
      if size <= budget {
        KeepCountFits(init, budget - size);
      } else {
        assert Newest(init, 0) == 0;
      }
    }
  }

  /** The longest run of newest records within the budget, or the newest alone. */
  lemma KeepCountIs(sizes: seq<nat>, budget: nat)
    requires forall i :: 0 <= i < |sizes| ==> 0 < sizes[i]
    ensures var k := KeepCount(sizes, budget, false);
            && (sizes != [] ==> 1 <= k)
            && (1 <= k ==> 0 < Newest(sizes, k))
            && (Newest(sizes, k) <= budget || k == 1)
            && (k < |sizes| ==> Newest(sizes, k + 1) > budget)
  {
    KeepCountFits(sizes, budget);
    if sizes != [] {
      var init, size := sizes[..|sizes| - 1], sizes[|sizes| - 1];
      if size > budget {
        assert KeepCount(init, 0, true) == 0;
        assert |sizes| > 1 ==> Newest(sizes, 2) == Newest(init, 1) + size;
      }
    }
  }

  lemma {:induction false} SizesAt(evs: seq<RecEvent>, i: nat)
    requires i < |evs|
    ensures Sizes(evs)[i] == |Encode(evs[i])|
  {
    hide Encode;
    if i < |evs| - 1 {
      SizesAt(evs[..|evs| - 1], i);
    }
  }

  lemma {:induction false} EncodeAllSnoc(evs: seq<RecEvent>, ev: RecEvent)
    ensures EncodeAll(evs + [ev]) == EncodeAll(evs) + Encode(ev)
    decreases |evs|
  {
    hide Encode;
    var code := Encode(ev);
    if evs == [] {
      assert [] + [ev] == [ev] && [ev][1..] == [];
      assert code + [] == code;
    } else {
      assert (evs + [ev])[1..] == evs[1..] + [ev];
      EncodeAllSnoc(evs[1..], ev);
      Regroup(Encode(evs[0]), EncodeAll(evs[1..]), code);
    }
  }

  lemma NewestSnoc(evs: seq<RecEvent>, k: nat)
    requires 0 < k <= |evs|
    ensures NewestOf(evs, k) == NewestOf(evs[..|evs| - 1], k - 1) + [evs[|evs| - 1]]
  {
  }

  lemma EncodeNone(evs: seq<RecEvent>)
    ensures EncodeAll(NewestOf(evs, 0)) == []
  {
  }

  lemma NewestSize(evs: seq<RecEvent>, k: nat)
    requires 0 < k <= |evs|
    ensures var init, last := evs[..|evs| - 1], evs[|evs| - 1];
            && Newest(Sizes(evs), k) == Newest(Sizes(init), k - 1) + |Encode(last)|
            && |EncodeAll(NewestOf(evs, k))| == |EncodeAll(NewestOf(init, k - 1))| + |Encode(last)|
  {
    hide Encode, EncodeAll, NewestOf;
    var init, last := evs[..|evs| - 1], evs[|evs| - 1];
    NewestSnoc(evs, k);
    EncodeAllSnoc(NewestOf(init, k - 1), last);
    assert Sizes(evs)[..|evs| - 1] == Sizes(init);
  }

  lemma {:induction false} EncodeAllSize(evs: seq<RecEvent>, k: nat)
    requires k <= |evs|
    ensures |EncodeAll(NewestOf(evs, k))| == Newest(Sizes(evs), k)
    decreases k
  {
    hide Encode, EncodeAll, NewestOf, Sizes;
    if k == 0 {
      EncodeNone(evs);
    } else {
      EncodeAllSize(evs[..|evs| - 1], k - 1);
      NewestSize(evs, k);
    }
  }

  /** Whatever a decoder gets out of any bytes can be written again unchanged. */
  lemma ReadFits(cur: Bytes)
    requires ReadRecord(cur).Record? && ReadRecord(cur).event.Some?
    ensures Fits(ReadRecord(cur).event.value) && |ReadRecord(cur).event.value.name| <= 255
  {
    Widths();
    var rest, nlen := cur[10..], cur[9];
    var fixed := rest[nlen..nlen + 12];
    UnLeBound(cur[..8]);
    UnLeBound(fixed[..4]);
    UnLeBound(fixed[4..8]);
    UnLeBound(fixed[8..12]);
    var payload := ReadFields(rest, nlen).payload;
    if |payload| == 8 {
      UnLeBound(payload[..4]);
      UnLeBound(payload[4..]);
    }
  }

  lemma {:induction false} ReadAllFits(cur: Bytes)
    ensures AllFit(ReadAll(cur)) && ShortNames(ReadAll(cur))
    decreases |cur|
  {
    var r := ReadRecord(cur);
    if r.Record? {
      ReadAllFits(cur[r.length..]);
      if r.event.Some? {
        ReadFits(cur);
      }
    }
  }

  lemma KeptIs(evs: seq<RecEvent>, cap: nat)
    ensures var k := KeepCount(Sizes(evs), Budget(cap), false);
            && (evs != [] ==> 1 <= k)
            && (|MAGIC| + |EncodeAll(Kept(evs, cap))| <= cap || k <= 1)
            && (k < |evs| ==> |MAGIC| + |EncodeAll(NewestOf(evs, k + 1))| > cap)
  {
    hide Encode, EncodeAll, Sizes, KeepCount, Newest;
    var sizes := Sizes(evs);
    var k := KeepCount(sizes, Budget(cap), false);
    forall i | 0 <= i < |sizes| ensures 0 < sizes[i] {
      SizesAt(evs, i);
    }
    KeepCountIs(sizes, Budget(cap));
    EncodeAllSize(evs, k);
    if k < |evs| {
      EncodeAllSize(evs, k + 1);
    }
  }

  lemma KeptDecodes(evs: seq<RecEvent>, cap: nat)
    requires AllFit(evs) && ShortNames(evs)
    ensures Decode(MAGIC + EncodeAll(Kept(evs, cap))) == Some(Kept(evs, cap))
  {
    RoundTripIff(Kept(evs, cap));
  }

  lemma DecodedFits(buf: Bytes)
    requires Decode(buf).Some?
    ensures AllFit(Decode(buf).value) && ShortNames(Decode(buf).value)
  {
    ReadAllFits(buf[|MAGIC|..]);
  }

  /** Compacting an over-cap recording keeps the longest suffix of its events that fits
      the cap; when not even the newest event fits, it keeps that one. */
  lemma CompactedKeepsNewest(buf: Bytes, cap: nat)
    requires |buf| > cap && Decode(buf).Some?
    ensures var evs := Decode(buf).value;
            var k := KeepCount(Sizes(evs), Budget(cap), false);
            && Decode(Compacted(buf, cap)) == Some(NewestOf(evs, k))
            && (evs != [] ==> 1 <= k)
            && (|Compacted(buf, cap)| <= cap || k <= 1)
            && (k < |evs| ==> |MAGIC| + |EncodeAll(NewestOf(evs, k + 1))| > cap)
  {
    hide Encode, EncodeAll, Sizes, KeepCount, Newest, ReadAll, ShortNames, AllFit, Decode;
    assert |MAGIC| == 9;
    var evs := Decode(buf).value;
    DecodedFits(buf);
    KeptIs(evs, cap);
    KeptDecodes(evs, cap);
  }

  lemma KeptAgain(evs: seq<RecEvent>, cap: nat)
    requires |Kept(evs, cap)| <= 1
    ensures Kept(Kept(evs, cap), cap) == Kept(evs, cap)
  {
  }

  /** Compacting twice is compacting once. */
  lemma CompactedIdempotent(buf: Bytes, cap: nat)
    ensures Compacted(Compacted(buf, cap), cap) == Compacted(buf, cap)
  {
    if |buf| > cap && Decode(buf).Some? {
      var evs, out := Decode(buf).value, Compacted(buf, cap);
      DecodedFits(buf);
      KeptIs(evs, cap);
      if |out| > cap {
        KeptDecodes(evs, cap);
        KeptAgain(evs, cap);
      }
    }
  }

  // ---- the loops ----

  /** `rec_decode_all`. */
  method DecodeAll(buf: Bytes) returns (r: Option<seq<RecEvent>>)
    ensures r == Decode(buf)
  {
    if !(MAGIC <= buf) { return None; }
    var evs: seq<RecEvent> := [];
    var cur := buf[|MAGIC|..];
    ghost var all := ReadAll(cur);
    assert evs + all == all;
    while true
      invariant evs + ReadAll(cur) == all
      decreases |cur|
    {
      ReadAllUnfold(evs, cur, all);
      var r := ReadRecord(cur);
      if r.Torn? { return Some(evs); }
      evs := evs + (if r.event.Some? then [r.event.value] else []);
      cur := cur[r.length..];
    }
  }

  lemma ReadAllUnfold(evs: seq<RecEvent>, cur: Bytes, all: seq<RecEvent>)
    requires evs + ReadAll(cur) == all
    ensures var r := ReadRecord(cur);
            (r.Torn? ==> evs == all)
            && (r.Record? ==> (evs + (if r.event.Some? then [r.event.value] else [])) + ReadAll(cur[r.length..]) == all)
  {
    var r := ReadRecord(cur);
    if r.Record? {
      var more, rest := if r.event.Some? then [r.event.value] else [], ReadAll(cur[r.length..]);
      assert (evs + more) + rest == evs + (more + rest);
    }
  }

  /** `rec_compact`: collects from the newest back, then writes in order. */
  method Compact(buf: Bytes, cap: nat) returns (out: Bytes)
    ensures out == Compacted(buf, cap)
  {
    hide Encode, EncodeAll, Decode, Sizes, KeepCount;
    if |buf| <= cap { return buf; }
    var decoded := DecodeAll(buf);
    if decoded.None? { return buf; }
    var evs := decoded.value;
    var i := CountBack(evs, Budget(cap));
    var body := WriteAll(evs[i..]);
    return MAGIC + body;
  }

  lemma KeepCountStep(sizes: seq<nat>, i: nat, budget: nat, some: bool)
    requires 0 < i <= |sizes|
    ensures KeepCount(sizes[..i], budget, some)
         == if sizes[i - 1] > budget && some then 0
            else 1 + KeepCount(sizes[..i - 1], if sizes[i - 1] > budget then 0 else budget - sizes[i - 1], true)
  {
    assert sizes[..i][..i - 1] == sizes[..i - 1];
  }

  /** The index of the oldest event that is kept. */
  method CountBack(evs: seq<RecEvent>, limit: nat) returns (i: nat)
    ensures i == |evs| - KeepCount(Sizes(evs), limit, false)
  {
    hide Encode, Sizes, KeepCount;
    ghost var sizes := Sizes(evs);
    var budget: nat := limit;
    i := |evs|;
    assert sizes[..|evs|] == sizes;
    while i > 0
      invariant i <= |evs|
      invariant KeepCount(sizes, limit, false) == |evs| - i + KeepCount(sizes[..i], budget, i < |evs|)
      decreases i
    {
      var size: nat := |Encode(evs[i - 1])|;
      SizesAt(evs, i - 1);
      KeepCountStep(sizes, i, budget, i < |evs|);
      if size > budget && i < |evs| { break; }
      budget := if size > budget then 0 else budget - size;
      i := i - 1;
    }
    assert i == 0 ==> sizes[..i] == [];
  }

  method WriteAll(kept: seq<RecEvent>) returns (out: Bytes)
    ensures out == EncodeAll(kept)
  {
    out := [];
    EncodeNone(kept);
    assert kept[..0] == NewestOf(kept, 0);
    hide Encode, EncodeAll, NewestOf;
    var j := 0;
    while j < |kept|
      invariant j <= |kept|
      invariant out == EncodeAll(kept[..j])
    {
      EncodeAllSnoc(kept[..j], kept[j]);
      TakeSnoc(kept, j);
      var code := Encode(kept[j]);
      out := out + code;
      j := j + 1;
    }
    assert kept[..|kept|] == kept;
  }

  lemma TakeSnoc(evs: seq<RecEvent>, j: nat)
    requires j < |evs|
    ensures evs[..j + 1] == evs[..j] + [evs[j]]
  {
  }
}
