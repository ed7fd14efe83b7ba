/** The queue of keys typed while offline and its write-ahead log
    (`src/offline_keys.rs`).  A `string` stands for bytes. */
module OfflineKeys {
  import opened Text

  const CAP_BYTES: nat := 64 * 1024

  type Byte = c: char | c as int < 256

  // ---- texts ----

  predicate Continues(c: char) { 0x80 <= c as int <= 0xBF }

  /** The bytes behind the first: the second within bounds, then `n - 2` continuing ones. */
  predicate Follow(s: string, n: nat, lo: nat, hi: nat) {
    && |s| >= n >= 2 && lo <= s[1] as int <= hi
    && (n >= 3 ==> Continues(s[2])) && (n >= 4 ==> Continues(s[3]))
  }

  /** The length of the character that stands first, or 0 if none does: the well-formed
      byte sequences of the Unicode Standard, table 3-7. */
  function CharLen(s: string): (n: nat)
    requires s != ""
    ensures n <= |s|
  {
    var c := s[0] as int;
    if c < 0x80 then 1
    else if 0xC2 <= c <= 0xDF && Follow(s, 2, 0x80, 0xBF) then 2
    else if c == 0xE0 && Follow(s, 3, 0xA0, 0xBF) then 3
    else if c == 0xED && Follow(s, 3, 0x80, 0x9F) then 3
    else if 0xE1 <= c <= 0xEF && c != 0xED && Follow(s, 3, 0x80, 0xBF) then 3
    else if c == 0xF0 && Follow(s, 4, 0x90, 0xBF) then 4
    else if 0xF1 <= c <= 0xF3 && Follow(s, 4, 0x80, 0xBF) then 4
    else if c == 0xF4 && Follow(s, 4, 0x80, 0x8F) then 4
    else 0
  }

  /** The bytes are a text. */
  predicate Utf8(s: string)
    decreases |s|
  {
    s == "" || (CharLen(s) > 0 && Utf8(s[CharLen(s)..]))
  }

  // ---- texts as characters ----

  /** A character that a text can hold. */
  predicate Scalar(n: nat) { n < 0xD800 || 0xE000 <= n < 0x110000 }

  /** The bytes of a character: six bits to each byte behind the first. */
  function Encoded(n: nat): (s: string)
    requires Scalar(n)
    ensures 1 <= |s| <= 4
  {
    if n < 0x80 then [n as char]
    else if n < 0x800 then [(0xC0 + n / 64) as char, Six(n)]
    else if n < 0x10000 then [(0xE0 + n / 4096) as char, Six(n / 64), Six(n)]
    else [(0xF0 + n / 262144) as char, Six(n / 4096), Six(n / 64), Six(n)]
  }

  function Six(n: nat): char { (0x80 + n % 64) as char }

  predicate Scalars(ns: seq<nat>) { forall i :: 0 <= i < |ns| ==> Scalar(ns[i]) }

  function EncodedAll(ns: seq<nat>): string
    requires Scalars(ns)
  {
    if ns == [] then "" else Encoded(ns[0]) + EncodedAll(ns[1..])
  }

  /** An encoded character is read as one, of its length. */
  lemma EncodedLen(n: nat, rest: string)
    requires Scalar(n)
    ensures CharLen(Encoded(n) + rest) == |Encoded(n)|
  {
    var s := Encoded(n) + rest;
    assert s[..|Encoded(n)|] == Encoded(n);
    if 0x800 <= n < 0x10000 {
      ThreeBytes(n);
    } else if n >= 0x10000 {
      FourBytes(n);
    }
  }

  lemma ThreeBytes(n: nat)
    requires Scalar(n) && 0x800 <= n < 0x10000
    ensures var a, b := n / 4096, n / 64 % 64;
            a < 16 && (a == 0 ==> b >= 0x20) && (a == 0xD ==> b < 0x20)
  {
    var m := n / 64;
    assert 0x20 <= m < 0x400;
    assert 4096 * (m / 64) <= n < 4096 * (m / 64) + 4096;
  }

  lemma FourBytes(n: nat)
    requires 0x10000 <= n < 0x110000
    ensures var a, b := n / 262144, n / 4096 % 64; a <= 4 && (a == 0 ==> b >= 0x10) && (a == 4 ==> b < 0x10)
  {
    var l := n / 4096;
    assert 0x10 <= l < 0x110;
    assert 262144 * (l / 64) <= n < 262144 * (l / 64) + 262144;
  }

  lemma TwoRead(c: nat, d: nat) returns (n: nat)
    requires 0xC2 <= c <= 0xDF && 0x80 <= d <= 0xBF
    ensures Scalar(n) && Encoded(n) == [c as char, d as char]
  {
    n := (c - 0xC0) * 64 + (d - 0x80);
    assert n / 64 == c - 0xC0 && n % 64 == d - 0x80;
  }

  lemma ThreeRead(c: nat, d: nat, e: nat) returns (n: nat)
    requires 0xE0 <= c <= 0xEF && 0x80 <= d <= 0xBF && 0x80 <= e <= 0xBF
    requires (c == 0xE0 ==> d >= 0xA0) && (c == 0xED ==> d <= 0x9F)
    ensures Scalar(n) && Encoded(n) == [c as char, d as char, e as char]
  {
    var m := (c - 0xE0) * 64 + (d - 0x80);
    n := m * 64 + (e - 0x80);
    assert n / 64 == m && n % 64 == e - 0x80;
    assert m / 64 == c - 0xE0 && m % 64 == d - 0x80;
    assert n / 4096 == m / 64;
  }

  lemma FourRead(c: nat, d: nat, e: nat, f: nat) returns (n: nat)
    requires 0xF0 <= c <= 0xF4 && 0x80 <= d <= 0xBF && 0x80 <= e <= 0xBF && 0x80 <= f <= 0xBF
    requires (c == 0xF0 ==> d >= 0x90) && (c == 0xF4 ==> d <= 0x8F)
    ensures Scalar(n) && Encoded(n) == [c as char, d as char, e as char, f as char]
  {
    var l := (c - 0xF0) * 64 + (d - 0x80);
    var m := l * 64 + (e - 0x80);
    n := m * 64 + (f - 0x80);
    assert n / 64 == m && n % 64 == f - 0x80;
    assert m / 64 == l && m % 64 == e - 0x80;
    assert l / 64 == c - 0xF0 && l % 64 == d - 0x80;
    assert n / 4096 == m / 64 && n / 262144 == l / 64;
  }

  /** What stands first is an encoded character. */
  lemma LenIsEncoded(s: string) returns (n: nat)
    requires s != "" && CharLen(s) > 0
    ensures Scalar(n) && Encoded(n) == s[..CharLen(s)]
  {
    var c, len := s[0] as int, CharLen(s);
    if len == 1 {
      n := c;
    } else if len == 2 {
      n := TwoRead(c, s[1] as int);
      assert s[..2] == [s[0], s[1]];
    } else if len == 3 {
      n := ThreeRead(c, s[1] as int, s[2] as int);
      assert s[..3] == [s[0], s[1], s[2]];
    } else {
      n := FourRead(c, s[1] as int, s[2] as int, s[3] as int);
      assert s[..4] == [s[0], s[1], s[2], s[3]];
    }
    hide Encoded;
  }

  lemma {:induction false} EncodedIsText(ns: seq<nat>)
    requires Scalars(ns)
    ensures Utf8(EncodedAll(ns))
    decreases |ns|
  {
    hide CharLen, Encoded;
    if ns != [] {
      var s, rest := EncodedAll(ns), EncodedAll(ns[1..]);
      EncodedIsText(ns[1..]);
      EncodedLen(ns[0], rest);
      assert s[|Encoded(ns[0])|..] == rest;
    }
  }

  lemma {:induction false} TextIsEncoded(s: string) returns (ns: seq<nat>)
    requires Utf8(s)
    ensures Scalars(ns) && EncodedAll(ns) == s
    decreases |s|
  {
    hide CharLen, Encoded;
    if s == "" {
      ns := [];
    } else {
      var k := CharLen(s);
      var n := LenIsEncoded(s);
      var more := TextIsEncoded(s[k..]);
      ns := [n] + more;
      assert s == s[..k] + s[k..];
    }
  }

  /** The bytes are a text if and only if they are the encoding of some characters. */
  lemma Utf8Iff(s: string)
    ensures Utf8(s) <==> exists ns: seq<nat> :: Scalars(ns) && EncodedAll(ns) == s
  {
    hide Utf8, EncodedAll;
    if Utf8(s) { var ns := TextIsEncoded(s); }
    if ns: seq<nat> :| Scalars(ns) && EncodedAll(ns) == s { EncodedIsText(ns); }
  }

  lemma CharLenAppend(a: string, b: string)
    requires a != "" && Utf8(b)
    ensures CharLen(a + b) == CharLen(a)
  {
    assert b != "" ==> !Continues(b[0]);
    if b == "" {
      assert a + b == a;
    }
  }

  /** A text behind some bytes makes them no better and no worse. */
  lemma {:induction false} Utf8Append(a: string, b: string)
    requires Utf8(b)
    ensures Utf8(a + b) <==> Utf8(a)
    decreases |a|
  {
    hide CharLen;
    if a == "" {
      assert a + b == b;
    } else {
      CharLenAppend(a, b);
      var n := CharLen(a);
      if n > 0 {
        assert (a + b)[n..] == a[n..] + b;
        Utf8Append(a[n..], b);
      }
    }
  }

  lemma {:induction false} AsciiIsUtf8(s: string)
    requires forall i :: 0 <= i < |s| ==> s[i] as int < 0x80
    ensures Utf8(s)
  {
    if s != "" {
      AsciiIsUtf8(s[1..]);
    }
  }

  /** One input: a text. */
  type Key = s: seq<Byte> | Utf8(s)

  // ---- hex lines ----

  /** `hex_enc`. */
  function HexEnc(s: seq<Byte>): (r: string)
    ensures |r| == 2 * |s|
    ensures forall i :: 0 <= i < |r| ==> '0' <= r[i] <= '9' || 'a' <= r[i] <= 'f'
  {
    if s == "" then ""
    else [DigitChar(s[0] as int / 16), DigitChar(s[0] as int % 16)] + HexEnc(s[1..])
  }

  function HexBytes(s: string): Option<seq<Byte>> {
    if s == "" then Some("")
    else if |s| == 1 then None
    else
      var hi, lo, rest := DigitOf(s[0], 16), DigitOf(s[1], 16), HexBytes(s[2..]);
      if hi.None? || lo.None? || rest.None? then None
      else Some([(hi.value * 16 + lo.value) as char] + rest.value)
  }

  /** `hex_dec`: pairs of digits, and the bytes are a text. */
  function HexDec(s: string): Option<Key> {
    var r := HexBytes(s);
    if r.Some? && Utf8(r.value) then Some(r.value) else None
  }

  lemma {:induction false} BytesRoundTrip(s: seq<Byte>)
    ensures HexBytes(HexEnc(s)) == Some(s)
  {
    if s != "" {
      BytesRoundTrip(s[1..]);
      assert HexEnc(s)[2..] == HexEnc(s[1..]);
      assert s[0] as int / 16 * 16 + s[0] as int % 16 == s[0] as int;
      assert s == [s[0]] + s[1..];
    }
  }

  /** An encoded line gives back its bytes if they are a text, and nothing if not. */
  lemma HexRoundTrip(s: seq<Byte>)
    ensures HexDec(HexEnc(s)) == if Utf8(s) then Some(s) else None
  {
    hide HexEnc, HexBytes, Utf8;
    BytesRoundTrip(s);
  }

  lemma {:induction false} HexBytesOdd(s: string)
    requires |s| % 2 == 1
    ensures HexBytes(s) == None
  {
    if |s| > 1 {
      HexBytesOdd(s[2..]);
    }
  }

  lemma {:induction false} HexBytesAppend(a: string, b: string)
    requires |a| % 2 == 0
    ensures HexBytes(a + b)
         == if HexBytes(a).Some? && HexBytes(b).Some? then Some(HexBytes(a).value + HexBytes(b).value) else None
  {
    if a == "" {
      assert a + b == b;
      assert HexBytes(b).Some? ==> "" + HexBytes(b).value == HexBytes(b).value;
    } else {
      HexBytesAppend(a[2..], b);
      assert (a + b)[2..] == a[2..] + b && (a + b)[0] == a[0] && (a + b)[1] == a[1];
      if HexBytes(a).Some? && HexBytes(b).Some? {
        var c, rest := HexBytes(a).value[0], HexBytes(a[2..]).value;
        Regroup([c], rest, HexBytes(b).value);
      }
    }
  }

  // ---- the log file ----

  /** The lines that decode; bad ones are skipped. */
  function Decoded(lines: seq<string>): seq<Key> {
    if lines == [] then []
    else
      var init, r := Decoded(lines[..|lines| - 1]), HexDec(lines[|lines| - 1]);
      if r.Some? then init + [r.value] else init
  }

  /** What a log file holds: nothing if the file is no text. */
  function Recovered(file: string): seq<Key> { if Utf8(file) then Decoded(Lines(file)) else [] }

  function Entry(s: Key): string { HexEnc(s) + "\n" }

  lemma EntryIsText(file: string, s: Key)
    ensures Utf8(file + Entry(s)) <==> Utf8(file)
  {
    hide Utf8, HexEnc;
    var line := HexEnc(s);
    assert forall i :: 0 <= i < |line| ==> line[i] as int < 0x80;
    AsciiIsUtf8(Entry(s));
    Utf8Append(file, Entry(s));
  }

  /** What `wal_rewrite` leaves in the file. */
  function Log(q: seq<Key>): string
  {
    if q == [] then "" else Log(q[..|q| - 1]) + Entry(q[|q| - 1])
  }

  /** A last line, begun by `torn` and finished by an entry. */
  lemma LinesOfEntry(torn: string, s: Key)
    requires '\n' !in torn && (torn == "" || s != "")
    ensures Lines(torn + Entry(s)) == [torn + HexEnc(s)]
  {
    hide Lines;
    var line := torn + HexEnc(s);
    assert torn + Entry(s) == line + "\n";
    LinesOfOne(line);
  }

  lemma {:induction false} DecodedAppend(a: seq<string>, b: seq<string>)
    ensures Decoded(a + b) == Decoded(a) + Decoded(b)
    decreases |b|
  {
    hide HexDec;
    if b == [] {
      assert a + b == a;
      assert Decoded(a) + [] == Decoded(a);
    } else {
      DecodedAppend(a, b[..|b| - 1]);
      assert (a + b)[..|a + b| - 1] == a + b[..|b| - 1];
    }
  }

  lemma WholeEntry(text: string, s: Key)
    ensures Whole(text + Entry(s))
  {
  }

  lemma DecodedEntry(text: string, s: Key)
    requires Whole(text)
    ensures Decoded(Lines(text + Entry(s))) == Decoded(Lines(text)) + [s]
  {
    hide Lines, Decoded, HexEnc, Whole;
    LinesOfWhole(text, Entry(s));
    LinesOfEntry("", s);
    assert "" + Entry(s) == Entry(s) && "" + HexEnc(s) == HexEnc(s);
    DecodedAppend(Lines(text), [HexEnc(s)]);
    DecodedOne(HexEnc(s));
    HexRoundTrip(s);
  }

  lemma DecodedOne(line: string)
    ensures Decoded([line]) == if HexDec(line).Some? then [HexDec(line).value] else []
  {
    assert [line][..0] == [];
    assert Decoded([]) == [];
    hide HexDec;
  }

  /** A written log decodes to what was written, after whatever stood before it. */
  lemma {:induction false} DecodedLog(text: string, q: seq<Key>)
    requires Whole(text)
    ensures Decoded(Lines(text + Log(q))) == Decoded(Lines(text)) + q && Whole(text + Log(q))
    decreases |q|
  {
    hide Lines, Decoded, Entry, Whole;
    if q == [] {
      assert text + Log(q) == text && Decoded(Lines(text)) + q == Decoded(Lines(text));
    } else {
      var init, last := q[..|q| - 1], q[|q| - 1];
      assert Log(q) == Log(init) + Entry(last) && q == init + [last];
      hide Log;
      DecodedLog(text, init);
      Regroup(text, Log(init), Entry(last));
      DecodedEntry(text + Log(init), last);
      WholeEntry(text + Log(init), last);
      Regroup(Decoded(Lines(text)), init, [last]);
    }
  }

  // ---- the queue ----

  function Total(q: seq<Key>): nat {
    if q == [] then 0 else Total(q[..|q| - 1]) + |q[|q| - 1]|
  }

  /** The longest run of newest inputs within a budget. */
  function Fit(q: seq<Key>, budget: nat): (r: seq<Key>)
    ensures |r| <= |q|
  {
    if q == [] || |q[|q| - 1]| > budget then []
    else Fit(q[..|q| - 1], budget - |q[|q| - 1]|) + [q[|q| - 1]]
  }

  /** It is a suffix that fits, and one more input would not fit. */
  lemma {:induction false} FitIsLongest(q: seq<Key>, budget: nat)
    ensures var k := |q| - |Fit(q, budget)|;
            Fit(q, budget) == q[k..] && Total(q[k..]) <= budget && (k > 0 ==> Total(q[k - 1..]) > budget)
    decreases |q|
  {
    hide Total, Utf8;
    TotalNone();
    if q != [] {
      var init, last := q[..|q| - 1], q[|q| - 1];
      if |last| <= budget {
        FitIsLongest(init, budget - |last|);
        var k := |init| - |Fit(init, budget - |last|)|;
        SuffixSnoc(q, k);
        if k > 0 {
          SuffixSnoc(q, k - 1);
        }
      } else {
        SuffixSnoc(q, |q| - 1);
      }
    }
  }

  lemma TotalNone()
    ensures Total([]) == 0
  {
  }

  lemma SuffixSnoc(q: seq<Key>, k: nat)
    requires k < |q|
    ensures var init, last := q[..|q| - 1], q[|q| - 1];
            q[k..] == init[k..] + [last] && Total(q[k..]) == Total(init[k..]) + |last|
  {
    assert q[k..][..|q| - k - 1] == q[..|q| - 1][k..];
  }

  lemma FitSnoc(q: seq<Key>, last: Key, budget: nat)
    ensures Fit(q + [last], budget) == if |last| > budget then [] else Fit(q, budget - |last|) + [last]
  {
    assert (q + [last])[..|q|] == q;
  }

  /** What was dropped does not matter to what is kept later. */
  lemma {:induction false} FitAgain(a: seq<Key>, b: seq<Key>, big: nat, budget: nat)
    requires budget <= big
    ensures Fit(Fit(a, big) + b, budget) == Fit(a + b, budget)
    decreases |a| + |b|
  {
    hide Fit, Utf8;
    if b != [] {
      var init, last := b[..|b| - 1], b[|b| - 1];
      assert Fit(a, big) + b == (Fit(a, big) + init) + [last] && a + b == (a + init) + [last];
      FitSnoc(Fit(a, big) + init, last, budget);
      FitSnoc(a + init, last, budget);
      if |last| <= budget {
        FitAgain(a, init, big, budget - |last|);
      }
    } else {
      assert Fit(a, big) + b == Fit(a, big) && a + b == a;
      FitTwice(a, big, budget);
    }
  }

  lemma {:induction false} FitTwice(a: seq<Key>, big: nat, budget: nat)
    requires budget <= big
    ensures Fit(Fit(a, big), budget) == Fit(a, budget)
    decreases |a|
  {
    hide Utf8;
    if a != [] {
      var init, last := a[..|a| - 1], a[|a| - 1];
      if |last| <= big {
        FitSnoc(Fit(init, big - |last|), last, budget);
        if |last| <= budget {
          FitTwice(init, big - |last|, budget - |last|);
        }
      }
    }
  }

  lemma FitIdle(q: seq<Key>, budget: nat)
    requires Total(q) <= budget
    ensures Fit(q, budget) == q
  {
    hide Utf8, Total, Fit;
    FitIsLongest(q, budget);
    var k := |q| - |Fit(q, budget)|;
    TotalOfSuffix(q, if k > 0 then k - 1 else 0);
    assert q[0..] == q;
  }

  lemma {:induction false} TotalAppend(a: seq<Key>, b: seq<Key>)
    ensures Total(a + b) == Total(a) + Total(b)
    decreases |b|
  {
    if b == [] {
      assert a + b == a;
    } else {
      TotalAppend(a, b[..|b| - 1]);
      assert (a + b)[..|a + b| - 1] == a + b[..|b| - 1];
    }
  }

  lemma TotalOfSuffix(q: seq<Key>, k: nat)
    requires k <= |q|
    ensures Total(q[k..]) <= Total(q)
  {
    assert q == q[..k] + q[k..];
    TotalAppend(q[..k], q[k..]);
  }

  /** Everything the log holds pushed into an empty queue. */
  function Replay(text: string): seq<Key> { Fit(Recovered(text), CAP_BYTES) }

  // ---- the queue and its file ----

  /** How writing the file goes: done, or broken off leaving some text behind. */
  datatype Io = Done | Broke(left: string)

  datatype State = State(queue: seq<Key>, dropped: nat, wal: bool, file: string)

  function AfterPush(s: State, input: Key, io: Io): State
  {
    var all := s.queue + [input];
    var q := Fit(all, CAP_BYTES);
    var s1 := s.(queue := q, dropped := s.dropped + |all| - |q|);
    if !s.wal then s1
    else
      match io
      case Broke(left) => s1.(wal := false, file := left)
      case Done => s1.(file := if |q| < |all| then Log(q) else s.file + Entry(input))
  }

  /** `drain` with the file removed. */
  function AfterDrain(s: State): State {
    s.(queue := [], file := if s.wal then "" else s.file)
  }

  /** `attach_wal`: the log is pushed through the queue, and written back unless nothing
      is pending. */
  function AfterAttach(s: State, io: Io): State {
    var all := s.queue + Recovered(s.file);
    var q := Fit(all, CAP_BYTES);
    var s1 := s.(queue := q, dropped := s.dropped + |all| - |q|, wal := true);
    if q == [] then s1
    else
      match io
      case Broke(left) => s1.(wal := false, file := left)
      case Done => s1.(file := Log(q))
  }

  /** The log will bring the queue back, now and after whatever is appended. */
  ghost predicate Restores(s: State) {
    && Total(s.queue) <= CAP_BYTES
    && (s.wal ==> Utf8(s.file) && Whole(s.file) && Replay(s.file) == s.queue)
  }

  lemma FitFits(q: seq<Key>)
    ensures Total(Fit(q, CAP_BYTES)) <= CAP_BYTES
  {
    FitIsLongest(q, CAP_BYTES);
  }

  lemma {:induction false} LogIsText(q: seq<Key>)
    ensures Utf8(Log(q))
  {
    hide Utf8, Entry;
    if q == [] {
      AsciiIsUtf8("");
    } else {
      LogIsText(q[..|q| - 1]);
      EntryIsText(Log(q[..|q| - 1]), q[|q| - 1]);
    }
  }

  lemma LogRestores(q: seq<Key>)
    requires Total(q) <= CAP_BYTES
    ensures Utf8(Log(q)) && Whole(Log(q)) && Replay(Log(q)) == q
  {
    hide Log, Whole, Fit, Decoded, Utf8;
    LogIsText(q);
    assert Whole("") && Lines("") == [] by { EmptyWhole(); }
    DecodedLog("", q);
    assert "" + Log(q) == Log(q) && [] + q == q;
    assert Decoded([]) == [] by { NothingDecoded(); }
    FitIdle(q, CAP_BYTES);
  }

  lemma EmptyWhole()
    ensures Whole("") && Lines("") == []
  {
  }

  lemma NothingDecoded()
    ensures Decoded([]) == []
  {
  }

  /** Pushing keeps the log in step, appended or rewritten. */
  lemma PushRestores(s: State, input: Key)
    requires Restores(s)
    ensures Restores(AfterPush(s, input, Done))
  {
    hide Log, Whole, Fit, Decoded, Lines, HexEnc, Total, Utf8;
    var all := s.queue + [input];
    FitFits(all);
    if s.wal {
      if |Fit(all, CAP_BYTES)| < |all| {
        LogRestores(Fit(all, CAP_BYTES));
      } else {
        EntryIsText(s.file, input);
        DecodedEntry(s.file, input);
        WholeEntry(s.file, input);
        FitAgain(Decoded(Lines(s.file)), [input], CAP_BYTES, CAP_BYTES);
      }
    }
  }

  lemma DrainRestores(s: State)
    requires Restores(s)
    ensures Restores(AfterDrain(s))
  {
    EmptyWhole();
    NothingDecoded();
    TotalNone();
  }

  /** Attaching to a file puts queue and log in step exactly when the file is a text that
      does not end in an open line, or something is pending after the read. */
  lemma AttachRestoresIff(s: State)
    requires Total(s.queue) <= CAP_BYTES
    ensures Restores(AfterAttach(s, Done))
       <==> (Utf8(s.file) && Whole(s.file)) || AfterAttach(s, Done).queue != []
  {
    hide Log, Whole, Fit, Decoded, Lines, Total, Utf8;
    var saved := Recovered(s.file);
    var all := s.queue + saved;
    FitFits(all);
    if Fit(all, CAP_BYTES) == [] {
      TailEmpty(s.queue, saved);
    } else {
      LogRestores(Fit(all, CAP_BYTES));
    }
  }

  lemma {:induction false} TailEmpty(a: seq<Key>, b: seq<Key>)
    requires Fit(a + b, CAP_BYTES) == []
    ensures Fit(b, CAP_BYTES) == []
  {
    if b != [] {
      assert (a + b)[|a + b| - 1] == b[|b| - 1];
    }
  }

  // ---- a torn line ----

  /** The text up to the last line feed, and the open line behind it. */
  lemma {:induction false} SplitTorn(text: string) returns (whole: string, torn: string)
    ensures text == whole + torn && Whole(whole) && '\n' !in torn
    ensures Whole(text) <==> torn == ""
    decreases |text|
  {
    if Whole(text) {
      whole, torn := text, "";
    } else {
      whole, torn := SplitTorn(text[..|text| - 1]);
      torn := torn + [text[|text| - 1]];
    }
  }

  lemma LinesOfTorn(torn: string)
    requires torn != "" && '\n' !in torn
    ensures Lines(torn) == [torn]
  {
    FindIs(torn, '\n', |torn|);
  }

  /** Nothing is recovered from a file with an open last line - then the next input is
      written behind it and is lost. */
  lemma TornLineSwallows(text: string, input: Key)
    requires Fit(Decoded(Lines(text)), CAP_BYTES) == [] && !Whole(text) && 0 < |input| <= CAP_BYTES
    ensures Fit(Decoded(Lines(text + Entry(input))), CAP_BYTES) == []
  {
    hide Decoded, Lines, HexEnc, HexDec, Whole, Fit, Utf8;
    var whole, torn := SplitTorn(text);
    var before := Decoded(Lines(whole));
    LinesOfWhole(whole, torn);
    LinesOfTorn(torn);
    DecodedAppend(Lines(whole), [torn]);
    DecodedOne(torn);
    assert text + Entry(input) == whole + (torn + Entry(input));
    LinesOfWhole(whole, torn + Entry(input));
    LinesOfEntry(torn, input);
    DecodedAppend(Lines(whole), [torn + HexEnc(input)]);
    DecodedOne(torn + HexEnc(input));
    TornDecodes(torn, input);
    if HexDec(torn).Some? {
      var t := HexDec(torn).value;
      Utf8Append(t, input);
      FitSnoc(before, t, CAP_BYTES);
      FitSnoc(before, t + input, CAP_BYTES);
    } else {
      assert before + [] == before;
    }
  }

  /** An input behind a torn part of a line decodes with it or not at all; behind bytes
      that are no text, as behind half a character, it does not. */
  lemma TornDecodes(torn: string, input: Key)
    ensures HexDec(torn + HexEnc(input))
         == if HexDec(torn).Some? then Some(HexDec(torn).value + input) else None
  {
    hide Utf8, HexEnc, HexBytes;
    BytesRoundTrip(input);
    if |torn| % 2 == 0 {
      HexBytesAppend(torn, HexEnc(input));
      if HexBytes(torn).Some? { Utf8Append(HexBytes(torn).value, input); }
    } else {
      HexBytesOdd(torn);
      HexBytesOdd(torn + HexEnc(input));
    }
  }

  lemma NextIsSwallowed(file: string, input: Key)
    requires Replay(file) == [] && !(Utf8(file) && Whole(file)) && 0 < |input| <= CAP_BYTES
    ensures Replay(file + Entry(input)) == []
  {
    hide Decoded, Lines, Entry, Whole, Fit, Utf8;
    EntryIsText(file, input);
    if Utf8(file) { TornLineSwallows(file, input); }
  }

  /** The open line is a single carriage return. */
  predicate OnlyCr(file: string) { file != "" && file[|file| - 1] == '\r' && Whole(file[..|file| - 1]) }

  lemma OnlyCrIsTorn(file: string, whole: string, torn: string)
    requires file == whole + torn && Whole(whole) && '\n' !in torn && torn != ""
    ensures OnlyCr(file) <==> torn == "\r"
  {
    var front := file[..|file| - 1];
    if |torn| > 1 {
      assert front[|front| - 1] == torn[|torn| - 2];
    } else {
      assert front == whole && torn == [file[|file| - 1]];
    }
  }

  const NO_INPUT: Key := ""

  lemma NoInput()
    ensures Entry(NO_INPUT) == "\n" && HexDec("") == Some(NO_INPUT)
  {
  }

  lemma EmptyLine(torn: string)
    requires torn != "" && '\n' !in torn
    ensures var line := if torn[|torn| - 1] == '\r' then torn[..|torn| - 1] else torn;
            Lines(torn + "\n") == [line] && (line == "" <==> torn == "\r")
  {
    var text := torn + "\n";
    FindIs(text, '\n', |torn|);
    assert text[|torn| + 1..] == "" && Lines("") == [];
    assert text[..|torn|] == torn && text[..|torn| - 1] == torn[..|torn| - 1];
    assert LineBefore(text, |torn|) == if torn[|torn| - 1] == '\r' then torn[..|torn| - 1] else torn;
    hide Find, Lines;
    LinesStep(text, |torn|);
  }

  lemma LinesStep(text: string, i: nat)
    requires text != "" && Find(text, '\n') == i < |text| && Lines(text[i + 1..]) == []
    ensures Lines(text) == [LineBefore(text, i)]
  {
    hide Find;
  }

  lemma {:induction false} HexBytesSize(s: string)
    ensures HexBytes(s).Some? ==> 2 * |HexBytes(s).value| == |s|
    ensures s != "" && s[|s| - 1] == '\r' ==> HexBytes(s).None?
  {
    if |s| > 1 { HexBytesSize(s[2..]); }
  }

  /** An empty input closes the open line, which then stands for itself. */
  lemma EmptyBehindTorn(file: string)
    requires Utf8(file) && !Whole(file) && Replay(file) == []
    ensures Replay(file + Entry(NO_INPUT)) == [""] <==> OnlyCr(file)
  {
    hide Decoded, Lines, HexEnc, HexDec, Whole, Fit, Utf8, OnlyCr, Entry;
    var whole, torn := SplitTorn(file);
    var before := Decoded(Lines(whole));
    OnlyCrIsTorn(file, whole, torn);
    LinesOfWhole(whole, torn);
    LinesOfTorn(torn);
    DecodedAppend(Lines(whole), [torn]);
    DecodedOne(torn);
    assert file + Entry(NO_INPUT) == whole + (torn + Entry(NO_INPUT));
    LinesOfWhole(whole, torn + Entry(NO_INPUT));
    NoInput();
    EmptyLine(torn);
    var line := if torn[|torn| - 1] == '\r' then torn[..|torn| - 1] else torn;
    DecodedAppend(Lines(whole), [line]);
    DecodedOne(line);
    EntryIsText(file, NO_INPUT);
    TornFits(before, torn, line);
  }

  lemma TornFits(before: seq<Key>, torn: string, line: string)
    requires torn != "" && line == (if torn[|torn| - 1] == '\r' then torn[..|torn| - 1] else torn)
    requires Fit(before + (if HexDec(torn).Some? then [HexDec(torn).value] else []), CAP_BYTES) == []
    ensures Fit(before + (if HexDec(line).Some? then [HexDec(line).value] else []), CAP_BYTES) == [""]
       <==> line == ""
  {
    hide Fit, Utf8;
    HexBytesSize(torn);
    HexBytesSize(line);
    NoInput();
    assert before + [] == before;
    if HexDec(line).Some? {
      var v := HexDec(line).value;
      assert v == "" <==> line == "";
      FitSnoc(before, v, CAP_BYTES);
      if |v| <= CAP_BYTES {
        var f := Fit(before, CAP_BYTES - |v|);
        assert (f + [v])[|f|] == v;
        assert f + [v] == [""] ==> |f| == 0;
      }
    }
  }

  /** Attach, then type: the log brings the queue back if and only if the file was a text
      that did not end in an open line, or something was recovered - or the input is longer
      than the cap, and dropped with all that was pending, or it is empty and the open line
      was nothing but a carriage return. */
  lemma FirstKeySurvivesIff(file: string, input: Key)
    ensures var s := AfterAttach(State([], 0, false, file), Done);
            var s' := AfterPush(s, input, Done);
            && (Replay(s'.file) == s'.queue
                <==> (Utf8(file) && Whole(file)) || s.queue != [] || |input| > CAP_BYTES
                     || (input == "" && Utf8(file) && OnlyCr(file)))
            && (|input| > CAP_BYTES ==> s'.queue == [] && s'.dropped == s.dropped + |s.queue| + 1)
  {
    hide Decoded, Lines, HexEnc, Whole, Log, Fit, Utf8, Recovered, OnlyCr;
    TotalNone();
    var s0 := State([], 0, false, file);
    var s := AfterAttach(s0, Done);
    AttachRestoresIff(s0);
    if |input| > CAP_BYTES {
      OverCap(s, input);
    } else if Restores(s) {
      PushRestores(s, input);
    } else {
      assert [] + Recovered(file) == Recovered(file);
      FirstOfQueue(input);
      if input == "" {
        EmptyIsSwallowed(file);
      } else {
        NextIsSwallowed(file, input);
      }
    }
  }

  lemma FirstOfQueue(input: Key)
    requires |input| <= CAP_BYTES
    ensures Fit([] + [input], CAP_BYTES) == [input]
  {
    FitSnoc([], input, CAP_BYTES);
  }

  lemma EmptyIsSwallowed(file: string)
    requires Replay(file) == [] && !(Utf8(file) && Whole(file))
    ensures Replay(file + Entry(NO_INPUT)) == [""] <==> Utf8(file) && OnlyCr(file)
  {
    hide Decoded, Lines, Entry, Whole, Fit, Utf8, OnlyCr;
    EntryIsText(file, NO_INPUT);
    if Utf8(file) { EmptyBehindTorn(file); }
  }

  lemma OverCap(s: State, input: Key)
    requires s.wal && |input| > CAP_BYTES
    ensures var s' := AfterPush(s, input, Done);
            s'.queue == [] && s'.dropped == s.dropped + |s.queue| + 1 && Replay(s'.file) == []
  {
    hide Decoded, Lines, Utf8, Fit, Log;
    FitSnoc(s.queue, input, CAP_BYTES);
    TotalNone();
    LogRestores([]);
  }

  // ---- whole runs ----

  datatype Op = Push(input: Key) | Drain

  function After(s: State, op: Op): State {
    match op
    case Push(input) => AfterPush(s, input, Done)
    case Drain => AfterDrain(s)
  }

  function Run(s: State, ops: seq<Op>): State {
    if ops == [] then s else After(Run(s, ops[..|ops| - 1]), ops[|ops| - 1])
  }

  /** The inputs since the last drain. */
  function Since(ops: seq<Op>): seq<Key> {
    if ops == [] || ops[|ops| - 1].Drain? then []
    else Since(ops[..|ops| - 1]) + [ops[|ops| - 1].input]
  }

  function Pushes(ops: seq<Op>): nat {
    if ops == [] then 0 else Pushes(ops[..|ops| - 1]) + if ops[|ops| - 1].Push? then 1 else 0
  }

  /** How many inputs the drains of a run have handed out. */
  function Drained(s: State, ops: seq<Op>): nat {
    if ops == [] then 0
    else
      var init := ops[..|ops| - 1];
      Drained(s, init) + if ops[|ops| - 1].Drain? then |Run(s, init).queue| else 0
  }

  /** After any run the log replays to the queue. */
  lemma {:induction false} RunRestores(s: State, ops: seq<Op>)
    requires Restores(s)
    ensures Restores(Run(s, ops))
  {
    hide Restores, AfterPush, AfterDrain;
    if ops != [] {
      RunRestores(s, ops[..|ops| - 1]);
      var before := Run(s, ops[..|ops| - 1]);
      match ops[|ops| - 1] {
        case Push(input) => PushRestores(before, input);
        case Drain => DrainRestores(before);
      }
    }
  }

  lemma {:induction false} DetachedStays(s: State, ops: seq<Op>)
    requires !s.wal
    ensures !Run(s, ops).wal && Run(s, ops).file == s.file
  {
    hide Fit, Log, HexEnc, Utf8;
    if ops != [] {
      DetachedStays(s, ops[..|ops| - 1]);
    }
  }

  /** A write that breaks off detaches the log: what it left in the file stays there, whatever
      is typed and drained later, and the queue goes on as without a log. */
  lemma BrokenWriteDetaches(s: State, input: Key, left: string, ops: seq<Op>)
    requires s.wal
    ensures var pushed, attached := AfterPush(s, input, Broke(left)), AfterAttach(s, Broke(left));
            && Run(pushed, ops).file == left && !Run(pushed, ops).wal
            && pushed.queue == AfterPush(s.(wal := false), input, Done).queue
            && (attached.queue != [] ==> Run(attached, ops).file == left && !Run(attached, ops).wal)
            && (attached.queue == [] ==> attached.wal && attached.file == s.file)
  {
    DetachedStays(AfterPush(s, input, Broke(left)), ops);
    hide Fit, Log, HexEnc, Utf8, Recovered;
    if AfterAttach(s, Broke(left)).queue != [] { DetachedStays(AfterAttach(s, Broke(left)), ops); }
  }

  /** From an empty queue, the queue is always the longest run of newest inputs since the
      last drain that fits the cap. */
  lemma {:induction false} QueueIsNewest(s: State, ops: seq<Op>)
    requires s.queue == []
    ensures Run(s, ops).queue == Fit(Since(ops), CAP_BYTES)
  {
    hide Fit, Log, HexEnc, Utf8;
    if ops == [] || ops[|ops| - 1].Drain? {
    } else {
      var init := ops[..|ops| - 1];
      QueueIsNewest(s, init);
      FitAgain(Since(init), [ops[|ops| - 1].input], CAP_BYTES, CAP_BYTES);
    }
  }

  /** Nothing is lost uncounted: pushed is drained, pending and dropped together. */
  lemma {:induction false} EveryInputCounted(s: State, ops: seq<Op>)
    ensures Pushes(ops) + |s.queue| + s.dropped == Drained(s, ops) + |Run(s, ops).queue| + Run(s, ops).dropped
  {
    hide Fit, Log, HexEnc, Utf8;
    if ops != [] {
      EveryInputCounted(s, ops[..|ops| - 1]);
    }
  }

  // ---- the object ----

  lemma {:induction false} FitDropsFront(q: seq<Key>, budget: nat)
    requires q != [] && Total(q) > budget
    ensures Fit(q[1..], budget) == Fit(q, budget)
    ensures Total(q) == |q[0]| + Total(q[1..])
  {
    assert q == [q[0]] + q[1..];
    TotalAppend([q[0]], q[1..]);
    TotalOne(q[0]);
    FitIsLongest(q, budget);
    assert q[0..] == q;
    FitOfRest(q, budget);
  }

  lemma TotalOne(k: Key)
    ensures Total([k]) == |k|
  {
    assert [k][..0] == [];
  }

  lemma {:induction false} FitOfRest(q: seq<Key>, budget: nat)
    requires q != [] && |Fit(q, budget)| < |q|
    ensures Fit(q[1..], budget) == Fit(q, budget)
    decreases |q|
  {
    var last := q[|q| - 1];
    if |q| > 1 {
      assert q[1..][..|q| - 2] == q[..|q| - 1][1..];
      if |last| <= budget {
        FitOfRest(q[..|q| - 1], budget - |last|);
      }
    }
  }

  class Keys {
    var queue: seq<Key>
    var bytes: nat
    var dropped: nat
    var wal: bool
    /** The log file on disk. */
    var file: string

    ghost predicate Valid()
      reads this
    {
      bytes == Total(queue) <= CAP_BYTES
    }

    function Abstract(): State
      reads this
    {
      State(queue, dropped, wal, file)
    }

    constructor (onDisk: string)
      ensures Valid() && Abstract() == State([], 0, false, onDisk)
    {
      queue, bytes, dropped, wal, file := [], 0, 0, false, onDisk;
    }

    /** The part of a push that needs no file; tells whether anything was dropped. */
    method Enqueue(input: Key) returns (shrunk: bool)
      requires Valid()
      modifies this`queue, this`bytes, this`dropped
      ensures Valid() && queue == Fit(old(queue) + [input], CAP_BYTES)
      ensures dropped == old(dropped) + |old(queue)| + 1 - |queue|
      ensures shrunk <==> |queue| < |old(queue)| + 1
    {
      hide Fit, Total, Utf8;
      TotalAppend(queue, [input]);
      TotalOne(input);
      TotalNone();
      bytes := bytes + |input|;
      queue := queue + [input];
      ghost var all := queue;
      shrunk := false;
      while bytes > CAP_BYTES
        invariant bytes == Total(queue)
        invariant Fit(queue, CAP_BYTES) == Fit(all, CAP_BYTES)
        invariant dropped == old(dropped) + |all| - |queue|
        invariant shrunk <==> |queue| < |all|
        invariant |queue| <= |all|
        decreases |queue|
      {
        if queue == [] { break; }
        FitDropsFront(queue, CAP_BYTES);
        var oldest := queue[0];
        queue := queue[1..];
        dropped := dropped + 1;
        bytes := bytes - |oldest|; // a saturating subtraction that never saturates
        shrunk := true;
      }
      FitIdle(queue, CAP_BYTES);
    }

    method Push(input: Key, io: Io)
      requires Valid()
      modifies this
      ensures Valid() && Abstract() == AfterPush(old(Abstract()), input, io)
    {
      hide Fit, Total, Utf8, Log;
      var shrunk := Enqueue(input);
      if wal {
        if io.Broke? {
          wal, file := false, io.left;
        } else if shrunk {
          Rewrite();
        } else {
          file := file + Entry(input);
        }
      }
    }

    method Rewrite()
      modifies this`file
      ensures file == Log(queue)
    {
      hide HexEnc;
      file := "";
      for i := 0 to |queue|
        invariant file == Log(queue[..i]) && queue == old(queue)
      {
        assert queue[..i + 1][..i] == queue[..i];
        file := file + Entry(queue[i]);
      }
      assert queue[..|queue|] == queue;
    }

    method DrainAll() returns (out: seq<Key>)
      requires Valid()
      modifies this
      ensures Valid() && Abstract() == AfterDrain(old(Abstract())) && out == old(queue)
    {
      bytes := 0;
      if wal { file := ""; }
      out := queue;
      queue := [];
    }

    method AttachWal(io: Io)
      requires Valid() && !wal
      modifies this
      ensures Valid() && Abstract() == AfterAttach(old(Abstract()), io)
    {
      hide Fit, Total, Utf8, Log, Recovered;
      var recovered := Recovered(file);
      FitIdle(queue, CAP_BYTES);
      assert queue + recovered[..0] == queue;
      for i := 0 to |recovered|
        invariant Valid() && wal == old(wal) && file == old(file)
        invariant queue == Fit(old(queue) + recovered[..i], CAP_BYTES)
        invariant dropped == old(dropped) + |old(queue)| + i - |queue|
      {
        FitAgain(old(queue) + recovered[..i], [recovered[i]], CAP_BYTES, CAP_BYTES);
        assert old(queue) + recovered[..i] + [recovered[i]] == old(queue) + recovered[..i + 1];
        var _ := Enqueue(recovered[i]);
      }
      assert recovered[..|recovered|] == recovered;
      wal := true;
      if queue != [] {
        if io.Broke? {
          wal, file := false, io.left;
        } else {
          Rewrite();
        }
      }
    }
  }
}
