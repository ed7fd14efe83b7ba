/** The vital-signs history ring and its text codec (`src/sys_hist.rs`). */
module SysHist {
  import opened Text

  const CAP: nat := 192
  const U8_MAX: nat := 0xFF
  const U32_MAX: nat := 0xFFFF_FFFF
  const U64_MAX: nat := 0xFFFF_FFFF_FFFF_FFFF
  const FORMAT := "kfm-na-sys-hist v1"

  datatype Sample = Sample(
    load: nat, hasLoad: bool, loadPct: Option<nat>, mem: Option<nat>, swap: Option<nat>, disk: Option<nat>)

  datatype Ring = Ring(samples: seq<Sample>, seqNo: nat)

  predicate PctFits(v: Option<nat>) { v.Some? ==> v.value <= U8_MAX }

  predicate SampleFits(s: Sample) {
    s.load <= U32_MAX && PctFits(s.loadPct) && PctFits(s.mem) && PctFits(s.swap) && PctFits(s.disk)
  }

  /** The widths of the machine integers, and the ring's capacity. */
  ghost predicate RingFits(r: Ring) {
    |r.samples| <= CAP && r.seqNo <= U64_MAX && forall i :: 0 <= i < |r.samples| ==> SampleFits(r.samples[i])
  }

  // ---- the ring ----

  function Newest(samples: seq<Sample>): seq<Sample> {
    if |samples| <= CAP then samples else samples[|samples| - CAP..]
  }

  /** What the ring holds after some samples are pushed one by one. */
  function Pushed(r: Ring, more: seq<Sample>): Ring {
    if more == [] then r
    else
      var r1 := Pushed(r, more[..|more| - 1]);
      var s := r1.samples + [more[|more| - 1]];
      Ring(if |s| > CAP then s[1..] else s, r1.seqNo + 1)
  }

  /** Pushing one by one keeps exactly the newest samples, and counts every one. */
  lemma {:induction false} PushedIsNewest(r: Ring, more: seq<Sample>)
    requires |r.samples| <= CAP
    ensures Pushed(r, more) == Ring(Newest(r.samples + more), r.seqNo + |more|)
  {
    if more == [] {
      assert r.samples + [] == r.samples;
    } else {
      var init, last := more[..|more| - 1], more[|more| - 1];
      PushedIsNewest(r, init);
      assert r.samples + more == (r.samples + init) + [last];
    }
  }

  class Hist {
    var samples: seq<Sample>
    var seqNo: nat
    var lastAt: Option<nat>

    function Abstract(): Ring
      reads this
    {
      Ring(samples, seqNo)
    }

    ghost predicate Valid()
      reads this
    {
      |samples| <= CAP
    }

    constructor ()
      ensures Valid() && Abstract() == Ring([], 0) && lastAt == None
    {
      samples, seqNo, lastAt := [], 0, None;
    }

    method PushAt(s: Sample, at: nat)
      requires Valid()
      modifies this
      ensures Valid() && Abstract() == Pushed(old(Abstract()), [s]) && lastAt == Some(at)
    {
      assert Pushed(Abstract(), [s][..0]) == Abstract();
      samples := samples + [s];
      if |samples| > CAP { samples := samples[1..]; }
      seqNo := seqNo + 1;
      lastAt := Some(at);
    }

    method Restore(more: seq<Sample>, seqNo: nat)
      modifies this
      ensures Valid() && Abstract() == Ring(Newest(more), seqNo) && lastAt == None
    {
      samples := more;
      if |samples| > CAP { samples := samples[|samples| - CAP..]; }
      this.seqNo := seqNo;
      lastAt := None;
    }
  }

  // ---- percent signs and targets ----

  const ESCAPE := "%20"

  predicate AtEscape(t: string) { |t| >= 3 && t[0] == '%' && t[1] == '2' && t[2] == '0' }

  /** `replace(' ', "%20")`. */
  function Escaped(t: string): string {
    if t == "" then "" else (if t[0] == ' ' then ESCAPE else [t[0]]) + Escaped(t[1..])
  }

  /** `replace("%20", " ")`: matches are taken from the left. */
  function Unescaped(t: string): string
    decreases |t|
  {
    if t == "" then ""
    else if AtEscape(t) then " " + Unescaped(t[3..])
    else [t[0]] + Unescaped(t[1..])
  }

  function EncTarget(t: string): string { if t == "" then "-" else Escaped(t) }

  /** A decoded target; the dash stands for no owner. */
  function DecTarget(w: string): string {
    var t := Unescaped(w);
    if t == "-" then "" else t
  }

  predicate HasEscape(t: string) { t != "" && (AtEscape(t) || HasEscape(t[1..])) }

  /** The targets that survive: plain spaces as the only white space, no literal `%20`,
      and not a lone dash. */
  predicate Keeps(t: string) {
    (forall i :: 0 <= i < |t| && IsSpace(Unicode, t[i]) ==> t[i] == ' ') && !HasEscape(t) && t != "-"
  }

  lemma {:induction false} UnescapeEscape(t: string)
    requires !HasEscape(t)
    ensures Unescaped(Escaped(t)) == t
  {
    if t != "" {
      UnescapeEscape(t[1..]);
      var rest := Escaped(t[1..]);
      if t[0] == ' ' {
        assert (ESCAPE + rest)[3..] == rest;
        assert t == " " + t[1..];
      } else {
        assert ([t[0]] + rest)[1..] == rest;
        assert !AtEscape([t[0]] + rest) by { NoNewEscape(t); }
        assert t == [t[0]] + t[1..];
      }
    }
  }

  lemma NoNewEscape(t: string)
    requires t != "" && !HasEscape(t) && t[0] != ' '
    ensures !AtEscape(Escaped(t))
  {
    var e, r := Escaped(t), t[1..];
    assert e == [t[0]] + Escaped(r);
    if t[0] == '%' && r != "" && r[0] == '2' {
      var q := r[1..];
      assert Escaped(r) == "2" + Escaped(q);
      assert q == "" || q[0] != '0';
      assert e[2..] == Escaped(q);
      assert q != "" ==> e[2] == Escaped(q)[0];
    } else if t[0] == '%' {
      assert e[1..] == Escaped(r);
      assert r != "" ==> e[1] == Escaped(r)[0];
    }
  }

  lemma {:induction false} EscapedIsWord(t: string)
    requires forall i :: 0 <= i < |t| && IsSpace(Unicode, t[i]) ==> t[i] == ' '
    ensures forall i :: 0 <= i < |Escaped(t)| ==> !IsSpace(Unicode, Escaped(t)[i])
    ensures t != "" ==> Escaped(t) != ""
  {
    if t != "" {
      EscapedIsWord(t[1..]);
    }
  }

  lemma TargetRoundTrip(t: string)
    requires Keeps(t)
    ensures IsWord(Unicode, EncTarget(t)) && DecTarget(EncTarget(t)) == t
  {
    EscapedIsWord(t);
    if t == "" {
      assert Unescaped("-") == "-" by { assert "-"[1..] == ""; }
    } else {
      UnescapeEscape(t);
    }
  }

  /** No word decodes to a target outside `Keeps`. */
  lemma DecodedKeeps(w: string)
    requires IsWord(Unicode, w)
    ensures Keeps(DecTarget(w))
  {
    UnescapedSpaces(w);
    UnescapedIsClean(w);
  }

  lemma {:induction false} UnescapedSpaces(w: string)
    requires forall i :: 0 <= i < |w| ==> !IsSpace(Unicode, w[i])
    ensures forall i :: 0 <= i < |Unescaped(w)| && IsSpace(Unicode, Unescaped(w)[i]) ==> Unescaped(w)[i] == ' '
    decreases |w|
  {
    if w != "" {
      if AtEscape(w) {
        UnescapedSpaces(w[3..]);
      } else {
        UnescapedSpaces(w[1..]);
      }
    }
  }

  lemma {:induction false} UnescapedIsClean(w: string)
    ensures !HasEscape(Unescaped(w))
    decreases |w|
  {
    if w != "" {
      if AtEscape(w) {
        UnescapedIsClean(w[3..]);
        assert (" " + Unescaped(w[3..]))[1..] == Unescaped(w[3..]);
      } else {
        UnescapedIsClean(w[1..]);
        assert ([w[0]] + Unescaped(w[1..]))[1..] == Unescaped(w[1..]);
        FrontOfUnescaped(w);
      }
    }
  }

  lemma UnescapedStep(w: string)
    requires w != "" && !AtEscape(w)
    ensures Unescaped(w) == [w[0]] + Unescaped(w[1..])
  {
  }

  lemma UnescapedHead(w: string, c: char)
    requires c != ' ' && (w == "" || w[0] != c)
    ensures Unescaped(w) == "" || Unescaped(w)[0] != c
  {
  }

  lemma FrontOfUnescaped(w: string)
    requires w != "" && !AtEscape(w)
    ensures !AtEscape(Unescaped(w))
  {
    hide Unescaped;
    UnescapedStep(w);
    var r := w[1..];
    if r == "" || r[0] != '2' {
      UnescapedHead(r, '2');
    } else {
      UnescapedStep(r);
      if r[1..] == "" || r[1..][0] != '0' {
        UnescapedHead(r[1..], '0');
      }
    }
  }

  // ---- the text format ----

  datatype Kind = Server | Local

  function KindName(k: Kind): string { if k == Server then "server" else "local" }

  function PctText(v: Option<nat>): string { if v.None? then "-" else Dec(v.value) }

  function SampleWords(s: Sample): seq<string> {
    [Dec(s.load), if s.hasLoad then "1" else "0", PctText(s.loadPct), PctText(s.mem), PctText(s.swap), PctText(s.disk)]
  }

  function SampleLine(s: Sample): string { Join(SampleWords(s), " ") }

  function HeadWords(k: Kind, target: string, seqNo: nat): seq<string> {
    [KindName(k), EncTarget(target), Dec(seqNo)]
  }

  function HeadLine(k: Kind, target: string, seqNo: nat): string { "#" + Join(HeadWords(k, target, seqNo), " ") }

  /** The text of a sample and of a head, as they stand in the file. */
  lemma Layout(s: Sample, k: Kind, target: string, seqNo: nat)
    ensures var flag := if s.hasLoad then "1" else "0";
            SampleLine(s) == Dec(s.load) + " " + (flag + " " + (Share(s.loadPct) + " " + (Share(s.mem) + " "
                             + (Share(s.swap) + " " + Share(s.disk)))))
    ensures HeadLine(k, target, seqNo)
         == "#" + ((if k.Server? then "server" else "local") + " " + (EncTarget(target) + " " + Dec(seqNo)))
    ensures Share(None) == "-"
  {
    hide Dec, EncTarget, Join;
    var w, h := SampleWords(s), HeadWords(k, target, seqNo);
    JoinCons(w[0], w[1..]);
    JoinCons(w[1], w[2..]);
    JoinCons(w[2], w[3..]);
    JoinCons(w[3], w[4..]);
    JoinCons(w[4], w[5..]);
    assert [w[0]] + w[1..] == w && [w[1]] + w[2..] == w[1..] && [w[2]] + w[3..] == w[2..];
    assert [w[3]] + w[4..] == w[3..] && [w[4]] + w[5..] == w[4..] && w[5..] == [w[5]];
    JoinOne(w[5]);
    JoinCons(h[0], h[1..]);
    JoinCons(h[1], h[2..]);
    assert [h[0]] + h[1..] == h && [h[1]] + h[2..] == h[1..] && h[2..] == [h[2]];
    JoinOne(h[2]);
  }

  lemma JoinCons(word: string, rest: seq<string>)
    requires rest != []
    ensures Join([word] + rest, " ") == word + " " + Join(rest, " ")
  {
  }

  lemma JoinOne(word: string)
    ensures Join([word], " ") == word
  {
  }

  /** How a share stands there. */
  function Share(v: Option<nat>): string { if v.Some? then Dec(v.value) else "-" }

  function SampleLines(samples: seq<Sample>): seq<string> {
    if samples == [] then []
    else SampleLines(samples[..|samples| - 1]) + [SampleLine(samples[|samples| - 1])]
  }

  function SegmentLines(k: Kind, r: Ring, target: string): seq<string> {
    [HeadLine(k, target, r.seqNo)] + SampleLines(r.samples)
  }

  function Unlines(lines: seq<string>): string {
    if lines == [] then "" else Unlines(lines[..|lines| - 1]) + (lines[|lines| - 1] + "\n")
  }

  /** A server ring and a local ring, each with the target it belongs to. */
  datatype Book = Book(server: Ring, serverTarget: string, local: Ring, localTarget: string)

  /** `encode_hist`. */
  function Encode(b: Book): string {
    Unlines([FORMAT] + SegmentLines(Server, b.server, b.serverTarget) + SegmentLines(Local, b.local, b.localTarget))
  }

  datatype Segment = Segment(target: string, seqNo: nat, samples: seq<Sample>)

  /** The decoder between two lines. */
  datatype Reading = Reading(cur: Option<Kind>, server: Segment, local: Segment)

  function At(r: Reading, k: Kind): Segment { if k == Server then r.server else r.local }

  function With(r: Reading, k: Kind, s: Segment): Reading {
    if k == Server then r.(server := s) else r.(local := s)
  }

  function KindOf(name: string): Option<Kind> {
    if name == "server" then Some(Server) else if name == "local" then Some(Local) else None
  }

  function ReadPct(w: string): Option<nat> { if w == "-" then None else ParseUint(w, 10, U8_MAX) }

  function ReadSample(w: seq<string>): Option<Sample> {
    if |w| < 6 then None
    else
      var load, has := ParseUint(w[0], 10, U32_MAX), ParseUint(w[1], 10, U32_MAX);
      if load.None? || has.None? then None
      else Some(Sample(load.value, has.value != 0, ReadPct(w[2]), ReadPct(w[3]), ReadPct(w[4]), ReadPct(w[5])))
  }

  function ReadHead(r: Reading, w: seq<string>): Reading {
    var kind := if |w| > 0 then KindOf(w[0]) else None;
    var target := DecTarget(if |w| > 1 then w[1] else "-");
    var n := if |w| > 2 then ParseUint(w[2], 10, U64_MAX) else None;
    var r1 := r.(cur := kind);
    if kind.None? then r1
    else With(r1, kind.value, At(r, kind.value).(target := target, seqNo := if n.Some? then n.value else 0))
  }

  function ReadLine(r: Reading, line: string): Reading {
    var t := Trim(Unicode, line);
    if t == "" then r
    else if t[0] == '#' then ReadHead(r, Words(Unicode, t[1..]))
    else if r.cur.None? then r
    else
      var s, k := ReadSample(Words(Unicode, t)), r.cur.value;
      if s.None? then r else With(r, k, At(r, k).(samples := At(r, k).samples + [s.value]))
  }

  function ReadLines(r: Reading, lines: seq<string>): Reading {
    if lines == [] then r else ReadLine(ReadLines(r, lines[..|lines| - 1]), lines[|lines| - 1])
  }

  function Blank(): Reading { Reading(None, Segment("", 0, []), Segment("", 0, [])) }

  function Closed(r: Reading): Book {
    Book(Ring(Newest(r.server.samples), r.server.seqNo), r.server.target,
         Ring(Newest(r.local.samples), r.local.seqNo), r.local.target)
  }

  /** `decode_hist`: an unknown format is two empty rings; a bad line is skipped. */
  function Decode(text: string): Book {
    var lines := Lines(text);
    if lines == [] || Trim(Unicode, lines[0]) != FORMAT then Closed(Blank()) else Closed(ReadLines(Blank(), lines[1..]))
  }

  /** The decoder's loop over the lines. */
  method DecodeHist(text: string) returns (b: Book)
    ensures b == Decode(text)
  {
    hide ReadLine;
    var lines := Lines(text);
    if lines == [] || Trim(Unicode, lines[0]) != FORMAT { return Closed(Blank()); }
    var r := Blank();
    for i := 1 to |lines|
      invariant r == ReadLines(Blank(), lines[1..i])
    {
      assert lines[1..i + 1][..i - 1] == lines[1..i];
      r := ReadLine(r, lines[i]);
    }
    assert lines[1..|lines|] == lines[1..];
    return Closed(r);
  }

  // ---- one line read back ----

  lemma DecIsWord(n: nat)
    ensures IsWord(Unicode, Dec(n))
  {
  }

  lemma PctReads(v: Option<nat>)
    requires PctFits(v)
    ensures IsWord(Unicode, PctText(v)) && ReadPct(PctText(v)) == v
  {
    if v.Some? {
      DecIsWord(v.value);
      ParseDec(v.value, U8_MAX);
      assert IsDigit(Dec(v.value)[0]);
    }
  }

  lemma SampleReads(s: Sample)
    requires SampleFits(s)
    ensures ReadSample(SampleWords(s)) == Some(s)
    ensures forall k :: 0 <= k < 6 ==> IsWord(Unicode, SampleWords(s)[k])
  {
    hide IsWord, ReadPct, PctText, Dec, ParseUint;
    DecIsWord(s.load);
    ParseDec(s.load, U32_MAX);
    FlagReads(s.hasLoad);
    PctReads(s.loadPct); PctReads(s.mem); PctReads(s.swap); PctReads(s.disk);
  }

  lemma FlagReads(flag: bool)
    ensures var w := if flag then "1" else "0";
            IsWord(Unicode, w) && ParseUint(w, 10, U32_MAX) == Some(if flag then 1 else 0)
  {
    assert Dec(1) == "1" && Dec(0) == "0";
    ParseDec(1, U32_MAX);
    ParseDec(0, U32_MAX);
  }

  /** Neither end of some joined words is white space, and they stay on one line. */
  lemma {:induction false} JoinedEnds(ws: seq<string>)
    requires ws != [] && forall k :: 0 <= k < |ws| ==> IsWord(Unicode, ws[k])
    ensures var j := Join(ws, " ");
            && j != "" && IsWord(Unicode, ws[0]) && j[0] == ws[0][0]
            && !IsSpace(Unicode, j[|j| - 1])
            && '\n' !in j
  {
    if |ws| > 1 {
      JoinedEnds(ws[1..]);
    }
  }

  lemma LineOf(line: string)
    requires line != "" && !IsSpace(Unicode, line[0]) && !IsSpace(Unicode, line[|line| - 1]) && '\n' !in line
    ensures Trim(Unicode, line) == line && Lines(line + "\n") == [line]
  {
    TrimIdle(Unicode, line);
    LinesOfOne(line);
  }

  lemma SampleLineReads(r: Reading, s: Sample)
    requires SampleFits(s) && r.cur.Some?
    ensures ReadLine(r, SampleLine(s))
         == With(r, r.cur.value, At(r, r.cur.value).(samples := At(r, r.cur.value).samples + [s]))
    ensures Lines(SampleLine(s) + "\n") == [SampleLine(s)]
  {
    hide Join, ReadSample, SampleWords, Words, Trim, Lines;
    var ws := SampleWords(s);
    SampleReads(s);
    SampleWordsShape(s);
    JoinedEnds(ws);
    LineOf(SampleLine(s));
    WordsOfJoin(Unicode, ws);
  }

  lemma SampleWordsShape(s: Sample)
    ensures |SampleWords(s)| == 6 && SampleWords(s)[0] != "" && IsDigit(SampleWords(s)[0][0])
  {
    assert Dec(s.load) != "";
  }

  lemma KindIsWord(k: Kind)
    ensures IsWord(Unicode, KindName(k)) && KindOf(KindName(k)) == Some(k)
  {
    assert "server"[0] != "local"[0];
  }

  lemma HeadLineReads(r: Reading, k: Kind, target: string, seqNo: nat)
    requires Keeps(target) && seqNo <= U64_MAX
    ensures ReadLine(r, HeadLine(k, target, seqNo))
         == With(r.(cur := Some(k)), k, At(r, k).(target := target, seqNo := seqNo))
    ensures Lines(HeadLine(k, target, seqNo) + "\n") == [HeadLine(k, target, seqNo)]
  {
    hide Join, Words, Trim, Lines, EncTarget, DecTarget, Dec, KindName, KindOf, Keeps;
    var ws := HeadWords(k, target, seqNo);
    KindIsWord(k);
    TargetRoundTrip(target);
    DecIsWord(seqNo);
    ParseDec(seqNo, U64_MAX);
    JoinedEnds(ws);
    var line := HeadLine(k, target, seqNo);
    assert line[1..] == Join(ws, " ");
    LineOf(line);
    WordsOfJoin(Unicode, ws);
  }

  // ---- the whole text ----

  lemma {:induction false} ReadAppend(r: Reading, a: seq<string>, b: seq<string>)
    ensures ReadLines(r, a + b) == ReadLines(ReadLines(r, a), b)
    decreases |b|
  {
    hide ReadLine;
    if b == [] {
      assert a + b == a;
    } else {
      ReadAppend(r, a, b[..|b| - 1]);
      assert (a + b)[..|a + b| - 1] == a + b[..|b| - 1];
    }
  }

  lemma {:induction false} SamplesRead(r: Reading, samples: seq<Sample>)
    requires r.cur.Some? && forall i :: 0 <= i < |samples| ==> SampleFits(samples[i])
    ensures var k := r.cur.value;
            ReadLines(r, SampleLines(samples)) == With(r, k, At(r, k).(samples := At(r, k).samples + samples))
  {
    hide ReadLine, SampleLine;
    var k := r.cur.value;
    if samples == [] {
      assert At(r, k).samples + [] == At(r, k).samples;
    } else {
      var init, last := samples[..|samples| - 1], samples[|samples| - 1];
      SamplesRead(r, init);
      SampleLineReads(ReadLines(r, SampleLines(init)), last);
      assert At(r, k).samples + samples == (At(r, k).samples + init) + [last];
    }
  }

  lemma SegmentReads(r: Reading, k: Kind, ring: Ring, target: string)
    requires RingFits(ring) && Keeps(target) && At(r, k).samples == []
    ensures ReadLines(r, SegmentLines(k, ring, target))
         == With(r.(cur := Some(k)), k, Segment(target, ring.seqNo, ring.samples))
  {
    hide ReadLine, SampleLines, HeadLine, Keeps;
    var head := HeadLine(k, target, ring.seqNo);
    HeadLineReads(r, k, target, ring.seqNo);
    ReadAppend(r, [head], SampleLines(ring.samples));
    assert [head][..0] == [];
    var r1 := ReadLine(r, head);
    assert ReadLines(r, [head]) == r1;
    SamplesRead(r1, ring.samples);
    assert [] + ring.samples == ring.samples;
  }

  // ---- any text ----

  /** A share is a number that fits eight bits, and missing if the word is no such number. */
  predicate PctWord(w: string, v: Option<nat>) {
    if v.Some? then Writes(w, v.value) && v.value <= U8_MAX
    else forall n :: 0 <= n <= U8_MAX ==> !Writes(w, n)
  }

  /** The words of a line give this sample: six at least, of which the first two are numbers
      that fit 32 bits. */
  ghost predicate GivesSample(w: seq<string>, s: Sample) {
    && |w| >= 6 && Writes(w[0], s.load) && s.load <= U32_MAX
    && (exists has: nat :: Writes(w[1], has) && has <= U32_MAX && s.hasLoad == (has != 0))
    && PctWord(w[2], s.loadPct) && PctWord(w[3], s.mem) && PctWord(w[4], s.swap) && PctWord(w[5], s.disk)
  }

  lemma PctIs(w: string, v: Option<nat>)
    ensures ReadPct(w) == v <==> PctWord(w, v)
  {
    hide ParseUint, Writes;
    forall n: nat ensures ParseUint(w, 10, U8_MAX) == Some(n) <==> Writes(w, n) && n <= U8_MAX {
      ParseUintIs(w, U8_MAX, n);
    }
    if w == "-" { DashIsNoNumber(); }
  }

  lemma DashIsNoNumber()
    ensures forall n: nat :: !Writes("-", n)
  {
  }

  lemma NumberIs(w: string, n: nat)
    ensures ParseUint(w, 10, U32_MAX) == Some(n) <==> Writes(w, n) && n <= U32_MAX
  {
    ParseUintIs(w, U32_MAX, n);
  }

  lemma SampleIs(w: seq<string>, s: Sample)
    ensures ReadSample(w) == Some(s) <==> GivesSample(w, s)
  {
    hide ParseUint, Writes, ReadPct, PctWord;
    if |w| >= 6 {
      NumberIs(w[0], s.load);
      forall n: nat ensures ParseUint(w[1], 10, U32_MAX) == Some(n) <==> Writes(w[1], n) && n <= U32_MAX {
        NumberIs(w[1], n);
      }
      PctIs(w[2], s.loadPct);
      PctIs(w[3], s.mem);
      PctIs(w[4], s.swap);
      PctIs(w[5], s.disk);
    }
  }

  /** What a head says: its kind, its target and its number, each if it is there and good. */
  ghost predicate Heads(w: seq<string>, k: Option<Kind>, target: string, seqNo: nat) {
    && (k == Some(Server) <==> |w| > 0 && w[0] == "server") && (k == Some(Local) <==> |w| > 0 && w[0] == "local")
    && target == DecTarget(if |w| > 1 then w[1] else "-")
    && (if |w| > 2 && exists n :: 0 <= n <= U64_MAX && Writes(w[2], n)
        then Writes(w[2], seqNo) && seqNo <= U64_MAX else seqNo == 0)
  }

  lemma HeadIs(r: Reading, w: seq<string>) returns (k: Option<Kind>, target: string, seqNo: nat)
    ensures Heads(w, k, target, seqNo)
    ensures ReadHead(r, w)
         == if k.None? then r.(cur := None)
            else With(r.(cur := k), k.value, At(r, k.value).(target := target, seqNo := seqNo))
  {
    hide ParseUint, Writes, DecTarget;
    k := if |w| > 0 then KindOf(w[0]) else None;
    target := DecTarget(if |w| > 1 then w[1] else "-");
    var n := if |w| > 2 then ParseUint(w[2], 10, U64_MAX) else None;
    seqNo := if n.Some? then n.value else 0;
    if |w| > 2 {
      forall m: nat ensures ParseUint(w[2], 10, U64_MAX) == Some(m) <==> Writes(w[2], m) && m <= U64_MAX {
        ParseUintIs(w[2], U64_MAX, m);
      }
    }
    assert "server" != "local" by { assert "server"[0] != "local"[0]; }
  }

  /** What becomes of any line, by its text without the white space around: nothing of an
      empty one; a head if it begins with a hash sign; and otherwise a sample of the last
      kind named, if there is one and the words give a sample. */
  lemma LineIs(r: Reading, line: string, s: Sample)
    ensures var t := Trim(Unicode, line);
            && (t == "" ==> ReadLine(r, line) == r)
            && (t != "" && t[0] == '#' ==> ReadLine(r, line) == ReadHead(r, Words(Unicode, t[1..])))
            && (t != "" && t[0] != '#' && r.cur.None? ==> ReadLine(r, line) == r)
            && (t != "" && t[0] != '#' && r.cur.Some? ==>
                  && (GivesSample(Words(Unicode, t), s) ==>
                        ReadLine(r, line) == With(r, r.cur.value,
                          At(r, r.cur.value).(samples := At(r, r.cur.value).samples + [s])))
                  && ((forall x :: !GivesSample(Words(Unicode, t), x)) ==> ReadLine(r, line) == r))
  {
    hide Trim, Words, ReadHead, ReadSample, GivesSample;
    var w := Words(Unicode, Trim(Unicode, line));
    SampleIs(w, s);
    if ReadSample(w).Some? { SampleIs(w, ReadSample(w).value); }
  }

  /** A line that is empty but for white space, or neither a head nor a sample. */
  ghost predicate BadLine(line: string) {
    var t := Trim(Unicode, line);
    t == "" || (t[0] != '#' && forall s :: !GivesSample(Words(Unicode, t), s))
  }

  /** Bad lines make no difference, wherever they stand behind the first. */
  lemma BadLineIsSkipped(r: Reading, a: seq<string>, bad: string, b: seq<string>)
    requires BadLine(bad)
    ensures ReadLines(r, a + [bad] + b) == ReadLines(r, a + b)
  {
    hide ReadLine, Trim, Words, GivesSample;
    ReadAppend(r, a + [bad], b);
    ReadAppend(r, a, [bad]);
    ReadAppend(r, a, b);
    var at := ReadLines(r, a);
    assert [bad][..0] == [];
    assert ReadLines(at, [bad]) == ReadLine(at, bad);
    LineIs(at, bad, Sample(0, false, None, None, None, None));
  }

  /** A text of another format is two empty rings. */
  lemma OtherFormatIsEmpty(text: string)
    requires Lines(text) == [] || Trim(Unicode, Lines(text)[0]) != "kfm-na-sys-hist v1"
    ensures Decode(text) == Book(Ring([], 0), "", Ring([], 0), "")
  {
    hide Lines, Trim;
  }

  /** Lines that stay single lines. */
  ghost predicate OneLiners(lines: seq<string>) {
    forall i :: 0 <= i < |lines| ==> Lines(lines[i] + "\n") == [lines[i]]
  }

  lemma {:induction false} LinesOfUnlines(lines: seq<string>)
    requires OneLiners(lines)
    ensures Lines(Unlines(lines)) == lines && Whole(Unlines(lines))
  {
    hide Lines;
    if lines == [] {
      assert Lines("") == [] by { NoLines(); }
    } else {
      var init, last := lines[..|lines| - 1], lines[|lines| - 1];
      assert OneLiners(init);
      LinesOfUnlines(init);
      LinesOfWhole(Unlines(init), last + "\n");
      assert lines == init + [last];
    }
  }

  lemma NoLines()
    ensures Lines("") == []
  {
  }

  lemma {:induction false} SampleOneLiners(samples: seq<Sample>)
    requires forall i :: 0 <= i < |samples| ==> SampleFits(samples[i])
    ensures OneLiners(SampleLines(samples))
  {
    hide Lines, SampleLine;
    if samples != [] {
      SampleOneLiners(samples[..|samples| - 1]);
      SampleLineReads(Blank().(cur := Some(Server)), samples[|samples| - 1]);
    }
  }

  lemma SegmentOneLiners(k: Kind, ring: Ring, target: string)
    requires RingFits(ring) && Keeps(target)
    ensures OneLiners(SegmentLines(k, ring, target))
  {
    hide Lines, HeadLine, SampleLines, Keeps;
    SampleOneLiners(ring.samples);
    HeadLineReads(Blank(), k, target, ring.seqNo);
  }

  lemma FormatLine()
    ensures Lines(FORMAT + "\n") == [FORMAT] && Trim(Unicode, FORMAT) == FORMAT
  {
    assert FORMAT[0] == 'k' && FORMAT[|FORMAT| - 1] == '1';
    LineOf(FORMAT);
  }

  lemma GoodBookReads(b: Book)
    requires RingFits(b.server) && RingFits(b.local) && Keeps(b.serverTarget) && Keeps(b.localTarget)
    ensures Decode(Encode(b)) == b
  {
    hide Lines, SegmentLines, Keeps, ReadLines, Unlines, Trim;
    var first, second := SegmentLines(Server, b.server, b.serverTarget), SegmentLines(Local, b.local, b.localTarget);
    var lines := [FORMAT] + first + second;
    FormatLine();
    SegmentOneLiners(Server, b.server, b.serverTarget);
    SegmentOneLiners(Local, b.local, b.localTarget);
    assert OneLiners(lines);
    LinesOfUnlines(lines);
    assert lines[1..] == first + second;
    ReadAppend(Blank(), first, second);
    SegmentReads(Blank(), Server, b.server, b.serverTarget);
    SegmentReads(ReadLines(Blank(), first), Local, b.local, b.localTarget);
  }

  // ---- only such targets can come back ----

  lemma LineKeeps(r: Reading, line: string)
    requires Keeps(r.server.target) && Keeps(r.local.target)
    ensures Keeps(ReadLine(r, line).server.target) && Keeps(ReadLine(r, line).local.target)
  {
    hide Keeps, Words, Trim, DecTarget, ReadSample;
    var t := Trim(Unicode, line);
    if t != "" && t[0] == '#' {
      var w := Words(Unicode, t[1..]);
      WordsAreWords(Unicode, t[1..]);
      DecodedKeeps(if |w| > 1 then w[1] else "-");
    }
  }

  lemma {:induction false} LinesKeep(r: Reading, lines: seq<string>)
    requires Keeps(r.server.target) && Keeps(r.local.target)
    ensures Keeps(ReadLines(r, lines).server.target) && Keeps(ReadLines(r, lines).local.target)
  {
    hide Keeps, ReadLine;
    if lines != [] {
      LinesKeep(r, lines[..|lines| - 1]);
      LineKeeps(ReadLines(r, lines[..|lines| - 1]), lines[|lines| - 1]);
    }
  }

  lemma DecodeKeeps(text: string)
    ensures Keeps(Decode(text).serverTarget) && Keeps(Decode(text).localTarget)
  {
    hide ReadLines, Lines, Trim;
    assert Keeps("");
    if Lines(text) != [] {
      LinesKeep(Blank(), Lines(text)[1..]);
    }
  }

  /** Two rings and their targets come back exactly as they were if and only if both
      targets have plain spaces as their only white space, no literal `%20`, and are not
      a lone dash. */
  lemma RoundTripIff(b: Book)
    requires RingFits(b.server) && RingFits(b.local)
    ensures Decode(Encode(b)) == b <==> Keeps(b.serverTarget) && Keeps(b.localTarget)
  {
    hide Keeps, Encode, Decode;
    DecodeKeeps(Encode(b));
    if Keeps(b.serverTarget) && Keeps(b.localTarget) {
      GoodBookReads(b);
    }
  }
}
