/** The boot-mark stripper and its four-valued account (`src/boot_mark.rs`).  Text is
    a run of bytes; every length is a byte length. */
module BootMark {
  import opened Text

  const ESC: char := '\U{1B}'
  const BEL: char := '\U{07}'

  /** The private key that opens a mark, 15 bytes. */
  const INTRO: string := [ESC] + "]7777;kfmboot="

  const MARK_CAP: nat := 64
  const WINDOW_MS: nat := 15_000

  /** What the stripper hands on: bytes to display, or a whole mark. */
  datatype Seg = Clean(text: string) | Mark(raw: string, payload: string)

  /** The same, byte by byte: how bytes are grouped into `Clean` runs is not
      part of what the consumers see. */
  datatype Tok = Byte(c: char) | Marked(raw: string, payload: string)

  datatype Scanned = Scanned(toks: seq<Tok>, hold: string)

  function Bytes(s: string): (toks: seq<Tok>)
    ensures |toks| == |s| && forall i :: 0 <= i < |s| ==> toks[i] == Byte(s[i])
  {
    if s == "" then [] else [Byte(s[0])] + Bytes(s[1..])
  }

  function Flatten(segs: seq<Seg>): seq<Tok> {
    if segs == [] then []
    else
      var last := segs[|segs| - 1];
      Flatten(segs[..|segs| - 1]) + (if last.Clean? then Bytes(last.text) else [Marked(last.raw, last.payload)])
  }

  // ---- terminators ----

  /** The first terminator, BEL or ESC backslash: where it starts and where it ends. */
  datatype Term = Term(start: nat, end: nat)

  function FindTerm(s: string, from: nat): (t: Option<Term>)
    requires from <= |s|
    ensures t.Some? ==> from <= t.value.start < t.value.end <= |s| && t.value.end <= t.value.start + 2
    decreases |s| - from
  {
    if from == |s| then None
    else if s[from] == BEL then Some(Term(from, from + 1))
    else if s[from] == ESC && from + 1 < |s| && s[from + 1] == '\\' then Some(Term(from, from + 2))
    else FindTerm(s, from + 1)
  }

  /** A terminator seen is not changed by what arrives later. */
  lemma {:induction false} FindTermStable(a: string, b: string, from: nat)
    requires from <= |a|
    ensures FindTerm(a, from).Some? ==> FindTerm(a + b, from) == FindTerm(a, from)
    ensures FindTerm(a, from).None? && FindTerm(a + b, from).Some? ==> FindTerm(a + b, from).value.end > |a|
    decreases |a| - from
  {
    if from < |a| {
      FindTermStable(a, b, from + 1);
    }
  }

  // ---- the scan ----

  /** What the front of the buffer allows: to wait for more, or to hand on the tokens
      of the first `n` bytes. */
  datatype Move = Wait | Go(toks: seq<Tok>, n: nat)

  function NextMove(s: string): (m: Move)
    requires s != ""
    ensures m.Go? ==> 1 <= m.n <= |s|
    ensures m.Wait? ==> |s| <= MARK_CAP
  {
    if s <= INTRO then Wait
    else if INTRO <= s then
      match FindTerm(s, |INTRO|)
      case None => if |s| > MARK_CAP then Go(Bytes(s), |s|) else Wait
      case Some(t) =>
        Go(if t.start - |INTRO| > MARK_CAP then Bytes(s[..t.end])
           else [Marked(s[..t.end], s[|INTRO|..t.start])], t.end)
    else Go([Byte(s[0])], 1)
  }

  /** What a run of bytes comes to, from a fresh stripper. */
  function Scan(s: string): Scanned
    decreases |s|
  {
    if s == "" then Scanned([], "")
    else
      match NextMove(s)
      case Wait => Scanned([], s)
      case Go(toks, n) =>
        Before(toks, Scan(s[n..]))
  }

  function Before(toks: seq<Tok>, rest: Scanned): Scanned { Scanned(toks + rest.toks, rest.hold) }

  lemma BeforeBefore(a: seq<Tok>, b: seq<Tok>, rest: Scanned)
    ensures Before(a, Before(b, rest)) == Before(a + b, rest)
  {
    assert a + (b + rest.toks) == (a + b) + rest.toks;
  }

  /** The bytes behind the tokens. */
  function Raw(toks: seq<Tok>): string {
    if toks == [] then ""
    else (if toks[0].Byte? then [toks[0].c] else toks[0].raw) + Raw(toks[1..])
  }

  lemma {:induction false} RawAppend(a: seq<Tok>, b: seq<Tok>)
    ensures Raw(a + b) == Raw(a) + Raw(b)
    decreases |a|
  {
    if a == [] {
      assert a + b == b;
    } else {
      assert (a + b)[1..] == a[1..] + b;
      RawAppend(a[1..], b);
    }
  }

  lemma {:induction false} RawBytes(s: string)
    ensures Raw(Bytes(s)) == s
    decreases |s|
  {
    if s != "" {
      assert Bytes(s)[1..] == Bytes(s[1..]);
      RawBytes(s[1..]);
    }
  }

  lemma MoveRaw(s: string)
    requires s != "" && NextMove(s).Go?
    ensures Raw(NextMove(s).toks) == s[..NextMove(s).n]
  {
    var n := NextMove(s).n;
    RawBytes(s[..n]);
    if !(INTRO <= s) {
      assert [Byte(s[0])][1..] == [];
    } else if FindTerm(s, |INTRO|).None? {
      assert s[..n] == s;
    } else {
      var t := FindTerm(s, |INTRO|).value;
      assert [Marked(s[..t.end], s[|INTRO|..t.start])][1..] == [];
    }
  }

  /** The scan, one decided move at a time. */
  lemma ScanGoes(s: string)
    requires s != "" && NextMove(s).Go?
    ensures Scan(s) == Before(NextMove(s).toks, Scan(s[NextMove(s).n..]))
    ensures NextMove(s).toks != [] && Scan(s).toks[0] == NextMove(s).toks[0]
  {
    MoveHasTokens(s);
    hide NextMove;
  }

  lemma MoveHasTokens(s: string)
    requires s != "" && NextMove(s).Go?
    ensures NextMove(s).toks != []
  {
    if INTRO <= s { assert |Bytes(s)| == |s|; }
  }

  lemma ScanWaits(s: string)
    requires s != "" && NextMove(s).Wait?
    ensures Scan(s) == Scanned([], s)
  {
  }

  lemma JustStarted()
    ensures Raw([]) == "" && Scan("") == Scanned([], "")
  {
  }

  /** Nothing is lost or reordered, and what is held back is short. */
  lemma {:induction false} ScanLossless(s: string)
    ensures Raw(Scan(s).toks) + Scan(s).hold == s
    ensures |Scan(s).hold| <= MARK_CAP
    decreases |s|
  {
    hide NextMove, Raw, Scan;
    JustStarted();
    if s != "" && NextMove(s).Wait? {
      ScanWaits(s);
    } else if s != "" {
      var n, toks := NextMove(s).n, NextMove(s).toks;
      var later, rest := s[n..], Scan(s[n..]);
      ScanLossless(later);
      ScanGoes(s);
      MoveRaw(s);
      RawAppend(toks, rest.toks);
      Regroup(s[..n], Raw(rest.toks), rest.hold);
      assert s == s[..n] + later;
    }
  }

  // ---- independence of how the stream is cut ----

  /** An introducer at the front whose bytes before the last byte of its terminator
      exceed the cap, or that is unfinished and exceeds it already. */
  predicate Overruns(s: string) {
    INTRO <= s &&
    match FindTerm(s, |INTRO|)
    case None => |s| > MARK_CAP
    case Some(t) => t.end > MARK_CAP + 1
  }

  /** No introducer that the scan meets overruns. */
  predicate Modest(s: string)
    decreases |s|
  {
    s == "" || (!Overruns(s) && (NextMove(s).Wait? || Modest(s[NextMove(s).n..])))
  }

  lemma PrefixCases(a: string, b: string)
    requires a != ""
    ensures !(a <= INTRO) ==> !(a + b <= INTRO)
    ensures INTRO <= a ==> INTRO <= a + b
    ensures !(a <= INTRO) && !(INTRO <= a) ==> !(INTRO <= a + b)
  {
    var s := a + b;
    assert s[..|a|] == a;
    if s <= INTRO {
      assert a == s[..|a|] == INTRO[..|a|];
    }
    if INTRO <= s && |INTRO| <= |a| {
      assert a[..|INTRO|] == s[..|INTRO|];
    }
    if INTRO <= s && |a| < |INTRO| {
      assert a == s[..|a|] == INTRO[..|a|];
    }
  }

  /** Within the cap, bytes that arrive later change no decision already possible. */
  lemma MoveStable(a: string, b: string)
    requires a != "" && !Overruns(a + b)
    ensures NextMove(a).Go? ==> NextMove(a + b) == NextMove(a)
    ensures !Overruns(a)
  {
    PrefixCases(a, b);
    if INTRO <= a {
      FindTermStable(a, b, |INTRO|);
      if FindTerm(a, |INTRO|).Some? {
        var t := FindTerm(a, |INTRO|).value;
        assert (a + b)[..t.end] == a[..t.end];
        assert (a + b)[|INTRO|..t.start] == a[|INTRO|..t.start];
      }
    }
  }

  /** From the front of these bytes the scan hands on a byte as it is: it neither waits nor
      takes a mark off. */
  predicate Shows(s: string) { s != "" && NextMove(s).Go? && NextMove(s).toks[0].Byte? }

  /** An introducer that overruns is no mark, and behind its first MARK_CAP + 1 bytes
      nothing in it is one or waits; and so for each introducer that the scan meets. */
  predicate CutFree(s: string)
    decreases |s|
  {
    s == "" || NextMove(s).Wait? ||
    var n := NextMove(s).n;
    && (Overruns(s) ==> Shows(s) && forall q {:trigger s[q..]} :: MARK_CAP < q < n ==> Shows(s[q..]))
    && CutFree(s[n..])
  }

  lemma {:induction false} ModestIsCutFree(s: string)
    requires Modest(s)
    ensures CutFree(s)
    decreases |s|
  {
    if s != "" && NextMove(s).Go? { ModestIsCutFree(s[NextMove(s).n..]); }
  }

  /** The terminator of an introducer is that of any later one in front of it. */
  lemma {:induction false} LaterTerm(s: string, from: nat, q: nat)
    requires from <= q <= |s|
    requires FindTerm(s, from).Some? ==> q <= FindTerm(s, from).value.start
    ensures FindTerm(s, from) == FindTerm(s, q)
    decreases q - from
  {
    if from < q { LaterTerm(s, from + 1, q); }
  }

  lemma {:induction false} TermFromHere(s: string, q: nat, from: nat)
    requires q + from <= |s|
    ensures FindTerm(s[q..], from)
         == match FindTerm(s, q + from)
            case None => None
            case Some(t) => Some(Term(t.start - q, t.end - q))
    decreases |s| - q - from
  {
    if q + from < |s| { TermFromHere(s, q, from + 1); }
  }

  /** An introducer does not run across a terminator. */
  lemma IntroBeforeTerm(s: string, q: nat, t: Term)
    requires q < t.end && t.start < t.end <= |s| && FindTerm(s, t.start) == Some(t) && INTRO <= s[q..]
    ensures q + |INTRO| <= t.start
  {
    assert forall k :: 0 <= k < |INTRO| ==> s[q..][k] == s[q + k] && s[q + k] == INTRO[k];
    assert s[t.start] == BEL || (s[t.start] == ESC && s[t.start + 1] == '\\');
    assert forall k :: 0 < k < |INTRO| ==> INTRO[k] != ESC && INTRO[k] != BEL && INTRO[k] != '\\';
  }

  lemma {:induction false} TermIsTerm(s: string, from: nat)
    requires from <= |s| && FindTerm(s, from).Some?
    ensures FindTerm(s, FindTerm(s, from).value.start) == FindTerm(s, from)
    decreases |s| - from
  {
    if FindTerm(s, from).value.start > from { TermIsTerm(s, from + 1); }
  }

  /** How far an introducer in front reaches. */
  lemma IntroMove(s: string)
    requires INTRO <= s && NextMove(s).Go?
    ensures NextMove(s).n == (match FindTerm(s, |INTRO|) case None => |s| case Some(t) => t.end)
    ensures NextMove(s).toks[0].Byte? ==> NextMove(s).toks == Bytes(s[..NextMove(s).n])
  {
    assert s[..|s|] == s;
  }

  /** A later introducer inside one ends where that one ends. */
  lemma InnerEnds(s: string, q: nat)
    requires INTRO <= s && NextMove(s).Go? && MARK_CAP < q < NextMove(s).n && INTRO <= s[q..] && NextMove(s[q..]).Go?
    ensures q + NextMove(s[q..]).n == NextMove(s).n
  {
    hide NextMove, FindTerm;
    IntroMove(s);
    IntroMove(s[q..]);
    TermFromHere(s, q, |INTRO|);
    match FindTerm(s, |INTRO|) {
      case None => LaterTerm(s, |INTRO|, q + |INTRO|);
      case Some(t) =>
        TermIsTerm(s, |INTRO|);
        IntroBeforeTerm(s, q, t);
        LaterTerm(s, |INTRO|, q + |INTRO|);
    }
  }

  lemma ByteMove(s: string)
    requires s != "" && NextMove(s).Go? && !(INTRO <= s)
    ensures NextMove(s) == Go([Byte(s[0])], 1) && !Overruns(s)
  {
  }

  /** Behind its first MARK_CAP + 1 bytes the rest of an overrunning introducer is shown
      byte by byte, and can itself be cut anywhere. */
  lemma {:induction false} ShownFrom(s: string, q: nat)
    requires s != "" && NextMove(s).Go? && Overruns(s) && CutFree(s) && MARK_CAP < q <= NextMove(s).n
    ensures var n := NextMove(s).n;
            Scan(s[q..]) == Before(Bytes(s[q..n]), Scan(s[n..])) && CutFree(s[q..])
    decreases NextMove(s).n - q
  {
    hide NextMove, Overruns, Scan, Shows;
    var n := NextMove(s).n;
    assert CutFree(s[n..]);
    if q == n {
      assert s[q..n] == "";
      BeforeNothing(Scan(s[n..]));
    } else {
      var b := s[q..];
      assert Shows(b);
      if INTRO <= b {
        ShownInner(s, q);
      } else {
        ShownByte(s, q);
        ShownFrom(s, q + 1);
        assert b[1..] == s[q + 1..] && s[q..n] == [b[0]] + s[q + 1..n];
        BytesAppend([b[0]], s[q + 1..n]);
        BeforeBefore([Byte(b[0])], Bytes(s[q + 1..n]), Scan(s[n..]));
        hide CutFree, Bytes;
      }
    }
  }

  lemma ShownByte(s: string, q: nat)
    requires q < |s| && Shows(s[q..]) && !(INTRO <= s[q..])
    ensures Scan(s[q..]) == Before([Byte(s[q])], Scan(s[q + 1..])) && Bytes([s[q]]) == [Byte(s[q])]
    ensures CutFree(s[q + 1..]) ==> CutFree(s[q..])
  {
    var b := s[q..];
    ByteMove(b);
    assert b[1..] == s[q + 1..];
    hide NextMove, Overruns;
  }

  lemma ShownInner(s: string, q: nat)
    requires s != "" && NextMove(s).Go? && Overruns(s) && CutFree(s) && MARK_CAP < q < NextMove(s).n
    requires INTRO <= s[q..]
    ensures var n := NextMove(s).n;
            Scan(s[q..]) == Before(Bytes(s[q..n]), Scan(s[n..])) && CutFree(s[q..])
  {
    hide NextMove, Overruns;
    var n, b := NextMove(s).n, s[q..];
    assert Shows(b);
    OverrunReaches(s);
    InnerEnds(s, q);
    IntroMove(b);
    assert b[n - q..] == s[n..] && b[..n - q] == s[q..n];
    forall p | MARK_CAP < p < n - q ensures Shows(b[p..]) {
      assert b[p..] == s[q + p..];
    }
  }

  /** What a front part of an overrunning introducer comes to. */
  lemma FrontOfOverrun(s: string, q: nat)
    requires s != "" && Overruns(s) && 0 < q < NextMove(s).n
    ensures NextMove(s).Go?
    ensures NextMove(s[..q]) == if q <= MARK_CAP then Wait else Go(Bytes(s[..q]), q)
  {
    hide FindTerm, Bytes;
    var a, b := s[..q], s[q..];
    assert s == a + b;
    FindTermFront(s, q);
    if q < |INTRO| {
      assert a == INTRO[..q];
    } else {
      assert a[..|INTRO|] == s[..|INTRO|] == INTRO;
      FindTermStable(a, b, |INTRO|);
      if q == |INTRO| { assert a == INTRO; }
    }
  }

  lemma FindTermFront(s: string, q: nat)
    requires |INTRO| <= |s| && q <= |s|
    ensures FindTerm(s, |INTRO|).Some? && |INTRO| <= q < FindTerm(s, |INTRO|).value.end
            ==> FindTerm(s[..q], |INTRO|).None?
    ensures FindTerm(s, |INTRO|).None? && |INTRO| <= q ==> FindTerm(s[..q], |INTRO|).None?
  {
    if |INTRO| <= q {
      assert s == s[..q] + s[q..];
      FindTermStable(s[..q], s[q..], |INTRO|);
    }
  }

  /** Cutting such a stream once changes neither the tokens nor the held tail. */
  lemma {:induction false} CutOnce(a: string, b: string)
    requires CutFree(a + b)
    ensures Scan(a + b) == Before(Scan(a).toks, Scan(Scan(a).hold + b))
    ensures CutFree(Scan(a).hold + b)
    decreases |a|
  {
    var s := a + b;
    if a == "" {
      assert s == b && "" + b == b;
      BeforeNothing(Scan(b));
    } else if b == "" {
      assert s == a && Scan(a).hold + b == Scan(a).hold;
      HeldIsHeld(a);
      HeldIsFree(a);
      BeforeAll(Scan(a));
    } else if Overruns(s) && |a| < NextMove(s).n {
      CutInOverrun(a, b);
    } else {
      SameMove(a, b);
      hide NextMove, Overruns, Shows;
      var m := NextMove(a);
      if m.Go? {
        var x := a[m.n..];
        assert s[m.n..] == x + b;
        CutOnce(x, b);
        BeforeBefore(m.toks, Scan(x).toks, Scan(Scan(x).hold + b));
      } else {
        BeforeNothing(Scan(s));
      }
    }
  }

  lemma BeforeAll(r: Scanned)
    ensures Before(r.toks, Scanned([], r.hold)) == r
  {
  }

  lemma {:induction false} HeldIsFree(s: string)
    ensures CutFree(Scan(s).hold)
    decreases |s|
  {
    if s != "" && NextMove(s).Go? { HeldIsFree(s[NextMove(s).n..]); }
  }

  /** Bytes that arrive later change no decision already possible, but for an introducer
      that overruns. */
  lemma SameMove(a: string, b: string)
    requires a != "" && (Overruns(a + b) ==> NextMove(a + b).Go? && |a| >= NextMove(a + b).n)
    requires b != ""
    ensures NextMove(a).Go? ==> NextMove(a + b) == NextMove(a)
  {
    if Overruns(a + b) {
      var s := a + b;
      var t := FindTerm(s, |INTRO|).value;
      assert a[..|INTRO|] == s[..|INTRO|];
      FindTermStable(a, b, |INTRO|);
      assert s[..t.end] == a[..t.end] && s[|INTRO|..t.start] == a[|INTRO|..t.start];
    } else {
      MoveStable(a, b);
    }
  }

  lemma CutInOverrun(a: string, b: string)
    requires a != "" && CutFree(a + b) && Overruns(a + b) && |a| < NextMove(a + b).n
    ensures Scan(a + b) == Before(Scan(a).toks, Scan(Scan(a).hold + b))
    ensures CutFree(Scan(a).hold + b)
  {
    hide NextMove, Overruns;
    var s := a + b;
    assert s[..|a|] == a && s[|a|..] == b;
    FrontOfOverrun(s, |a|);
    if |a| <= MARK_CAP {
      BeforeNothing(Scan(s));
    } else {
      var n := NextMove(s).n;
      ShownFrom(s, |a|);
      OverrunShows(s);
      assert s[..n] == a + s[|a|..n] && a[|a|..] == "" && "" + b == b;
      BytesAppend(a, s[|a|..n]);
      BeforeBefore(Bytes(a), Bytes(s[|a|..n]), Scan(s[n..]));
      assert Bytes(a) + [] == Bytes(a);
    }
  }

  lemma OverrunShows(s: string)
    requires s != "" && Overruns(s) && CutFree(s)
    ensures NextMove(s).Go? && NextMove(s).toks == Bytes(s[..NextMove(s).n])
  {
    IntroMove(s);
  }

  lemma BeforeNothing(rest: Scanned)
    ensures Before([], rest) == rest
  {
    assert [] + rest.toks == rest.toks;
  }

  // ---- a whole stream, chunk by chunk ----

  function Concat(chunks: seq<string>): string {
    if chunks == [] then "" else chunks[0] + Concat(chunks[1..])
  }

  /** Feeding the chunks one after the other to a stripper that holds `hold`. */
  function ScanAll(hold: string, chunks: seq<string>): Scanned
    decreases |chunks|
  {
    if chunks == [] then Scanned([], hold)
    else
      var first := Scan(hold + chunks[0]);
      Before(first.toks, ScanAll(first.hold, chunks[1..]))
  }

  /** For every stream and every cut: lossless, in order, at most MARK_CAP held. */
  lemma {:induction false} ScanAllLossless(hold: string, chunks: seq<string>)
    requires |hold| <= MARK_CAP
    ensures Raw(ScanAll(hold, chunks).toks) + ScanAll(hold, chunks).hold == hold + Concat(chunks)
    ensures |ScanAll(hold, chunks).hold| <= MARK_CAP
    decreases |chunks|
  {
    if chunks == [] {
      assert hold + "" == hold;
    } else {
      var first, more := Scan(hold + chunks[0]), Concat(chunks[1..]);
      ScanLossless(hold + chunks[0]);
      ScanAllLossless(first.hold, chunks[1..]);
      var rest := ScanAll(first.hold, chunks[1..]);
      RawAppend(first.toks, rest.toks);
      Regroup(hold, chunks[0], more);
      Regroup(Raw(first.toks), Raw(rest.toks), rest.hold);
      Regroup(Raw(first.toks), first.hold, more);
    }
  }

  /** For such a stream the cut does not matter at all. */
  lemma {:induction false} AnyCutIsTheSame(hold: string, chunks: seq<string>)
    requires CutFree(hold + Concat(chunks)) && Scan(hold) == Scanned([], hold)
    ensures ScanAll(hold, chunks) == Scan(hold + Concat(chunks))
    decreases |chunks|
  {
    if chunks == [] {
      assert hold + "" == hold;
    } else {
      var rest := Concat(chunks[1..]);
      assert hold + Concat(chunks) == (hold + chunks[0]) + rest;
      CutOnce(hold + chunks[0], rest);
      HeldIsHeld(hold + chunks[0]);
      AnyCutIsTheSame(Scan(hold + chunks[0]).hold, chunks[1..]);
    }
  }

  /** What is held back would be held back again. */
  lemma {:induction false} HeldIsHeld(s: string)
    ensures Scan(Scan(s).hold) == Scanned([], Scan(s).hold)
    decreases |s|
  {
    if s != "" && NextMove(s).Go? {
      HeldIsHeld(s[NextMove(s).n..]);
    }
  }

  // ---- how sharp the condition is ----

  lemma Cancel(toks: seq<Tok>, a: Scanned, b: Scanned)
    requires Before(toks, a) == Before(toks, b)
    ensures a == b
  {
    assert (toks + a.toks)[|toks|..] == a.toks && (toks + b.toks)[|toks|..] == b.toks;
  }

  /** What a cut of a stream at `j` comes to. */
  function InTwo(s: string, j: nat): Scanned
    requires j <= |s|
  {
    Before(Scan(s[..j]).toks, Scan(Scan(s[..j]).hold + s[j..]))
  }

  lemma CutShowsFront(s: string, j: nat)
    requires s != "" && Overruns(s) && MARK_CAP < j < NextMove(s).n
    ensures InTwo(s, j) == Before(Bytes(s[..j]), Scan(s[j..]))
  {
    hide NextMove, Overruns, Scan;
    FrontOfOverrun(s, j);
    var a := s[..j];
    ScanGoes(a);
    JustStarted();
    assert a[j..] == "" && "" + s[j..] == s[j..] && Bytes(a) + [] == Bytes(a);
  }

  lemma OverrunReaches(s: string)
    requires s != "" && Overruns(s)
    ensures NextMove(s).Go? && NextMove(s).n > MARK_CAP && INTRO <= s
    ensures !Shows(s) ==> NextMove(s).n > MARK_CAP + 1
  {
    assert |s| > MARK_CAP && !(s <= INTRO);
    assert s[..|s|] == s;
    if FindTerm(s, |INTRO|).None? {
      assert Bytes(s)[0] == Byte(s[0]);
    }
  }

  /** A mark that overruns is taken off whole, and shown if it is cut. */
  lemma CutInMark(s: string)
    requires s != "" && Overruns(s) && !Shows(s)
    ensures NextMove(s).n > MARK_CAP + 1 && InTwo(s, MARK_CAP + 1) != Scan(s)
  {
    hide NextMove, Overruns, Scan, InTwo;
    OverrunReaches(s);
    CutShowsFront(s, MARK_CAP + 1);
    ScanGoes(s);
    assert Bytes(s[..MARK_CAP + 1])[0].Byte?;
    assert InTwo(s, MARK_CAP + 1).toks[0].Byte?;
  }

  /** Cut where it does not show, what is shown whole is held back or taken off. */
  lemma CutInShown(s: string, q: nat)
    requires s != "" && Overruns(s) && Shows(s) && MARK_CAP < q < NextMove(s).n && !Shows(s[q..])
    ensures InTwo(s, q) != Scan(s)
  {
    hide NextMove, Overruns, Scan, InTwo;
    OverrunReaches(s);
    CutShowsFront(s, q);
    IntroMove(s);
    ScanGoes(s);
    var b, n := s[q..], NextMove(s).n;
    assert |Bytes(s[..q])| == q && |Bytes(s[..n])| == n;
    assert Scan(s).toks[q] == Bytes(s[..n])[q];
    if NextMove(b).Wait? {
      ScanWaits(b);
      assert |InTwo(s, q).toks| == q;
    } else {
      ScanGoes(b);
      assert InTwo(s, q).toks[q] == Scan(b).toks[0];
    }
  }

  /** Behind the first move a cut is a cut of what is behind it. */
  lemma CutBehind(s: string, n: nat, j: nat)
    requires s != "" && NextMove(s).Go? && n == NextMove(s).n && MARK_CAP < j && n + j <= |s|
    ensures InTwo(s, n + j) == Before(NextMove(s).toks, InTwo(s[n..], j))
  {
    hide NextMove, Scan;
    var a, rest := s[..n + j], s[n..];
    var x := Scan(rest[..j]);
    FrontMove(s, n + j);
    assert a[n..] == rest[..j] && rest[j..] == s[n + j..];
    ScanGoes(a);
    BeforeBefore(NextMove(s).toks, x.toks, Scan(x.hold + s[n + j..]));
  }

  lemma LaterCut(s: string, n: nat, j: nat)
    requires s != "" && NextMove(s).Go? && n == NextMove(s).n && MARK_CAP < j && n + j <= |s|
    requires InTwo(s[n..], j) != Scan(s[n..])
    ensures InTwo(s, n + j) != Scan(s)
  {
    hide NextMove, Scan, InTwo;
    CutBehind(s, n, j);
    ScanGoes(s);
    if InTwo(s, n + j) == Scan(s) {
      Cancel(NextMove(s).toks, InTwo(s[n..], j), Scan(s[n..]));
    }
  }

  lemma FrontMove(s: string, k: nat)
    requires s != "" && NextMove(s).Go? && MARK_CAP < k <= |s| && NextMove(s).n < k
    ensures NextMove(s[..k]) == NextMove(s)
  {
    var a, b := s[..k], s[k..];
    assert s == a + b;
    PrefixCases(a, b);
    if INTRO <= s {
      assert INTRO <= a;
      IntroMove(s);
      FindTermStable(a, b, |INTRO|);
      var t := FindTerm(s, |INTRO|).value;
      assert s[..t.end] == a[..t.end] && s[|INTRO|..t.start] == a[|INTRO|..t.start];
    }
  }

  /** A stream that is not free of such places comes out otherwise when it is cut at one. */
  lemma {:induction false} BadCut(s: string) returns (j: nat)
    requires !CutFree(s)
    ensures MARK_CAP < j <= |s| && InTwo(s, j) != Scan(s)
    decreases |s|
  {
    hide InTwo, Overruns, NextMove, Shows;
    var n := NextMove(s).n;
    if Overruns(s) && !Shows(s) {
      j := MARK_CAP + 1;
      CutInMark(s);
    } else if q :| Overruns(s) && MARK_CAP < q < n && !Shows(s[q..]) {
      j := q;
      CutInShown(s, q);
    } else {
      j := BadCut(s[n..]);
      LaterCut(s, n, j);
      j := n + j;
    }
  }

  /** Every cut of a stream gives the same tokens and held tail if and only if it is free of
      introducers that overrun and yet are marks, or hold what is taken off or held back. */
  lemma AnyCutIff(s: string)
    ensures (forall chunks :: Concat(chunks) == s ==> ScanAll("", chunks) == Scan(s)) <==> CutFree(s)
  {
    hide CutFree, Scan, ScanAll, Concat;
    if CutFree(s) {
      forall chunks | Concat(chunks) == s ensures ScanAll("", chunks) == Scan(s) {
        assert "" + s == s;
        JustStarted();
        AnyCutIsTheSame("", chunks);
      }
    } else {
      var j := BadCut(s);
      ConcatTwo(s[..j], s[j..]);
      TwoChunks(s[..j], s[j..]);
      assert s == s[..j] + s[j..];
      assert Concat([s[..j], s[j..]]) == s;
    }
  }

  // ---- one mark ----

  /** Bytes that neither start nor end a sequence. */
  predicate Plain(s: string) { ESC !in s && BEL !in s }

  /** The two terminators: BEL, and ESC backslash. */
  predicate IsEnd(end: string) { end == [BEL] || end == [ESC, '\\'] }

  function MarkOf(payload: string, end: string): string { INTRO + payload + end }

  lemma {:induction false} FindTermAt(s: string, from: nat, i: nat)
    requires from <= i <= |s|
    requires forall k :: from <= k < i ==> s[k] != ESC && s[k] != BEL
    requires i < |s| ==> s[i..] == [BEL] || s[i..] == [ESC, '\\'] || s[i..] == [ESC]
    ensures FindTerm(s, from) == if i < |s| && s[i..] != [ESC] then Some(Term(i, |s|)) else None
    decreases i - from
  {
    if from < i {
      FindTermAt(s, from + 1, i);
    } else if i < |s| {
      assert s[i] == s[i..][0];
      if s[i..] == [ESC] {
        assert FindTerm(s, i + 1).None?;
      } else if s[i..] == [ESC, '\\'] {
        assert s[i + 1] == s[i..][1];
      }
    }
  }

  lemma {:induction false} BytesAppend(a: string, b: string)
    ensures Bytes(a + b) == Bytes(a) + Bytes(b)
  {
  }

  /** Every ESC is followed by a backslash, so none of them opens a mark. */
  predicate OpensNothing(s: string) {
    forall k :: 0 <= k < |s| && s[k] == ESC ==> k + 1 < |s| && s[k + 1] == '\\'
  }

  lemma {:induction false} ScanOpensNothing(s: string)
    requires OpensNothing(s)
    ensures Scan(s) == Scanned(Bytes(s), "") && Modest(s)
    decreases |s|
  {
    if s != "" {
      assert !(s <= INTRO) && !(INTRO <= s) by {
        assert s[0] != INTRO[0] || s[1] != INTRO[1];
      }
      var rest := s[1..];
      assert forall k :: 0 <= k < |rest| ==> rest[k] == s[k + 1];
      ScanOpensNothing(rest);
    }
  }

  /** Such bytes are shown whole, however they are cut. */
  lemma ScanAllOpensNothing(chunks: seq<string>)
    requires OpensNothing(Concat(chunks))
    ensures ScanAll("", chunks) == Scanned(Bytes(Concat(chunks)), "")
  {
    assert "" + Concat(chunks) == Concat(chunks);
    ScanOpensNothing(Concat(chunks));
    ModestIsCutFree(Concat(chunks));
    hide Modest, CutFree, Scan, NextMove;
    JustStarted();
    AnyCutIsTheSame("", chunks);
  }

  lemma FrontBytes(payload: string, end: string, a: string)
    requires IsEnd(end) && a < MarkOf(payload, end)
    ensures |a| <= |INTRO| ==> a <= INTRO
    ensures |a| > |INTRO| ==> INTRO <= a && !(a <= INTRO)
    ensures forall k :: |INTRO| <= k < |a| && k < |INTRO| + |payload| ==> a[k] == payload[k - |INTRO|]
    ensures |a| > |INTRO| + |payload| ==> a[|INTRO| + |payload|..] == [ESC]
  {
    var m := MarkOf(payload, end);
    assert INTRO == m[..|INTRO|] && a == m[..|a|];
    if |a| <= |INTRO| {
      assert a == INTRO[..|a|];
    } else {
      assert a[..|INTRO|] == INTRO;
    }
  }

  /** A front part of a mark, without its whole terminator. */
  lemma FrontOfMark(payload: string, end: string, a: string)
    requires Plain(payload) && IsEnd(end) && a != "" && a < MarkOf(payload, end)
    ensures NextMove(a) == if |a| > MARK_CAP then Go(Bytes(a), |a|) else Wait
  {
    FrontBytes(payload, end, a);
    if |a| > |INTRO| {
      FindTermAt(a, |INTRO|, if |a| > |INTRO| + |payload| then |INTRO| + |payload| else |a|);
    }
  }

  /** A front part that is over the cap is shown at once. */
  lemma LongFrontIsShown(payload: string, end: string, a: string)
    requires Plain(payload) && IsEnd(end) && a < MarkOf(payload, end) && |a| > MARK_CAP
    ensures Scan(a) == Scanned(Bytes(a), "")
  {
    FrontOfMark(payload, end, a);
    assert a[|a|..] == "" && Bytes(a) + [] == Bytes(a);
  }

  lemma TermOfMark(payload: string, end: string)
    requires Plain(payload) && IsEnd(end)
    ensures var m := MarkOf(payload, end); FindTerm(m, |INTRO|) == Some(Term(|INTRO| + |payload|, |m|))
  {
    var m := MarkOf(payload, end);
    assert forall k :: |INTRO| <= k < |INTRO| + |payload| ==> m[k] == payload[k - |INTRO|];
    assert m[|INTRO| + |payload|..] == end;
    FindTermAt(m, |INTRO|, |INTRO| + |payload|);
  }

  lemma WholeMark(payload: string, end: string)
    requires Plain(payload) && IsEnd(end)
    ensures var m := MarkOf(payload, end);
            NextMove(m) == Go(if |payload| > MARK_CAP then Bytes(m) else [Marked(m, payload)], |m|)
    ensures Scan(MarkOf(payload, end)) == Scanned(NextMove(MarkOf(payload, end)).toks, "")
  {
    var m := MarkOf(payload, end);
    TermOfMark(payload, end);
    assert m[..|m|] == m && m[|INTRO|..|INTRO| + |payload|] == payload && m[|m|..] == "";
    assert !(m <= INTRO);
    var toks := NextMove(m).toks;
    assert toks + [] == toks;
  }

  lemma {:induction false} OversizeAnyCut(payload: string, end: string, hold: string, chunks: seq<string>)
    requires Plain(payload) && IsEnd(end) && |payload| > MARK_CAP
    requires hold + Concat(chunks) == MarkOf(payload, end) && |hold| <= MARK_CAP
    ensures ScanAll(hold, chunks) == Scanned(Bytes(MarkOf(payload, end)), "")
    decreases |chunks|
  {
    var m := MarkOf(payload, end);
    assert chunks != [];
    var a, rest := hold + chunks[0], Concat(chunks[1..]);
    assert m == a + rest by { Regroup(hold, chunks[0], rest); }
    if a == "" {
      OversizeAnyCut(payload, end, a, chunks[1..]);
      BeforeNothing(ScanAll(a, chunks[1..]));
    } else if |a| == |m| {
      assert a == m && rest == "";
      WholeMark(payload, end);
      ScanAllOpensNothing(chunks[1..]);
      BytesAppend(m, "");
      assert m + "" == m;
    } else {
      assert a < m by { assert a == m[..|a|]; }
      if |a| <= MARK_CAP {
        FrontOfMark(payload, end, a);
        OversizeAnyCut(payload, end, a, chunks[1..]);
        BeforeNothing(ScanAll(a, chunks[1..]));
      } else {
        LongFrontIsShown(payload, end, a);
        TailOfMark(payload, end, a, rest);
        ScanAllOpensNothing(chunks[1..]);
        BytesAppend(a, rest);
      }
    }
  }

  lemma TailOfMark(payload: string, end: string, a: string, rest: string)
    requires Plain(payload) && IsEnd(end) && a + rest == MarkOf(payload, end) && |a| > MARK_CAP
    ensures OpensNothing(rest)
  {
    var m := MarkOf(payload, end);
    forall k | 0 <= k < |rest| && rest[k] == ESC ensures k + 1 < |rest| && rest[k + 1] == '\\' {
      assert rest[k] == m[|a| + k];
      assert |a| + k == |INTRO| + |payload| && m[|a| + k + 1] == end[1];
      assert rest[k + 1] == m[|a| + k + 1];
    }
  }

  /** One mark, either terminator, every cut: all cuts agree exactly when the payload
      is so short that no cut can force it out early, or so long that it never counts
      as a mark.  In between - 50 to 64 bytes in front of a BEL, 49 to 64 in front of
      ESC backslash - a mark that arrives whole is taken off, but one that arrives in
      two pieces can be shown. */
  lemma SingleMarkAnyCutIff(payload: string, end: string)
    requires Plain(payload) && IsEnd(end)
    ensures (forall chunks :: Concat(chunks) == MarkOf(payload, end) ==>
                                ScanAll("", chunks) == Scan(MarkOf(payload, end)))
       <==> |payload| <= MARK_CAP + 1 - |INTRO| - |end| || |payload| > MARK_CAP
  {
    var m := MarkOf(payload, end);
    WholeMark(payload, end);
    if |payload| <= MARK_CAP + 1 - |INTRO| - |end| {
      TermOfMark(payload, end);
      assert m[|m|..] == "";
      forall chunks | Concat(chunks) == m ensures ScanAll("", chunks) == Scan(m) {
        assert "" + m == m;
        AnyCutIsTheSame("", chunks);
      }
    } else if |payload| > MARK_CAP {
      forall chunks | Concat(chunks) == m ensures ScanAll("", chunks) == Scan(m) {
        assert "" + m == m;
        OversizeAnyCut(payload, end, "", chunks);
      }
    } else {
      SplitMarkIsShown(payload, end);
    }
  }

  lemma SplitMarkIsShown(payload: string, end: string)
    requires Plain(payload) && IsEnd(end) && MARK_CAP + 1 - |INTRO| - |end| < |payload| <= MARK_CAP
    ensures exists chunks :: Concat(chunks) == MarkOf(payload, end)
              && ScanAll("", chunks) == Scanned(Bytes(MarkOf(payload, end)), "")
              && ScanAll("", chunks) != Scan(MarkOf(payload, end))
  {
    var m := MarkOf(payload, end);
    var a, b := m[..MARK_CAP + 1], m[MARK_CAP + 1..];
    assert m == a + b;
    ShownInTwo(payload, end, a, b);
    ConcatTwo(a, b);
    MarkIsNotBytes(payload, end);
  }

  lemma MarkIsNotBytes(payload: string, end: string)
    requires Plain(payload) && IsEnd(end) && |payload| <= MARK_CAP
    ensures Scan(MarkOf(payload, end)) != Scanned(Bytes(MarkOf(payload, end)), "")
  {
    WholeMark(payload, end);
    assert Bytes(MarkOf(payload, end))[0].Byte?;
  }

  lemma ShownInTwo(payload: string, end: string, a: string, b: string)
    requires Plain(payload) && IsEnd(end) && a + b == MarkOf(payload, end) && MARK_CAP < |a| && b != ""
    ensures ScanAll("", [a, b]) == Scanned(Bytes(a + b), "")
  {
    LongFrontIsShown(payload, end, a);
    TailOfMark(payload, end, a, b);
    ScanOpensNothing(b);
    assert "" + b == b;
    TwoChunks(a, b);
    BytesAppend(a, b);
  }

  lemma ConcatTwo(a: string, b: string)
    ensures Concat([a, b]) == a + b
  {
    assert Concat([b]) == b;
    assert [a, b][1..] == [b];
  }

  lemma OneChunk(hold: string, b: string)
    ensures ScanAll(hold, [b]) == Scan(hold + b)
  {
    var first := Scan(hold + b);
    assert [b][1..] == [];
    assert first.toks + [] == first.toks;
  }

  lemma TwoChunks(a: string, b: string)
    ensures ScanAll("", [a, b]) == Before(Scan(a).toks, Scan(Scan(a).hold + b))
  {
    assert [a, b][1..] == [b] && "" + a == a;
    OneChunk(Scan(a).hold, b);
  }

  // ---- the stripper as the program runs it ----

  predicate EndsInMark(segs: seq<Seg>) { segs == [] || segs[|segs| - 1].Mark? }

  /** No empty `Clean`, and no two of them side by side. */
  predicate Tidy(segs: seq<Seg>) {
    segs == [] ||
    var init, last := segs[..|segs| - 1], segs[|segs| - 1];
    Tidy(init) && (last.Clean? ==> last.text != "" && EndsInMark(init))
  }

  /** Bytes before the next ESC are handed on as they are. */
  lemma {:induction false} ScanClear(clear: string, rest: string)
    requires ESC !in clear
    ensures Scan(clear + rest) == Before(Bytes(clear), Scan(rest))
    decreases |clear|
  {
    if clear == "" {
      assert clear + rest == rest;
      BeforeNothing(Scan(rest));
    } else {
      var s := clear + rest;
      assert s[0] != ESC && INTRO[0] == ESC && !(s <= INTRO) && !(INTRO <= s);
      assert s[1..] == clear[1..] + rest;
      ScanClear(clear[1..], rest);
      BeforeBefore([Byte(s[0])], Bytes(clear[1..]), Scan(rest));
    }
  }

  /** Pending display bytes become a segment of their own, if there are any. */
  function PushClean(segs: seq<Seg>, clean: string): seq<Seg> {
    if clean == "" then segs else segs + [Clean(clean)]
  }

  /** Half way through a pass: the segments, the pending display bytes and the bytes
      still to be scanned make up the whole result. */
  ghost predicate MidPass(whole: Scanned, segs: seq<Seg>, clean: string, rest: Scanned) {
    && whole == Before(Flatten(segs) + Bytes(clean), rest)
    && Tidy(segs) && EndsInMark(segs)
  }

  lemma PassText(whole: Scanned, segs: seq<Seg>, clean: string, text: string, now: Scanned, rest: Scanned)
    requires MidPass(whole, segs, clean, now) && now == Before(Bytes(text), rest)
    ensures MidPass(whole, segs, clean + text, rest)
  {
    var flat := Flatten(segs);
    BeforeBefore(flat + Bytes(clean), Bytes(text), rest);
    BytesAppend(clean, text);
    Regroup(flat, Bytes(clean), Bytes(text));
  }

  lemma PushCleanFlat(segs: seq<Seg>, clean: string)
    ensures Flatten(PushClean(segs, clean)) == Flatten(segs) + Bytes(clean)
  {
    if clean == "" {
      assert Flatten(segs) + [] == Flatten(segs);
    } else {
    }
  }

  lemma TidyPush(segs: seq<Seg>, clean: string, mark: Seg)
    requires Tidy(segs) && EndsInMark(segs) && mark.Mark?
    ensures Tidy(PushClean(segs, clean))
    ensures Tidy(PushClean(segs, clean) + [mark])
  {
    if clean != "" {
    }
  }

  lemma PassMark(whole: Scanned, segs: seq<Seg>, clean: string, mark: Seg, now: Scanned, rest: Scanned)
    requires MidPass(whole, segs, clean, now) && mark.Mark?
    requires now == Before([Marked(mark.raw, mark.payload)], rest)
    ensures MidPass(whole, PushClean(segs, clean) + [mark], "", rest)
  {
    var flat, tok := Flatten(segs) + Bytes(clean), [Marked(mark.raw, mark.payload)];
    BeforeBefore(flat, tok, rest);
    TidyPush(segs, clean, mark);
    assert (flat + tok) + Bytes("") == flat + tok;
  }

  lemma PassClear(whole: Scanned, segs: seq<Seg>, clean: string, left: string, i: nat)
    requires MidPass(whole, segs, clean, Scan(left)) && i == Find(left, ESC)
    ensures MidPass(whole, segs, clean + left[..i], Scan(left[i..]))
  {
    hide Scan, Bytes, Flatten, MidPass, Find;
    assert left == left[..i] + left[i..];
    ScanClear(left[..i], left[i..]);
    PassText(whole, segs, clean, left[..i], Scan(left), Scan(left[i..]));
  }

  lemma PassEnd(whole: Scanned, segs: seq<Seg>, clean: string, hold: string)
    requires MidPass(whole, segs, clean, Scanned([], hold))
    ensures whole == Scanned(Flatten(PushClean(segs, clean)), hold)
    ensures Tidy(PushClean(segs, clean))
  {
    var flat := Flatten(segs) + Bytes(clean);
    assert flat + [] == flat;
    PushCleanFlat(segs, clean);
    TidyPush(segs, clean, Mark("", ""));
  }

  class BootStrip {
    var hold: string

    constructor ()
      ensures hold == ""
    {
      hold := "";
    }

    /** `feed`: one pass over the held tail and the new chunk. */
    method Feed(chunk: string) returns (segs: seq<Seg>)
      modifies this
      ensures Scanned(Flatten(segs), hold) == Scan(old(hold) + chunk)
      ensures Tidy(segs)
    {
      segs, hold := Strip(hold, chunk);
    }
  }

  method Strip(hold: string, chunk: string) returns (segs: seq<Seg>, left: string)
    ensures Scanned(Flatten(segs), left) == Scan(hold + chunk)
    ensures Tidy(segs)
  {
    var clean;
    segs, clean, left := Pass(hold + chunk);
    PassEnd(Scan(hold + chunk), segs, clean, left);
    if clean != "" {
      segs := segs + [Clean(clean)];
    }
  }

  /** The scan loop of `feed`; `left` is the buffer from the current position on. */
  method Pass(buf: string) returns (segs: seq<Seg>, clean: string, left: string)
    ensures MidPass(Scan(buf), segs, clean, Scanned([], left))
  {
    segs, clean, left := [], "", buf;
    BeforeNothing(Scan(buf));
    while left != ""
      invariant MidPass(Scan(buf), segs, clean, Scan(left))
      decreases |left|
    {
      var i := Find(left, ESC);
      PassClear(Scan(buf), segs, clean, left, i);
      clean := clean + left[..i];
      left := left[i..];
      if left == "" { return; }
      var n;
      segs, clean, n := TakeFront(left, segs, clean, Scan(buf));
      if n == 0 { return; }
      left := left[n..];
    }
  }

  /** The rest of the loop body, at an ESC: takes `n` bytes, or none when more input
      is needed. */
  method TakeFront(rest: string, segs: seq<Seg>, clean: string, ghost whole: Scanned)
    returns (segs': seq<Seg>, clean': string, n: nat)
    requires rest != "" && MidPass(whole, segs, clean, Scan(rest))
    ensures n <= |rest| && MidPass(whole, segs', clean', Scan(rest[n..]))
    ensures n == 0 ==> Scan(rest) == Scanned([], rest) && MidPass(whole, segs', clean', Scanned([], rest))
  {
    segs', clean' := segs, clean;
    if rest <= INTRO {
      assert rest[0..] == rest;
      return segs, clean, 0;
    }
    if !(INTRO <= rest) {
      ScanGoes(rest);
      assert Bytes([rest[0]]) == [Byte(rest[0])];
      PassText(whole, segs, clean, [rest[0]], Scan(rest), Scan(rest[1..]));
      return segs, clean + [rest[0]], 1;
    }
    var term := FirstTerm(rest);
    if term.None? {
      if |rest| > MARK_CAP {
        ScanGoes(rest);
        PassText(whole, segs, clean, rest, Scan(rest), Scan(rest[|rest|..]));
        return segs, clean + rest, |rest|;
      }
      assert rest[0..] == rest;
      return segs, clean, 0;
    }
    var t := term.value;
    ScanGoes(rest);
    n := t.end;
    if t.start - |INTRO| > MARK_CAP {
      PassText(whole, segs, clean, rest[..t.end], Scan(rest), Scan(rest[t.end..]));
      clean' := clean + rest[..t.end];
    } else {
      var mark := Mark(rest[..t.end], rest[|INTRO|..t.start]);
      PassMark(whole, segs, clean, mark, Scan(rest), Scan(rest[t.end..]));
      if clean != "" {
        segs' := segs' + [Clean(clean)];
        clean' := "";
      }
      segs' := segs' + [mark];
    }
  }

  /** Two searches, and the earlier hit wins. */
  method FirstTerm(rest: string) returns (t: Option<Term>)
    requires INTRO <= rest
    ensures t == FindTerm(rest, |INTRO|)
  {
    var body := rest[|INTRO|..];
    var bel := Find(body, BEL);
    var st := FindSt(body, 0);
    FindTermMeets(rest, |INTRO|, bel, st);
    if bel < |body| && (st.None? || bel < st.value) {
      return Some(Term(|INTRO| + bel, |INTRO| + bel + 1));
    }
    if st.Some? {
      return Some(Term(|INTRO| + st.value, |INTRO| + st.value + 2));
    }
    return None;
  }

  /** Rust's `find("\u{1b}\\")`. */
  function FindSt(s: string, from: nat): (i: Option<nat>)
    requires from <= |s|
    ensures i.Some? ==> from <= i.value && i.value + 1 < |s| && s[i.value] == ESC && s[i.value + 1] == '\\'
    ensures forall k :: from <= k < |s| - 1 && (i.Some? ==> k < i.value) ==> !(s[k] == ESC && s[k + 1] == '\\')
    decreases |s| - from
  {
    if |s| - from < 2 then None
    else if s[from] == ESC && s[from + 1] == '\\' then Some(from)
    else FindSt(s, from + 1)
  }

  /** Where the two searches say that the first terminator starts. */
  function Stop(body: string, bel: nat, st: Option<nat>): nat {
    if bel < |body| && (st.None? || bel < st.value) then bel else if st.Some? then st.value else |body|
  }

  lemma NoneBeforeStop(body: string, bel: nat, st: Option<nat>, k: nat)
    requires bel == Find(body, BEL) && st == FindSt(body, 0) && k < |body| && k < Stop(body, bel, st)
    ensures body[k] != BEL && !(body[k] == ESC && k + 1 < |body| && body[k + 1] == '\\')
  {
    hide Find, FindSt;
  }

  lemma {:induction false} FindTermMeets(s: string, from: nat, bel: nat, st: Option<nat>)
    requires from <= |s| && bel == Find(s[from..], BEL) && st == FindSt(s[from..], 0)
    ensures FindTerm(s, from)
         == if from + bel < |s| && (st.None? || bel < st.value) then Some(Term(from + bel, from + bel + 1))
            else if st.Some? then Some(Term(from + st.value, from + st.value + 2))
            else None
  {
    hide Find, FindSt;
    var body := s[from..];
    var stop := Stop(body, bel, st);
    forall k | from <= k < from + stop
      ensures s[k] != BEL && !(s[k] == ESC && k + 1 < |s| && s[k + 1] == '\\')
    {
      NoneBeforeStop(body, bel, st, k - from);
      assert s[k] == body[k - from];
      assert k + 1 < |s| ==> s[k + 1] == body[k + 1 - from];
    }
    FindTermFirst(s, from, from + stop);
    assert stop < |body| ==> s[from + stop] == body[stop];
    assert stop + 1 < |body| ==> s[from + stop + 1] == body[stop + 1];
  }

  lemma {:induction false} FindTermFirst(s: string, from: nat, stop: nat)
    requires from <= stop <= |s|
    requires forall k :: from <= k < stop ==> s[k] != BEL && !(s[k] == ESC && k + 1 < |s| && s[k + 1] == '\\')
    ensures FindTerm(s, from) == FindTerm(s, stop)
    decreases stop - from
  {
    if from < stop {
      FindTermFirst(s, from + 1, stop);
    }
  }

  // ---- the account ----

  datatype BootMark = Pending | Stripped(name: string) | Missed | Bad(payload: string)

  datatype Acct = Acct(state: BootMark, openedAt: nat, deadline: nat, applied: bool)

  /** What can happen to the account of one leg. */
  datatype Event = Open(now: nat) | Close | Tick(now: nat) | Record(payload: string, now: nat) | Take

  datatype Reply = Silent | Late(since: nat, window: int) | Kept | Rejected | Session(name: string) | Bare

  const SHELL_SENTINEL: string := "__kfm_shell__"

  predicate BadPayload(p: string) { p == "" || exists i :: 0 <= i < |p| && (p[i] < ' ' || p[i] == '\U{7F}') }

  /** `open`, `close`, `tick`, `record` and `take_apply` on one leg. */
  function Step(a: Option<Acct>, ev: Event): (Option<Acct>, Reply) {
    match ev
    case Open(now) => (Some(Acct(Pending, now, now + WINDOW_MS, false)), Silent)
    case Close => (None, Silent)
    case Tick(now) =>
      if a.None? || a.value.state != Pending || now <= a.value.deadline then (a, Silent)
      else (Some(a.value.(state := Missed)), Late(a.value.openedAt, a.value.deadline - a.value.openedAt))
    case Record(payload, now) =>
      if a.None? || a.value.state != Pending || now > a.value.deadline then (a, Rejected)
      else (Some(a.value.(state := if BadPayload(payload) then Bad(payload) else Stripped(payload))), Kept)
    case Take =>
      if a.None? || a.value.applied || !a.value.state.Stripped? then (a, Silent)
      else (Some(a.value.(applied := true)),
            if a.value.state.name == SHELL_SENTINEL then Bare else Session(a.value.state.name))
  }

  /** The account after a run, with the reply to each event. */
  function Run(a: Option<Acct>, evs: seq<Event>): (r: (Option<Acct>, seq<Reply>))
    ensures |r.1| == |evs|
  {
    if evs == [] then (a, [])
    else
      var (b, replies) := Run(a, evs[..|evs| - 1]);
      var (c, reply) := Step(b, evs[|evs| - 1]);
      (c, replies + [reply])
  }

  function Keeps(r: Reply): nat { if r.Kept? then 1 else 0 }

  function Misses(r: Reply): nat { if r.Late? then 1 else 0 }

  function Takes(r: Reply): nat { if r.Session? || r.Bare? then 1 else 0 }

  /** How many replies count for `f`. */
  function Tally(f: Reply -> nat, replies: seq<Reply>): nat {
    if replies == [] then 0
    else f(replies[|replies| - 1]) + Tally(f, replies[..|replies| - 1])
  }

  lemma TallyNext(f: Reply -> nat, replies: seq<Reply>, r: Reply)
    ensures Tally(f, replies + [r]) == Tally(f, replies) + f(r)
  {
    assert (replies + [r])[..|replies|] == replies;
  }

  function Opened(at: nat): Option<Acct> { Some(Acct(Pending, at, at + WINDOW_MS, false)) }

  /** What the marks kept, the window reported over and the verdicts taken say about
      an account. */
  ghost predicate Alive(a: Option<Acct>, at: nat, kept: nat, late: nat, taken: nat) {
    && kept + late <= 1 && taken <= kept
    && (a.Some? ==>
          && a.value.openedAt == at && a.value.deadline == at + WINDOW_MS
          && (a.value.state == Pending <==> kept + late == 0)
          && (a.value.state == Missed <==> late == 1)
          && (a.value.applied <==> taken == 1))
  }

  lemma AliveStep(a: Option<Acct>, at: nat, kept: nat, late: nat, taken: nat, ev: Event)
    requires Alive(a, at, kept, late, taken) && !ev.Open?
    ensures var (b, reply) := Step(a, ev);
            Alive(b, at, kept + Keeps(reply), late + Misses(reply), taken + Takes(reply))
  {
  }

  /** Between one opening and the next an account is settled at most once - by a mark
      inside the window or by the window running out, never both - and a verdict is
      handed out at most once, and only if a mark was kept. */
  lemma {:induction false} AccountLife(at: nat, evs: seq<Event>)
    requires forall i :: 0 <= i < |evs| ==> !evs[i].Open?
    ensures var (a, replies) := Run(Opened(at), evs);
            Alive(a, at, Tally(Keeps, replies), Tally(Misses, replies), Tally(Takes, replies))
    decreases |evs|
  {
    if evs != [] {
      var init := evs[..|evs| - 1];
      AccountLife(at, init);
      var (b, replies) := Run(Opened(at), init);
      var reply := Step(b, evs[|evs| - 1]).1;
      AliveStep(b, at, Tally(Keeps, replies), Tally(Misses, replies), Tally(Takes, replies), evs[|evs| - 1]);
      TallyNext(Keeps, replies, reply);
      TallyNext(Misses, replies, reply);
      TallyNext(Takes, replies, reply);
    }
  }

  /** Marks are kept only inside the window, lateness is reported only after it. */
  lemma {:induction false} WindowDecides(at: nat, evs: seq<Event>, i: nat)
    requires i < |evs| && forall j :: 0 <= j < |evs| ==> !evs[j].Open?
    ensures var reply := Run(Opened(at), evs).1[i];
            && (reply.Kept? ==> evs[i].Record? && evs[i].now <= at + WINDOW_MS)
            && (reply.Late? ==> evs[i].Tick? && evs[i].now > at + WINDOW_MS && reply == Late(at, WINDOW_MS))
    decreases |evs|
  {
    var init := evs[..|evs| - 1];
    if i < |init| {
      WindowDecides(at, init, i);
    } else {
      AccountLife(at, init);
    }
  }

  /** The mark with payload `name` that event `i` brought was kept. */
  ghost predicate KeptAt(at: nat, evs: seq<Event>, replies: seq<Reply>, i: nat, name: string) {
    && i < |evs| && i < |replies|
    && evs[i].Record? && evs[i].payload == name && evs[i].now <= at + WINDOW_MS
    && replies[i] == Kept && !BadPayload(name)
  }

  /** A name in the account is the payload of a mark kept before. */
  lemma {:induction false} NameWasKept(at: nat, evs: seq<Event>)
    requires forall i :: 0 <= i < |evs| ==> !evs[i].Open?
    ensures var (a, replies) := Run(Opened(at), evs);
            a.Some? && a.value.state.Stripped? ==>
              exists i :: 0 <= i < |evs| && KeptAt(at, evs, replies, i, a.value.state.name)
    decreases |evs|
  {
    if evs != [] {
      var init, last := evs[..|evs| - 1], evs[|evs| - 1];
      NameWasKept(at, init);
      AccountLife(at, init);
      var (b, before) := Run(Opened(at), init);
      var (a, replies) := Run(Opened(at), evs);
      assert replies == before + [Step(b, last).1];
      if a.Some? && a.value.state.Stripped? {
        if b.Some? && b.value.state.Stripped? {
          var i :| 0 <= i < |init| && KeptAt(at, init, before, i, b.value.state.name);
          KeptLater(at, init, before, i, b.value.state.name, last, Step(b, last).1);
          assert evs == init + [last];
        } else {
          assert KeptAt(at, evs, replies, |init|, a.value.state.name);
        }
      }
    }
  }

  /** The name that a reply hands out; a bare shell stands for the sentinel. */
  function NameOf(r: Reply): string
    requires r.Session? || r.Bare?
  {
    if r.Session? then r.name else SHELL_SENTINEL
  }

  lemma TakenIsName(a: Option<Acct>, ev: Event)
    requires Step(a, ev).1.Session? || Step(a, ev).1.Bare?
    ensures var r := Step(a, ev).1;
            && a.Some? && a.value.state == Stripped(NameOf(r))
            && (r.Session? ==> r.name != SHELL_SENTINEL)
  {
  }

  lemma KeptLater(at: nat, evs: seq<Event>, replies: seq<Reply>, i: nat, name: string, ev: Event, r: Reply)
    requires KeptAt(at, evs, replies, i, name)
    ensures KeptAt(at, evs + [ev], replies + [r], i, name)
  {
  }

  /** What is handed out is what was kept: reply `k` names a session, or says that
      there is none, only when the payload of a mark kept before event `k` and inside
      the window was exactly that name, or the sentinel. */
  lemma {:induction false} TakenWasKept(at: nat, evs: seq<Event>, k: nat)
    requires k < |evs| && forall i :: 0 <= i < |evs| ==> !evs[i].Open?
    ensures var replies := Run(Opened(at), evs).1;
            replies[k].Session? || replies[k].Bare? ==>
              && (replies[k].Session? ==> replies[k].name != SHELL_SENTINEL)
              && exists i :: 0 <= i < k && KeptAt(at, evs, replies, i, NameOf(replies[k]))
    decreases |evs|
  {
    var init, last := evs[..|evs| - 1], evs[|evs| - 1];
    var (b, before) := Run(Opened(at), init);
    var replies := Run(Opened(at), evs).1;
    assert replies == before + [Step(b, last).1] && evs == init + [last];
    hide Step, BadPayload, KeptAt, Opened;
    if replies[k].Session? || replies[k].Bare? {
      var name := NameOf(replies[k]);
      if k < |init| {
        TakenWasKept(at, init, k);
      } else {
        NameWasKept(at, init);
        TakenIsName(b, last);
      }
      var i :| 0 <= i < k && KeptAt(at, init, before, i, name);
      KeptLater(at, init, before, i, name, last, Step(b, last).1);
    }
  }

  // ---- every reply, by the events before it ----

  /** Some visible text. */
  predicate Readable(p: string) { p != "" && forall i :: 0 <= i < |p| ==> p[i] >= ' ' && p[i] != '\U{7F}' }

  /** The event settles an account opened at `at`, if it is the first that does. */
  predicate Settles(ev: Event, at: nat) {
    match ev
    case Close => true
    case Record(_, now) => now <= at + WINDOW_MS
    case Tick(now) => now > at + WINDOW_MS
    case _ => false
  }

  ghost predicate Unsettled(evs: seq<Event>, at: nat) { forall i :: 0 <= i < |evs| ==> !Settles(evs[i], at) }

  /** Event `i` is a mark inside the window, and nothing has settled the account before. */
  ghost predicate MarkKept(evs: seq<Event>, at: nat, i: nat) {
    i < |evs| && evs[i].Record? && evs[i].now <= at + WINDOW_MS && Unsettled(evs[..i], at)
  }

  /** Event `i` is a tick after the window, and nothing has settled the account before. */
  ghost predicate MarkMissed(evs: seq<Event>, at: nat, i: nat) {
    i < |evs| && evs[i].Tick? && evs[i].now > at + WINDOW_MS && Unsettled(evs[..i], at)
  }

  /** Event `k` takes the verdict `name`: a mark with that payload was kept, and it was
      neither taken nor the account closed since. */
  ghost predicate HandsOut(evs: seq<Event>, at: nat, k: nat, name: string) {
    && k < |evs| && evs[k].Take? && Readable(name)
    && exists i: nat :: i < k && HandsOutFrom(evs, at, k, name, i)
  }

  ghost predicate HandsOutFrom(evs: seq<Event>, at: nat, k: nat, name: string, i: nat)
    requires i < k < |evs|
  {
    MarkKept(evs, at, i) && evs[i].payload == name && forall j :: i < j < k ==> !evs[j].Close? && !evs[j].Take?
  }

  lemma {:induction false} StillPending(at: nat, evs: seq<Event>)
    requires Unsettled(evs, at) && forall i :: 0 <= i < |evs| ==> !evs[i].Open?
    ensures Run(Opened(at), evs).0 == Opened(at)
  {
    hide BadPayload;
    if evs != [] {
      var init, last := evs[..|evs| - 1], evs[|evs| - 1];
      assert !Settles(last, at);
      StillPending(at, init);
    }
  }

  lemma BadIsUnreadable(p: string)
    ensures BadPayload(p) <==> !Readable(p)
  {
  }

  /** The account that event `i` settled, after more events without a closing. */
  function SettledAs(ev: Event, at: nat, taken: bool): Acct
    requires ev.Record? || ev.Tick?
  {
    if ev.Tick? then Acct(Missed, at, at + WINDOW_MS, false)
    else if Readable(ev.payload) then Acct(Stripped(ev.payload), at, at + WINDOW_MS, taken)
    else Acct(Bad(ev.payload), at, at + WINDOW_MS, false)
  }

  ghost predicate TakenSince(evs: seq<Event>, i: nat) { exists j :: i < j < |evs| && evs[j].Take? }

  ghost predicate ClosedSince(evs: seq<Event>, i: nat) { exists j :: i <= j < |evs| && evs[j].Close? }

  lemma SinceSnoc(init: seq<Event>, last: Event, i: nat)
    requires i < |init|
    ensures TakenSince(init + [last], i) <==> TakenSince(init, i) || last.Take?
    ensures ClosedSince(init + [last], i) <==> ClosedSince(init, i) || last.Close?
  {
    var evs := init + [last];
    assert evs[|init|] == last;
    if j :| i < j < |init| && init[j].Take? { assert evs[j].Take?; }
    if j :| i <= j < |init| && init[j].Close? { assert evs[j].Close?; }
  }

  lemma {:induction false} SettledStays(at: nat, evs: seq<Event>, i: nat)
    requires i < |evs| && Settles(evs[i], at) && Unsettled(evs[..i], at)
    requires forall j :: 0 <= j < |evs| ==> !evs[j].Open?
    ensures Run(Opened(at), evs).0
         == if ClosedSince(evs, i) then None else Some(SettledAs(evs[i], at, TakenSince(evs, i)))
    decreases |evs|
  {
    hide BadPayload, Readable;
    var init, last := evs[..|evs| - 1], evs[|evs| - 1];
    assert evs == init + [last];
    if i == |init| {
      StillPending(at, init);
      if last.Record? { BadIsUnreadable(last.payload); }
    } else {
      assert init[..i] == evs[..i] && init[i] == evs[i];
      SettledStays(at, init, i);
      SinceSnoc(init, last, i);
    }
  }

  /** Where the account was settled, if it was. */
  lemma {:induction false} WhereSettled(at: nat, evs: seq<Event>) returns (i: nat)
    ensures i <= |evs| && Unsettled(evs[..i], at)
    ensures i < |evs| ==> Settles(evs[i], at)
    ensures i == |evs| ==> Unsettled(evs, at)
  {
    if evs == [] {
      i := 0;
    } else {
      var init := evs[..|evs| - 1];
      i := WhereSettled(at, init);
      if i == |init| && !Settles(evs[i], at) { i := i + 1; }
      assert i <= |init| ==> evs[..i] == init[..i];
      assert evs[..|evs|] == evs;
    }
  }

  lemma {:induction false} ReplyAt(at: nat, evs: seq<Event>, k: nat)
    requires k < |evs|
    ensures Run(Opened(at), evs).1[k] == Step(Run(Opened(at), evs[..k]).0, evs[k]).1
    decreases |evs|
  {
    hide Step;
    var init := evs[..|evs| - 1];
    if k < |init| {
      ReplyAt(at, init, k);
      assert init[..k] == evs[..k];
    }
  }

  /** Before event `k` the account waits as it was opened, or does not wait any more. */
  lemma WaitsOrNot(at: nat, evs: seq<Event>, k: nat)
    requires k < |evs| && forall i :: 0 <= i < |evs| ==> !evs[i].Open?
    ensures var a := Run(Opened(at), evs[..k]).0;
            if Unsettled(evs[..k], at) then a == Opened(at) else a.None? || a.value.state != Pending
  {
    hide BadPayload, Readable, Run, Settles;
    var before := evs[..k];
    var i := WhereSettled(at, before);
    if i < k {
      SettledStays(at, before, i);
      CloseSettles(before[i], at);
    } else {
      StillPending(at, before);
    }
  }

  lemma CloseSettles(ev: Event, at: nat)
    requires Settles(ev, at)
    ensures ev.Close? || ev.Record? || ev.Tick?
  {
  }

  /** A mark is kept if and only if it comes inside the window before anything has settled
      the account, and rejected otherwise. */
  lemma KeptIff(at: nat, evs: seq<Event>, k: nat)
    requires k < |evs| && forall i :: 0 <= i < |evs| ==> !evs[i].Open?
    ensures Run(Opened(at), evs).1[k] == Kept <==> MarkKept(evs, at, k)
    ensures Run(Opened(at), evs).1[k] == Rejected <==> evs[k].Record? && !MarkKept(evs, at, k)
  {
    hide BadPayload, Run, Unsettled;
    ReplyAt(at, evs, k);
    WaitsOrNot(at, evs, k);
  }

  /** The window is reported over if and only if a tick comes after it before anything has
      settled the account. */
  lemma LateIff(at: nat, evs: seq<Event>, k: nat)
    requires k < |evs| && forall i :: 0 <= i < |evs| ==> !evs[i].Open?
    ensures Run(Opened(at), evs).1[k] == Late(at, WINDOW_MS) <==> MarkMissed(evs, at, k)
    ensures Run(Opened(at), evs).1[k].Late? ==> MarkMissed(evs, at, k)
  {
    hide BadPayload, Run, Unsettled;
    ReplyAt(at, evs, k);
    WaitsOrNot(at, evs, k);
  }

  /** What settles an account comes once. */
  lemma OneSettles(evs: seq<Event>, at: nat, i: nat, j: nat)
    requires i < |evs| && j < |evs| && Settles(evs[i], at) && Settles(evs[j], at)
    requires Unsettled(evs[..i], at) && Unsettled(evs[..j], at)
    ensures i == j
  {
  }

  lemma HandedOut(at: nat, evs: seq<Event>, k: nat, i: nat, name: string)
    requires i < k < |evs| && evs[k].Take? && MarkKept(evs, at, i)
    ensures HandsOut(evs, at, k, name)
       <==> Readable(name) && name == evs[i].payload && !ClosedSince(evs[..k], i) && !TakenSince(evs[..k], i)
  {
    hide Readable;
    var before := evs[..k];
    if HandsOut(evs, at, k, name) {
      var m: nat :| m < k && HandsOutFrom(evs, at, k, name, m);
      OneSettles(evs, at, i, m);
      assert forall j :: i < j < k ==> before[j] == evs[j];
    }
    if Readable(name) && name == evs[i].payload && !ClosedSince(before, i) && !TakenSince(before, i) {
      assert forall j :: i < j < k ==> before[j] == evs[j];
      assert HandsOutFrom(evs, at, k, name, i);
    }
  }

  /** A name is handed out if and only if a readable mark with that name was kept, and since
      then neither handed out nor the account closed; the sentinel says that there is none. */
  lemma TakenIff(at: nat, evs: seq<Event>, k: nat, name: string)
    requires k < |evs| && forall i :: 0 <= i < |evs| ==> !evs[i].Open?
    ensures Run(Opened(at), evs).1[k] == Session(name) <==> name != SHELL_SENTINEL && HandsOut(evs, at, k, name)
    ensures Run(Opened(at), evs).1[k] == Bare <==> HandsOut(evs, at, k, SHELL_SENTINEL)
  {
    hide BadPayload, Readable, Run;
    var before := evs[..k];
    ReplyAt(at, evs, k);
    var i := WhereSettled(at, before);
    if i == k {
      StillPending(at, before);
      NoneHanded(at, evs, k, name);
      NoneHanded(at, evs, k, SHELL_SENTINEL);
    } else {
      SettledStays(at, before, i);
      assert before[..i] == evs[..i] && before[i] == evs[i];
      if evs[i].Record? && evs[k].Take? {
        HandedOut(at, evs, k, i, name);
        HandedOut(at, evs, k, i, SHELL_SENTINEL);
      } else {
        OtherwiseNone(at, evs, k, i, name);
        OtherwiseNone(at, evs, k, i, SHELL_SENTINEL);
        assert !evs[i].Record? ==> evs[i].Tick? || evs[i].Close?;
      }
    }
  }

  lemma NoneHanded(at: nat, evs: seq<Event>, k: nat, name: string)
    requires k < |evs| && Unsettled(evs[..k], at)
    ensures !HandsOut(evs, at, k, name)
  {
    hide Readable;
    forall m: nat | m < k ensures !Settles(evs[m], at) {
      assert evs[..k][m] == evs[m];
    }
  }

  lemma OtherwiseNone(at: nat, evs: seq<Event>, k: nat, i: nat, name: string)
    requires i < k < |evs| && Settles(evs[i], at) && Unsettled(evs[..i], at) && !(evs[i].Record? && evs[k].Take?)
    ensures !HandsOut(evs, at, k, name)
  {
    hide Readable;
    if HandsOut(evs, at, k, name) {
      var m: nat :| m < k && HandsOutFrom(evs, at, k, name, m);
      OneSettles(evs, at, i, m);
    }
  }

  /** Opening starts afresh whatever was before; where there is no account, nothing is kept,
      reported or handed out. */
  lemma OpenRestarts(a: Option<Acct>, at: nat)
    ensures Step(a, Event.Open(at)) == (Opened(at), Silent)
  {
  }

  lemma {:induction false} NoAccount(evs: seq<Event>, k: nat)
    requires k < |evs| && forall i :: 0 <= i < |evs| ==> !evs[i].Open?
    ensures Run(None, evs).0 == None
    ensures Run(None, evs).1[k] == if evs[k].Record? then Rejected else Silent
    decreases |evs|
  {
    hide BadPayload;
    var init := evs[..|evs| - 1];
    if init != [] { NoAccount(init, if k < |init| then k else 0); }
  }

  function Lookup(reg: map<string, Acct>, leg: string): Option<Acct> {
    if leg in reg then Some(reg[leg]) else None
  }

  /** `after` differs from `before` in one leg at most, where it is `a`. */
  ghost predicate OnlyLeg(before: map<string, Acct>, after: map<string, Acct>, leg: string, a: Option<Acct>) {
    Lookup(after, leg) == a && before - {leg} == after - {leg}
  }

  /** The static register, one account per leg. */
  class Register {
    var reg: map<string, Acct>

    constructor ()
      ensures reg == map[]
    {
      reg := map[];
    }

    method Open(leg: string, now: nat)
      modifies this
      ensures OnlyLeg(old(reg), reg, leg, Step(Lookup(old(reg), leg), Event.Open(now)).0)
    {
      reg := reg[leg := Acct(Pending, now, now + WINDOW_MS, false)];
    }

    method Close(leg: string)
      modifies this
      ensures OnlyLeg(old(reg), reg, leg, Step(Lookup(old(reg), leg), Event.Close).0)
    {
      reg := reg - {leg};
    }

    method Tick(leg: string, now: nat) returns (reply: Reply)
      modifies this
      ensures OnlyLeg(old(reg), reg, leg, Step(Lookup(old(reg), leg), Event.Tick(now)).0)
      ensures reply == Step(Lookup(old(reg), leg), Event.Tick(now)).1
    {
      if leg !in reg { return Silent; }
      var a := reg[leg];
      if a.state != Pending || now <= a.deadline { return Silent; }
      reg := reg[leg := a.(state := Missed)];
      return Late(a.openedAt, a.deadline - a.openedAt);
    }

    method Record(leg: string, payload: string, now: nat) returns (reply: Reply)
      modifies this
      ensures OnlyLeg(old(reg), reg, leg, Step(Lookup(old(reg), leg), Event.Record(payload, now)).0)
      ensures reply == Step(Lookup(old(reg), leg), Event.Record(payload, now)).1
    {
      if leg !in reg { return Rejected; }
      var a := reg[leg];
      if a.state != Pending || now > a.deadline { return Rejected; }
      if BadPayload(payload) {
        reg := reg[leg := a.(state := Bad(payload))];
      } else {
        reg := reg[leg := a.(state := Stripped(payload))];
      }
      return Kept;
    }

    method TakeApply(leg: string) returns (reply: Reply)
      modifies this
      ensures OnlyLeg(old(reg), reg, leg, Step(Lookup(old(reg), leg), Take).0)
      ensures reply == Step(Lookup(old(reg), leg), Take).1
    {
      if leg !in reg { return Silent; }
      var a := reg[leg];
      if a.applied || !a.state.Stripped? { return Silent; }
      reg := reg[leg := a.(applied := true)];
      return if a.state.name == SHELL_SENTINEL then Bare else Session(a.state.name);
    }
  }
}
