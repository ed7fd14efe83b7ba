/** The session pump (`SessionPump` in `src/gate.rs`): it alone drains the inbound
    channels, takes boot marks off, shows every byte to the recorder, and sends
    it either to the display or to the replay buffer of a session in waiting. */
module SessionPump {
  import opened Text
  import BM = BootMark

  const REPLAY_CAP_BYTES: nat := 256 * 1024
  const CONTROL_CAP: nat := 256

  /** What a channel delivers: output, or a life-cycle event for the UI. */
  datatype SessionEvent = Output(data: string) | Control(what: string)

  /** A registered session and what waits in its channel. */
  datatype Slot = Slot(name: string, inbox: seq<SessionEvent>)

  datatype Replay = Replay(queue: seq<string>, bytes: nat)

  /** What became of one run of received bytes. */
  datatype Piece = Sunk(text: string) | Queued(text: string) | Removed(raw: string, payload: string)

  function RawOf(ps: seq<Piece>): string {
    if ps == [] then ""
    else
      var p := ps[|ps| - 1];
      RawOf(ps[..|ps| - 1]) + (if p.Removed? then p.raw else p.text)
  }

  /** What the recorder is shown: everything that was not removed. */
  function TextsOf(ps: seq<Piece>): seq<string> {
    if ps == [] then []
    else
      var p := ps[|ps| - 1];
      TextsOf(ps[..|ps| - 1]) + (if p.Removed? then [] else [p.text])
  }

  function QueuedOf(ps: seq<Piece>): seq<string> {
    if ps == [] then []
    else
      var p := ps[|ps| - 1];
      QueuedOf(ps[..|ps| - 1]) + (if p.Queued? then [p.text] else [])
  }

  /** What the display is fed. */
  function SunkOf(ps: seq<Piece>): seq<string> {
    if ps == [] then []
    else
      var p := ps[|ps| - 1];
      SunkOf(ps[..|ps| - 1]) + (if p.Sunk? then [p.text] else [])
  }

  predicate NoneQueued(ps: seq<Piece>) { forall i :: 0 <= i < |ps| ==> !ps[i].Queued? }

  predicate NoneSunk(ps: seq<Piece>) { forall i :: 0 <= i < |ps| ==> !ps[i].Sunk? }

  lemma Snoc(ps: seq<Piece>, p: Piece)
    ensures RawOf(ps + [p]) == RawOf(ps) + (if p.Removed? then p.raw else p.text)
    ensures TextsOf(ps + [p]) == TextsOf(ps) + (if p.Removed? then [] else [p.text])
    ensures QueuedOf(ps + [p]) == QueuedOf(ps) + (if p.Queued? then [p.text] else [])
    ensures RemovedOf(ps + [p]) == RemovedOf(ps) + (if p.Removed? then [p.payload] else [])
  {
    assert (ps + [p])[..|ps|] == ps;
  }

  function Total(q: seq<string>): nat { if q == [] then 0 else |q[0]| + Total(q[1..]) }

  lemma {:induction false} TotalSnoc(q: seq<string>, s: string)
    ensures Total(q + [s]) == Total(q) + |s|
    decreases |q|
  {
    if q == [] {
      assert [] + [s] == [s] && [s][1..] == [];
    } else {
      assert (q + [s])[1..] == q[1..] + [s];
      TotalSnoc(q[1..], s);
    }
  }

  /** `q` is what is left of `all` after its oldest entries were dropped or taken. */
  ghost predicate Newest(q: seq<string>, all: seq<string>) {
    |q| <= |all| && q == all[|all| - |q|..]
  }

  function RawSegs(segs: seq<BM.Seg>): string {
    if segs == [] then ""
    else SegRaw(segs[0]) + RawSegs(segs[1..])
  }

  function SegRaw(seg: BM.Seg): string { if seg.Clean? then seg.text else seg.raw }

  lemma RawSegsNext(segs: seq<BM.Seg>, i: nat)
    requires i < |segs|
    ensures RawSegs(segs[i..]) == SegRaw(segs[i]) + RawSegs(segs[i + 1..])
  {
    assert segs[i..][1..] == segs[i + 1..];
  }

  lemma {:induction false} RawSegsSnoc(segs: seq<BM.Seg>, last: BM.Seg)
    ensures RawSegs(segs + [last]) == RawSegs(segs) + SegRaw(last)
    decreases |segs|
  {
    if segs == [] {
      assert [] + [last] == [last] && [last][1..] == [];
    } else {
      assert (segs + [last])[1..] == segs[1..] + [last];
      RawSegsSnoc(segs[1..], last);
    }
  }

  lemma {:induction false} RawSegsFlat(segs: seq<BM.Seg>)
    ensures RawSegs(segs) == BM.Raw(BM.Flatten(segs))
    decreases |segs|
  {
    if segs != [] {
      var init, last := segs[..|segs| - 1], segs[|segs| - 1];
      assert segs == init + [last];
      RawSegsFlat(init);
      RawSegsSnoc(init, last);
      var toks := if last.Clean? then BM.Bytes(last.text) else [BM.Marked(last.raw, last.payload)];
      BM.RawAppend(BM.Flatten(init), toks);
      if last.Clean? {
        BM.RawBytes(last.text);
      } else {
        assert toks[1..] == [];
      }
    }
  }

  /** The stripper neither loses nor invents bytes, seen from the pump. */
  lemma StripLossless(hold: string, data: string, segs: seq<BM.Seg>, left: string)
    ensures BM.Scanned(BM.Flatten(segs), left) == BM.Scan(hold + data) ==>
              RawSegs(segs) + left == hold + data && |left| <= BM.MARK_CAP
  {
    BM.ScanLossless(hold + data);
    RawSegsFlat(segs);
  }

  // ---- what a pump round adds ----

  function SeenOf(seen: seq<(string, string)>, name: string): seq<string> {
    if seen == [] then []
    else
      var e := seen[|seen| - 1];
      SeenOf(seen[..|seen| - 1], name) + (if e.0 == name then [e.1] else [])
  }

  /** The marks taken off, by payload. */
  function RemovedOf(ps: seq<Piece>): seq<string> {
    if ps == [] then []
    else
      var p := ps[|ps| - 1];
      RemovedOf(ps[..|ps| - 1]) + (if p.Removed? then [p.payload] else [])
  }

  /** Marks are taken off exactly as the account keeps them: none, or the one that
      settles it. */
  ghost predicate Judged(before: Option<BM.Acct>, after: Option<BM.Acct>, removed: seq<string>, now: nat) {
    || (removed == [] && after == before)
    || (|removed| == 1 && BM.Step(before, BM.Event.Record(removed[0], now)) == (after, BM.Kept))
  }

  lemma JudgedMark(before: Option<BM.Acct>, after: Option<BM.Acct>, removed: seq<string>, now: nat, payload: string)
    requires Judged(before, after, removed, now)
    ensures var (later, reply) := BM.Step(after, BM.Event.Record(payload, now));
            && (reply == BM.Kept ==> Judged(before, later, removed + [payload], now))
            && (reply == BM.Rejected ==> later == after)
            && (reply == BM.Kept || reply == BM.Rejected)
  {
  }

  /** One round, as seen from outside: who is active, when, what the display got and what
      the recorder saw. */
  datatype Round = Round(active: string, now: nat, sunk: seq<string>, seen: seq<(string, string)>)

  /** What the round did with the pieces of one session. */
  ghost predicate AddedOk(added: seq<Piece>, name: string, r: Round, before: Option<BM.Acct>, after: Option<BM.Acct>) {
    && SeenOf(r.seen, name) == TextsOf(added)
    && (if name == r.active then NoneQueued(added) && r.sunk == TextsOf(added) else NoneSunk(added))
    && Judged(before, after, RemovedOf(added), r.now)
  }

  function Lookup(reg: map<string, BM.Acct>, leg: string): Option<BM.Acct> { BM.Lookup(reg, leg) }

  function Since(before: seq<Piece>, after: seq<Piece>): seq<Piece> {
    if |before| <= |after| then after[|before|..] else []
  }

  ghost predicate GrewAt(before: map<string, seq<Piece>>, after: map<string, seq<Piece>>,
                         reg0: map<string, BM.Acct>, reg1: map<string, BM.Acct>, r: Round, n: string)
    requires n in before && n in after
  {
    before[n] <= after[n] && AddedOk(Since(before[n], after[n]), n, r, Lookup(reg0, n), Lookup(reg1, n))
  }

  /** From one log to a later one: of every session the recorder saw exactly the new
      pieces that were not removed; the display got those of the active session,
      the replay buffers those of the others; and a mark was removed just
      when the session's account kept it. */
  ghost predicate Grew(before: map<string, seq<Piece>>, after: map<string, seq<Piece>>,
                       reg0: map<string, BM.Acct>, reg1: map<string, BM.Acct>, r: Round) {
    && before.Keys == after.Keys
    && forall n {:trigger GrewAt(before, after, reg0, reg1, r, n)} ::
         n in before ==> GrewAt(before, after, reg0, reg1, r, n)
  }

  lemma GrewNothing(log: map<string, seq<Piece>>, reg: map<string, BM.Acct>, active: string, now: nat)
    ensures Grew(log, log, reg, reg, Round(active, now, [], []))
  {
    forall n | n in log ensures GrewAt(log, log, reg, reg, Round(active, now, [], []), n) {
      assert Since(log[n], log[n]) == [];
    }
  }

  /** The round after one more piece of session `name`. */
  function With(r: Round, name: string, p: Piece): Round {
    if p.Removed? then r
    else r.(sunk := if p.Sunk? then r.sunk + [p.text] else r.sunk, seen := r.seen + [(name, p.text)])
  }

  lemma SeenSnoc(seen: seq<(string, string)>, name: string, text: string, n: string)
    ensures SeenOf(seen + [(name, text)], n) == SeenOf(seen, n) + (if name == n then [text] else [])
  {
    assert (seen + [(name, text)])[..|seen|] == seen;
  }

  /** A piece goes where the session's role sends it. */
  predicate Routed(p: Piece, name: string, active: string) { if name == active then !p.Queued? else !p.Sunk? }

  lemma RoutedSnoc(added: seq<Piece>, p: Piece, name: string, active: string)
    requires Routed(p, name, active)
    ensures name == active && NoneQueued(added) ==> NoneQueued(added + [p]) && !p.Queued?
    ensures name != active && NoneSunk(added) ==> NoneSunk(added + [p]) && !p.Sunk?
  {
  }

  lemma AddedShown(added: seq<Piece>, p: Piece, name: string, r: Round, a0: Option<BM.Acct>, a1: Option<BM.Acct>)
    requires AddedOk(added, name, r, a0, a1) && Routed(p, name, r.active) && !p.Removed?
    ensures AddedOk(added + [p], name, With(r, name, p), a0, a1)
  {
    hide Judged, TextsOf, SeenOf, RemovedOf, QueuedOf, RawOf;
    Snoc(added, p);
    SeenSnoc(r.seen, name, p.text, name);
    assert RemovedOf(added) + [] == RemovedOf(added);
    RoutedSnoc(added, p, name, r.active);
    hide NoneQueued, NoneSunk, Routed;
  }

  lemma AddedRemoved(added: seq<Piece>, p: Piece, name: string, r: Round,
                     a0: Option<BM.Acct>, a1: Option<BM.Acct>, a2: Option<BM.Acct>)
    requires AddedOk(added, name, r, a0, a1) && p.Removed?
    requires BM.Step(a1, BM.Event.Record(p.payload, r.now)) == (a2, BM.Kept)
    ensures AddedOk(added + [p], name, r, a0, a2)
  {
    hide Judged, TextsOf, SeenOf, RemovedOf, QueuedOf, RawOf;
    Snoc(added, p);
    JudgedMark(a0, a1, RemovedOf(added), r.now, p.payload);
    assert TextsOf(added) + [] == TextsOf(added);
  }

  lemma AddedElsewhere(added: seq<Piece>, p: Piece, name: string, n: string, r: Round,
                       a0: Option<BM.Acct>, a1: Option<BM.Acct>)
    requires AddedOk(added, n, r, a0, a1) && n != name && Routed(p, name, r.active)
    ensures AddedOk(added, n, With(r, name, p), a0, a1)
  {
    if !p.Removed? {
      SeenSnoc(r.seen, name, p.text, n);
    }
  }

  lemma SinceSnoc(b: seq<Piece>, a: seq<Piece>, p: Piece)
    requires b <= a
    ensures b <= a + [p] && Since(b, a + [p]) == Since(b, a) + [p]
  {
  }

  lemma GrewPiece(before: map<string, seq<Piece>>, after: map<string, seq<Piece>>, later: map<string, seq<Piece>>,
                  reg0: map<string, BM.Acct>, reg1: map<string, BM.Acct>, reg2: map<string, BM.Acct>,
                  r: Round, name: string, p: Piece)
    requires Grew(before, after, reg0, reg1, r) && name in after && Routed(p, name, r.active)
    requires later == after[name := after[name] + [p]]
    requires if p.Removed?
             then BM.Step(Lookup(reg1, name), BM.Event.Record(p.payload, r.now)) == (Lookup(reg2, name), BM.Kept)
             else Lookup(reg2, name) == Lookup(reg1, name)
    requires forall n :: n != name ==> Lookup(reg2, n) == Lookup(reg1, n)
    ensures Grew(before, later, reg0, reg2, With(r, name, p))
  {
    forall n | n in before ensures GrewAt(before, later, reg0, reg2, With(r, name, p), n) {
      assert GrewAt(before, after, reg0, reg1, r, n);
      var added := Since(before[n], after[n]);
      if n == name {
        SinceSnoc(before[n], after[n], p);
        if p.Removed? {
          AddedRemoved(added, p, n, r, Lookup(reg0, n), Lookup(reg1, n), Lookup(reg2, n));
        } else {
          AddedShown(added, p, n, r, Lookup(reg0, n), Lookup(reg1, n));
        }
      } else {
        AddedElsewhere(added, p, name, n, r, Lookup(reg0, n), Lookup(reg1, n));
      }
    }
  }

  // ---- the rounds since a registration ----

  /** Of every session the recorder and the display were given, over all rounds since
      its registration, exactly the pieces of its log that went to them. */
  ghost predicate Told(log: map<string, seq<Piece>>, recorded: map<string, seq<string>>,
                       shown: map<string, seq<string>>) {
    && recorded.Keys == log.Keys == shown.Keys
    && forall n :: n in log ==> recorded[n] == TextsOf(log[n]) && shown[n] == SunkOf(log[n])
  }

  /** The books of the recorder and of the display after one more round. */
  ghost function RecordedAfter(recorded: map<string, seq<string>>, r: Round): map<string, seq<string>> {
    map n | n in recorded :: recorded[n] + SeenOf(r.seen, n)
  }

  ghost function ShownAfter(shown: map<string, seq<string>>, r: Round): map<string, seq<string>> {
    map n | n in shown :: shown[n] + if n == r.active then r.sunk else []
  }

  lemma {:induction false} TextsAppend(a: seq<Piece>, b: seq<Piece>)
    ensures TextsOf(a + b) == TextsOf(a) + TextsOf(b)
    ensures SunkOf(a + b) == SunkOf(a) + SunkOf(b)
    decreases |b|
  {
    if b == [] {
      assert a + b == a;
    } else {
      var init := b[..|b| - 1];
      assert (a + b)[..|a + b| - 1] == a + init;
      TextsAppend(a, init);
    }
  }

  lemma {:induction false} SunkIs(ps: seq<Piece>)
    ensures NoneQueued(ps) ==> SunkOf(ps) == TextsOf(ps)
    ensures NoneSunk(ps) ==> SunkOf(ps) == []
  {
    if ps != [] {
      SunkIs(ps[..|ps| - 1]);
    }
  }

  lemma ToldRegister(log: map<string, seq<Piece>>, recorded: map<string, seq<string>>,
                     shown: map<string, seq<string>>, name: string)
    requires Told(log, recorded, shown)
    ensures Told(log[name := []], recorded[name := []], shown[name := []])
  {
  }

  lemma ToldRound(before: map<string, seq<Piece>>, after: map<string, seq<Piece>>,
                  reg0: map<string, BM.Acct>, reg1: map<string, BM.Acct>, r: Round,
                  recorded: map<string, seq<string>>, shown: map<string, seq<string>>)
    requires Told(before, recorded, shown) && Grew(before, after, reg0, reg1, r)
    ensures Told(after, RecordedAfter(recorded, r), ShownAfter(shown, r))
  {
    hide TextsOf, SunkOf, SeenOf, NoneQueued, NoneSunk, Judged;
    forall n | n in after
      ensures recorded[n] + SeenOf(r.seen, n) == TextsOf(after[n])
      ensures shown[n] + (if n == r.active then r.sunk else []) == SunkOf(after[n])
    {
      assert GrewAt(before, after, reg0, reg1, r, n);
      var added := Since(before[n], after[n]);
      assert after[n] == before[n] + added;
      TextsAppend(before[n], added);
      SunkIs(added);
    }
  }

  // ---- the replay buffer ----

  function DropToFit(q: seq<string>): seq<string> {
    if Total(q) <= REPLAY_CAP_BYTES then q
    else assert q != []; DropToFit(q[1..])
  }

  /** What stays is the longest run of newest entries within the cap. */
  lemma {:induction false} DropToFitIsLongest(q: seq<string>)
    ensures Newest(DropToFit(q), q) && Total(DropToFit(q)) <= REPLAY_CAP_BYTES
    ensures |DropToFit(q)| < |q| ==> Total(q[|q| - |DropToFit(q)| - 1..]) > REPLAY_CAP_BYTES
    decreases |q|
  {
    hide Total, Newest, DropToFit;
    if Total(q) <= REPLAY_CAP_BYTES {
      AllFits(q);
    } else {
      NotEmpty(q);
      DropToFitIsLongest(q[1..]);
      LongestStep(q, DropToFit(q[1..]));
    }
  }

  lemma AllFits(q: seq<string>)
    requires Total(q) <= REPLAY_CAP_BYTES
    ensures DropToFit(q) == q && Newest(q, q)
  {
    assert q[0..] == q;
  }

  lemma LongestStep(q: seq<string>, kept: seq<string>)
    requires q != [] && Total(q) > REPLAY_CAP_BYTES && Newest(kept, q[1..])
    requires |kept| < |q[1..]| ==> Total(q[1..][|q[1..]| - |kept| - 1..]) > REPLAY_CAP_BYTES
    ensures Newest(kept, q) && |kept| < |q| && Total(q[|q| - |kept| - 1..]) > REPLAY_CAP_BYTES
  {
    hide Total;
    TailOfTail(q, |kept|);
    if |kept| < |q[1..]| {
      TailOfTail(q, |kept| + 1);
    } else {
      assert q[0..] == q;
    }
  }

  lemma NotEmpty(q: seq<string>)
    requires Total(q) > REPLAY_CAP_BYTES
    ensures q != [] && DropToFit(q) == DropToFit(q[1..])
  {
  }

  lemma TailOfTail(q: seq<string>, k: nat)
    requires k < |q|
    ensures q[1..][|q| - 1 - k..] == q[|q| - k..]
  {
  }

  lemma NewestTransitive(q: seq<string>, some: seq<string>, all: seq<string>)
    requires Newest(q, some) && Newest(some, all)
    ensures Newest(q, all)
  {
  }

  lemma NewestSnoc(q: seq<string>, all: seq<string>, s: string)
    requires Newest(q, all)
    ensures Newest(q + [s], all + [s])
  {
  }

  /** The longest run of newest entries that fits the cap. */
  ghost predicate Longest(q: seq<string>, all: seq<string>) {
    && Newest(q, all) && Total(q) <= REPLAY_CAP_BYTES
    && (|q| < |all| ==> Total(all[|all| - |q| - 1..]) > REPLAY_CAP_BYTES)
  }

  /** One entry more: what is dropped for it would not have fitted anyway. */
  lemma LongestPush(q: seq<string>, all: seq<string>, s: string)
    requires Longest(q, all)
    ensures Longest(DropToFit(q + [s]), all + [s])
  {
    hide Total, DropToFit;
    var r, more := DropToFit(q + [s]), all + [s];
    DropToFitIsLongest(q + [s]);
    NewestSnoc(q, all, s);
    NewestTransitive(r, q + [s], more);
    if |r| < |q + [s]| {
      assert (q + [s])[|q| + 1 - |r| - 1..] == more[|more| - |r| - 1..];
    } else if |q| < |all| {
      TotalSnoc(all[|all| - |q| - 1..], s);
      assert all[|all| - |q| - 1..] + [s] == more[|more| - |r| - 1..];
    }
  }

  lemma LongestNone()
    ensures Longest([], [])
  {
  }

  predicate Counted(r: Replay) { r.bytes == Total(r.queue) <= REPLAY_CAP_BYTES }

  /** `push_replay`: queue at the back, drop from the front while over the cap. */
  method PushReplay(entry: Replay, data: string) returns (entry': Replay)
    requires Counted(entry)
    ensures Counted(entry') && entry'.queue == DropToFit(entry.queue + [data])
  {
    TotalSnoc(entry.queue, data);
    var queue, bytes := entry.queue + [data], entry.bytes + |data|;
    while bytes > REPLAY_CAP_BYTES
      invariant bytes == Total(queue)
      invariant DropToFit(queue) == DropToFit(entry.queue + [data])
      decreases |queue|
    {
      bytes := bytes - |queue[0]|;
      queue := queue[1..];
    }
    return Replay(queue, bytes);
  }

  // ---- the pump ----

  function Held(strips: map<string, string>, name: string): string {
    if name in strips then strips[name] else ""
  }

  function Waiting(replay: map<string, Replay>, name: string): Replay {
    if name in replay then replay[name] else Replay([], 0)
  }

  /** Of one session: the pieces, the bytes about to be dispatched, and the held tail are
      the bytes received, in order; the replay buffer has the newest of the
      queued pieces, counted right. */
  ghost predicate LaneOk(pieces: seq<Piece>, pending: string, held: string, received: string, waiting: Replay) {
    && RawOf(pieces) + pending + held == received
    && |held| <= BM.MARK_CAP
    && Counted(waiting)
    && Newest(waiting.queue, QueuedOf(pieces))
  }

  ghost predicate LaneAt(log: map<string, seq<Piece>>, received: map<string, string>,
                         strips: map<string, string>, replay: map<string, Replay>, n: string)
    requires n in log && n in received
  {
    LaneOk(log[n], "", Held(strips, n), received[n], Waiting(replay, n))
  }

  ghost predicate Lanes(log: map<string, seq<Piece>>, received: map<string, string>,
                        strips: map<string, string>, replay: map<string, Replay>) {
    && log.Keys == received.Keys
    && forall n {:trigger LaneAt(log, received, strips, replay, n)} ::
         n in log ==> LaneAt(log, received, strips, replay, n)
  }

  /** What waits for a session is the longest run of newest pieces that were queued since
      the first `taken[n]`, which were handed out before. */
  ghost predicate QueueAt(log: map<string, seq<Piece>>, replay: map<string, Replay>, taken: map<string, nat>, n: string)
    requires n in log
  {
    && n in taken && taken[n] <= |QueuedOf(log[n])|
    && Longest(Waiting(replay, n).queue, QueuedOf(log[n])[taken[n]..])
  }

  ghost predicate Queues(log: map<string, seq<Piece>>, replay: map<string, Replay>, taken: map<string, nat>) {
    && replay.Keys <= log.Keys
    && forall n {:trigger QueueAt(log, replay, taken, n)} :: n in log ==> QueueAt(log, replay, taken, n)
  }

  lemma ReplayWithin(log: map<string, seq<Piece>>, replay: map<string, Replay>, taken: map<string, nat>)
    requires Queues(log, replay, taken)
    ensures replay.Keys <= log.Keys
  {
  }

  lemma QueuesRegister(log: map<string, seq<Piece>>, replay: map<string, Replay>, taken: map<string, nat>, name: string)
    requires Queues(log, replay, taken)
    ensures Queues(log[name := []], replay - {name}, taken[name := 0])
  {
    hide Longest;
    LongestNone();
    var log', replay', taken' := log[name := []], replay - {name}, taken[name := 0];
    forall n | n in log' ensures QueueAt(log', replay', taken', n) {
      if n != name {
        assert QueueAt(log, replay, taken, n);
        assert Waiting(replay', n) == Waiting(replay, n);
      }
    }
  }

  lemma QueuesTake(log: map<string, seq<Piece>>, replay: map<string, Replay>, taken: map<string, nat>, name: string,
                   replay': map<string, Replay>)
    requires Queues(log, replay, taken) && name in log
    requires Waiting(replay', name) == Replay([], 0) && replay'.Keys <= log.Keys
    requires forall n :: n != name ==> Waiting(replay', n) == Waiting(replay, n)
    ensures Queues(log, replay', taken[name := |QueuedOf(log[name])|])
    ensures QueueAt(log, replay, taken, name)
  {
    hide Longest;
    LongestNone();
    var all := QueuedOf(log[name]);
    var taken' := taken[name := |all|];
    assert all[|all|..] == [];
    forall n | n in log ensures QueueAt(log, replay', taken', n) {
      assert QueueAt(log, replay, taken, n);
    }
  }

  lemma QueuesDispatch(log: map<string, seq<Piece>>, replay: map<string, Replay>, taken: map<string, nat>, name: string,
                       p: Piece, log': map<string, seq<Piece>>, replay': map<string, Replay>)
    requires Queues(log, replay, taken) && name in log
    requires log' == log[name := log[name] + [p]]
    requires replay'.Keys <= log.Keys
    requires Waiting(replay', name).queue
          == if p.Queued? then DropToFit(Waiting(replay, name).queue + [p.text]) else Waiting(replay, name).queue
    requires forall n :: n != name ==> Waiting(replay', n) == Waiting(replay, n)
    ensures Queues(log', replay', taken)
  {
    hide Longest, DropToFit, QueuedOf;
    forall n | n in log' ensures QueueAt(log', replay', taken, n) {
      assert QueueAt(log, replay, taken, n);
      if n == name {
        var all, k := QueuedOf(log[n]), taken[n];
        Snoc(log[n], p);
        if p.Queued? {
          LongestPush(Waiting(replay, n).queue, all[k..], p.text);
          assert all[k..] + [p.text] == (all + [p.text])[k..];
        } else {
          assert all + [] == all;
        }
      }
    }
  }

  lemma FreshLane()
    ensures LaneOk([], "", "", "", Replay([], 0))
  {
  }

  lemma LanesRegister(log: map<string, seq<Piece>>, received: map<string, string>,
                      strips: map<string, string>, replay: map<string, Replay>, name: string,
                      log': map<string, seq<Piece>>, received': map<string, string>,
                      strips': map<string, string>, replay': map<string, Replay>)
    requires Lanes(log, received, strips, replay)
    requires log' == log[name := []] && received' == received[name := ""]
    requires strips' == strips - {name} && replay' == replay - {name}
    ensures Lanes(log', received', strips', replay')
  {
    hide LaneOk;
    FreshLane();
    forall n | n in log' ensures LaneAt(log', received', strips', replay', n) {
      if n != name {
        assert LaneAt(log, received, strips, replay, n);
        assert Held(strips', n) == Held(strips, n) && Waiting(replay', n) == Waiting(replay, n);
      }
    }
  }

  lemma LanesTake(log: map<string, seq<Piece>>, received: map<string, string>,
                  strips: map<string, string>, replay: map<string, Replay>, name: string)
    requires Lanes(log, received, strips, replay)
    ensures Lanes(log, received, strips, replay[name := Replay([], 0)])
  {
    forall n | n in log ensures LaneAt(log, received, strips, replay[name := Replay([], 0)], n) {
      assert LaneAt(log, received, strips, replay, n);
      if n == name {
        EmptyLane(log[n], Held(strips, n), received[n], Waiting(replay, n));
      }
    }
  }

  lemma EmptyLane(pieces: seq<Piece>, held: string, received: string, waiting: Replay)
    requires LaneOk(pieces, "", held, received, waiting)
    ensures LaneOk(pieces, "", held, received, Replay([], 0))
  {
  }

  /** As `Lanes`, but `pending` bytes of session `name` are still to be dispatched. */
  ghost predicate LanesBut(log: map<string, seq<Piece>>, received: map<string, string>,
                           strips: map<string, string>, replay: map<string, Replay>, name: string, pending: string) {
    && log.Keys == received.Keys && name in log
    && LaneOk(log[name], pending, Held(strips, name), received[name], Waiting(replay, name))
    && forall n {:trigger LaneAt(log, received, strips, replay, n)} ::
         n in log && n != name ==> LaneAt(log, received, strips, replay, n)
  }

  lemma LaneIsOpen(log: map<string, seq<Piece>>, received: map<string, string>, strips: map<string, string>,
                   replay: map<string, Replay>, name: string, pending: string)
    requires LanesBut(log, received, strips, replay, name, pending)
    ensures name in log && Counted(Waiting(replay, name))
  {
  }

  lemma LaneReceives(pieces: seq<Piece>, held: string, got: string, waiting: Replay, data: string,
                     segs: seq<BM.Seg>, left: string)
    requires LaneOk(pieces, "", held, got, waiting)
    requires BM.Scanned(BM.Flatten(segs), left) == BM.Scan(held + data)
    ensures LaneOk(pieces, RawSegs(segs), left, got + data, waiting)
  {
    var raw := RawOf(pieces);
    StripLossless(held, data, segs, left);
    assert raw + "" == raw;
    Regroup(raw, held, data);
    Regroup(raw, RawSegs(segs), left);
  }

  lemma LanesOpen(log: map<string, seq<Piece>>, received: map<string, string>, strips: map<string, string>,
                  replay: map<string, Replay>, name: string, data: string, segs: seq<BM.Seg>, left: string,
                  received': map<string, string>, strips': map<string, string>)
    requires Lanes(log, received, strips, replay) && name in log
    requires BM.Scanned(BM.Flatten(segs), left) == BM.Scan(Held(strips, name) + data)
    requires received' == received[name := received[name] + data] && strips' == strips[name := left]
    ensures LanesBut(log, received', strips', replay, name, RawSegs(segs))
  {
    assert LaneAt(log, received, strips, replay, name);
    LaneReceives(log[name], Held(strips, name), received[name], Waiting(replay, name), data, segs, left);
    forall n | n in log && n != name ensures LaneAt(log, received', strips', replay, n) {
      assert LaneAt(log, received, strips, replay, n);
    }
  }

  lemma LaneDispatches(pieces: seq<Piece>, head: string, tail: string, held: string, got: string,
                       waiting: Replay, waiting': Replay, p: Piece)
    requires LaneOk(pieces, head + tail, held, got, waiting)
    requires head == if p.Removed? then p.raw else p.text
    requires Counted(waiting')
    requires waiting'.queue == if p.Queued? then DropToFit(waiting.queue + [p.text]) else waiting.queue
    ensures LaneOk(pieces + [p], tail, held, got, waiting')
  {
    Snoc(pieces, p);
    Regroup(RawOf(pieces), head, tail);
    if p.Queued? {
      NewestSnoc(waiting.queue, QueuedOf(pieces), p.text);
      DropToFitIsLongest(waiting.queue + [p.text]);
      NewestTransitive(waiting'.queue, waiting.queue + [p.text], QueuedOf(pieces) + [p.text]);
    }
  }

  lemma LanesDispatch(log: map<string, seq<Piece>>, received: map<string, string>, strips: map<string, string>,
                      replay: map<string, Replay>, name: string, head: string, tail: string, p: Piece,
                      log': map<string, seq<Piece>>, replay': map<string, Replay>)
    requires LanesBut(log, received, strips, replay, name, head + tail)
    requires head == if p.Removed? then p.raw else p.text
    requires log' == log[name := log[name] + [p]]
    requires Counted(Waiting(replay', name))
    requires Waiting(replay', name).queue
          == if p.Queued? then DropToFit(Waiting(replay, name).queue + [p.text]) else Waiting(replay, name).queue
    requires forall n :: n != name ==> Waiting(replay', n) == Waiting(replay, n)
    ensures LanesBut(log', received, strips, replay', name, tail)
  {
    LaneDispatches(log[name], head, tail, Held(strips, name), received[name],
                   Waiting(replay, name), Waiting(replay', name), p);
    forall n | n in log' && n != name ensures LaneAt(log', received, strips, replay', n) {
      assert LaneAt(log, received, strips, replay, n);
    }
  }

  lemma LanesClose(log: map<string, seq<Piece>>, received: map<string, string>, strips: map<string, string>,
                   replay: map<string, Replay>, name: string)
    requires LanesBut(log, received, strips, replay, name, "")
    ensures Lanes(log, received, strips, replay)
  {
    assert LaneAt(log, received, strips, replay, name);
  }

  // ---- what a round does to the channels ----

  function OutputsOf(inbox: seq<SessionEvent>): string {
    if inbox == [] then ""
    else OutputsOf(inbox[..|inbox| - 1]) + (if inbox[|inbox| - 1].Output? then inbox[|inbox| - 1].data else "")
  }

  /** Control events queue up; a full queue loses its oldest entry. */
  function PushControl(control: seq<(string, SessionEvent)>, e: (string, SessionEvent))
      : (r: seq<(string, SessionEvent)>)
    ensures |control| <= CONTROL_CAP ==> |r| <= CONTROL_CAP
  {
    (if |control| >= CONTROL_CAP then control[1..] else control) + [e]
  }

  function ControlsAfter(control: seq<(string, SessionEvent)>, name: string, inbox: seq<SessionEvent>)
      : seq<(string, SessionEvent)>
  {
    if inbox == [] then control
    else
      var before, ev := ControlsAfter(control, name, inbox[..|inbox| - 1]), inbox[|inbox| - 1];
      if ev.Output? then before else PushControl(before, (name, ev))
  }

  /** The events of some channels that are no output, in order and with their session. */
  function EventsOf(name: string, inbox: seq<SessionEvent>): seq<(string, SessionEvent)> {
    if inbox == [] then []
    else
      var before, ev := EventsOf(name, inbox[..|inbox| - 1]), inbox[|inbox| - 1];
      if ev.Output? then before else before + [(name, ev)]
  }

  function AllEvents(slots: seq<Slot>): seq<(string, SessionEvent)> {
    if slots == [] then []
    else AllEvents(slots[..|slots| - 1]) + EventsOf(slots[|slots| - 1].name, slots[|slots| - 1].inbox)
  }

  /** The newest entries, as many as the queue holds. */
  function NewestEvents(all: seq<(string, SessionEvent)>): seq<(string, SessionEvent)> {
    if |all| <= CONTROL_CAP then all else all[|all| - CONTROL_CAP..]
  }

  lemma PushNewest(all: seq<(string, SessionEvent)>, e: (string, SessionEvent))
    ensures PushControl(NewestEvents(all), e) == NewestEvents(all + [e])
  {
  }

  lemma {:induction false} ControlsNewest(all: seq<(string, SessionEvent)>, name: string, inbox: seq<SessionEvent>)
    ensures ControlsAfter(NewestEvents(all), name, inbox) == NewestEvents(all + EventsOf(name, inbox))
  {
    hide NewestEvents, PushControl;
    if inbox == [] {
      assert all + [] == all;
    } else {
      var init := inbox[..|inbox| - 1];
      ControlsNewest(all, name, init);
      var ev := inbox[|inbox| - 1];
      PushNewest(all + EventsOf(name, init), (name, ev));
      Regroup(all, EventsOf(name, init), [(name, ev)]);
    }
  }

  /** A round leaves the newest events in the queue: of those that waited and those that
      all channels brought, the last 256, in order. */
  lemma {:induction false} ControlsAreNewest(all: seq<(string, SessionEvent)>, slots: seq<Slot>)
    ensures AllControls(NewestEvents(all), slots) == NewestEvents(all + AllEvents(slots))
  {
    hide NewestEvents, ControlsAfter, EventsOf;
    if slots == [] {
      assert all + [] == all;
    } else {
      var init, s := slots[..|slots| - 1], slots[|slots| - 1];
      ControlsAreNewest(all, init);
      ControlsNewest(all + AllEvents(init), s.name, s.inbox);
      Regroup(all, AllEvents(init), EventsOf(s.name, s.inbox));
    }
  }

  /** All channels, in the order of registration. */
  function ReceivedAfter(received: map<string, string>, slots: seq<Slot>): map<string, string> {
    if slots == [] then received
    else
      var before, s := ReceivedAfter(received, slots[..|slots| - 1]), slots[|slots| - 1];
      before[s.name := (if s.name in before then before[s.name] else "") + OutputsOf(s.inbox)]
  }

  function AllControls(control: seq<(string, SessionEvent)>, slots: seq<Slot>): seq<(string, SessionEvent)> {
    if slots == [] then control
    else
      var s := slots[|slots| - 1];
      ControlsAfter(AllControls(control, slots[..|slots| - 1]), s.name, s.inbox)
  }

  function Drained(slots: seq<Slot>): (r: seq<Slot>)
    ensures |r| == |slots| && forall i :: 0 <= i < |slots| ==> r[i] == Slot(slots[i].name, [])
  {
    if slots == [] then [] else [Slot(slots[0].name, [])] + Drained(slots[1..])
  }

  class SessionPump {
    var slots: seq<Slot>
    var replay: map<string, Replay>
    var control: seq<(string, SessionEvent)>
    var strips: map<string, string>             // the tail each stripper holds
    const marks: BM.Register

    ghost var received: map<string, string>     // all output bytes since registration
    ghost var log: map<string, seq<Piece>>      // what became of them
    ghost var recorded: map<string, seq<string>> // what the recorder was shown since then
    ghost var shown: map<string, seq<string>>   // what the display was fed since then
    ghost var taken: map<string, nat>           // how many of the queued pieces were handed out

    ghost predicate Valid()
      reads this
    {
      && Lanes(log, received, strips, replay)
      && Queues(log, replay, taken)
      && Told(log, recorded, shown)
      && Known(slots, log.Keys) && OneEach(slots)
      && |control| <= CONTROL_CAP
    }

    constructor (marks: BM.Register)
      ensures Valid() && this.marks == marks && slots == [] && log == map[] && control == []
    {
      slots, replay, control, strips := [], map[], [], map[];
      this.marks := marks;
      received, log, recorded, shown, taken := map[], map[], map[], map[], map[];
    }

    /** `register`: a new channel under the name; the old channel, the replay buffer and
        the half mark of the old one are dropped. */
    method Register(name: string)
      requires Valid()
      modifies this
      ensures Valid()
      ensures log == old(log)[name := []] && received == old(received)[name := ""]
      ensures recorded == old(recorded)[name := []] && shown == old(shown)[name := []]
      ensures taken == old(taken)[name := 0]
      ensures slots == AllBut(old(slots), Place(old(slots), name)) + [Slot(name, [])]
      ensures replay == old(replay) - {name} && strips == old(strips) - {name} && control == old(control)
    {
      hide Lanes, Queues, Told, Known, Without, OneEach, AllBut;
      WithoutIs(slots, name);
      OneEachRegister(slots, name);
      ghost var log', received' := log[name := []], received[name := ""];
      ghost var recorded', shown' := recorded[name := []], shown[name := []];
      var slots', replay', strips' := Without(slots, name) + [Slot(name, [])], replay - {name}, strips - {name};
      assert Lanes(log', received', strips', replay') by {
        LanesRegister(log, received, strips, replay, name, log', received', strips', replay');
      }
      KnownRegister(slots, name, log, log');
      ToldRegister(log, recorded, shown, name);
      QueuesRegister(log, replay, taken, name);
      slots, replay, strips, log, received := slots', replay', strips', log', received';
      recorded, shown, taken := recorded', shown', taken[name := 0];
    }

    /** One chunk of output of one session: stripped, judged, shown and routed. */
    method HandleOutput(name: string, data: string, r: Round,
                        ghost log0: map<string, seq<Piece>>, ghost reg0: map<string, BM.Acct>)
      returns (r': Round)
      requires Lanes(log, received, strips, replay) && Queues(log, replay, taken) && name in log
      requires Grew(log0, log, reg0, marks.reg, r)
      modifies this`log, this`replay, this`strips, this`received, marks
      ensures Lanes(log, received, strips, replay) && Queues(log, replay, taken)
      ensures Grew(log0, log, reg0, marks.reg, r') && r'.active == r.active && r'.now == r.now
      ensures received == old(received)[name := old(received)[name] + data]
      ensures log.Keys == old(log).Keys
    {
      var segs, left := BM.Strip(Held(strips, name), data);
      ghost var received' := received[name := received[name] + data];
      LanesOpen(log, received, strips, replay, name, data, segs, left, received', strips[name := left]);
      strips, received := strips[name := left], received';
      r' := DispatchAll(name, segs, r, log0, reg0);
    }

    method DispatchAll(name: string, segs: seq<BM.Seg>, r: Round,
                       ghost log0: map<string, seq<Piece>>, ghost reg0: map<string, BM.Acct>)
      returns (r': Round)
      requires LanesBut(log, received, strips, replay, name, RawSegs(segs)) && Queues(log, replay, taken)
      requires Grew(log0, log, reg0, marks.reg, r)
      modifies this`log, this`replay, marks
      ensures Lanes(log, received, strips, replay) && Queues(log, replay, taken)
      ensures Grew(log0, log, reg0, marks.reg, r') && r'.active == r.active && r'.now == r.now
      ensures log.Keys == old(log).Keys
    {
      hide Queues;
      r' := r;
      var i := 0;
      assert segs[0..] == segs;
      while i < |segs|
        invariant i <= |segs| && Queues(log, replay, taken)
        invariant LanesBut(log, received, strips, replay, name, RawSegs(segs[i..]))
        invariant Grew(log0, log, reg0, marks.reg, r') && r'.active == r.active && r'.now == r.now
        invariant log.Keys == old(log).Keys
      {
        RawSegsNext(segs, i);
        r' := DispatchSeg(name, segs[i], r', RawSegs(segs[i + 1..]), log0, reg0);
        i := i + 1;
      }
      assert segs[|segs|..] == [];
      LanesClose(log, received, strips, replay, name);
    }

    /** One segment: a mark the account keeps vanishes, everything else is shown. */
    method DispatchSeg(name: string, seg: BM.Seg, r: Round, ghost tail: string,
                       ghost log0: map<string, seq<Piece>>, ghost reg0: map<string, BM.Acct>)
      returns (r': Round)
      requires LanesBut(log, received, strips, replay, name, SegRaw(seg) + tail) && Queues(log, replay, taken)
      requires Grew(log0, log, reg0, marks.reg, r)
      modifies this`log, this`replay, marks
      ensures LanesBut(log, received, strips, replay, name, tail) && Queues(log, replay, taken)
      ensures Grew(log0, log, reg0, marks.reg, r') && r'.active == r.active && r'.now == r.now
      ensures log.Keys == old(log).Keys
    {
      hide LanesBut, Grew, DropToFit, RawSegs, Counted, Judged, Queues;
      ReplayWithin(log, replay, taken);
      LaneIsOpen(log, received, strips, replay, name, SegRaw(seg) + tail);
      var piece := Judge(name, seg, r.active, r.now);
      if piece.Queued? {
        var entry := PushReplay(Waiting(replay, name), piece.text);
        replay := replay[name := entry];
      }
      log := log[name := log[name] + [piece]];
      LanesDispatch(old(log), received, strips, old(replay), name, SegRaw(seg), tail, piece, log, replay);
      QueuesDispatch(old(log), old(replay), taken, name, piece, log, replay);
      GrewPiece(log0, old(log), log, reg0, old(marks.reg), marks.reg, r, name, piece);
      r' := With(r, name, piece);
    }

    /** What becomes of a segment: the account is asked about a mark. */
    method Judge(name: string, seg: BM.Seg, active: string, now: nat) returns (p: Piece)
      modifies marks
      ensures SegRaw(seg) == (if p.Removed? then p.raw else p.text) && Routed(p, name, active)
      ensures if p.Removed?
              then BM.Step(old(Lookup(marks.reg, name)), BM.Event.Record(p.payload, now))
                == (Lookup(marks.reg, name), BM.Kept)
              else Lookup(marks.reg, name) == old(Lookup(marks.reg, name))
      ensures forall n :: n != name ==> Lookup(marks.reg, n) == old(Lookup(marks.reg, n))
    {
      p := if name == active then Sunk(SegRaw(seg)) else Queued(SegRaw(seg));
      if seg.Mark? {
        var reply := marks.Record(name, seg.payload, now);
        LegsKept(old(marks.reg), marks.reg, name);
        if reply == BM.Kept {
          p := Removed(seg.raw, seg.payload);
        }
      }
    }

    /** The events of one channel, in order. */
    method HandleInbox(slot: Slot, r: Round, ghost log0: map<string, seq<Piece>>, ghost reg0: map<string, BM.Acct>)
      returns (r': Round)
      requires Lanes(log, received, strips, replay) && Queues(log, replay, taken) && slot.name in log
      requires Grew(log0, log, reg0, marks.reg, r) && |control| <= CONTROL_CAP
      modifies this`log, this`replay, this`strips, this`received, this`control, marks
      ensures Lanes(log, received, strips, replay) && Queues(log, replay, taken) && log.Keys == old(log).Keys
      ensures Grew(log0, log, reg0, marks.reg, r') && r'.active == r.active && r'.now == r.now
      ensures received == old(received)[slot.name := old(received)[slot.name] + OutputsOf(slot.inbox)]
      ensures control == ControlsAfter(old(control), slot.name, slot.inbox) && |control| <= CONTROL_CAP
    {
      hide Lanes, Queues, Grew, PushControl;
      r' := r;
      var i := 0;
      HasLane(log, received, strips, replay, slot.name);
      NothingOut(received, slot.name);
      while i < |slot.inbox|
        invariant i <= |slot.inbox|
        invariant Lanes(log, received, strips, replay) && Queues(log, replay, taken) && log.Keys == old(log).Keys
        invariant Grew(log0, log, reg0, marks.reg, r') && r'.active == r.active && r'.now == r.now
        invariant received == old(received)[slot.name := old(received)[slot.name] + OutputsOf(slot.inbox[..i])]
        invariant control == ControlsAfter(old(control), slot.name, slot.inbox[..i]) && |control| <= CONTROL_CAP
      {
        InboxNext(slot.inbox, i, old(received)[slot.name]);
        var ev := slot.inbox[i];
        if ev.Output? {
          r' := HandleOutput(slot.name, ev.data, r', log0, reg0);
        } else {
          control := PushControl(control, (slot.name, ev));
        }
        i := i + 1;
      }
      assert slot.inbox[..|slot.inbox|] == slot.inbox;
      hide OutputsOf, ControlsAfter;
    }

    /** `pump`: drains every channel.  Of each session everything received since its
        registration is either shown, removed as a kept mark, or the short tail still
        held; and what was shown is all that the recorder has been given since then. */
    method Pump(active: string, now: nat) returns (fed: bool, r: Round)
      requires Valid()
      modifies this, marks
      ensures Valid() && r.active == active && r.now == now && taken == old(taken)
      ensures Grew(old(log), log, old(marks.reg), marks.reg, r)
      ensures recorded == RecordedAfter(old(recorded), r) && shown == ShownAfter(old(shown), r)
      ensures received == ReceivedAfter(old(received), old(slots))
      ensures control == AllControls(old(control), old(slots))
      ensures slots == Drained(old(slots))
      ensures fed <==> r.sunk != []
    {
      hide Lanes, Queues, Told, Known, OneEach, Grew, ReceivedAfter, AllControls, RecordedAfter, ShownAfter;
      hide Booked, Drained;
      r := Round(active, now, [], []);
      BookedNothing(received, control, slots);
      GrewNothing(log, marks.reg, active, now);
      var i := 0;
      var channels := slots;
      while i < |channels|
        invariant i <= |channels| && slots == channels == old(slots) && Known(channels, log.Keys)
        invariant Lanes(log, received, strips, replay) && Queues(log, replay, taken) && log.Keys == old(log).Keys
        invariant taken == old(taken)
        invariant Grew(old(log), log, old(marks.reg), marks.reg, r) && r.active == active && r.now == now
        invariant Booked(old(received), old(control), channels, i, received, control) && |control| <= CONTROL_CAP
        invariant recorded == old(recorded) && shown == old(shown)
      {
        SlotHasLane(channels, i, log, received, strips, replay);
        BookedNext(old(received), old(control), channels, i, received, control);
        r := HandleInbox(channels[i], r, old(log), old(marks.reg));
        i := i + 1;
      }
      BookedAll(old(received), old(control), channels, received, control);
      KnownDrained(channels, log.Keys);
      OneEachDrained(channels);
      slots := Drained(slots);
      ToldRound(old(log), log, old(marks.reg), marks.reg, r, recorded, shown);
      recorded, shown := RecordedAfter(recorded, r), ShownAfter(shown, r);
      fed := r.sunk != [];
    }

    /** `take_replay`: hands the buffer out once - of the pieces queued since the last time,
        or since the registration, the longest run of newest ones that fits the cap. */
    method TakeReplay(name: string) returns (out: seq<string>)
      requires Valid()
      modifies this`replay, this`taken
      ensures Valid()
      ensures if name in log
              then name in old(taken) && old(taken)[name] <= |QueuedOf(log[name])|
                   && Longest(out, QueuedOf(log[name])[old(taken)[name]..])
                   && taken == old(taken)[name := |QueuedOf(log[name])|]
              else out == [] && taken == old(taken)
      ensures out == Waiting(old(replay), name).queue && Waiting(replay, name) == Replay([], 0)
      ensures forall n :: n != name ==> Waiting(replay, n) == Waiting(old(replay), n)
    {
      hide Lanes, Queues, Told, Longest, OneEach;
      ReplayWithin(log, replay, taken);
      if name !in replay {
        if name in log {
          QueuesTake(log, replay, taken, name, replay);
          taken := taken[name := |QueuedOf(log[name])|];
        }
        return [];
      }
      QueuesTake(log, replay, taken, name, replay[name := Replay([], 0)]);
      LanesTake(log, received, strips, replay, name);
      out := replay[name].queue;
      replay := replay[name := Replay([], 0)];
      taken := taken[name := |QueuedOf(log[name])|];
    }

    /** `take_control`. */
    method TakeControl() returns (out: seq<(string, SessionEvent)>)
      requires Valid()
      modifies this`control
      ensures Valid() && out == old(control) && control == []
    {
      out := control;
      control := [];
    }
  }

  function Without(slots: seq<Slot>, name: string): seq<Slot> {
    if slots == [] then []
    else (if slots[0].name == name then [] else [slots[0]]) + Without(slots[1..], name)
  }

  /** One channel to a name. */
  predicate OneEach(slots: seq<Slot>) {
    forall i, j :: 0 <= i < j < |slots| ==> slots[i].name != slots[j].name
  }

  /** Where the channel of a name stands among the others, or the end. */
  function Place(slots: seq<Slot>, name: string): (i: nat)
    ensures i <= |slots| && (i < |slots| ==> slots[i].name == name)
    ensures forall k :: 0 <= k < i ==> slots[k].name != name
  {
    if slots == [] then 0 else if slots[0].name == name then 0 else 1 + Place(slots[1..], name)
  }

  /** All but the one at `i`. */
  function AllBut(slots: seq<Slot>, i: nat): seq<Slot>
    requires i <= |slots|
  {
    if i == |slots| then slots else slots[..i] + slots[i + 1..]
  }

  lemma AllButCons(s: Slot, rest: seq<Slot>, i: nat)
    requires i <= |rest|
    ensures AllBut([s] + rest, i + 1) == [s] + AllBut(rest, i)
    ensures AllBut([s] + rest, 0) == rest
  {
  }

  lemma OneEachRest(slots: seq<Slot>)
    requires slots != [] && OneEach(slots)
    ensures OneEach(slots[1..]) && forall i :: 0 <= i < |slots| - 1 ==> slots[1..][i].name != slots[0].name
  {
  }

  /** Registering takes one channel out, if it is there, and leaves the others in their order. */
  lemma {:induction false} WithoutIs(slots: seq<Slot>, name: string)
    requires OneEach(slots)
    ensures Without(slots, name) == AllBut(slots, Place(slots, name))
  {
    hide OneEach, AllBut;
    if slots == [] {
      assert AllBut([], 0) == [] by { NothingLeft(); }
    } else {
      var rest := slots[1..];
      assert slots == [slots[0]] + rest;
      OneEachRest(slots);
      WithoutIs(rest, name);
      AllButCons(slots[0], rest, Place(rest, name));
      if slots[0].name == name { NoneWithout(rest, name); }
    }
  }

  lemma NothingLeft()
    ensures AllBut([], 0) == []
  {
  }

  lemma OneEachRegister(slots: seq<Slot>, name: string)
    requires OneEach(slots)
    ensures OneEach(AllBut(slots, Place(slots, name)) + [Slot(name, [])])
  {
  }

  lemma {:induction false} NoneWithout(slots: seq<Slot>, name: string)
    requires forall i :: 0 <= i < |slots| ==> slots[i].name != name
    ensures Without(slots, name) == slots
  {
    if slots != [] { NoneWithout(slots[1..], name); }
  }

  lemma OneEachDrained(slots: seq<Slot>)
    requires OneEach(slots)
    ensures OneEach(Drained(slots))
  {
  }

  /** Every slot has a lane. */
  predicate Known(slots: seq<Slot>, names: set<string>) {
    forall i :: 0 <= i < |slots| ==> slots[i].name in names
  }

  lemma KnownRegister(slots: seq<Slot>, name: string, log: map<string, seq<Piece>>, log': map<string, seq<Piece>>)
    requires Known(slots, log.Keys) && log' == log[name := []]
    ensures Known(Without(slots, name) + [Slot(name, [])], log'.Keys)
  {
    KnownWithout(slots, name, log.Keys);
    assert log'.Keys == log.Keys + {name};
  }

  lemma {:induction false} KnownWithout(slots: seq<Slot>, name: string, names: set<string>)
    requires Known(slots, names)
    ensures Known(Without(slots, name) + [Slot(name, [])], names + {name})
    ensures Known(Without(slots, name), names)
    decreases |slots|
  {
    if slots != [] {
      assert Known(slots[1..], names);
      KnownWithout(slots[1..], name, names);
    }
  }

  lemma LegsKept(before: map<string, BM.Acct>, after: map<string, BM.Acct>, name: string)
    requires before - {name} == after - {name}
    ensures forall n :: n != name ==> Lookup(after, n) == Lookup(before, n)
  {
    forall n | n != name ensures Lookup(after, n) == Lookup(before, n) {
      assert n in before <==> n in before - {name};
      assert n in after <==> n in after - {name};
      if n in before {
        assert (before - {name})[n] == (after - {name})[n];
      }
    }
  }

  /** The books of a round up to the `i`-th channel. */
  ghost predicate Booked(received0: map<string, string>, control0: seq<(string, SessionEvent)>, channels: seq<Slot>,
                         i: nat, received: map<string, string>, control: seq<(string, SessionEvent)>)
    requires i <= |channels|
  {
    && received == ReceivedAfter(received0, channels[..i])
    && control == AllControls(control0, channels[..i])
  }

  lemma BookedNothing(received: map<string, string>, control: seq<(string, SessionEvent)>, channels: seq<Slot>)
    ensures Booked(received, control, channels, 0, received, control)
  {
  }

  lemma BookedAll(received0: map<string, string>, control0: seq<(string, SessionEvent)>, channels: seq<Slot>,
                  received: map<string, string>, control: seq<(string, SessionEvent)>)
    requires Booked(received0, control0, channels, |channels|, received, control)
    ensures received == ReceivedAfter(received0, channels) && control == AllControls(control0, channels)
  {
    assert channels[..|channels|] == channels;
  }

  lemma KnownDrained(slots: seq<Slot>, names: set<string>)
    requires Known(slots, names)
    ensures Known(Drained(slots), names)
  {
  }

  lemma HasLane(log: map<string, seq<Piece>>, received: map<string, string>,
                strips: map<string, string>, replay: map<string, Replay>, name: string)
    requires Lanes(log, received, strips, replay) && name in log
    ensures name in received
  {
  }

  lemma SlotHasLane(slots: seq<Slot>, i: nat, log: map<string, seq<Piece>>, received: map<string, string>,
                    strips: map<string, string>, replay: map<string, Replay>)
    requires i < |slots| && Known(slots, log.Keys) && Lanes(log, received, strips, replay)
    ensures slots[i].name in log && slots[i].name in received
  {
  }

  lemma BookedNext(received0: map<string, string>, control0: seq<(string, SessionEvent)>, channels: seq<Slot>, i: nat,
                   received: map<string, string>, control: seq<(string, SessionEvent)>)
    requires i < |channels| && Booked(received0, control0, channels, i, received, control)
    requires channels[i].name in received
    ensures Booked(received0, control0, channels, i + 1,
                   received[channels[i].name := received[channels[i].name] + OutputsOf(channels[i].inbox)],
                   ControlsAfter(control, channels[i].name, channels[i].inbox))
  {
    assert channels[..i + 1][..i] == channels[..i];
  }

  lemma NothingOut(received: map<string, string>, name: string)
    requires name in received
    ensures received == received[name := received[name] + OutputsOf([])]
  {
    assert received[name] + "" == received[name];
  }

  lemma InboxNext(inbox: seq<SessionEvent>, i: nat, got: string)
    requires i < |inbox|
    ensures inbox[..i + 1][..i] == inbox[..i]
    ensures got + OutputsOf(inbox[..i + 1])
         == if inbox[i].Output? then (got + OutputsOf(inbox[..i])) + inbox[i].data else got + OutputsOf(inbox[..i])
  {
    var outs := OutputsOf(inbox[..i]);
    assert inbox[..i + 1][..i] == inbox[..i];
    assert outs + "" == outs;
    if inbox[i].Output? {
      Regroup(got, outs, inbox[i].data);
    }
  }
}
