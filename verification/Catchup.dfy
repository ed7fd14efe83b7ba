/** The catch-up machine that holds back drawing while a flood of bytes comes in
    (`src/catchup.rs`).  Times are milliseconds. */
module Catchup {
  import opened Text

  const QUIET_MS: nat := 150
  const RATE_WINDOW_MS: nat := 100
  const RATE_BYTES: nat := 16 * 1024
  const THROTTLE_MS: nat := 400

  datatype Cause = Explicit | Rate

  datatype State = State(
    catching: bool, lastByte: nat, winStart: nat, winBytes: nat, enters: nat, rateEnters: nat, lands: nat,
    since: nat, held: nat, pendingEnter: Option<Cause>, cause: Cause, lastThrottle: nat, throttles: nat,
    keyLands: nat)

  function Initial(): State { State(false, 0, 0, 0, 0, 0, 0, 0, 0, None, Explicit, 0, 0, 0) }

  /** `saturating_sub`. */
  function Minus(a: nat, b: nat): nat { if a < b then 0 else a - b }

  /** The edge from steady to catching. */
  function Begun(s: State, now: nat, cause: Cause): State {
    s.(enters := s.enters + 1, since := now, held := 0, throttles := 0, lastThrottle := now,
       pendingEnter := Some(cause), cause := cause, catching := true)
  }

  function Entered(s: State, now: nat): State {
    var s1 := if s.catching then s else Begun(s, now, Explicit);
    s1.(cause := Explicit, catching := true, lastByte := now, winStart := now, winBytes := 0)
  }

  function Noted(s: State, now: nat, n: nat): State {
    var s1 := if Minus(now, s.winStart) > RATE_WINDOW_MS then s.(winStart := now, winBytes := 0) else s;
    var s2 := s1.(winBytes := s1.winBytes + n, lastByte := now);
    var s3 := if !s2.catching && s2.winBytes >= RATE_BYTES
              then Begun(s2, now, Rate).(rateEnters := s2.rateEnters + 1) else s2;
    if s3.catching then s3.(held := s3.held + n) else s3
  }

  predicate FrameDue(s: State, now: nat) {
    s.catching && s.cause == Rate && Minus(now, s.lastThrottle) >= THROTTLE_MS
  }

  function Landed(s: State): State { s.(catching := false, lands := s.lands + 1) }

  predicate Quiet(s: State, now: nat) { s.catching && Minus(now, s.lastByte) >= QUIET_MS }

  class Machine {
    var catching: bool
    var lastByte: nat
    var winStart: nat
    var winBytes: nat
    var enters: nat
    var rateEnters: nat
    var lands: nat
    var since: nat
    var held: nat
    var pendingEnter: Option<Cause>
    var cause: Cause
    var lastThrottle: nat
    var throttles: nat
    var keyLands: nat

    function Abstract(): State
      reads this
    {
      State(catching, lastByte, winStart, winBytes, enters, rateEnters, lands, since, held, pendingEnter, cause,
            lastThrottle, throttles, keyLands)
    }

    constructor ()
      ensures Abstract() == Initial()
    {
      catching, lastByte, winStart, winBytes, enters, rateEnters, lands := false, 0, 0, 0, 0, 0, 0;
      since, held, pendingEnter, cause, lastThrottle, throttles, keyLands := 0, 0, None, Explicit, 0, 0, 0;
    }

    method Begin(now: nat, why: Cause)
      modifies this
      ensures Abstract() == Begun(old(Abstract()), now, why)
    {
      enters, since, held, throttles, lastThrottle := enters + 1, now, 0, 0, now;
      pendingEnter, cause, catching := Some(why), why, true;
    }

    method Enter(now: nat)
      modifies this
      ensures Abstract() == Entered(old(Abstract()), now)
    {
      if !catching { Begin(now, Explicit); }
      cause, catching := Explicit, true;
      lastByte, winStart, winBytes := now, now, 0;
    }

    method TakeEnter() returns (r: Option<Cause>)
      modifies this
      ensures Abstract() == old(Abstract()).(pendingEnter := None) && r == old(pendingEnter)
    {
      r := pendingEnter;
      pendingEnter := None;
    }

    method NoteBytes(now: nat, n: nat) returns (r: bool)
      modifies this
      ensures Abstract() == Noted(old(Abstract()), now, n) && r == catching
    {
      if Minus(now, winStart) > RATE_WINDOW_MS {
        winStart, winBytes := now, 0;
      }
      winBytes := winBytes + n;
      lastByte := now;
      if !catching && winBytes >= RATE_BYTES {
        rateEnters := rateEnters + 1;
        Begin(now, Rate);
      }
      if catching { held := held + n; }
      r := catching;
    }

    method ThrottleFrame(now: nat) returns (draw: bool)
      modifies this
      ensures draw == FrameDue(old(Abstract()), now)
      ensures Abstract() == if draw then old(Abstract()).(lastThrottle := now, throttles := old(throttles) + 1)
                            else old(Abstract())
    {
      draw := catching && cause == Rate && Minus(now, lastThrottle) >= THROTTLE_MS;
      if draw {
        lastThrottle, throttles := now, throttles + 1;
      }
    }

    method Anchor() returns (land: bool)
      modifies this
      ensures land == old(catching) && Abstract() == if land then Landed(old(Abstract())) else old(Abstract())
    {
      land := catching;
      if catching { catching, lands := false, lands + 1; }
    }

    method KeystrokeLand(now: nat) returns (land: bool)
      modifies this
      ensures land == old(catching)
      ensures Abstract() == if land then KeyLanded(old(Abstract()), now) else old(Abstract())
    {
      land := catching;
      if catching {
        catching, lands, keyLands := false, lands + 1, keyLands + 1;
        winStart, winBytes := now, 0;
      }
    }

    method Tick(now: nat) returns (land: bool)
      modifies this
      ensures land == Quiet(old(Abstract()), now)
      ensures Abstract() == if land then Landed(old(Abstract())) else old(Abstract())
    {
      land := catching && Minus(now, lastByte) >= QUIET_MS;
      if land { catching, lands := false, lands + 1; }
    }
  }

  function KeyLanded(s: State, now: nat): State {
    Landed(s).(keyLands := s.keyLands + 1, winStart := now, winBytes := 0)
  }

  // ---- runs ----

  datatype Call = Enter | Note(n: nat) | Throttle | Anchor | Key | Tick | Take

  /** A call and its time. */
  datatype Op = Op(call: Call, now: nat)

  function Next(s: State, op: Op): State {
    match op.call
    case Enter => Entered(s, op.now)
    case Note(n) => Noted(s, op.now, n)
    case Throttle => if FrameDue(s, op.now) then s.(lastThrottle := op.now, throttles := s.throttles + 1) else s
    case Anchor => if s.catching then Landed(s) else s
    case Key => if s.catching then KeyLanded(s, op.now) else s
    case Tick => if Quiet(s, op.now) then Landed(s) else s
    case Take => s.(pendingEnter := None)
  }

  function Run(s: State, ops: seq<Op>): State {
    if ops == [] then s else Next(Run(s, ops[..|ops| - 1]), ops[|ops| - 1])
  }

  /** Time never runs back, from `t` on. */
  ghost predicate Forward(ops: seq<Op>, t: nat) {
    ops == [] || (Forward(ops[..|ops| - 1], t) && Now(ops[..|ops| - 1], t) <= ops[|ops| - 1].now)
  }

  function Now(ops: seq<Op>, t: nat): nat { if ops == [] then t else ops[|ops| - 1].now }

  /** How often a Land is handed to the shell. */
  function Lands(s: State, ops: seq<Op>): nat {
    if ops == [] then 0
    else
      var before, op := Run(s, ops[..|ops| - 1]), ops[|ops| - 1];
      Lands(s, ops[..|ops| - 1]) +
      (if ((op.call.Anchor? || op.call.Key?) && before.catching) || (op.call.Tick? && Quiet(before, op.now))
       then 1 else 0)
  }

  lemma StepEnters(s: State, op: Op)
    ensures var t := Next(s, op);
            var land := ((op.call.Anchor? || op.call.Key?) && s.catching) || (op.call.Tick? && Quiet(s, op.now));
            && t.enters - (if t.catching then 1 else 0) - t.lands
               == s.enters - (if s.catching then 1 else 0) - s.lands
            && t.lands == s.lands + (if land then 1 else 0)
            && t.keyLands - t.lands <= s.keyLands - s.lands && t.rateEnters - t.enters <= s.rateEnters - s.enters
  {
  }

  /** In every run, at any times: every entry but an open one has landed, and every
      landing was one Land. */
  lemma {:induction false} EveryEntryLandsOnce(ops: seq<Op>)
    ensures var s := Run(Initial(), ops);
            && s.enters == s.lands + (if s.catching then 1 else 0)
            && s.lands == Lands(Initial(), ops)
            && s.keyLands <= s.lands && s.rateEnters <= s.enters
  {
    if ops != [] {
      var init, op := ops[..|ops| - 1], ops[|ops| - 1];
      EveryEntryLandsOnce(init);
      StepEnters(Run(Initial(), init), op);
      hide Next, Quiet;
    }
  }

  ghost predicate Paced(s: State, now: nat) {
    s.since <= s.lastThrottle <= now && s.throttles * THROTTLE_MS <= s.lastThrottle - s.since
  }

  lemma PacedStep(s: State, now: nat, op: Op)
    requires Paced(s, now) && now <= op.now
    ensures Paced(Next(s, op), op.now)
  {
  }

  /** In every round at most one frame per 400 ms of the round is let through. */
  lemma {:induction false} FramesArePaced(ops: seq<Op>)
    requires Forward(ops, 0)
    ensures var s := Run(Initial(), ops);
            Paced(s, Now(ops, 0)) && s.throttles * THROTTLE_MS <= Now(ops, 0) - s.since
  {
    if ops != [] {
      var init := ops[..|ops| - 1];
      FramesArePaced(init);
      PacedStep(Run(Initial(), init), Now(init, 0), ops[|ops| - 1]);
      hide Next;
    }
  }

  /** Where the open round began: at call `k`. */
  ghost predicate BeganAt(ops: seq<Op>, k: nat) {
    && k < |ops|
    && !Run(Initial(), ops[..k]).catching
    && forall j :: k < j <= |ops| ==> Run(Initial(), ops[..j]).catching
  }

  lemma StillOpen(ops: seq<Op>, k: nat)
    requires ops != [] && BeganAt(ops[..|ops| - 1], k) && Run(Initial(), ops).catching
    ensures BeganAt(ops, k)
  {
    hide Run;
    var init := ops[..|ops| - 1];
    assert ops[..|ops|] == ops && ops[..k] == init[..k];
    forall j | k < j <= |ops| ensures Run(Initial(), ops[..j]).catching {
      if j < |ops| { assert ops[..j] == init[..j]; }
    }
  }

  lemma BytesSnoc(ops: seq<Op>, op: Op)
    ensures Bytes(ops + [op]) == Bytes(ops) + if op.call.Note? then op.call.n else 0
  {
    assert (ops + [op])[..|ops|] == ops;
  }

  /** An open round has a call that began it; its start is that call's time, what it has
      held back is the bytes noted since, and it is a round by rate - one that lets frames
      through - exactly if bytes began it and no explicit entry came since. */
  lemma {:induction false} RoundAccount(ops: seq<Op>) returns (k: nat)
    requires Run(Initial(), ops).catching
    ensures var s := Run(Initial(), ops);
            && BeganAt(ops, k)
            && s.since == ops[k].now
            && s.held == Bytes(ops[k..])
            && (s.cause == Rate <==> ops[k].call.Note? && forall j :: k < j < |ops| ==> !ops[j].call.Enter?)
  {
    hide BeganAt, Bytes;
    var init, last := ops[..|ops| - 1], ops[|ops| - 1];
    var before := Run(Initial(), init);
    assert Run(Initial(), ops) == Next(before, last);
    hide Run, Next;
    if before.catching {
      k := RoundAccount(init);
      StillOpen(ops, k);
      assert k < |init| by { BeganInside(init, k); }
      assert ops[k..] == init[k..] + [last];
      BytesSnoc(init[k..], last);
      CauseKept(before, last);
    } else {
      k := |init|;
      JustBegan(ops);
      BeganNow(before, last);
      assert ops[k..] == [] + [last];
      BytesSnoc([], last);
      NoBytes();
    }
  }

  lemma BeganInside(ops: seq<Op>, k: nat)
    requires BeganAt(ops, k)
    ensures k < |ops|
  {
  }

  lemma JustBegan(ops: seq<Op>)
    requires ops != [] && Run(Initial(), ops).catching && !Run(Initial(), ops[..|ops| - 1]).catching
    ensures BeganAt(ops, |ops| - 1)
  {
    assert ops[..|ops|] == ops;
  }

  lemma NoBytes()
    ensures Bytes([]) == 0
  {
  }

  lemma BeganNow(s: State, op: Op)
    requires !s.catching && Next(s, op).catching
    ensures var t := Next(s, op);
            && t.since == op.now
            && t.held == (if op.call.Note? then op.call.n else 0)
            && (t.cause == Rate <==> op.call.Note?)
  {
  }

  lemma CauseKept(s: State, op: Op)
    requires s.catching && Next(s, op).catching
    ensures Next(s, op).since == s.since
    ensures Next(s, op).held == s.held + if op.call.Note? then op.call.n else 0
    ensures Next(s, op).cause == if op.call.Enter? then Explicit else s.cause
  {
  }

  // ---- when a frame and when a landing is due ----

  /** Call `j` lets a frame through. */
  predicate FrameAt(ops: seq<Op>, j: nat) {
    j < |ops| && ops[j].call.Throttle? && FrameDue(Run(Initial(), ops[..j]), ops[j].now)
  }

  lemma FrameStep(s: State, op: Op)
    requires s.catching && Next(s, op).catching
    ensures Next(s, op).lastThrottle == if op.call.Throttle? && FrameDue(s, op.now) then op.now else s.lastThrottle
    ensures Next(s, op).throttles == s.throttles + if op.call.Throttle? && FrameDue(s, op.now) then 1 else 0
  {
  }

  lemma BeginStep(s: State, op: Op)
    requires !s.catching && Next(s, op).catching
    ensures Next(s, op).lastThrottle == op.now && Next(s, op).throttles == 0
  {
  }

  /** The call of the open round from which the next frame is counted: the one that began
      it, or the last that let a frame through. */
  ghost predicate CountedFrom(ops: seq<Op>, k: nat, j: nat) {
    k <= j < |ops| && (j == k || FrameAt(ops, j)) && forall i :: j < i < |ops| ==> !FrameAt(ops, i)
  }

  lemma FrameEarlier(ops: seq<Op>, j: nat)
    requires j < |ops| - 1
    ensures FrameAt(ops, j) <==> FrameAt(ops[..|ops| - 1], j)
  {
    assert ops[..|ops| - 1][..j] == ops[..j];
  }

  lemma {:induction false} LastFrameIs(ops: seq<Op>, k: nat) returns (j: nat)
    requires BeganAt(ops, k) && Run(Initial(), ops).catching
    ensures CountedFrom(ops, k, j) && Run(Initial(), ops).lastThrottle == ops[j].now
    decreases |ops|
  {
    hide FrameAt;
    var init, last := ops[..|ops| - 1], ops[|ops| - 1];
    var s := Run(Initial(), init);
    assert ops[..|init|] == init && ops[..|ops|] == ops;
    if k == |init| {
      BeginStep(s, last);
      j := k;
    } else {
      forall i | k < i <= |init| ensures Run(Initial(), init[..i]).catching {
        assert init[..i] == ops[..i];
      }
      assert init[..k] == ops[..k] && init[..|init|] == init;
      j := LastFrameIs(init, k);
      FrameStep(s, last);
      LastFrame(ops);
      forall i | 0 <= i < |init| ensures FrameAt(ops, i) <==> FrameAt(init, i) { FrameEarlier(ops, i); }
      if FrameAt(ops, |init|) { j := |init|; }
    }
  }

  lemma LastFrame(ops: seq<Op>)
    requires ops != []
    ensures var init, last := ops[..|ops| - 1], ops[|ops| - 1];
            FrameAt(ops, |ops| - 1) <==> last.call.Throttle? && FrameDue(Run(Initial(), init), last.now)
  {
  }

  /** A frame is let through if and only if the open round is one by rate - begun by bytes,
      and no explicit entry since - and 400 ms have passed since it began or since its last
      frame; between rounds, never. */
  lemma FrameIff(ops: seq<Op>, now: nat) returns (k: nat, j: nat)
    ensures !Run(Initial(), ops).catching ==> !FrameDue(Run(Initial(), ops), now)
    ensures Run(Initial(), ops).catching ==>
              && BeganAt(ops, k) && CountedFrom(ops, k, j)
              && (FrameDue(Run(Initial(), ops), now) <==>
                    ops[k].call.Note? && (forall i :: k < i < |ops| ==> !ops[i].call.Enter?)
                    && now - ops[j].now >= THROTTLE_MS)
  {
    k, j := 0, 0;
    if Run(Initial(), ops).catching {
      k := RoundAccount(ops);
      j := LastFrameIs(ops, k);
      hide Run;
    }
  }

  /** Call `j` is the last that brought bytes or an explicit entry. */
  ghost predicate LastByteAt(ops: seq<Op>, j: nat) {
    && j < |ops| && (ops[j].call.Note? || ops[j].call.Enter?)
    && forall i :: j < i < |ops| ==> !ops[i].call.Note? && !ops[i].call.Enter?
  }

  lemma ByteStep(s: State, op: Op)
    ensures Next(s, op).lastByte == if op.call.Note? || op.call.Enter? then op.now else s.lastByte
    ensures Next(s, op).catching && !s.catching ==> op.call.Note? || op.call.Enter?
  {
  }

  /** Quiet has come in an open round if and only if 150 ms have passed since the last bytes
      or explicit entry; between rounds there is nothing to land. */
  lemma {:induction false} QuietIff(ops: seq<Op>, now: nat) returns (j: nat)
    ensures !Run(Initial(), ops).catching ==> !Quiet(Run(Initial(), ops), now)
    ensures Run(Initial(), ops).catching ==>
              LastByteAt(ops, j) && (Quiet(Run(Initial(), ops), now) <==> now - ops[j].now >= QUIET_MS)
    ensures Run(Initial(), ops).catching ==> Run(Initial(), ops).lastByte == ops[j].now
    decreases |ops|
  {
    j := 0;
    if ops != [] {
      var init, last := ops[..|ops| - 1], ops[|ops| - 1];
      j := QuietIff(init, now);
      ByteStep(Run(Initial(), init), last);
      hide Next;
      if last.call.Note? || last.call.Enter? { j := |init|; }
    }
  }

  // ---- the counters ----

  /** How many calls of a run begin a round by rate, land by a key, begin a round at all. */
  function RateBegins(ops: seq<Op>): nat {
    if ops == [] then 0
    else
      var s, op := Run(Initial(), ops[..|ops| - 1]), ops[|ops| - 1];
      RateBegins(ops[..|ops| - 1]) + if op.call.Note? && !s.catching && Next(s, op).catching then 1 else 0
  }

  function KeyLandings(ops: seq<Op>): nat {
    if ops == [] then 0
    else
      var s, op := Run(Initial(), ops[..|ops| - 1]), ops[|ops| - 1];
      KeyLandings(ops[..|ops| - 1]) + if op.call.Key? && s.catching then 1 else 0
  }

  function Begins(ops: seq<Op>): nat {
    if ops == [] then 0
    else
      var s, op := Run(Initial(), ops[..|ops| - 1]), ops[|ops| - 1];
      Begins(ops[..|ops| - 1]) + if !s.catching && Next(s, op).catching then 1 else 0
  }

  /** The frames let through from call `k` on. */
  function Frames(ops: seq<Op>, k: nat): nat {
    if |ops| <= k then 0
    else Frames(ops[..|ops| - 1], k) + if FrameAt(ops, |ops| - 1) then 1 else 0
  }

  /** What began the last round that no call has taken note of yet. */
  function Untaken(ops: seq<Op>): Option<Cause> {
    if ops == [] then None
    else
      var s, op := Run(Initial(), ops[..|ops| - 1]), ops[|ops| - 1];
      if op.call.Take? then None
      else if !s.catching && Next(s, op).catching then Some(if op.call.Note? then Rate else Explicit)
      else Untaken(ops[..|ops| - 1])
  }

  lemma CountStep(s: State, op: Op)
    ensures var t := Next(s, op); var begins := !s.catching && t.catching;
            && t.enters == s.enters + (if begins then 1 else 0)
            && t.rateEnters == s.rateEnters + (if begins && op.call.Note? then 1 else 0)
            && t.keyLands == s.keyLands + (if op.call.Key? && s.catching then 1 else 0)
            && t.pendingEnter == (if op.call.Take? then None
                                  else if begins then Some(if op.call.Note? then Rate else Explicit)
                                  else s.pendingEnter)
  {
  }

  /** The counters count, and the note of the last beginning waits until it is taken. */
  lemma {:induction false} CountersCount(ops: seq<Op>)
    ensures var s := Run(Initial(), ops);
            && s.enters == Begins(ops) && s.rateEnters == RateBegins(ops) && s.keyLands == KeyLandings(ops)
            && s.pendingEnter == Untaken(ops)
  {
    if ops != [] {
      var init := ops[..|ops| - 1];
      CountersCount(init);
      CountStep(Run(Initial(), init), ops[|ops| - 1]);
      hide Next;
    }
  }

  /** And the frames of the open round. */
  lemma {:induction false} FramesCount(ops: seq<Op>, k: nat)
    requires BeganAt(ops, k) && Run(Initial(), ops).catching
    ensures Run(Initial(), ops).throttles == Frames(ops, k + 1)
    decreases |ops|
  {
    hide FrameAt;
    var init, last := ops[..|ops| - 1], ops[|ops| - 1];
    var s := Run(Initial(), init);
    assert ops[..|init|] == init && ops[..|ops|] == ops;
    if k == |init| {
      BeginStep(s, last);
    } else {
      forall i | k < i <= |init| ensures Run(Initial(), init[..i]).catching {
        assert init[..i] == ops[..i];
      }
      assert init[..k] == ops[..k] && init[..|init|] == init;
      FramesCount(init, k);
      FrameStep(s, last);
      LastFrame(ops);
    }
  }

  // ---- re-entry after a landing ----

  /** The bytes noted in a run. */
  function Bytes(ops: seq<Op>): nat {
    if ops == [] then 0
    else Bytes(ops[..|ops| - 1]) + if ops[|ops| - 1].call.Note? then ops[|ops| - 1].call.n else 0
  }

  /** The rate window holds no more than what was noted since, or is over. */
  ghost predicate Afresh(s: State, bytes: nat, now: nat) {
    s.winBytes <= bytes || Minus(now, s.winStart) > RATE_WINDOW_MS
  }

  lemma AfreshStep(s: State, op: Op, bytes: nat, now: nat)
    requires Afresh(s, bytes, now) && now <= op.now
    ensures Afresh(Next(s, op), bytes + (if op.call.Note? then op.call.n else 0), op.now)
    ensures op.call.Note? ==> Next(s, op).winBytes <= bytes + op.call.n
  {
  }

  lemma {:induction false} AfreshRun(s: State, t: nat, ops: seq<Op>)
    requires Afresh(s, 0, t) && Forward(ops, t)
    ensures Afresh(Run(s, ops), Bytes(ops), Now(ops, t))
  {
    hide Next, Afresh;
    if ops != [] {
      var init := ops[..|ops| - 1];
      AfreshRun(s, t, init);
      AfreshStep(Run(s, init), ops[|ops| - 1], Bytes(init), Now(init, t));
    }
  }

  /** The state's times are not in the future, and the window began no later than the
      last byte. */
  ghost predicate Past(s: State, now: nat) {
    s.winStart <= now && s.lastByte <= now && (s.catching ==> s.winStart <= s.lastByte)
  }

  lemma {:induction false} TimesArePast(ops: seq<Op>)
    requires Forward(ops, 0)
    ensures Past(Run(Initial(), ops), Now(ops, 0))
  {
    if ops != [] {
      TimesArePast(ops[..|ops| - 1]);
    }
  }

  /** A landing by a key, or by quiet. */
  predicate Fresh(s: State, op: Op) {
    (op.call.Key? && s.catching) || (op.call.Tick? && Quiet(s, op.now))
  }

  predicate RateEntry(s: State, op: Op) { op.call.Note? && !s.catching && Next(s, op).catching }

  /** After a key or quiet landing, and whatever happens then, an entry by rate needs
      RATE_BYTES new bytes. */
  lemma ReentryNeedsNewBytes(before: seq<Op>, land: Op, after: seq<Op>, note: Op)
    requires Forward(before, 0) && Now(before, 0) <= land.now && Forward(after + [note], land.now)
    requires Fresh(Run(Initial(), before), land)
    requires var s := Run(Next(Run(Initial(), before), land), after); RateEntry(s, note)
    ensures Bytes(after) + note.call.n >= RATE_BYTES
  {
    hide Run;
    var s := Next(Run(Initial(), before), land);
    TimesArePast(before);
    assert Afresh(s, 0, land.now);
    assert (after + [note])[..|after|] == after;
    AfreshRun(s, land.now, after);
    AfreshStep(Run(s, after), note, Bytes(after), Now(after, land.now));
  }

  /** The calls that start the rate window anew. */
  predicate Restarts(s: State, op: Op) {
    op.call.Enter? || (op.call.Key? && s.catching)
    || (op.call.Note? && Minus(op.now, s.winStart) > RATE_WINDOW_MS)
  }

  /** The call of a run that last did. */
  function LastRestart(s: State, ops: seq<Op>): (k: Option<nat>)
    ensures k.Some? ==> k.value < |ops|
  {
    if ops == [] then None
    else
      var init := ops[..|ops| - 1];
      if Restarts(Run(s, init), ops[|ops| - 1]) then Some(|init|) else LastRestart(s, init)
  }

  /** The bytes that count towards an entry by rate: those noted since the window was
      last started anew, and if it never was, those it held at first as well. */
  function Counted(s: State, ops: seq<Op>): nat {
    match LastRestart(s, ops)
    case None => s.winBytes + Bytes(ops)
    case Some(k) => Bytes(ops[k..])
  }

  lemma StepCounts(s: State, op: Op)
    ensures var t := Next(s, op); var n := if op.call.Note? then op.call.n else 0;
            && t.winStart == (if Restarts(s, op) then op.now else s.winStart)
            && t.winBytes == (if Restarts(s, op) then n else s.winBytes + n)
  {
  }

  lemma {:induction false} WindowIs(s: State, ops: seq<Op>)
    ensures var k := LastRestart(s, ops);
            && Run(s, ops).winBytes == Counted(s, ops)
            && Run(s, ops).winStart == (if k.None? then s.winStart else ops[k.value].now)
  {
    hide Next, Restarts, Bytes;
    if ops == [] {
      NoBytes();
    } else {
      var init, op := ops[..|ops| - 1], ops[|ops| - 1];
      WindowIs(s, init);
      StepCounts(Run(s, init), op);
      hide Run;
      BytesSnoc(init, op);
      NoBytes();
      BytesSnoc([], op);
      assert ops == init + [op] && ops[|init|..] == [] + [op];
      var k := LastRestart(s, init);
      if k.Some? {
        assert ops[k.value..] == init[k.value..] + [op];
        BytesSnoc(init[k.value..], op);
      }
    }
  }

  /** From the start: bytes begin a round exactly if none is open and those that count, noted
      since the rate window was last started anew, have reached RATE_BYTES. */
  lemma RateEntryIff(ops: seq<Op>, note: Op)
    requires note.call.Note?
    ensures var all := ops + [note];
            var k := LastRestart(Initial(), all);
            RateEntry(Run(Initial(), ops), note)
            <==> !Run(Initial(), ops).catching && Bytes(if k.None? then all else all[k.value..]) >= RATE_BYTES
  {
    var all := ops + [note];
    assert all[..|ops|] == ops;
    WindowIs(Initial(), all);
    EntersWhenFull(Run(Initial(), ops), note);
    hide LastRestart, Bytes, RateEntry, Next;
  }

  /** Before the first round nothing has been held back. */
  lemma {:induction false} NothingHeldBefore(ops: seq<Op>)
    requires Begins(ops) == 0
    ensures var s := Run(Initial(), ops); s.held == 0 && s.since == 0 && s.throttles == 0 && !s.catching
  {
    if ops != [] {
      NothingHeldBefore(ops[..|ops| - 1]);
    }
  }

  lemma EntersWhenFull(s: State, op: Op)
    ensures RateEntry(s, op) <==> op.call.Note? && !s.catching && Next(s, op).winBytes >= RATE_BYTES
  {
  }

  /** No call of the run starts the window anew before the last one does. */
  ghost predicate Undisturbed(s: State, ops: seq<Op>) {
    forall j :: 0 <= j < |ops| ==>
      !ops[j].call.Enter? && !(ops[j].call.Key? && Run(s, ops[..j]).catching)
  }

  lemma {:induction false} RestartIff(s: State, t: nat, ops: seq<Op>)
    requires ops != [] && Forward(ops, t) && ops[|ops| - 1].call.Note?
    ensures LastRestart(s, ops).None?
       <==> Undisturbed(s, ops) && Minus(ops[|ops| - 1].now, s.winStart) <= RATE_WINDOW_MS
  {
    hide Next;
    if LastRestart(s, ops).None? {
      forall j | 0 <= j < |ops|
        ensures !ops[j].call.Enter? && !(ops[j].call.Key? && Run(s, ops[..j]).catching)
      {
        NoneRestarts(s, ops, j);
      }
      NoneRestarts(s, ops, |ops| - 1);
      WindowIs(s, ops[..|ops| - 1]);
    } else if Undisturbed(s, ops) {
      var k := FirstRestart(s, ops);
      LaterIsLater(t, ops, k);
    }
  }

  lemma {:induction false} NoneRestarts(s: State, ops: seq<Op>, j: nat)
    requires LastRestart(s, ops).None? && j < |ops|
    ensures !Restarts(Run(s, ops[..j]), ops[j])
  {
    hide Restarts;
    if j < |ops| - 1 {
      var init := ops[..|ops| - 1];
      assert ops[..j] == init[..j];
      NoneRestarts(s, init, j);
    }
  }

  /** The first call that does, in the window that the run began with. */
  lemma {:induction false} FirstRestart(s: State, ops: seq<Op>) returns (k: nat)
    requires LastRestart(s, ops).Some?
    ensures k < |ops| && Restarts(Run(s, ops[..k]), ops[k]) && Run(s, ops[..k]).winStart == s.winStart
  {
    hide Restarts;
    var init := ops[..|ops| - 1];
    if LastRestart(s, init).Some? {
      k := FirstRestart(s, init);
      assert ops[..k] == init[..k];
    } else {
      k := |init|;
      WindowIs(s, init);
    }
  }

  lemma {:induction false} LaterIsLater(t: nat, ops: seq<Op>, k: nat)
    requires Forward(ops, t) && k < |ops|
    ensures ops[k].now <= ops[|ops| - 1].now
  {
    if k < |ops| - 1 {
      LaterIsLater(t, ops[..|ops| - 1], k);
    }
  }

  /** A landing at the seed anchor promises less: it keeps the window.  Whatever happens
      then, the next entry by rate comes exactly when the bytes that count reach
      RATE_BYTES, and the bytes carried over the landing count among them exactly as long
      as no explicit entry and no landing by a key came, and the window has not run out. */
  lemma AnchorKeepsTheWindow(s: State, t: nat, after: seq<Op>, note: Op)
    requires s.catching && note.call.Note? && Forward(after + [note], t)
    ensures var landed, ops := Next(s, Op(Anchor, t)), after + [note];
            && (RateEntry(Run(landed, after), note) <==>
                  !Run(landed, after).catching && Counted(landed, ops) >= RATE_BYTES)
            && (if Undisturbed(landed, ops) && Minus(note.now, s.winStart) <= RATE_WINDOW_MS
                then Counted(landed, ops) == s.winBytes + Bytes(after) + note.call.n
                else Counted(landed, ops) <= Bytes(after) + note.call.n)
  {
    var landed, ops := Next(s, Op(Anchor, t)), after + [note];
    assert landed.winBytes == s.winBytes && landed.winStart == s.winStart;
    hide Undisturbed, LastRestart, RateEntry;
    assert ops[..|after|] == after;
    RestartIff(landed, t, ops);
    WindowIs(landed, ops);
    EntersWhenFull(Run(landed, after), note);
    BytesSnoc(after, note);
    if LastRestart(landed, ops).Some? {
      BytesOfTail(ops, LastRestart(landed, ops).value);
    }
  }

  lemma {:induction false} BytesOfTail(ops: seq<Op>, k: nat)
    requires k <= |ops|
    ensures Bytes(ops[k..]) <= Bytes(ops)
  {
    if k < |ops| {
      var init, op := ops[..|ops| - 1], ops[|ops| - 1];
      BytesOfTail(init, k);
      assert ops == init + [op] && ops[k..] == init[k..] + [op];
      BytesSnoc(init, op);
      BytesSnoc(init[k..], op);
    } else {
      NoBytes();
    }
  }

  /** So one flood from the start, landed at the anchor, is entered again by any next
      bytes in time, even none. */
  lemma AnchorIsUndone(t: nat, n: nat, note: Op)
    requires n >= RATE_BYTES && note.call.Note? && RATE_WINDOW_MS < t <= note.now <= t + RATE_WINDOW_MS
    ensures RateEntry(Run(Initial(), [Op(Note(n), t), Op(Anchor, t)]), note)
  {
    var ops := [Op(Note(n), t), Op(Anchor, t)];
    assert ops[..1] == [ops[0]] && ops[..1][..0] == [];
    assert Run(Initial(), ops[..1]) == Next(Initial(), ops[0]);
  }
}
