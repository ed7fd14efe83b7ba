/** One terminal connection: the session state machine (`src/session.rs`) and the
    select loop that drives it (`src/conn.rs`). */
module Conn {
  import opened Text

  datatype ServerMsg =
    | Opened(id: string)
    | Output(id: string, data: string)
    | Exit(id: string, code: int)
    | Error(message: string)
    | Noise

  datatype ClientMsg =
    | Open
    | Input(id: string, input: string)
    | Resize(id: string, cols: nat, rows: nat)
    | Close(id: string)

  datatype Event = WasOpened(id: string) | Got(data: string) | HasExited(code: int) | HasFailed(message: string)

  /** The last event of a connection. */
  predicate Final(e: Event) { e.HasExited? || e.HasFailed? }

  // ---- the session ----

  datatype Life = Opening | Live | Exited(code: int) | Failed(message: string)

  datatype Bond = Bond(life: Life, id: Option<string>)

  function OnServer(s: Bond, msg: ServerMsg): (Bond, Option<Event>) {
    if s.life.Exited? || s.life.Failed? then (s, None)
    else
      match msg
      case Opened(id) =>
        if s.id.Some? then (s, None) else (Bond(Live, Some(id)), Some(WasOpened(id)))
      case Output(id, data) => (s, if s.id == Some(id) then Some(Got(data)) else None)
      case Exit(id, code) =>
        if s.id == Some(id) then (s.(life := Exited(code)), Some(HasExited(code))) else (s, None)
      case Error(message) => (s.(life := Failed(message)), Some(HasFailed(message)))
      case Noise => (s, None)
  }

  /** The id that goes out with a message: only a live session has one. */
  function Address(s: Bond): Option<string> { if s.life.Live? then s.id else None }

  class Session {
    var life: Life
    var id: Option<string>

    function Abstract(): Bond
      reads this
    {
      Bond(life, id)
    }

    constructor ()
      ensures Abstract() == Bond(Opening, None)
    {
      life, id := Opening, None;
    }

    method Receive(msg: ServerMsg) returns (event: Option<Event>)
      modifies this
      ensures (Abstract(), event) == OnServer(old(Abstract()), msg)
    {
      event := None;
      if life.Exited? || life.Failed? { return; }
      match msg {
        case Opened(newId) =>
          if id.None? {
            id, life := Some(newId), Live;
            event := Some(WasOpened(newId));
          }
        case Output(from, data) =>
          if id == Some(from) { event := Some(Got(data)); }
        case Exit(from, code) =>
          if id == Some(from) {
            life := Exited(code);
            event := Some(HasExited(code));
          }
        case Error(message) =>
          life := Failed(message);
          event := Some(HasFailed(message));
        case Noise =>
      }
    }
  }

  /** An ended session takes no further message, and says nothing. */
  lemma EndedIsSilent(s: Bond, msg: ServerMsg)
    requires s.life.Exited? || s.life.Failed?
    ensures OnServer(s, msg) == (s, None)
  {
  }

  /** A session after some messages, and what it has said. */
  function Heard(msgs: seq<ServerMsg>): (Bond, seq<Event>) {
    if msgs == [] then (Bond(Opening, None), [])
    else
      var (s, said) := Heard(msgs[..|msgs| - 1]);
      var (s', e) := OnServer(s, msgs[|msgs| - 1]);
      (s', if e.Some? then said + [e.value] else said)
  }

  /** Whatever a server sends: a session says its end once, exactly when it has ended, and
      nothing behind it. */
  lemma {:induction false} EndIsSaidOnce(msgs: seq<ServerMsg>)
    ensures var (s, said) := Heard(msgs);
            && (s.life.Exited? || s.life.Failed? <==> said != [] && Final(said[|said| - 1]))
            && forall i :: 0 <= i < |said| - 1 ==> !Final(said[i])
  {
    if msgs != [] {
      EndIsSaidOnce(msgs[..|msgs| - 1]);
    }
  }

  // ---- the driver ----

  datatype Cmd = Type(input: string) | Size(cols: nat, rows: nat) | Hangup | Gone

  /** What one turn of the loop picks up. */
  datatype Step =
    | Text(msg: ServerMsg)
    | Idle
    | Broken(error: string)
    | Command(cmd: Cmd)

  datatype Drive = Drive(
    bond: Bond, pending: seq<string>, resize: Option<(nat, nat)>, outboundOpen: bool,
    sent: seq<ClientMsg>, events: seq<Event>, done: bool)

  const SEND_FAILED := "send failed"

  function Fail(d: Drive, error: string): Drive { d.(done := true, events := d.events + [HasFailed(error)]) }

  /** The socket takes `limit` messages, or any number. */
  function Send(d: Drive, m: ClientMsg, limit: Option<nat>): Drive {
    if limit.Some? && |d.sent| >= limit.value then Fail(d, SEND_FAILED) else d.(sent := d.sent + [m])
  }

  /** The queued inputs go out in order, until one cannot be sent. */
  function Flush(d: Drive, id: string, limit: Option<nat>): Drive
    decreases |d.pending|
  {
    if d.pending == [] || d.done then d
    else Flush(Send(d.(pending := d.pending[1..]), Input(id, d.pending[0]), limit), id, limit)
  }

  function OnOpened(d: Drive, id: string, limit: Option<nat>): Drive {
    var d1 := if d.resize.None? then d
              else Send(d.(resize := None), Resize(id, d.resize.value.0, d.resize.value.1), limit);
    Flush(d1, id, limit)
  }

  function OnText(d: Drive, msg: ServerMsg, limit: Option<nat>): Drive {
    var (bond, event) := OnServer(d.bond, msg);
    var d1 := d.(bond := bond);
    match event
    case None => d1
    case Some(e) =>
      var d2 := d1.(events := d.events + [e]);
      if e.WasOpened? then OnOpened(d2, e.id, limit) else d2.(done := Final(e))
  }

  function OnCommand(d: Drive, cmd: Cmd, limit: Option<nat>): Drive {
    var to := Address(d.bond);
    match cmd
    case Type(input) =>
      if to.Some? then Send(d, Input(to.value, input), limit) else d.(pending := d.pending + [input])
    case Size(cols, rows) =>
      var d1 := d.(resize := Some((cols, rows)));
      if to.Some? then Send(d1, Resize(to.value, cols, rows), limit) else d1
    case Hangup => if to.Some? then Send(d, Close(to.value), limit) else d
    case Gone => d.(outboundOpen := false)
  }

  function OnStep(d: Drive, step: Step, limit: Option<nat>): Drive {
    match step
    case Text(msg) => OnText(d, msg, limit)
    case Idle => d
    case Broken(error) => Fail(d, error)
    case Command(cmd) => OnCommand(d, cmd, limit)
  }

  function Start(limit: Option<nat>): Drive {
    Send(Drive(Bond(Opening, None), [], None, true, [], [], false), Open, limit)
  }

  /** The loop still runs, and the arm is one that the select listens on. */
  predicate Enabled(d: Drive, step: Step) { !d.done && (step.Command? ==> d.outboundOpen) }

  function Run(h: seq<Step>, limit: Option<nat>): Drive {
    if h == [] then Start(limit) else OnStep(Run(h[..|h| - 1], limit), h[|h| - 1], limit)
  }

  /** Every turn was one the loop could take. */
  predicate Possible(h: seq<Step>, limit: Option<nat>) {
    h == [] || (Possible(h[..|h| - 1], limit) && Enabled(Run(h[..|h| - 1], limit), h[|h| - 1]))
  }

  // ---- what should be on the wire ----

  /** The id of the first `Opened`. */
  function OpenedBy(h: seq<Step>): Option<string> {
    if h == [] then None
    else
      var r, last := OpenedBy(h[..|h| - 1]), h[|h| - 1];
      if r.None? && last.Text? && last.msg.Opened? then Some(last.msg.id) else r
  }

  /** The commands before and after it. */
  function Before(h: seq<Step>): seq<Cmd> {
    if h == [] then []
    else
      var init, last := h[..|h| - 1], h[|h| - 1];
      if last.Command? && OpenedBy(init).None? then Before(init) + [last.cmd] else Before(init)
  }

  function Since(h: seq<Step>): seq<Cmd> {
    if h == [] then []
    else
      var init, last := h[..|h| - 1], h[|h| - 1];
      if last.Command? && OpenedBy(init).Some? then Since(init) + [last.cmd] else Since(init)
  }

  function Inputs(cmds: seq<Cmd>): seq<string> {
    if cmds == [] then []
    else
      var r, last := Inputs(cmds[..|cmds| - 1]), cmds[|cmds| - 1];
      if last.Type? then r + [last.input] else r
  }

  function LastSize(cmds: seq<Cmd>): Option<(nat, nat)> {
    if cmds == [] then None
    else
      var last := cmds[|cmds| - 1];
      if last.Size? then Some((last.cols, last.rows)) else LastSize(cmds[..|cmds| - 1])
  }

  function InputMsgs(inputs: seq<string>, id: string): seq<ClientMsg> {
    if inputs == [] then [] else [Input(id, inputs[0])] + InputMsgs(inputs[1..], id)
  }

  function SizeMsgs(size: Option<(nat, nat)>, id: string): seq<ClientMsg> {
    if size.None? then [] else [Resize(id, size.value.0, size.value.1)]
  }

  /** A command on a live session. */
  function DirectOf(cmd: Cmd, id: string): seq<ClientMsg> {
    match cmd
    case Type(input) => [Input(id, input)]
    case Size(cols, rows) => [Resize(id, cols, rows)]
    case Hangup => [Close(id)]
    case Gone => []
  }

  function Direct(cmds: seq<Cmd>, id: string): seq<ClientMsg> {
    if cmds == [] then [] else Direct(cmds[..|cmds| - 1], id) + DirectOf(cmds[|cmds| - 1], id)
  }

  /** First the open request; once opened the newest size and all inputs that waited,
      then every command as it comes. */
  function Wire(h: seq<Step>): seq<ClientMsg> {
    match OpenedBy(h)
    case None => [Open]
    case Some(id) =>
      [Open] + SizeMsgs(LastSize(Before(h)), id) + InputMsgs(Inputs(Before(h)), id) + Direct(Since(h), id)
  }

  /** All that should be sent was sent, or sending broke off there. */
  ghost predicate SentUpTo(d: Drive, wire: seq<ClientMsg>, limit: Option<nat>) {
    d.sent <= wire && (d.sent == wire || (d.done && limit.Some? && limit.value <= |d.sent|))
  }

  ghost predicate Follows(d: Drive, h: seq<Step>, limit: Option<nat>) {
    && SentUpTo(d, Wire(h), limit)
    && (!d.done ==>
          && d.bond == (if OpenedBy(h).None? then Bond(Opening, None) else Bond(Live, OpenedBy(h)))
          && d.pending == (if OpenedBy(h).None? then Inputs(Before(h)) else [])
          && (OpenedBy(h).None? ==> d.resize == LastSize(Before(h))))
  }

  // ---- the driver does it ----

  lemma {:induction false} FlushSends(d: Drive, id: string, limit: Option<nat>)
    requires !d.done
    ensures var r := Flush(d, id, limit);
            && SentUpTo(r, d.sent + InputMsgs(d.pending, id), limit)
            && (!r.done ==> r == d.(pending := [], sent := d.sent + InputMsgs(d.pending, id)))
    decreases |d.pending|
  {
    if d.pending == [] {
      assert d.sent + [] == d.sent;
    } else {
      var m, rest := Input(id, d.pending[0]), InputMsgs(d.pending[1..], id);
      var d1 := Send(d.(pending := d.pending[1..]), m, limit);
      assert d.sent + ([m] + rest) == d.sent + [m] + rest;
      if !d1.done {
        FlushSends(d1, id, limit);
      }
    }
  }

  lemma OpenedSends(d: Drive, id: string, limit: Option<nat>)
    requires !d.done
    ensures var wire := d.sent + SizeMsgs(d.resize, id) + InputMsgs(d.pending, id);
            var r := OnOpened(d, id, limit);
            SentUpTo(r, wire, limit) && (!r.done ==> r == d.(resize := None, pending := [], sent := wire))
  {
    hide Flush;
    if d.resize.None? {
      assert d.sent + [] == d.sent;
      FlushSends(d, id, limit);
    } else {
      var d1 := Send(d.(resize := None), Resize(id, d.resize.value.0, d.resize.value.1), limit);
      if d1.done {
        FlushDone(d1, id, limit);
      } else {
        FlushSends(d1, id, limit);
      }
    }
  }

  lemma FlushDone(d: Drive, id: string, limit: Option<nat>)
    requires d.done
    ensures Flush(d, id, limit) == d
  {
  }

  lemma WireSnoc(h: seq<Step>, step: Step)
    ensures var h' := h + [step];
            && OpenedBy(h') == (if OpenedBy(h).None? && step.Text? && step.msg.Opened? then Some(step.msg.id)
                                else OpenedBy(h))
            && Before(h') == (if step.Command? && OpenedBy(h).None? then Before(h) + [step.cmd] else Before(h))
            && Since(h') == (if step.Command? && OpenedBy(h).Some? then Since(h) + [step.cmd] else Since(h))
  {
    assert (h + [step])[..|h|] == h;
  }

  lemma CommandSnoc(cmds: seq<Cmd>, cmd: Cmd, id: string)
    ensures Inputs(cmds + [cmd]) == if cmd.Type? then Inputs(cmds) + [cmd.input] else Inputs(cmds)
    ensures LastSize(cmds + [cmd]) == if cmd.Size? then Some((cmd.cols, cmd.rows)) else LastSize(cmds)
    ensures Direct(cmds + [cmd], id) == Direct(cmds, id) + DirectOf(cmd, id)
  {
    assert (cmds + [cmd])[..|cmds|] == cmds;
  }

  /** Before the session opens, nothing follows the open request. */
  lemma {:induction false} NothingSince(h: seq<Step>)
    requires OpenedBy(h).None?
    ensures Since(h) == []
  {
    if h != [] {
      NothingSince(h[..|h| - 1]);
    }
  }

  lemma TextFollows(d: Drive, h: seq<Step>, msg: ServerMsg, limit: Option<nat>)
    requires Follows(d, h, limit) && !d.done
    ensures Follows(OnText(d, msg, limit), h + [Text(msg)], limit)
  {
    hide OnOpened, Inputs, LastSize, Direct, InputMsgs, OpenedBy, Before, Since;
    WireSnoc(h, Text(msg));
    var (bond, event) := OnServer(d.bond, msg);
    if event.Some? && event.value.WasOpened? {
      var id := event.value.id;
      NothingSince(h);
      OpenedSends(d.(bond := bond, events := d.events + [event.value]), id, limit);
      NoDirect(id);
      var wire := d.sent + SizeMsgs(d.resize, id) + InputMsgs(d.pending, id);
      assert wire + [] == wire;
    }
  }

  lemma NoDirect(id: string)
    ensures Direct([], id) == []
  {
  }

  lemma LiveCommand(d: Drive, cmd: Cmd, id: string, limit: Option<nat>)
    requires !d.done && d.bond == Bond(Live, Some(id))
    ensures var r := OnCommand(d, cmd, limit);
            && SentUpTo(r, d.sent + DirectOf(cmd, id), limit)
            && (!r.done ==> r.bond == d.bond && r.pending == d.pending)
  {
    assert d.sent + [] == d.sent;
  }

  lemma WireGrows(h: seq<Step>, cmd: Cmd)
    requires OpenedBy(h).Some?
    ensures Wire(h + [Command(cmd)]) == Wire(h) + DirectOf(cmd, OpenedBy(h).value)
  {
    hide Inputs, LastSize, InputMsgs, OpenedBy, Before, Since, Direct, DirectOf;
    WireSnoc(h, Command(cmd));
    var id := OpenedBy(h).value;
    CommandSnoc(Since(h), cmd, id);
    var front := [Open] + SizeMsgs(LastSize(Before(h)), id) + InputMsgs(Inputs(Before(h)), id);
    assert front + (Direct(Since(h), id) + DirectOf(cmd, id)) == front + Direct(Since(h), id) + DirectOf(cmd, id);
  }

  lemma CommandFollows(d: Drive, h: seq<Step>, cmd: Cmd, limit: Option<nat>)
    requires Follows(d, h, limit) && !d.done
    ensures Follows(OnCommand(d, cmd, limit), h + [Command(cmd)], limit)
  {
    hide Inputs, LastSize, OpenedBy, Before, Since, DirectOf;
    WireSnoc(h, Command(cmd));
    if OpenedBy(h).None? {
      CommandSnoc(Before(h), cmd, "");
    } else {
      hide OnCommand, Wire;
      LiveCommand(d, cmd, OpenedBy(h).value, limit);
      WireGrows(h, cmd);
    }
  }

  /** Whatever order the frames and commands come in, and wherever sending breaks off:
      what is on the wire is exactly the wanted messages, or a front part of them. */
  lemma {:induction false} RunFollows(h: seq<Step>, limit: Option<nat>)
    requires Possible(h, limit)
    ensures Follows(Run(h, limit), h, limit)
  {
    hide OnStep, Follows, Start;
    if h == [] {
      StartFollows(limit);
    } else {
      var init, last := h[..|h| - 1], h[|h| - 1];
      RunFollows(init, limit);
      StepFollows(Run(init, limit), init, last, limit);
      assert h == init + [last];
    }
  }

  lemma StepFollows(d: Drive, h: seq<Step>, step: Step, limit: Option<nat>)
    requires Follows(d, h, limit) && !d.done
    ensures Follows(OnStep(d, step, limit), h + [step], limit)
  {
    hide OnText, OnCommand, Follows;
    match step {
      case Text(msg) => TextFollows(d, h, msg, limit);
      case Command(cmd) => CommandFollows(d, h, cmd, limit);
      case Idle => QuietFollows(d, h, step, limit);
      case Broken(error) => QuietFollows(d, h, step, limit);
    }
  }

  lemma StartFollows(limit: Option<nat>)
    ensures Follows(Start(limit), [], limit)
  {
  }

  lemma QuietFollows(d: Drive, h: seq<Step>, step: Step, limit: Option<nat>)
    requires Follows(d, h, limit) && !d.done && (step.Idle? || step.Broken?)
    ensures Follows(OnStep(d, step, limit), h + [step], limit)
  {
    hide Inputs, LastSize, InputMsgs, OpenedBy, Before, Since, Direct;
    WireSnoc(h, step);
  }

  // ---- what that means ----

  /** The inputs among some messages. */
  function Typed(msgs: seq<ClientMsg>): seq<string> {
    if msgs == [] then []
    else
      var r, last := Typed(msgs[..|msgs| - 1]), msgs[|msgs| - 1];
      if last.Input? then r + [last.input] else r
  }

  lemma {:induction false} TypedAppend(a: seq<ClientMsg>, b: seq<ClientMsg>)
    ensures Typed(a + b) == Typed(a) + Typed(b)
    decreases |b|
  {
    if b == [] {
      assert a + b == a;
    } else {
      TypedAppend(a, b[..|b| - 1]);
      assert (a + b)[..|a + b| - 1] == a + b[..|b| - 1];
    }
  }

  lemma TypedOne(m: ClientMsg)
    ensures Typed([m]) == if m.Input? then [m.input] else []
  {
    assert [m][..0] == [];
    assert Typed([]) == [];
  }

  lemma {:induction false} TypedInputs(inputs: seq<string>, id: string)
    ensures Typed(InputMsgs(inputs, id)) == inputs
  {
    if inputs != [] {
      TypedInputs(inputs[1..], id);
      TypedOne(Input(id, inputs[0]));
      TypedAppend([Input(id, inputs[0])], InputMsgs(inputs[1..], id));
    }
  }

  lemma {:induction false} TypedDirect(cmds: seq<Cmd>, id: string)
    ensures Typed(Direct(cmds, id)) == Inputs(cmds)
  {
    if cmds != [] {
      var init, last := cmds[..|cmds| - 1], cmds[|cmds| - 1];
      TypedDirect(init, id);
      TypedAppend(Direct(init, id), DirectOf(last, id));
      if last.Gone? { TypedNone(); } else { TypedOne(DirectOf(last, id)[0]); }
    }
  }

  /** All inputs received so far. */
  function Received(h: seq<Step>): seq<string> { Inputs(Before(h)) + Inputs(Since(h)) }

  lemma WireTypes(h: seq<Step>)
    ensures Typed(Wire(h)) == if OpenedBy(h).None? then [] else Received(h)
  {
    hide Typed, Direct, InputMsgs, Inputs, Before, Since, LastSize, OpenedBy;
    TypedOne(Open);
    if OpenedBy(h).Some? {
      var id := OpenedBy(h).value;
      var size := SizeMsgs(LastSize(Before(h)), id);
      assert Typed(size) == [] by {
        if size != [] { TypedOne(size[0]); } else { TypedNone(); }
      }
      TypedAppend([Open], size);
      TypedAppend([Open] + size, InputMsgs(Inputs(Before(h)), id));
      TypedAppend([Open] + size + InputMsgs(Inputs(Before(h)), id), Direct(Since(h), id));
      TypedInputs(Inputs(Before(h)), id);
      TypedDirect(Since(h), id);
    }
  }

  lemma TypedNone()
    ensures Typed([]) == []
  {
  }

  /** Inputs on the wire are at all times an in-order, duplicate-free front part of the
      inputs received, and all of them while the session is live. */
  lemma InputsInOrder(h: seq<Step>, limit: Option<nat>)
    requires Possible(h, limit)
    ensures var d := Run(h, limit);
            && Typed(d.sent) <= Received(h)
            && (!d.done && d.bond.life.Live? ==> Typed(d.sent) == Received(h))
            && (!d.done && d.bond.life.Opening? ==> Typed(d.sent) == [] && d.pending == Received(h))
  {
    hide Typed, Run, Possible, Inputs, Before, Since, OpenedBy, Wire;
    var d := Run(h, limit);
    RunFollows(h, limit);
    WireTypes(h);
    TypedPrefix(d.sent, Wire(h));
    if OpenedBy(h).None? {
      NothingSince(h);
      assert Inputs([]) == [] by { NoInputs(); }
      assert Inputs(Before(h)) + [] == Inputs(Before(h));
    }
  }

  lemma NoInputs()
    ensures Inputs([]) == []
  {
  }

  lemma TypedPrefix(a: seq<ClientMsg>, b: seq<ClientMsg>)
    requires a <= b
    ensures Typed(a) <= Typed(b)
  {
    assert b == a + b[|a|..];
    TypedAppend(a, b[|a|..]);
  }

  /** Nothing but the open request precedes `Opened`; then, if any size came before, the
      newest such size is the very next message. */
  lemma OpenThenNewestSize(h: seq<Step>, limit: Option<nat>)
    requires Possible(h, limit)
    ensures var sent := Run(h, limit).sent;
            && (|sent| > 0 ==> sent[0] == Open)
            && (OpenedBy(h).None? ==> |sent| <= 1)
            && (|sent| > 1 && LastSize(Before(h)).Some? ==>
                  OpenedBy(h).Some?
                  && sent[1] == Resize(OpenedBy(h).value, LastSize(Before(h)).value.0, LastSize(Before(h)).value.1))
  {
    hide Run, Possible, Inputs, Before, Since, OpenedBy, LastSize, InputMsgs, Direct;
    RunFollows(h, limit);
    var wire, sent := Wire(h), Run(h, limit).sent;
    assert forall i :: 0 <= i < |sent| ==> sent[i] == wire[i];
  }

  // ---- the end is reported once ----

  ghost predicate EndsOnce(d: Drive) {
    && (forall i :: 0 <= i < |d.events| - 1 ==> !Final(d.events[i]))
    && (d.done <==> d.events != [] && Final(d.events[|d.events| - 1]))
  }

  lemma SendEndsOnce(d: Drive, m: ClientMsg, limit: Option<nat>)
    requires EndsOnce(d) && !d.done
    ensures EndsOnce(Send(d, m, limit))
  {
  }

  lemma {:induction false} FlushEndsOnce(d: Drive, id: string, limit: Option<nat>)
    requires EndsOnce(d)
    ensures EndsOnce(Flush(d, id, limit))
    decreases |d.pending|
  {
    if d.pending != [] && !d.done {
      var d1 := d.(pending := d.pending[1..]);
      assert EndsOnce(d1);
      SendEndsOnce(d1, Input(id, d.pending[0]), limit);
      FlushEndsOnce(Send(d1, Input(id, d.pending[0]), limit), id, limit);
    }
  }

  lemma StepEndsOnce(d: Drive, step: Step, limit: Option<nat>)
    requires EndsOnce(d) && !d.done && Fresh(d)
    ensures EndsOnce(OnStep(d, step, limit))
  {
    hide Flush, Send;
    match step {
      case Text(msg) =>
        var (bond, event) := OnServer(d.bond, msg);
        if event.Some? && event.value.WasOpened? {
          var id := event.value.id;
          var d2 := d.(bond := bond, events := d.events + [event.value]);
          assert EndsOnce(d2);
          if d2.resize.None? {
            FlushEndsOnce(d2, id, limit);
          } else {
            var d3 := d2.(resize := None);
            assert EndsOnce(d3);
            var m := Resize(id, d2.resize.value.0, d2.resize.value.1);
            SendEndsOnce(d3, m, limit);
            FlushEndsOnce(Send(d3, m, limit), id, limit);
          }
        }
      case Command(cmd) => CommandEndsOnce(d, cmd, limit);
      case Idle =>
      case Broken(error) =>
    }
  }

  lemma CommandEndsOnce(d: Drive, cmd: Cmd, limit: Option<nat>)
    requires EndsOnce(d) && !d.done
    ensures EndsOnce(OnCommand(d, cmd, limit))
  {
  }

  predicate Fresh(d: Drive) { d.bond.life.Opening? || d.bond.life.Live? }

  /** The owner of a connection is told of its end exactly once, and nothing after it. */
  lemma {:induction false} EndIsReportedOnce(h: seq<Step>, limit: Option<nat>)
    requires Possible(h, limit)
    ensures EndsOnce(Run(h, limit))
  {
    hide OnStep, EndsOnce;
    if h == [] {
      assert EndsOnce(Start(limit)) by { StartEndsOnce(limit); }
    } else {
      var init := h[..|h| - 1];
      EndIsReportedOnce(init, limit);
      RunFollows(init, limit);
      StepEndsOnce(Run(init, limit), h[|h| - 1], limit);
    }
  }

  lemma StartEndsOnce(limit: Option<nat>)
    ensures EndsOnce(Start(limit))
  {
  }

  // ---- what the owner is told ----

  /** What one turn tells the owner, given who opened the session before. */
  function Tells(owner: Option<string>, step: Step): seq<Event> {
    match step
    case Broken(error) => [HasFailed(error)]
    case Text(Opened(id)) => if owner.None? then [WasOpened(id)] else []
    case Text(Output(id, data)) => if owner == Some(id) then [Got(data)] else []
    case Text(Exit(id, code)) => if owner == Some(id) then [HasExited(code)] else []
    case Text(Error(message)) => [HasFailed(message)]
    case _ => []
  }

  function Told(h: seq<Step>): seq<Event> {
    if h == [] then []
    else Told(h[..|h| - 1]) + Tells(OpenedBy(h[..|h| - 1]), h[|h| - 1])
  }

  /** All of it was told - and behind it the failure, if sending broke off. */
  ghost predicate Reports(d: Drive, told: seq<Event>) {
    if d.done && d.events != told then d.events == told + [HasFailed(SEND_FAILED)] else d.events == told
  }

  lemma SendReports(d: Drive, m: ClientMsg, limit: Option<nat>, told: seq<Event>)
    requires !d.done && d.events == told
    ensures Reports(Send(d, m, limit), told) && (!Send(d, m, limit).done ==> Send(d, m, limit).events == told)
  {
  }

  lemma {:induction false} FlushReports(d: Drive, id: string, limit: Option<nat>, told: seq<Event>)
    requires Reports(d, told) && (!d.done ==> d.events == told)
    ensures Reports(Flush(d, id, limit), told) && (!Flush(d, id, limit).done ==> Flush(d, id, limit).events == told)
    decreases |d.pending|
  {
    hide Send, Reports;
    if d.pending != [] && !d.done {
      var d1, m := d.(pending := d.pending[1..]), Input(id, d.pending[0]);
      SendReports(d1, m, limit, told);
      SendKeepsPending(d1, m, limit);
      FlushReports(Send(d1, m, limit), id, limit, told);
    }
  }

  lemma StepReports(d: Drive, step: Step, limit: Option<nat>, told: seq<Event>)
    requires !d.done && d.events == told && Fresh(d)
    requires d.bond.id.None? <==> d.bond.life.Opening?
    ensures var d' := OnStep(d, step, limit);
            Reports(d', told + Tells(d.bond.id, step)) && (!d'.done ==> d'.events == told + Tells(d.bond.id, step))
  {
    hide Flush, Reports, Send;
    assert told + [] == told;
    match step {
      case Text(msg) =>
        var (bond, event) := OnServer(d.bond, msg);
        var more := told + Tells(d.bond.id, step);
        assert event.Some? ==> more == told + [event.value];
        SameReports(d.(bond := bond, events := more, done := false), more);
        SameReports(d.(bond := bond, events := more, done := true), more);
        SameReports(d.(bond := bond), told);
        if event.Some? && event.value.WasOpened? {
          var d2 := d.(bond := bond, events := more);
          if d2.resize.None? {
            FlushReports(d2, event.value.id, limit, more);
          } else {
            var m := Resize(event.value.id, d2.resize.value.0, d2.resize.value.1);
            SendReports(d2.(resize := None), m, limit, more);
            FlushReports(Send(d2.(resize := None), m, limit), event.value.id, limit, more);
          }
        }
      case Command(cmd) => CommandReports(d, cmd, limit, told);
      case Idle => SameReports(d, told);
      case Broken(error) => SameReports(Fail(d, error), told + [HasFailed(error)]);
    }
  }

  lemma SameReports(d: Drive, told: seq<Event>)
    requires d.events == told
    ensures Reports(d, told)
  {
  }

  lemma CommandReports(d: Drive, cmd: Cmd, limit: Option<nat>, told: seq<Event>)
    requires !d.done && d.events == told
    ensures var d' := OnCommand(d, cmd, limit); Reports(d', told) && (!d'.done ==> d'.events == told)
  {
  }

  /** The owner is told of the opening, of every output of its own session in order, and
      of the end - and of nothing else; a broken send is reported behind all that. */
  lemma {:induction false} OwnerIsTold(h: seq<Step>, limit: Option<nat>)
    requires Possible(h, limit)
    ensures Reports(Run(h, limit), Told(h)) && (!Run(h, limit).done ==> Run(h, limit).events == Told(h))
  {
    hide OnStep, Reports, Tells;
    if h == [] {
      assert Reports(Start(limit), []) && (!Start(limit).done ==> Start(limit).events == []) by { StartReports(limit); }
    } else {
      var init, last := h[..|h| - 1], h[|h| - 1];
      OwnerIsTold(init, limit);
      RunFollows(init, limit);
      StepReports(Run(init, limit), last, limit, Told(init));
    }
  }

  lemma StartReports(limit: Option<nat>)
    ensures Reports(Start(limit), []) && (!Start(limit).done ==> Start(limit).events == [])
  {
  }

  /** The commands are listened to as long as the loop runs and their sender has not gone. */
  lemma {:induction false} ListensUntilGone(h: seq<Step>, limit: Option<nat>, cmd: Cmd)
    ensures Enabled(Run(h, limit), Command(cmd))
       <==> !Run(h, limit).done && forall i :: 0 <= i < |h| ==> h[i] != Command(Gone)
    ensures Run(h, limit).outboundOpen <==> forall i :: 0 <= i < |h| ==> h[i] != Command(Gone)
  {
    if h != [] {
      var init, last := h[..|h| - 1], h[|h| - 1];
      ListensUntilGone(init, limit, cmd);
      KeepsListening(Run(init, limit), last, limit);
      hide OnStep;
      assert forall i :: 0 <= i < |init| ==> init[i] == h[i];
    } else {
      StartListens(limit);
    }
  }

  lemma StartListens(limit: Option<nat>)
    ensures Start(limit).outboundOpen
  {
  }

  lemma {:induction false} FlushKeepsListening(d: Drive, id: string, limit: Option<nat>)
    ensures Flush(d, id, limit).outboundOpen == d.outboundOpen
    decreases |d.pending|
  {
    if d.pending != [] && !d.done {
      FlushKeepsListening(Send(d.(pending := d.pending[1..]), Input(id, d.pending[0]), limit), id, limit);
    }
  }

  lemma KeepsListening(d: Drive, step: Step, limit: Option<nat>)
    ensures OnStep(d, step, limit).outboundOpen == (d.outboundOpen && step != Command(Gone))
  {
    hide Flush;
    if step.Text? {
      var (bond, event) := OnServer(d.bond, step.msg);
      if event.Some? && event.value.WasOpened? {
        var d2 := d.(bond := bond, events := d.events + [event.value]);
        var id := event.value.id;
        FlushKeepsListening(if d2.resize.None? then d2
                            else Send(d2.(resize := None), Resize(id, d2.resize.value.0, d2.resize.value.1), limit),
                            id, limit);
      }
    }
  }

  // ---- the driver object ----

  lemma SendKeepsPending(d: Drive, m: ClientMsg, limit: Option<nat>)
    ensures Send(d, m, limit).pending == d.pending
  {
  }

  class Driver {
    const session: Session
    const limit: Option<nat>
    var pending: seq<string>
    var resize: Option<(nat, nat)>
    var outboundOpen: bool
    var sent: seq<ClientMsg>
    var events: seq<Event>
    var done: bool

    function Abstract(): Drive
      reads this, session
    {
      Drive(session.Abstract(), pending, resize, outboundOpen, sent, events, done)
    }

    /** A new session, and the open request on its way. */
    constructor (limit: Option<nat>)
      ensures Abstract() == Start(limit) && this.limit == limit && fresh(session)
    {
      session := new Session();
      this.limit := limit;
      pending, resize, outboundOpen, sent, events, done := [], None, true, [], [], false;
      new;
      SendMsg(Open);
    }

    method SendMsg(m: ClientMsg)
      modifies this
      ensures Abstract() == Send(old(Abstract()), m, limit)
    {
      if limit.Some? && |sent| >= limit.value {
        done, events := true, events + [HasFailed(SEND_FAILED)];
      } else {
        sent := sent + [m];
      }
    }

    /** The cached size first, then the cached inputs in order. */
    method Replay(id: string)
      requires !done
      modifies this
      ensures Abstract() == OnOpened(old(Abstract()), id, limit)
    {
      hide Send;
      if resize.Some? {
        var size := resize.value;
        resize := None;
        SendMsg(Resize(id, size.0, size.1));
      }
      ghost var target := Flush(Abstract(), id, limit);
      while pending != [] && !done
        invariant Flush(Abstract(), id, limit) == target
        decreases |pending|
      {
        var input := pending[0];
        pending := pending[1..];
        ghost var before := Abstract();
        SendMsg(Input(id, input));
        SendKeepsPending(before, Input(id, input), limit);
      }
    }

    method TakeText(msg: ServerMsg)
      requires !done
      modifies this, session
      ensures Abstract() == OnText(old(Abstract()), msg, limit)
    {
      hide OnServer, OnOpened;
      var event := session.Receive(msg);
      if event.Some? {
        events := events + [event.value];
        if event.value.WasOpened? {
          Replay(event.value.id);
        } else {
          done := Final(event.value);
        }
      }
    }

    method TakeCommand(cmd: Cmd)
      requires !done && outboundOpen
      modifies this
      ensures Abstract() == OnCommand(old(Abstract()), cmd, limit)
    {
      hide Send;
      var to := Address(session.Abstract());
      match cmd {
        case Type(input) =>
          if to.Some? { SendMsg(Input(to.value, input)); } else { pending := pending + [input]; }
        case Size(cols, rows) =>
          resize := Some((cols, rows));
          if to.Some? { SendMsg(Resize(to.value, cols, rows)); }
        case Hangup =>
          if to.Some? { SendMsg(Close(to.value)); }
        case Gone => outboundOpen := false;
      }
    }
  }
}
