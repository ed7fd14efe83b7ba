/** The incremental server-sent-events parser (`src/brain.rs`).  A `string` stands for
    bytes. */
module Sse {
  import opened Text

  datatype State = State(buf: string, data: seq<string>)

  /** Some frames, and the parser behind them. */
  datatype Out = Out(frames: seq<string>, rest: State)

  /** Behind the colon of a data field: at most one leading space goes. */
  function DataText(line: string): string
    requires |line| >= 5
  {
    if |line| > 5 && line[5] == ' ' then line[6..] else line[5..]
  }

  /** The data lines after one more line, and the frame it completes, if any. */
  function OnLine(data: seq<string>, line: string): (seq<string>, Option<string>) {
    if line == "" then ([], if data == [] then None else Some(Join(data, "\n")))
    else if line[0] == ':' then (data, None)
    else if "data:" <= line then (data + [DataText(line)], None)
    else (data, None)
  }

  /** `next_frame`: takes lines until one completes a frame. */
  function NextFrame(s: State): (Option<string>, State)
    decreases |s.buf|
  {
    var i := Find(s.buf, '\n');
    if i == |s.buf| then (None, s)
    else
      var (data, frame) := OnLine(s.data, LineBefore(s.buf, i));
      var s1 := State(s.buf[i + 1..], data);
      if frame.Some? then (frame, s1) else NextFrame(s1)
  }

  function Ahead(frame: Option<string>, out: Out): Out {
    if frame.None? then out else out.(frames := [frame.value] + out.frames)
  }

  /** Everything the buffer completes, line by line. */
  function Drain(s: State): Out
    decreases |s.buf|
  {
    var i := Find(s.buf, '\n');
    if i == |s.buf| then Out([], s)
    else
      var (data, frame) := OnLine(s.data, LineBefore(s.buf, i));
      Ahead(frame, Drain(State(s.buf[i + 1..], data)))
  }

  lemma DrainStep(s: State)
    requires Find(s.buf, '\n') < |s.buf|
    ensures var i := Find(s.buf, '\n');
            var (data, frame) := OnLine(s.data, LineBefore(s.buf, i));
            Drain(s) == Ahead(frame, Drain(State(s.buf[i + 1..], data)))
  {
    hide OnLine, LineBefore, Find, Ahead;
  }

  lemma NextFrameStep(s: State)
    ensures var i := Find(s.buf, '\n');
            if i == |s.buf| then NextFrame(s) == (None, s)
            else
              var (data, frame) := OnLine(s.data, LineBefore(s.buf, i));
              var s1 := State(s.buf[i + 1..], data);
              NextFrame(s) == if frame.Some? then (frame, s1) else NextFrame(s1)
  {
    hide OnLine, LineBefore, Find;
  }

  lemma DrainNothing(s: State)
    requires Find(s.buf, '\n') == |s.buf|
    ensures Drain(s) == Out([], s)
  {
    hide Find;
  }

  lemma AheadOfNone(out: Out)
    ensures Ahead(None, out) == out
  {
  }

  /** Asking frame by frame gives the same frames. */
  lemma {:induction false} DrainIsFrameByFrame(s: State)
    ensures var (frame, s1) := NextFrame(s);
            && Drain(s) == (if frame.None? then Out([], s1) else Ahead(frame, Drain(s1)))
            && |s1.buf| <= |s.buf| && (frame.Some? ==> |s1.buf| < |s.buf|)
    decreases |s.buf|
  {
    hide OnLine, LineBefore, NextFrame, Drain, Find, Ahead;
    var i := Find(s.buf, '\n');
    NextFrameStep(s);
    if i == |s.buf| {
      DrainNothing(s);
    } else {
      var (data, frame) := OnLine(s.data, LineBefore(s.buf, i));
      var s1 := State(s.buf[i + 1..], data);
      DrainStep(s);
      AheadOfNone(Drain(s1));
      if frame.None? {
        DrainIsFrameByFrame(s1);
      }
    }
  }

  class Parser {
    var buf: string
    var data: seq<string>

    function Abstract(): State
      reads this
    {
      State(buf, data)
    }

    constructor ()
      ensures Abstract() == State("", [])
    {
      buf, data := "", [];
    }

    method Feed(bytes: string)
      modifies this
      ensures Abstract() == State(old(buf) + bytes, old(data))
    {
      buf := buf + bytes;
    }

    method Take() returns (frame: Option<string>)
      modifies this
      ensures (frame, Abstract()) == NextFrame(old(Abstract()))
    {
      hide NextFrame, LineBefore, Find;
      ghost var want := NextFrame(Abstract());
      while true
        invariant NextFrame(Abstract()) == want
        decreases |buf|
      {
        var nl := Find(buf, '\n');
        NextFrameStep(Abstract());
        if nl == |buf| { return None; }
        var line := LineBefore(buf, nl);
        buf := buf[nl + 1..];
        if line == "" {
          if data == [] { continue; }
          frame := Some(Join(data, "\n"));
          data := [];
          return;
        }
        if line[0] == ':' { continue; }
        if "data:" <= line { data := data + [DataText(line)]; }
      }
    }

    method DrainFrames() returns (frames: seq<string>)
      modifies this
      ensures Out(frames, Abstract()) == Drain(old(Abstract()))
    {
      hide NextFrame, Drain;
      frames := [];
      ghost var want := Drain(Abstract());
      assert [] + want.frames == want.frames;
      while true
        invariant want == Out(frames + Drain(Abstract()).frames, Drain(Abstract()).rest)
        decreases |buf|
      {
        DrainIsFrameByFrame(Abstract());
        var frame := Take();
        if frame.None? {
          assert frames + [] == frames;
          return;
        }
        assert frames + ([frame.value] + Drain(Abstract()).frames) == frames + [frame.value] + Drain(Abstract()).frames;
        frames := frames + [frame.value];
      }
    }
  }

  // ---- cutting the input ----

  function Then(frames: seq<string>, out: Out): Out { out.(frames := frames + out.frames) }

  function Fed(s: State, bytes: string): State { s.(buf := s.buf + bytes) }

  lemma AheadThen(frame: Option<string>, first: Out, out: Out)
    ensures Ahead(frame, Then(first.frames, out)) == Then(Ahead(frame, first).frames, out)
    ensures Ahead(frame, first).rest == first.rest
  {
    if frame.Some? {
      assert [frame.value] + (first.frames + out.frames) == ([frame.value] + first.frames) + out.frames;
    }
  }

  lemma ThenNothing(out: Out)
    ensures Then([], out) == out
  {
    assert [] + out.frames == out.frames;
  }

  lemma LineStays(buf: string, more: string)
    requires Find(buf, '\n') < |buf|
    ensures var i := Find(buf, '\n');
            Find(buf + more, '\n') == i && LineBefore(buf + more, i) == LineBefore(buf, i)
            && (buf + more)[i + 1..] == buf[i + 1..] + more
  {
    FirstLineStays(buf, more);
  }

  lemma FedStep(s: State, more: string, s1: State, frame: Option<string>)
    requires Find(s.buf, '\n') < |s.buf|
    requires (s1.data, frame) == OnLine(s.data, LineBefore(s.buf, Find(s.buf, '\n')))
    requires s1.buf == s.buf[Find(s.buf, '\n') + 1..]
    ensures Drain(Fed(s, more)) == Ahead(frame, Drain(Fed(s1, more)))
  {
    hide OnLine, LineBefore, Ahead, Drain, Find;
    LineStays(s.buf, more);
    DrainStep(Fed(s, more));
  }

  /** Feeding two pieces gives the frames and the state of feeding them at once. */
  lemma {:induction false} CutChangesNothing(s: State, more: string)
    ensures var out := Drain(s);
            Drain(Fed(s, more)) == Then(out.frames, Drain(Fed(out.rest, more)))
    decreases |s.buf|
  {
    hide OnLine, LineBefore, Then, Ahead;
    var i := Find(s.buf, '\n');
    if i == |s.buf| {
      ThenNothing(Drain(Fed(s, more)));
    } else {
      hide Drain, Find;
      DrainStep(s);
      var (data, frame) := OnLine(s.data, LineBefore(s.buf, i));
      var s1 := State(s.buf[i + 1..], data);
      FedStep(s, more, s1, frame);
      hide Fed;
      CutChangesNothing(s1, more);
      var out := Drain(s1);
      AheadThen(frame, out, Drain(Fed(out.rest, more)));
    }
  }

  // ---- what the frames are ----

  /** A line of an event as a server writes it. */
  datatype Field = Data(text: string, spaced: bool) | Comment(text: string) | Other(text: string)

  datatype Written = Written(field: Field, crlf: bool)

  /** A server's event: its lines, and how the empty line behind them ends. */
  datatype Event = Event(lines: seq<Written>, crlf: bool)

  function FieldLine(f: Field): string {
    match f
    case Data(text, spaced) => (if spaced then "data: " else "data:") + text
    case Comment(text) => ":" + text
    case Other(text) => text
  }

  /** One line each; a data text with a leading space is spaced; other fields are named,
      and not comments or data. */
  predicate FieldFits(f: Field) {
    && '\n' !in f.text
    && (f.text != "" ==> f.text[|f.text| - 1] != '\r')
    && (f.Data? && !f.spaced ==> f.text == "" || f.text[0] != ' ')
    && (f.Other? ==> f.text != "" && f.text[0] != ':' && !("data:" <= f.text))
  }

  function LineEnd(crlf: bool): string { if crlf then "\r\n" else "\n" }

  function LinesWire(lines: seq<Written>): string {
    if lines == [] then ""
    else LinesWire(lines[..|lines| - 1]) + (FieldLine(lines[|lines| - 1].field) + LineEnd(lines[|lines| - 1].crlf))
  }

  function EventWire(e: Event): string { LinesWire(e.lines) + LineEnd(e.crlf) }

  function Wire(events: seq<Event>): string {
    if events == [] then "" else Wire(events[..|events| - 1]) + EventWire(events[|events| - 1])
  }

  function DataOf(lines: seq<Written>): seq<string> {
    if lines == [] then []
    else
      var r, f := DataOf(lines[..|lines| - 1]), lines[|lines| - 1].field;
      if f.Data? then r + [f.text] else r
  }

  /** The payloads: an event without data is none. */
  function Payloads(events: seq<Event>): seq<string> {
    if events == [] then []
    else
      var r, data := Payloads(events[..|events| - 1]), DataOf(events[|events| - 1].lines);
      if data == [] then r else r + [Join(data, "\n")]
  }

  ghost predicate EventFits(e: Event) { forall i :: 0 <= i < |e.lines| ==> FieldFits(e.lines[i].field) }

  /** One whole line in an empty buffer. */
  lemma DrainLine(data: seq<string>, line: string, crlf: bool)
    requires '\n' !in line && (line != "" ==> line[|line| - 1] != '\r')
    ensures var (data', frame) := OnLine(data, line);
            Drain(State(line + LineEnd(crlf), data)) == Ahead(frame, Out([], State("", data')))
  {
    hide OnLine, LineBefore, Find, Drain, Ahead, LineEnd;
    WholeLineIs(line, crlf);
    DrainStep(State(line + LineEnd(crlf), data));
    DrainEmpty(OnLine(data, line).0);
  }

  lemma WholeLineIs(line: string, crlf: bool)
    requires '\n' !in line && (line != "" ==> line[|line| - 1] != '\r')
    ensures var buf := line + LineEnd(crlf); var i := |buf| - 1;
            0 <= i == Find(buf, '\n') && LineBefore(buf, i) == line && buf[i + 1..] == ""
  {
    var buf := line + LineEnd(crlf);
    var i := |buf| - 1;
    assert buf[i] == '\n';
    FindIs(buf, '\n', i);
    hide Find;
    if crlf {
      assert buf[..i - 1] == line && buf[i - 1] == '\r';
    } else {
      assert buf[..i] == line && (i > 0 ==> buf[i - 1] == line[i - 1]);
    }
  }

  lemma DrainEmpty(data: seq<string>)
    ensures Drain(State("", data)) == Out([], State("", data))
  {
  }

  lemma FieldDoes(data: seq<string>, f: Field)
    requires FieldFits(f)
    ensures OnLine(data, FieldLine(f)) == (if f.Data? then data + [f.text] else data, None)
    ensures '\n' !in FieldLine(f) && FieldLine(f) != "" && FieldLine(f)[|FieldLine(f)| - 1] != '\r'
  {
    var line := FieldLine(f);
    if f.Data? {
      assert line[if f.spaced then 6 else 5..] == f.text;
      assert line[..5] == "data:";
    }
  }

  lemma DrainTwo(s: State, a: string, b: string)
    requires Drain(Fed(s, a)).frames == []
    ensures Drain(Fed(s, a + b)) == Drain(Fed(Drain(Fed(s, a)).rest, b))
  {
    hide Drain;
    CutChangesNothing(Fed(s, a), b);
    assert Fed(Fed(s, a), b) == Fed(s, a + b) by { assert s.buf + a + b == s.buf + (a + b); }
    ThenNothing(Drain(Fed(Drain(Fed(s, a)).rest, b)));
  }

  lemma {:induction false} LinesDrain(lines: seq<Written>)
    requires forall i :: 0 <= i < |lines| ==> FieldFits(lines[i].field)
    ensures Drain(State(LinesWire(lines), [])) == Out([], State("", DataOf(lines)))
  {
    hide OnLine, FieldFits, FieldLine, LineEnd;
    if lines == [] {
    } else {
      hide Drain;
      var init, last := lines[..|lines| - 1], lines[|lines| - 1];
      LinesDrain(init);
      var data, line := DataOf(init), FieldLine(last.field) + LineEnd(last.crlf);
      FieldDoes(data, last.field);
      DrainLine(data, FieldLine(last.field), last.crlf);
      assert "" + LinesWire(init) == LinesWire(init);
      assert Fed(State("", []), LinesWire(init)) == State(LinesWire(init), []);
      DrainTwo(State("", []), LinesWire(init), line);
      assert "" + line == line && "" + (LinesWire(init) + line) == LinesWire(init) + line;
    }
  }

  lemma EventDrains(e: Event)
    requires EventFits(e)
    ensures var data := DataOf(e.lines);
            Drain(State(EventWire(e), [])) == Out(if data == [] then [] else [Join(data, "\n")], State("", []))
  {
    hide Drain, LineEnd, LinesWire, DataOf;
    LinesDrain(e.lines);
    var data := DataOf(e.lines);
    var blank := LineEnd(e.crlf);
    DrainLine(data, "", e.crlf);
    assert "" + blank == blank && "" + LinesWire(e.lines) == LinesWire(e.lines) && "" + EventWire(e) == EventWire(e);
    DrainTwo(State("", []), LinesWire(e.lines), blank);
  }

  lemma {:induction false} EventsDrain(events: seq<Event>)
    requires forall i :: 0 <= i < |events| ==> EventFits(events[i])
    ensures Drain(State(Wire(events), [])) == Out(Payloads(events), State("", []))
  {
    hide EventFits, EventWire, DataOf;
    if events != [] {
      hide Drain;
      var init, last := events[..|events| - 1], events[|events| - 1];
      EventsDrain(init);
      EventDrains(last);
      CutChangesNothing(State(Wire(init), []), EventWire(last));
      assert "" + EventWire(last) == EventWire(last);
      assert Payloads(init) + [] == Payloads(init);
    }
  }

  // ---- any cut ----

  function Flat(pieces: seq<string>): string {
    if pieces == [] then "" else Flat(pieces[..|pieces| - 1]) + pieces[|pieces| - 1]
  }

  /** Feed a piece, drain, and so on. */
  function DrainEach(pieces: seq<string>): Out {
    if pieces == [] then Out([], State("", []))
    else
      var before := DrainEach(pieces[..|pieces| - 1]);
      Then(before.frames, Drain(Fed(before.rest, pieces[|pieces| - 1])))
  }

  lemma {:induction false} AnyCutDrainsTheSame(pieces: seq<string>)
    ensures DrainEach(pieces) == Drain(State(Flat(pieces), []))
  {
    if pieces != [] {
      hide Drain;
      var init, last := pieces[..|pieces| - 1], pieces[|pieces| - 1];
      AnyCutDrainsTheSame(init);
      CutChangesNothing(State(Flat(init), []), last);
    }
  }

  /** However the stream of a server's events is cut up: exactly their payloads come out,
      in order, and nothing is left. */
  lemma EventsArrive(events: seq<Event>, pieces: seq<string>)
    requires forall i :: 0 <= i < |events| ==> EventFits(events[i])
    ensures Flat(pieces) == Wire(events) ==> DrainEach(pieces) == Out(Payloads(events), State("", []))
  {
    hide Drain;
    AnyCutDrainsTheSame(pieces);
    EventsDrain(events);
  }
}
