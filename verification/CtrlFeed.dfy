/** The control-mode seeding machine (`src/ctrl_feed.rs`) with the line and header
    parsers it relies on (`src/tmux_ctl.rs`).  A `string` stands for bytes. */
module CtrlFeed {
  import opened Text

  const U32_MAX: nat := 0xFFFF_FFFF
  const U64_MAX: nat := 0xFFFF_FFFF_FFFF_FFFF

  /** Stale blocks of one round after which the seeding has failed. */
  const STALE_SKIP_MAX: nat := 4

  // ---- one line of the control channel ----

  datatype Event =
    | Output(pane: nat, bytes: string)
    | BlockBegin
    | BlockEnd
    | BlockError
    | Exit
    | Notify
    | Plain

  predicate IsOctal(c: char) { '0' <= c <= '7' }

  function OctalChar(a: char, b: char, c: char): char
    requires IsOctal(a) && IsOctal(b) && IsOctal(c)
  {
    (((a as int - '0' as int) * 64 + (b as int - '0' as int) * 8 + (c as int - '0' as int)) % 256) as char
  }

  /** `ctrl_unescape`: a backslash and three octal digits are one byte; any other
      backslash stands for itself. */
  function Unescape(s: string): string
    decreases |s|
  {
    if s == "" then ""
    else if s[0] == '\\' && |s| > 3 && IsOctal(s[1]) && IsOctal(s[2]) && IsOctal(s[3]) then
      [OctalChar(s[1], s[2], s[3])] + Unescape(s[4..])
    else [s[0]] + Unescape(s[1..])
  }

  /** A word alone, or followed by a space and more. */
  predicate Heads(word: string, rest: string) { rest == word || word + " " <= rest }

  function ParseOutput(body: string): Option<Event> {
    var i := Find(body, ' ');
    if i == |body| || i == 0 || body[0] != '%' then None
    else
      match ParseUint(body[1..i], 10, U64_MAX)
      case None => None
      case Some(pane) => Some(Output(pane, Unescape(body[i + 1..])))
  }

  /** `parse_ctrl_line`. */
  function ParseLine(raw: string): Event {
    var line := if raw != "" && raw[|raw| - 1] == '\r' then raw[..|raw| - 1] else raw;
    if line == "" || line[0] != '%' then Plain
    else
      var rest := line[1..];
      if Heads("exit", rest) then Exit
      else if Heads("begin", rest) then BlockBegin
      else if Heads("end", rest) then BlockEnd
      else if Heads("error", rest) then BlockError
      else if "output " <= rest then
        (match ParseOutput(rest[7..])
         case Some(ev) => ev
         case None => Notify)
      else Notify
  }

  // ---- what a line is, by its text ----

  /** A percent sign and a word, alone or followed by a space and more. */
  predicate Opens(line: string, word: string) { line == "%" + word || "%" + word + " " <= line }

  /** The text of an output line: the pane's number behind a percent sign, and a payload. */
  ghost predicate Reports(line: string, pane: nat, bytes: string) {
    exists id: string, payload: string :: ReportedBy(line, pane, bytes, id, payload)
  }

  ghost predicate ReportedBy(line: string, pane: nat, bytes: string, id: string, payload: string) {
    && line == "%output %" + id + " " + payload
    && Writes(id, pane) && pane <= U64_MAX && bytes == Unescape(payload)
  }

  lemma OpensIs(line: string, word: string)
    requires line != "" && line[0] == '%'
    ensures Opens(line, word) <==> Heads(word, line[1..])
  {
    assert line == "%" + line[1..];
    assert ("%" + word)[1..] == word && ("%" + word + " ")[1..] == word + " ";
  }

  lemma NumberHasNoSpace(s: string, n: nat)
    requires Writes(s, n)
    ensures ' ' !in s && s != ""
  {
    var body := if |s| > 1 && s[0] == '+' then s[1..] else s;
    assert ' ' !in body;
    assert s == body || s == "+" + body;
  }

  lemma ReportedReads(line: string, pane: nat, bytes: string, id: string, payload: string)
    requires ReportedBy(line, pane, bytes, id, payload)
    ensures line[1..] == "output " + ("%" + id + " " + payload)
    ensures ParseOutput("%" + id + " " + payload) == Some(Output(pane, bytes))
  {
    hide Unescape, ParseUint, Writes, Find;
    var body := "%" + id + " " + payload;
    NumberHasNoSpace(id, pane);
    ParseUintIs(id, U64_MAX, pane);
    assert line == "%" + ("output " + body);
    FindIs(body, ' ', |id| + 1);
    assert body[1..|id| + 1] == id && body[|id| + 2..] == payload;
  }

  lemma IsReported(line: string, pane: nat, bytes: string, id: string, payload: string)
    requires line == "%output %" + id + " " + payload
    requires Writes(id, pane) && pane <= U64_MAX && bytes == Unescape(payload)
    ensures ReportedBy(line, pane, bytes, id, payload)
  {
  }

  lemma OutputReported(body: string, pane: nat, bytes: string) returns (id: string, payload: string)
    requires ParseOutput(body) == Some(Output(pane, bytes))
    ensures body == "%" + id + " " + payload && Writes(id, pane) && pane <= U64_MAX && bytes == Unescape(payload)
  {
    hide Unescape, ParseUint, Writes;
    var i := Find(body, ' ');
    id, payload := body[1..i], body[i + 1..];
    ParseUintIs(id, U64_MAX, pane);
    assert body == [body[0]] + body[1..i] + [body[i]] + body[i + 1..];
    hide Find;
  }

  lemma OutputText(line: string, pane: nat, bytes: string)
    requires line != "" && line[0] == '%'
    ensures Reports(line, pane, bytes)
       <==> "output " <= line[1..] && ParseOutput(line[1..][7..]) == Some(Output(pane, bytes))
  {
    hide Unescape, ParseUint, Writes, ReportedBy, ParseOutput;
    if Reports(line, pane, bytes) {
      var id: string, payload: string :| ReportedBy(line, pane, bytes, id, payload);
      ReportedReads(line, pane, bytes, id, payload);
      assert line[1..][7..] == "%" + id + " " + payload;
    }
    if "output " <= line[1..] && ParseOutput(line[1..][7..]) == Some(Output(pane, bytes)) {
      var id, payload := OutputReported(line[1..][7..], pane, bytes);
      assert line == "%" + line[1..] && line[1..] == "output " + line[1..][7..];
      assert line == "%output %" + id + " " + payload;
      IsReported(line, pane, bytes, id, payload);
    }
  }

  /** What a line is, by its text once a carriage return is taken off its end: a mark if it
      is the word behind a percent sign or goes on behind it with a space; output if it
      names a pane by its number; plain if it does not begin with a percent sign; and a
      notification otherwise. */
  lemma LineIs(raw: string)
    ensures var line := if raw != "" && raw[|raw| - 1] == '\r' then raw[..|raw| - 1] else raw;
            && (ParseLine(raw) == Plain <==> line == "" || line[0] != '%')
            && (ParseLine(raw) == BlockBegin <==> Opens(line, "begin"))
            && (ParseLine(raw) == BlockEnd <==> Opens(line, "end"))
            && (ParseLine(raw) == BlockError <==> Opens(line, "error"))
            && (ParseLine(raw) == Exit <==> Opens(line, "exit"))
            && (forall pane, bytes :: ParseLine(raw) == Output(pane, bytes) <==> Reports(line, pane, bytes))
            && (ParseLine(raw) == Notify <==>
                  line != "" && line[0] == '%' && !Opens(line, "begin") && !Opens(line, "end")
                  && !Opens(line, "error") && !Opens(line, "exit")
                  && forall pane, bytes :: !Reports(line, pane, bytes))
  {
    hide ParseOutput, Reports, Opens;
    var line := if raw != "" && raw[|raw| - 1] == '\r' then raw[..|raw| - 1] else raw;
    if line == "" || line[0] != '%' {
      PlainText(line);
    } else {
      OpensIs(line, "begin");
      OpensIs(line, "end");
      OpensIs(line, "error");
      OpensIs(line, "exit");
      WordsApart(line[1..]);
      forall pane, bytes
        ensures Reports(line, pane, bytes)
           <==> "output " <= line[1..] && ParseOutput(line[1..][7..]) == Some(Output(pane, bytes))
      {
        OutputText(line, pane, bytes);
      }
      if "output " <= line[1..] && ParseOutput(line[1..][7..]).Some? { OnlyOutput(line[1..][7..]); }
    }
  }

  lemma PlainText(line: string)
    requires line == "" || line[0] != '%'
    ensures !Opens(line, "begin") && !Opens(line, "end") && !Opens(line, "error") && !Opens(line, "exit")
    ensures forall pane, bytes :: !Reports(line, pane, bytes)
  {
  }

  lemma WordsApart(rest: string)
    ensures Heads("begin", rest) ==> rest[0] == 'b'
    ensures Heads("end", rest) ==> rest[1] == 'n'
    ensures Heads("error", rest) ==> rest[0] == 'e' && rest[1] == 'r'
    ensures Heads("exit", rest) ==> rest[0] == 'e' && rest[1] == 'x'
    ensures Heads("end", rest) ==> rest[0] == 'e'
    ensures "output " <= rest ==> rest[0] == 'o'
  {
  }

  lemma OnlyOutput(body: string)
    requires ParseOutput(body).Some?
    ensures ParseOutput(body).value.Output?
  {
  }

  // ---- the seed header ----

  const TAG := "KFMHDR "

  datatype Header = Header(token: nat, hist: nat, limit: nat, x: nat, y: nat, pane: nat)

  /** `parse_seed_header`; words after the sixth are ignored. */
  function ParseHeader(line: string): Option<Header> {
    if !(TAG <= line) then None
    else
      var w := Split(line[|TAG|..], ' ');
      if |w| < 6 || w[5] == "" || w[5][0] != '%' then None
      else
        var token, hist := ParseUint(w[0], 10, U64_MAX), ParseUint(w[1], 10, U64_MAX);
        var limit := ParseUint(w[2], 10, U64_MAX);
        var x, y, pane := ParseUint(w[3], 10, U32_MAX), ParseUint(w[4], 10, U32_MAX), ParseUint(w[5][1..], 10, U64_MAX);
        if token.None? || hist.None? || limit.None? || x.None? || y.None? || pane.None? then None
        else Some(Header(token.value, hist.value, limit.value, x.value, y.value, pane.value))
  }

  function HeaderWords(h: Header): seq<string> {
    [Dec(h.token), Dec(h.hist), Dec(h.limit), Dec(h.x), Dec(h.y), "%" + Dec(h.pane)]
  }

  /** The line tmux prints for the seed command. */
  function HeaderLine(h: Header): string { TAG + Join(HeaderWords(h), " ") }

  predicate HeaderFits(h: Header) {
    && h.token <= U64_MAX && h.hist <= U64_MAX && h.limit <= U64_MAX && h.pane <= U64_MAX
    && h.x <= U32_MAX && h.y <= U32_MAX
  }

  lemma DecHasNoSpace(n: nat)
    ensures ' ' !in Dec(n)
  {
  }

  /** A printed header reads back exactly when its numbers fit their types. */
  lemma HeaderRoundTrip(h: Header)
    ensures ParseHeader(HeaderLine(h)) == if HeaderFits(h) then Some(h) else None
  {
    hide Dec, ParseUint;
    var w := HeaderWords(h);
    forall i | 0 <= i < 6 ensures ' ' !in w[i] {
      DecHasNoSpace(h.token); DecHasNoSpace(h.hist); DecHasNoSpace(h.limit);
      DecHasNoSpace(h.x); DecHasNoSpace(h.y); DecHasNoSpace(h.pane);
    }
    SplitJoin(w, ' ');
    assert HeaderLine(h)[|TAG|..] == Join(w, " ");
    hide Split, Join;
    assert w[5][1..] == Dec(h.pane);
    ParseDec(h.token, U64_MAX); ParseDec(h.hist, U64_MAX); ParseDec(h.limit, U64_MAX);
    ParseDec(h.x, U32_MAX); ParseDec(h.y, U32_MAX); ParseDec(h.pane, U64_MAX);
  }

  /** The text of a header: the tag, and words with one space between, of which the first
      five write the numbers and the sixth a percent sign and the pane's. */
  ghost predicate HeaderText(line: string, w: seq<string>, h: Header) {
    && |w| >= 6 && (forall i :: 0 <= i < |w| ==> ' ' !in w[i]) && line == TAG + Join(w, " ") && HeaderFits(h)
    && Writes(w[0], h.token) && Writes(w[1], h.hist) && Writes(w[2], h.limit) && Writes(w[3], h.x) && Writes(w[4], h.y)
    && w[5] != "" && w[5][0] == '%' && Writes(w[5][1..], h.pane)
  }

  lemma {:induction false} SplitNoSep(s: string, c: char)
    ensures forall i :: 0 <= i < |Split(s, c)| ==> c !in Split(s, c)[i]
    ensures Join(Split(s, c), [c]) == s
    decreases |s|
  {
    var i := Find(s, c);
    if i < |s| {
      SplitNoSep(s[i + 1..], c);
      assert s == s[..i] + [c] + s[i + 1..];
    }
  }

  lemma NumbersRead(w: seq<string>, h: Header)
    requires |w| >= 6
    ensures ParseUint(w[0], 10, U64_MAX) == Some(h.token) <==> Writes(w[0], h.token) && h.token <= U64_MAX
    ensures ParseUint(w[1], 10, U64_MAX) == Some(h.hist) <==> Writes(w[1], h.hist) && h.hist <= U64_MAX
    ensures ParseUint(w[2], 10, U64_MAX) == Some(h.limit) <==> Writes(w[2], h.limit) && h.limit <= U64_MAX
    ensures ParseUint(w[3], 10, U32_MAX) == Some(h.x) <==> Writes(w[3], h.x) && h.x <= U32_MAX
    ensures ParseUint(w[4], 10, U32_MAX) == Some(h.y) <==> Writes(w[4], h.y) && h.y <= U32_MAX
    ensures w[5] != "" ==>
              (ParseUint(w[5][1..], 10, U64_MAX) == Some(h.pane) <==> Writes(w[5][1..], h.pane) && h.pane <= U64_MAX)
  {
    hide ParseUint, Writes;
    ParseUintIs(w[0], U64_MAX, h.token);
    ParseUintIs(w[1], U64_MAX, h.hist);
    ParseUintIs(w[2], U64_MAX, h.limit);
    ParseUintIs(w[3], U32_MAX, h.x);
    ParseUintIs(w[4], U32_MAX, h.y);
    if w[5] != "" { ParseUintIs(w[5][1..], U64_MAX, h.pane); }
  }

  /** A line is a header exactly if it has that text. */
  lemma HeaderIs(line: string, h: Header)
    ensures ParseHeader(line) == Some(h) <==> exists w: seq<string> :: HeaderText(line, w, h)
  {
    hide ParseUint, Writes, Split, Join;
    if w: seq<string> :| HeaderText(line, w, h) {
      SplitJoin(w, ' ');
      NumbersRead(w, h);
      assert line[|TAG|..] == Join(w, " ");
    }
    if ParseHeader(line) == Some(h) {
      var w := Split(line[|TAG|..], ' ');
      SplitNoSep(line[|TAG|..], ' ');
      NumbersRead(w, h);
      assert line == TAG + line[|TAG|..];
      assert HeaderText(line, w, h);
    }
  }

  // ---- output payloads ----

  function OctalOf(v: nat): (s: string)
    requires v < 256
    ensures |s| == 3 && IsOctal(s[0]) && IsOctal(s[1]) && IsOctal(s[2]) && OctalChar(s[0], s[1], s[2]) == v as char
  {
    var r := v % 64;
    assert v == v / 64 * 64 + r && r == r / 8 * 8 + r % 8;
    [DigitChar(v / 64), DigitChar(r / 8), DigitChar(r % 8)]
  }

  /** What tmux writes for one byte of pane output: control bytes and backslashes in octal. */
  function EscapeByte(c: char): string
    requires c as int < 256
  {
    if c < ' ' || c == '\\' then "\\" + OctalOf(c as int) else [c]
  }

  function Escape(s: string): string
    requires forall i :: 0 <= i < |s| ==> s[i] as int < 256
  {
    if s == "" then "" else EscapeByte(s[0]) + Escape(s[1..])
  }

  lemma UnescapeByte(c: char, rest: string)
    requires c as int < 256
    ensures Unescape(EscapeByte(c) + rest) == [c] + Unescape(rest)
  {
    var s := EscapeByte(c) + rest;
    if c < ' ' || c == '\\' {
      assert s[4..] == rest;
    } else {
      assert s[1..] == rest;
    }
  }

  lemma {:induction false} UnescapeEscape(s: string)
    requires forall i :: 0 <= i < |s| ==> s[i] as int < 256
    ensures Unescape(Escape(s)) == s
  {
    if s != "" {
      UnescapeEscape(s[1..]);
      UnescapeByte(s[0], Escape(s[1..]));
      assert [s[0]] + s[1..] == s;
    }
  }

  lemma {:induction false} EscapeIsPrintable(s: string)
    requires forall i :: 0 <= i < |s| ==> s[i] as int < 256
    ensures forall i :: 0 <= i < |Escape(s)| ==> Escape(s)[i] >= ' '
  {
    if s != "" {
      EscapeIsPrintable(s[1..]);
    }
  }

  /** A backslash in front of three octal digits. */
  predicate EscapeAt(s: string, i: nat) {
    i + 3 < |s| && s[i] == '\\' && IsOctal(s[i + 1]) && IsOctal(s[i + 2]) && IsOctal(s[i + 3])
  }

  predicate Unescaped(s: string) { forall i :: 0 <= i < |s| ==> !EscapeAt(s, i) }

  lemma UnescapedRest(s: string)
    requires s != "" && Unescaped(s)
    ensures Unescaped(s[1..])
  {
    hide IsOctal;
    forall i | 0 <= i < |s| - 1 ensures !EscapeAt(s[1..], i) {
      assert !EscapeAt(s, i + 1);
    }
  }

  lemma PlainByte(s: string)
    requires s != "" && !EscapeAt(s, 0)
    ensures Unescape(s) == [s[0]] + Unescape(s[1..])
  {
  }

  lemma {:induction false} UnescapedStays(s: string)
    requires Unescaped(s)
    ensures Unescape(s) == s
    decreases |s|
  {
    if s != "" {
      UnescapedRest(s);
      UnescapedStays(s[1..]);
      PlainByte(s);
      hide Unescape, Unescaped;
    }
  }

  lemma StillPlain(front: string, e: string, rest: string)
    requires front != "" && !EscapeAt(front, 0) && |e| == 4 && e[0] == '\\'
    ensures !EscapeAt(front + e + rest, 0)
  {
    var s := front + e + rest;
    if |front| > 3 {
      assert s[0] == front[0] && s[1] == front[1] && s[2] == front[2] && s[3] == front[3];
    } else {
      assert s[|front|] == e[0];
    }
  }

  /** Bytes up to the first escape stand for themselves; the escape is one byte; and so on
      behind it. */
  lemma {:induction false} UnescapeIs(front: string, a: char, b: char, c: char, rest: string)
    requires Unescaped(front) && IsOctal(a) && IsOctal(b) && IsOctal(c)
    ensures Unescape(front) == front
    ensures Unescape(front + ['\\', a, b, c] + rest)
         == front + [(((a as int - 48) * 64 + (b as int - 48) * 8 + (c as int - 48)) % 256) as char] + Unescape(rest)
    decreases |front|
  {
    UnescapedStays(front);
    var e := ['\\', a, b, c];
    var s := front + e + rest;
    if front == "" {
      assert s == e + rest && s[4..] == rest;
    } else {
      hide Unescape, IsOctal;
      UnescapedRest(front);
      UnescapeIs(front[1..], a, b, c, rest);
      StillPlain(front, e, rest);
      PlainByte(s);
      assert s[1..] == front[1..] + e + rest && front == [front[0]] + front[1..];
    }
  }

  lemma OutputBodyReads(pane: nat, payload: string)
    requires pane <= U64_MAX
    ensures ParseOutput("%" + Dec(pane) + " " + payload) == Some(Output(pane, Unescape(payload)))
  {
    hide Unescape;
    var id := "%" + Dec(pane);
    var body := id + " " + payload;
    DecHasNoSpace(pane);
    FindIs(body, ' ', |id|);
    assert body[1..|id|] == Dec(pane) && body[|id| + 1..] == payload;
    ParseDec(pane, U64_MAX);
  }

  lemma OutputLineShape(body: string)
    requires body != "" && body[|body| - 1] != '\r'
    ensures ParseLine("%output " + body) == match ParseOutput(body) case Some(ev) => ev case None => Notify
  {
    hide ParseOutput;
    var line := "%output " + body;
    assert line[1..] == "output " + body;
    assert line[1..][7..] == body;
    assert line[|line| - 1] == body[|body| - 1];
    assert line[1..][0] == 'o';
  }

  /** A pane's output line gives back the pane and exactly the bytes it wrote. */
  lemma OutputLineReads(pane: nat, bytes: string)
    requires pane <= U64_MAX && forall i :: 0 <= i < |bytes| ==> bytes[i] as int < 256
    ensures ParseLine("%output " + ("%" + Dec(pane) + " " + Escape(bytes))) == Output(pane, bytes)
  {
    hide ParseOutput, ParseLine, Unescape, Escape, Dec;
    var payload := Escape(bytes);
    EscapeIsPrintable(bytes);
    OutputBodyReads(pane, payload);
    OutputLineShape("%" + Dec(pane) + " " + payload);
    UnescapeEscape(bytes);
  }

  // ---- the machine ----

  datatype Act =
    | Feed(bytes: string)
    | Pend(bytes: string)
    | Build(text: string, x: nat, y: nat)
    | SeedFail(why: Failure)
    | Reconcile
    | Dead
    | Nothing

  datatype Failure = StaleBlocks(clue: string) | NoCapture | ErrorBlock

  datatype Phase = Steady | AwaitHeader | HdrEnd | AwaitBody | InCapture | Building

  datatype State = State(
    phase: Phase, pane: Option<nat>, token: nat, skips: nat, x: nat, y: nat,
    cap: seq<string>, sawBody: bool, firstLine: string)

  function Initial(): State { State(Steady, None, 0, 0, 0, 0, [], false, "") }

  function Clipped(s: string, n: nat): string { if |s| <= n then s else s[..n] }

  function Blanked(s: string): string {
    if s == "" then "" else [if s[0] == '\r' || s[0] == '\n' then ' ' else s[0]] + Blanked(s[1..])
  }

  function AfterReset(s: State): State {
    s.(phase := Steady, pane := None, skips := 0, cap := [], sawBody := false)
  }

  function AfterSeed(s: State, token: nat): State {
    s.(phase := AwaitHeader, token := token, skips := 0, cap := [], sawBody := false)
  }

  function OnPlain(s: State, line: string): State {
    match s.phase
    case AwaitHeader =>
      var s1 := s.(firstLine := if s.sawBody then s.firstLine else Clipped(line, 80), sawBody := true);
      (match ParseHeader(line)
       case None => s1
       case Some(h) =>
         if h.token == s.token then s1.(pane := Some(h.pane), x := h.x, y := h.y, phase := HdrEnd) else s1)
    case InCapture => s.(cap := s.cap + [line])
    case _ => s
  }

  function OnBegin(s: State): State {
    match s.phase
    case AwaitHeader => s.(sawBody := false, firstLine := "")
    case AwaitBody => s.(phase := InCapture, cap := [])
    case _ => s
  }

  function OnEnd(s: State): (State, Act) {
    match s.phase
    case AwaitHeader =>
      if !s.sawBody then (s, Nothing)
      else if s.skips + 1 >= STALE_SKIP_MAX then
        (AfterReset(s), SeedFail(StaleBlocks(Clipped(Blanked(s.firstLine), 60))))
      else (s.(skips := s.skips + 1, sawBody := false, firstLine := ""), Nothing)
    case HdrEnd => (s.(phase := AwaitBody), Nothing)
    case AwaitBody => (AfterReset(s), SeedFail(NoCapture))
    case InCapture => (s.(phase := Building, cap := []), Build(Join(s.cap, "\r\n"), s.x, s.y))
    case _ => (s, Nothing)
  }

  /** `on_event`. */
  function OnEvent(s: State, ev: Event, line: string): (State, Act) {
    match ev
    case Output(pane, bytes) =>
      (s, if s.pane != Some(pane) then Nothing else if s.phase == Building then Pend(bytes) else Feed(bytes))
    case Plain => (OnPlain(s, line), Nothing)
    case BlockBegin => (OnBegin(s), Nothing)
    case BlockEnd => OnEnd(s)
    case BlockError =>
      if s.phase == Steady || s.phase == Building then (s, Nothing) else (AfterReset(s), SeedFail(ErrorBlock))
    case Notify => (s, if s.phase == Steady && s.pane.Some? then Reconcile else Nothing)
    case Exit => (AfterReset(s), Dead)
  }

  function OnLine(s: State, line: string): (State, Act) { OnEvent(s, ParseLine(line), line) }

  // ---- from bytes to lines ----

  /** After some input: the state, the actions so far, and the bytes kept back. */
  datatype Ran = Ran(state: State, acts: seq<Act>, left: string)

  function Behind(acts: seq<Act>, r: Ran): Ran { r.(acts := acts + r.acts) }

  /** Takes the whole lines out of a buffer; what is left has no line feed. */
  function Consume(s: State, buf: string): (r: Ran)
    ensures '\n' !in r.left
    decreases |buf|
  {
    var i := Find(buf, '\n');
    if i == |buf| then Ran(s, [], buf)
    else
      var (s1, act) := OnLine(s, TrimCr(buf[..i]));
      Behind([act], Consume(s1, buf[i + 1..]))
  }

  lemma BehindBehind(a: seq<Act>, b: seq<Act>, r: Ran)
    ensures Behind(a, Behind(b, r)) == Behind(a + b, r)
    ensures Behind([], r) == r
  {
    assert a + (b + r.acts) == (a + b) + r.acts;
    assert [] + r.acts == r.acts;
  }

  /** Cutting the input anywhere changes neither the actions, nor the state, nor what is
      kept back. */
  lemma {:induction false} CutChangesNothing(s: State, buf: string, more: string)
    ensures var r := Consume(s, buf);
            Consume(s, buf + more) == Behind(r.acts, Consume(r.state, r.left + more))
    decreases |buf|
  {
    hide OnLine, TrimCr, Behind;
    var i := Find(buf, '\n');
    if i == |buf| {
      BehindBehind([], [], Consume(s, buf + more));
    } else {
      var whole := buf + more;
      FindIs(whole, '\n', i);
      assert whole[..i] == buf[..i] && whole[i + 1..] == buf[i + 1..] + more;
      var (s1, act) := OnLine(s, TrimCr(buf[..i]));
      CutChangesNothing(s1, buf[i + 1..], more);
      var r := Consume(s1, buf[i + 1..]);
      BehindBehind([act], r.acts, Consume(r.state, r.left + more));
      assert Consume(s, buf) == Behind([act], r);
      BehindFields([act], r);
    }
  }

  lemma BehindFields(acts: seq<Act>, r: Ran)
    ensures var b := Behind(acts, r); b.state == r.state && b.acts == acts + r.acts && b.left == r.left
  {
  }

  lemma ConsumeStep(s: State, buf: string)
    ensures var i := Find(buf, '\n');
            Consume(s, buf)
            == if i == |buf| then Ran(s, [], buf)
               else
                 var (s1, act) := OnEvent(s, ParseLine(TrimCr(buf[..i])), TrimCr(buf[..i]));
                 Behind([act], Consume(s1, buf[i + 1..]))
  {
    hide OnEvent, ParseLine, TrimCr, Find, Behind;
  }

  class Machine {
    var phase: Phase
    var pane: Option<nat>
    var token: nat
    var skips: nat
    var x: nat
    var y: nat
    var cap: seq<string>
    var sawBody: bool
    var firstLine: string
    var lineBuf: string

    function Abstract(): State
      reads this
    {
      State(phase, pane, token, skips, x, y, cap, sawBody, firstLine)
    }

    constructor ()
      ensures Abstract() == Initial() && lineBuf == ""
    {
      phase, pane, token, skips := Steady, None, 0, 0;
      x, y, cap, sawBody, firstLine, lineBuf := 0, 0, [], false, "", "";
    }

    method SeedSent(newToken: nat)
      modifies this
      ensures Abstract() == AfterSeed(old(Abstract()), newToken) && lineBuf == old(lineBuf)
    {
      phase := AwaitHeader;
      token := newToken;
      skips, cap, sawBody := 0, [], false;
    }

    method Reset()
      modifies this
      ensures Abstract() == AfterReset(old(Abstract())) && lineBuf == old(lineBuf)
    {
      phase, pane, skips, cap, sawBody := Steady, None, 0, [], false;
    }

    method Built()
      modifies this
      ensures Abstract() == old(Abstract()).(phase := Steady) && lineBuf == old(lineBuf)
    {
      phase := Steady;
    }

    /** Takes in any bytes: a feed after others acts as if all had come at once. */
    method FeedBytes(data: string) returns (acts: seq<Act>)
      modifies this
      ensures Ran(Abstract(), acts, lineBuf) == Consume(old(Abstract()), old(lineBuf) + data)
    {
      hide OnEvent, TrimCr, ParseLine, Behind, Consume;
      lineBuf := lineBuf + data;
      ghost var all := Consume(Abstract(), lineBuf);
      acts := [];
      BehindBehind([], [], all);
      while true
        invariant Behind(acts, Consume(Abstract(), lineBuf)) == all
        decreases |lineBuf|
      {
        ghost var s, buf := Abstract(), lineBuf;
        var pos := Find(lineBuf, '\n');
        ConsumeStep(s, buf);
        if pos == |lineBuf| {
          BehindFields(acts, Consume(s, buf));
          break;
        }
        var line := TrimCr(lineBuf[..pos]);
        lineBuf := lineBuf[pos + 1..];
        var act := Handle(ParseLine(line), line);
        BehindBehind(acts, [act], Consume(Abstract(), lineBuf));
        acts := acts + [act];
      }
    }

    method Handle(ev: Event, line: string) returns (act: Act)
      modifies this
      ensures (Abstract(), act) == OnEvent(old(Abstract()), ev, line) && lineBuf == old(lineBuf)
    {
      act := Nothing;
      match ev {
        case Output(p, bytes) =>
          if pane == Some(p) {
            act := if phase == Building then Pend(bytes) else Feed(bytes);
          }
        case Plain => HandlePlain(line);
        case BlockBegin =>
          if phase == AwaitHeader {
            sawBody, firstLine := false, "";
          } else if phase == AwaitBody {
            phase, cap := InCapture, [];
          }
        case BlockEnd => act := HandleEnd();
        case BlockError =>
          if phase != Steady && phase != Building {
            Reset();
            act := SeedFail(ErrorBlock);
          }
        case Notify =>
          if phase == Steady && pane.Some? { act := Reconcile; }
        case Exit =>
          Reset();
          act := Dead;
      }
    }

    method HandlePlain(line: string)
      modifies this
      ensures Abstract() == OnPlain(old(Abstract()), line) && lineBuf == old(lineBuf)
    {
      hide ParseHeader, Clipped;
      if phase == AwaitHeader {
        if !sawBody { firstLine := Clipped(line, 80); }
        sawBody := true;
        var h := ParseHeader(line);
        if h.Some? && h.value.token == token {
          pane, x, y, phase := Some(h.value.pane), h.value.x, h.value.y, HdrEnd;
        }
      } else if phase == InCapture {
        cap := cap + [line];
      }
    }

    method HandleEnd() returns (act: Act)
      modifies this
      ensures (Abstract(), act) == OnEnd(old(Abstract())) && lineBuf == old(lineBuf)
    {
      act := Nothing;
      if phase == AwaitHeader {
        if sawBody {
          skips := skips + 1;
          sawBody := false;
          if skips >= STALE_SKIP_MAX {
            act := SeedFail(StaleBlocks(Clipped(Blanked(firstLine), 60)));
            Reset();
          } else {
            firstLine := "";
          }
        }
      } else if phase == HdrEnd {
        phase := AwaitBody;
      } else if phase == AwaitBody {
        Reset();
        act := SeedFail(NoCapture);
      } else if phase == InCapture {
        phase := Building;
        act := Build(Join(cap, "\r\n"), x, y);
        cap := [];
      }
    }
  }

  // ---- runs over lines ----

  function StateAfter(s: State, lines: seq<string>): State {
    if lines == [] then s else OnLine(StateAfter(s, lines[..|lines| - 1]), lines[|lines| - 1]).0
  }

  function ActOn(s: State, lines: seq<string>, last: string): Act { OnLine(StateAfter(s, lines), last).1 }

  lemma AfterSnoc(s: State, lines: seq<string>, last: string)
    ensures StateAfter(s, lines + [last]) == OnLine(StateAfter(s, lines), last).0
  {
    assert (lines + [last])[..|lines|] == lines;
  }

  lemma {:induction false} AfterAppend(s: State, a: seq<string>, b: seq<string>)
    ensures StateAfter(s, a + b) == StateAfter(StateAfter(s, a), b)
    decreases |b|
  {
    hide OnLine;
    if b == [] {
      assert a + b == a;
    } else {
      AfterAppend(s, a, b[..|b| - 1]);
      assert (a + b)[..|a + b| - 1] == a + b[..|b| - 1];
    }
  }

  /** The lines a stretch of input holds, and the actions they cause one by one. */
  function LinesIn(buf: string): seq<string>
    decreases |buf|
  {
    var i := Find(buf, '\n');
    if i == |buf| then [] else [TrimCr(buf[..i])] + LinesIn(buf[i + 1..])
  }

  // ---- what a seeding round is ----

  predicate IsPlain(l: string) { ParseLine(l).Plain? }
  predicate IsBegin(l: string) { ParseLine(l).BlockBegin? }
  predicate IsEnd(l: string) { ParseLine(l).BlockEnd? }
  predicate Breaks(l: string) { ParseLine(l).BlockError? || ParseLine(l).Exit? }

  predicate Claims(l: string, token: nat) {
    IsPlain(l) && ParseHeader(l).Some? && ParseHeader(l).value.token == token
  }

  function Plains(lines: seq<string>): seq<string> {
    if lines == [] then []
    else
      var init, last := Plains(lines[..|lines| - 1]), lines[|lines| - 1];
      if IsPlain(last) then init + [last] else init
  }

  /** A body line stands after the last block mark. */
  predicate PlainSince(lines: seq<string>) {
    lines != [] &&
    var last := lines[|lines| - 1];
    IsPlain(last) || (!IsBegin(last) && !IsEnd(last) && PlainSince(lines[..|lines| - 1]))
  }

  /** How many blocks with a body have ended. */
  function Stale(lines: seq<string>): nat {
    if lines == [] then 0
    else
      var init := lines[..|lines| - 1];
      Stale(init) + if IsEnd(lines[|lines| - 1]) && PlainSince(init) then 1 else 0
  }

  ghost predicate Calm(lines: seq<string>) { forall i :: 0 <= i < |lines| ==> !Breaks(lines[i]) }

  ghost predicate NoEnd(lines: seq<string>) { forall i :: 0 <= i < |lines| ==> !IsEnd(lines[i]) && !Breaks(lines[i]) }

  ghost predicate NoMark(lines: seq<string>) {
    NoEnd(lines) && forall i :: 0 <= i < |lines| ==> !IsBegin(lines[i])
  }

  /** Lines that neither claim the round nor end it. */
  ghost predicate Waiting(lines: seq<string>, token: nat) {
    Calm(lines) && (forall i :: 0 <= i < |lines| ==> !Claims(lines[i], token)) && Stale(lines) < STALE_SKIP_MAX
  }

  /** A round in its order: lines that are none of ours, the claiming header, the end of
      its block, and the opening and the body of the next block. */
  datatype Round = Round(
    before: seq<string>, header: string, mid: seq<string>, close: string, gap: seq<string>, open: string,
    body: seq<string>)
  {
    function Claimed(): seq<string> { before + [header] + mid }
    function Closed(): seq<string> { Claimed() + [close] + gap }
    function All(): seq<string> { Closed() + [open] + body }

    ghost predicate ClaimedBy(token: nat) { Waiting(before, token) && Claims(header, token) && NoEnd(mid) }
    ghost predicate ClosedBy(token: nat) { ClaimedBy(token) && IsEnd(close) && NoMark(gap) }
    ghost predicate Is(token: nat) { ClosedBy(token) && IsBegin(open) && NoEnd(body) }

    function Built(): Act
      requires ParseHeader(header).Some?
    {
      var h := ParseHeader(header).value;
      Build(Join(Plains(body), "\r\n"), h.x, h.y)
    }
  }

  predicate AtCursor(s: State, header: string) {
    ParseHeader(header).Some? && s.x == ParseHeader(header).value.x && s.y == ParseHeader(header).value.y
    && s.pane == Some(ParseHeader(header).value.pane)
  }

  /** Where in a round the machine stands after some lines. */
  ghost predicate Located(s: State, lines: seq<string>, token: nat, r: Round) {
    && s.token == token
    && (s.phase == AwaitHeader ==>
          Waiting(lines, token) && s.skips == Stale(lines) && s.sawBody == PlainSince(lines))
    && (s.phase == HdrEnd ==> r.ClaimedBy(token) && lines == r.Claimed() && AtCursor(s, r.header))
    && (s.phase == AwaitBody ==> r.ClosedBy(token) && lines == r.Closed() && AtCursor(s, r.header))
    && (s.phase == InCapture ==>
          r.Is(token) && lines == r.All() && AtCursor(s, r.header) && s.cap == Plains(r.body))
  }

  lemma WaitingSnoc(lines: seq<string>, last: string, token: nat)
    ensures Waiting(lines + [last], token)
       <==> Waiting(lines, token) && !Breaks(last) && !Claims(last, token) && Stale(lines + [last]) < STALE_SKIP_MAX
    ensures Waiting(lines, token) ==> Stale(lines) < STALE_SKIP_MAX
    ensures Stale(lines + [last]) == Stale(lines) + if IsEnd(last) && PlainSince(lines) then 1 else 0
    ensures PlainSince(lines + [last]) <==> IsPlain(last) || (!IsBegin(last) && !IsEnd(last) && PlainSince(lines))
  {
    hide Breaks, Claims, IsEnd, IsPlain, IsBegin;
    var all := lines + [last];
    assert all[..|lines|] == lines;
    if Waiting(all, token) {
      forall i | 0 <= i < |lines| ensures !Claims(lines[i], token) && !Breaks(lines[i]) {
        assert all[i] == lines[i];
      }
      assert all[|lines|] == last;
    }
  }

  lemma PlainsSnoc(lines: seq<string>, last: string)
    ensures Plains(lines + [last]) == if IsPlain(last) then Plains(lines) + [last] else Plains(lines)
  {
    assert (lines + [last])[..|lines|] == lines;
  }

  lemma FromWaiting(s: State, lines: seq<string>, last: string, token: nat) returns (r: Round)
    requires s.phase == AwaitHeader && s.token == token
    requires Waiting(lines, token) && s.skips == Stale(lines) && s.sawBody == PlainSince(lines)
    ensures Located(OnLine(s, last).0, lines + [last], token, r)
  {
    hide ParseLine, ParseHeader, Waiting, Stale, PlainSince;
    WaitingSnoc(lines, last, token);
    r := Round(lines, last, [], "", [], "", []);
    assert lines + [last] + [] == lines + [last];
  }

  lemma FromClaimed(s: State, last: string, token: nat, r: Round) returns (r': Round)
    requires s.phase == HdrEnd && s.token == token && r.ClaimedBy(token) && AtCursor(s, r.header)
    ensures Located(OnLine(s, last).0, r.Claimed() + [last], token, r')
  {
    hide ParseLine, ParseHeader, Waiting;
    if IsEnd(last) {
      r' := r.(close := last, gap := []);
      assert r'.Closed() == r.Claimed() + [last];
    } else {
      r' := r.(mid := r.mid + [last]);
      assert r'.Claimed() == r.Claimed() + [last];
    }
  }

  lemma FromClosed(s: State, last: string, token: nat, r: Round) returns (r': Round)
    requires s.phase == AwaitBody && s.token == token && r.ClosedBy(token) && AtCursor(s, r.header)
    ensures Located(OnLine(s, last).0, r.Closed() + [last], token, r')
  {
    hide ParseLine, ParseHeader, Waiting;
    r' := if IsBegin(last) then r.(open := last, body := []) else r.(gap := r.gap + [last]);
    assert r.Closed() + [last] + [] == r.Closed() + [last];
    assert r.Claimed() + [r.close] + (r.gap + [last]) == r.Closed() + [last];
  }

  lemma FromCapture(s: State, last: string, token: nat, r: Round) returns (r': Round)
    requires s.phase == InCapture && s.token == token && r.Is(token) && AtCursor(s, r.header) && s.cap == Plains(r.body)
    ensures Located(OnLine(s, last).0, r.All() + [last], token, r')
  {
    hide ParseLine, ParseHeader, Waiting, Plains;
    PlainsSnoc(r.body, last);
    r' := r.(body := r.body + [last]);
    assert r.Closed() + [r.open] + (r.body + [last]) == r.All() + [last];
  }

  /** After a seed command, the lines so far always have the shape of the phase. */
  lemma {:induction false} Locate(s: State, lines: seq<string>, token: nat) returns (r: Round)
    ensures Located(StateAfter(AfterSeed(s, token), lines), lines, token, r)
  {
    hide OnLine;
    if lines == [] {
      r := Round([], "", [], "", [], "", []);
    } else {
      var init, last := lines[..|lines| - 1], lines[|lines| - 1];
      var at := StateAfter(AfterSeed(s, token), init);
      r := Locate(s, init, token);
      assert lines == init + [last];
      r := FromLocated(at, init, last, token, r);
    }
  }

  lemma FromLocated(s: State, lines: seq<string>, last: string, token: nat, r: Round) returns (r': Round)
    requires Located(s, lines, token, r)
    ensures Located(OnLine(s, last).0, lines + [last], token, r')
  {
    hide Waiting, AtCursor, Plains, Stale, PlainSince;
    match s.phase {
      case AwaitHeader => r' := FromWaiting(s, lines, last, token);
      case HdrEnd => r' := FromClaimed(s, last, token, r);
      case AwaitBody => r' := FromClosed(s, last, token, r);
      case InCapture => r' := FromCapture(s, last, token, r);
      case _ =>
        r' := r;
        IdleStays(s, last);
    }
  }

  lemma IdleStays(s: State, last: string)
    requires s.phase == Steady || s.phase == Building
    ensures OnLine(s, last).0.phase in {Steady, Building} && OnLine(s, last).0.token == s.token
  {
    hide ParseLine;
  }

  /** Soundness: whatever was fed since a seed command, a Build means that the lines are
      one round claimed by that command's token, and the text is made of the plain lines
      of the block after the header's - nothing of earlier rounds. */
  lemma BuildIsOneRound(s: State, token: nat, lines: seq<string>, last: string) returns (r: Round)
    requires ActOn(AfterSeed(s, token), lines, last).Build?
    ensures r.Is(token) && lines == r.All() && IsEnd(last)
    ensures ActOn(AfterSeed(s, token), lines, last) == r.Built()
  {
    hide ParseLine, ParseHeader, Waiting, Plains, StateAfter;
    r := Locate(s, lines, token);
  }

  /** Of the blocks before the header, the fourth with a body fails the seeding; three do
      not. */
  lemma FailsAtFourthStale(s: State, token: nat, lines: seq<string>, last: string)
    requires Waiting(lines, token)
    ensures var act := ActOn(AfterSeed(s, token), lines, last);
            act.SeedFail? && act.why.StaleBlocks? <==> Stale(lines + [last]) == STALE_SKIP_MAX
  {
    hide ParseLine, ParseHeader, Waiting, Stale, PlainSince, StateAfter;
    WaitingReached(s, lines, token);
    WaitingSnoc(lines, last, token);
  }

  lemma {:induction false} WaitingReached(s: State, lines: seq<string>, token: nat)
    requires Waiting(lines, token)
    ensures var s' := StateAfter(AfterSeed(s, token), lines);
            s'.phase == AwaitHeader && s'.token == token && s'.skips == Stale(lines) && s'.sawBody == PlainSince(lines)
  {
    hide ParseLine, ParseHeader, Waiting, Stale, PlainSince;
    if lines == [] {
      NoLines();
    } else {
      var init, last := lines[..|lines| - 1], lines[|lines| - 1];
      assert lines == init + [last];
      WaitingSnoc(init, last, token);
      WaitingReached(s, init, token);
    }
  }

  /** The block that is being printed begins at line `b`, and no plain line of it has come. */
  ghost predicate NoBody(lines: seq<string>, b: nat) {
    b <= |lines|
    && (forall j :: b <= j < |lines| ==> !IsPlain(lines[j]) && !IsBegin(lines[j]) && !IsEnd(lines[j]))
    && (b > 0 ==> IsBegin(lines[b - 1]) || IsEnd(lines[b - 1]))
  }

  /** The block that is being printed begins at line `b`, and line `i` is its first plain
      line. */
  ghost predicate FirstOfBody(lines: seq<string>, b: nat, i: nat) {
    b <= i < |lines| && IsPlain(lines[i])
    && (forall j :: b <= j < i ==> !IsPlain(lines[j]))
    && (forall j :: b <= j < |lines| ==> !IsBegin(lines[j]) && !IsEnd(lines[j]))
    && (b > 0 ==> IsBegin(lines[b - 1]) || IsEnd(lines[b - 1]))
  }

  lemma BodyGoesOn(lines: seq<string>, last: string, b: nat, i: nat)
    ensures IsBegin(last) || IsEnd(last) ==> NoBody(lines + [last], |lines| + 1)
    ensures !IsBegin(last) && !IsEnd(last) && FirstOfBody(lines, b, i) ==> FirstOfBody(lines + [last], b, i)
    ensures !IsBegin(last) && !IsEnd(last) && NoBody(lines, b) && !IsPlain(last) ==> NoBody(lines + [last], b)
    ensures IsPlain(last) && NoBody(lines, b) ==> FirstOfBody(lines + [last], b, |lines|)
  {
    PlainIsNoMark(last);
    hide IsBegin, IsEnd, IsPlain;
  }

  lemma PlainIsNoMark(l: string)
    ensures IsPlain(l) ==> !IsBegin(l) && !IsEnd(l)
  {
    hide ParseLine;
  }

  lemma PlaceOfFirst(lines: seq<string>, b: nat, i: nat)
    ensures FirstOfBody(lines, b, i) ==> i < |lines|
  {
    hide IsBegin, IsEnd, IsPlain;
  }

  ghost predicate ClueKept(s: State, lines: seq<string>, b: nat, i: nat) {
    if s.sawBody then FirstOfBody(lines, b, i) && s.firstLine == Clipped(lines[i], 80) else NoBody(lines, b)
  }

  lemma ClueStep(s: State, lines: seq<string>, last: string, b: nat, i: nat) returns (b': nat, i': nat)
    requires s.phase == AwaitHeader && ClueKept(s, lines, b, i) && OnLine(s, last).0.phase == AwaitHeader
    ensures ClueKept(OnLine(s, last).0, lines + [last], b', i')
  {
    hide ParseLine, ParseHeader, Clipped, FirstOfBody, NoBody;
    BodyGoesOn(lines, last, b, i);
    assert (lines + [last])[|lines|] == last;
    assert FirstOfBody(lines, b, i) ==> i < |lines| && (lines + [last])[i] == lines[i] by { PlaceOfFirst(lines, b, i); }
    if IsBegin(last) || IsEnd(last) {
      b', i' := |lines| + 1, i;
    } else {
      b', i' := b, if s.sawBody then i else |lines|;
    }
  }

  lemma ClueAtStart(s: State, lines: seq<string>)
    requires !s.sawBody && lines == []
    ensures ClueKept(s, lines, 0, 0) && StateAfter(s, lines) == s
  {
  }

  lemma {:induction false} ClueOf(s: State, token: nat, lines: seq<string>) returns (b: nat, i: nat)
    requires Waiting(lines, token)
    ensures ClueKept(StateAfter(AfterSeed(s, token), lines), lines, b, i)
    decreases |lines|
  {
    hide ParseLine, ParseHeader, Waiting, OnLine, ClueKept;
    if lines == [] {
      b, i := 0, 0;
      ClueAtStart(AfterSeed(s, token), lines);
    } else {
      var init, last := lines[..|lines| - 1], lines[|lines| - 1];
      assert lines == init + [last];
      WaitingSnoc(init, last, token);
      WaitingReached(s, init, token);
      WaitingReached(s, lines, token);
      b, i := ClueOf(s, token, init);
      b, i := ClueStep(StateAfter(AfterSeed(s, token), init), init, last, b, i);
    }
  }

  lemma {:induction false} BlankedLength(s: string)
    ensures |Blanked(s)| == |s|
  {
    if s != "" { BlankedLength(s[1..]); }
  }

  lemma {:induction false} BlankedAt(s: string, k: nat)
    requires k < |s|
    ensures |Blanked(s)| == |s| && Blanked(s)[k] == if s[k] in "\r\n" then ' ' else s[k]
  {
    BlankedLength(s);
    if k > 0 { BlankedAt(s[1..], k - 1); }
  }

  /** A seeding that fails for stale blocks reports the first plain line of the last of them:
      its first sixty characters, with carriage returns and line feeds as spaces. */
  lemma ClueIs(s: State, token: nat, lines: seq<string>, last: string, clue: string) returns (b: nat, i: nat)
    requires Waiting(lines, token) && ActOn(AfterSeed(s, token), lines, last) == SeedFail(StaleBlocks(clue))
    ensures FirstOfBody(lines, b, i) && |clue| == if |lines[i]| < 60 then |lines[i]| else 60
    ensures forall k :: 0 <= k < |clue| ==> clue[k] == if lines[i][k] in "\r\n" then ' ' else lines[i][k]
  {
    hide ParseLine, ParseHeader, Waiting, FirstOfBody, StateAfter, Blanked, Clipped, OnLine, NoBody;
    WaitingReached(s, lines, token);
    b, i := ClueOf(s, token, lines);
    PlaceOfFirst(lines, b, i);
    ClueSaid(StateAfter(AfterSeed(s, token), lines), last, clue);
    ClueText(lines[i]);
  }

  lemma ClueSaid(s: State, last: string, clue: string)
    requires s.phase == AwaitHeader && OnLine(s, last).1 == SeedFail(StaleBlocks(clue))
    ensures s.sawBody && clue == Clipped(Blanked(s.firstLine), 60)
  {
    hide ParseLine, ParseHeader, Blanked, Clipped;
  }

  lemma ClueText(line: string)
    ensures var clue := Clipped(Blanked(Clipped(line, 80)), 60);
            && |clue| == (if |line| < 60 then |line| else 60)
            && forall k :: 0 <= k < |clue| ==> clue[k] == if line[k] in "\r\n" then ' ' else line[k]
  {
    hide Blanked;
    var first := Clipped(line, 80);
    BlankedLength(first);
    forall k | 0 <= k < |first| ensures Blanked(first)[k] == if first[k] in "\r\n" then ' ' else first[k] {
      BlankedAt(first, k);
    }
  }

  lemma NoLines()
    ensures Stale([]) == 0 && !PlainSince([]) && Plains([]) == []
  {
  }

  lemma {:induction false} ClaimedStays(s: State, lines: seq<string>)
    requires s.phase == HdrEnd && NoEnd(lines)
    ensures StateAfter(s, lines) == s
  {
    hide ParseLine, ParseHeader;
    if lines != [] {
      ClaimedStays(s, lines[..|lines| - 1]);
    }
  }

  lemma {:induction false} ClosedStays(s: State, lines: seq<string>)
    requires s.phase == AwaitBody && NoMark(lines)
    ensures StateAfter(s, lines) == s
  {
    hide ParseLine, ParseHeader;
    if lines != [] {
      ClosedStays(s, lines[..|lines| - 1]);
    }
  }

  lemma {:induction false} CaptureGathers(s: State, lines: seq<string>)
    requires s.phase == InCapture && s.cap == [] && NoEnd(lines)
    ensures StateAfter(s, lines) == s.(cap := Plains(lines))
  {
    hide ParseLine, ParseHeader;
    if lines != [] {
      CaptureGathers(s, lines[..|lines| - 1]);
    }
  }

  lemma ClaimReached(s: State, token: nat, r: Round)
    requires r.ClaimedBy(token)
    ensures var s' := StateAfter(AfterSeed(s, token), r.Claimed());
            s'.phase == HdrEnd && AtCursor(s', r.header)
  {
    hide ParseLine, ParseHeader, Waiting, StateAfter;
    var s0 := AfterSeed(s, token);
    WaitingReached(s, r.before, token);
    AfterSnoc(s0, r.before, r.header);
    AfterAppend(s0, r.before + [r.header], r.mid);
    ClaimedStays(StateAfter(s0, r.before + [r.header]), r.mid);
  }

  lemma CloseReached(s: State, token: nat, r: Round)
    requires r.ClosedBy(token)
    ensures var s' := StateAfter(AfterSeed(s, token), r.Closed());
            s'.phase == AwaitBody && AtCursor(s', r.header)
  {
    hide ParseLine, ParseHeader, Waiting, StateAfter;
    var s0 := AfterSeed(s, token);
    ClaimReached(s, token, r);
    AfterSnoc(s0, r.Claimed(), r.close);
    AfterAppend(s0, r.Claimed() + [r.close], r.gap);
    ClosedStays(StateAfter(s0, r.Claimed() + [r.close]), r.gap);
  }

  /** Completeness: every round with at most three stale blocks before its header ends in
      the Build of its body. */
  lemma RoundBuilds(s: State, token: nat, r: Round, last: string)
    requires r.Is(token) && IsEnd(last)
    ensures ActOn(AfterSeed(s, token), r.All(), last) == r.Built()
    ensures var at := StateAfter(AfterSeed(s, token), r.All()); at.phase == InCapture && AtCursor(at, r.header)
  {
    hide ParseLine, ParseHeader, Waiting, StateAfter, Plains;
    var s0 := AfterSeed(s, token);
    CloseReached(s, token, r);
    AfterSnoc(s0, r.Closed(), r.open);
    AfterAppend(s0, r.Closed() + [r.open], r.body);
    CaptureGathers(StateAfter(s0, r.Closed() + [r.open]), r.body);
  }

  // ---- what a capture leaves out ----

  /** A line of the screen that the parser takes for a line of the protocol. */
  predicate Marked(l: string) { l != "" && l[0] == '%' }

  lemma MarkedIsNotPlain(l: string)
    ensures IsPlain(l) <==> !Marked(l)
  {
  }

  /** How many bytes some lines have. */
  function Size(lines: seq<string>): nat {
    if lines == [] then 0 else Size(lines[..|lines| - 1]) + |lines[|lines| - 1]|
  }

  lemma {:induction false} SizeOfJoin(lines: seq<string>)
    ensures |Join(lines, "\r\n")| == Size(lines) + if lines == [] then 0 else 2 * (|lines| - 1)
    decreases |lines|
  {
    if |lines| > 1 {
      SizeOfJoin(lines[1..]);
      SizeOfRest(lines);
    }
  }

  lemma {:induction false} SizeOfRest(lines: seq<string>)
    requires lines != []
    ensures Size(lines) == |lines[0]| + Size(lines[1..])
    decreases |lines|
  {
    if |lines| > 1 {
      SizeOfRest(lines[..|lines| - 1]);
      assert lines[1..][..|lines| - 2] == lines[..|lines| - 1][1..];
    }
  }

  lemma {:induction false} PlainsAreFewer(lines: seq<string>)
    ensures Size(Plains(lines)) + |lines| - |Plains(lines)| <= Size(lines) && |Plains(lines)| <= |lines|
    ensures |Plains(lines)| == |lines| <==> forall i :: 0 <= i < |lines| ==> !Marked(lines[i])
    ensures |Plains(lines)| == |lines| ==> Plains(lines) == lines
    decreases |lines|
  {
    hide IsPlain;
    if lines != [] {
      var init, last := lines[..|lines| - 1], lines[|lines| - 1];
      PlainsAreFewer(init);
      MarkedIsNotPlain(last);
      assert lines == init + [last];
      assert Plains(init) == (Plains(init) + [last])[..|Plains(init)|];
    }
  }

  lemma {:induction false} CaptureLeft(s: State, lines: seq<string>, k: nat)
    requires k < |lines| && (IsEnd(lines[k]) || Breaks(lines[k])) && s.phase == InCapture
    ensures StateAfter(s, lines).phase in {Steady, Building}
    decreases |lines|
  {
    hide ParseLine, ParseHeader;
    var init, last := lines[..|lines| - 1], lines[|lines| - 1];
    if k < |init| {
      CaptureLeft(s, init, k);
    } else {
      CaptureSteps(s, init);
    }
  }

  lemma {:induction false} CaptureSteps(s: State, lines: seq<string>)
    requires s.phase == InCapture
    ensures StateAfter(s, lines).phase in {InCapture, Steady, Building}
    decreases |lines|
  {
    hide ParseLine, ParseHeader;
    if lines != [] { CaptureSteps(s, lines[..|lines| - 1]); }
  }

  /** A capture block gives the text that it prints if and only if no printed line begins
      with a percent sign: such a line is dropped, ends the round, or is taken for output. */
  lemma CaptureIsPrintedIff(s: State, printed: seq<string>, close: string)
    requires s.phase == InCapture && s.cap == [] && IsEnd(close)
    ensures ActOn(s, printed, close) == Build(Join(printed, "\r\n"), s.x, s.y)
       <==> forall i :: 0 <= i < |printed| ==> !Marked(printed[i])
  {
    hide ParseLine, ParseHeader, StateAfter, Marked, Plains, Join;
    if k :| 0 <= k < |printed| && (IsEnd(printed[k]) || Breaks(printed[k])) {
      MarkedIsNotPlain(printed[k]);
      CaptureLeft(s, printed, k);
    } else {
      CaptureGathers(s, printed);
      PlainsAreFewer(printed);
      SizeOfJoin(printed);
      SizeOfJoin(Plains(printed));
    }
  }

  /** What a line asks for beyond handing bytes on: reconciliation by a notification between
      rounds while a pane is claimed; tearing down by the channel's end, at any time. */
  lemma AsksFor(s: State, line: string)
    ensures OnLine(s, line).1 == Reconcile <==> ParseLine(line) == Notify && s.phase == Steady && s.pane.Some?
    ensures OnLine(s, line).1 == Dead <==> ParseLine(line) == Exit
    ensures OnLine(s, line).1 == SeedFail(ErrorBlock)
       <==> ParseLine(line) == BlockError && s.phase in {AwaitHeader, HdrEnd, AwaitBody, InCapture}
    ensures OnLine(s, line).1 == SeedFail(NoCapture) <==> ParseLine(line) == BlockEnd && s.phase == AwaitBody
  {
    hide ParseLine, ParseHeader, Clipped, Blanked;
  }

  // ---- a round as it is printed ----

  /** One line, with the line feed of the channel and perhaps a carriage return in front. */
  predicate IsEol(eol: string) { eol == "\n" || eol == "\r\n" }

  predicate IsLine(line: string) { '\n' !in line && (line != "" ==> line[|line| - 1] != '\r') }

  lemma LineOf(line: string, eol: string)
    requires IsLine(line) && IsEol(eol)
    ensures TrimCr(line + eol[..|eol| - 1]) == line
  {
    if eol == "\r\n" {
      assert (line + "\r")[..|line|] == line && eol[..1] == "\r";
    } else {
      assert line + eol[..0] == line;
    }
  }

  lemma WholeLine(s: State, line: string, eol: string, rest: string)
    requires IsLine(line) && IsEol(eol)
    ensures Consume(s, line + eol + rest) == Behind([OnLine(s, line).1], Consume(OnLine(s, line).0, rest))
    ensures LinesIn(line + eol + rest) == [line] + LinesIn(rest)
  {
    hide OnLine, TrimCr;
    LineOf(line, eol);
    var raw := line + eol[..|eol| - 1];
    var buf := line + eol + rest;
    FindIs(buf, '\n', |raw|);
    assert buf[..|raw|] == raw && buf[|raw| + 1..] == rest;
  }

  function Printed(lines: seq<string>, eol: string): string {
    if lines == [] then "" else lines[0] + eol + Printed(lines[1..], eol)
  }

  /** Whole lines are taken in line by line, and nothing is kept back. */
  lemma {:induction false} PrintedReads(s: State, lines: seq<string>, eol: string)
    requires IsEol(eol) && forall i :: 0 <= i < |lines| ==> IsLine(lines[i])
    ensures Consume(s, Printed(lines, eol)) == Ran(StateAfter(s, lines), ActsOf(s, lines), "")
    decreases |lines|
  {
    hide OnLine, StateAfter, ActsOf, IsLine;
    if lines == [] {
      NoActs(s);
    } else {
      var line, rest := lines[0], lines[1..];
      WholeLine(s, line, eol, Printed(rest, eol));
      PrintedReads(OnLine(s, line).0, rest, eol);
      OneAct(s, line);
      ActsOfAppend(s, [line], rest);
      AfterAppend(s, [line], rest);
      assert lines == [line] + rest;
    }
  }

  lemma QuietLine(s: State, line: string)
    requires s.phase !in {Steady, Building} && OnLine(s, line).0.phase !in {Steady, Building}
    requires !ParseLine(line).Output?
    ensures OnLine(s, line).1 == Nothing
  {
    hide ParseLine, ParseHeader, Clipped, Blanked;
  }

  ghost predicate NoOutput(lines: seq<string>) { forall i :: 0 <= i < |lines| ==> !ParseLine(lines[i]).Output? }

  /** Lines inside a round that are no output cause nothing. */
  lemma {:induction false} QuietActs(s: State, lines: seq<string>)
    requires s.phase !in {Steady, Building} && StateAfter(s, lines).phase !in {Steady, Building} && NoOutput(lines)
    ensures forall i :: 0 <= i < |lines| ==> ActsOf(s, lines)[i] == Nothing
    decreases |lines|
  {
    hide ParseLine, OnLine;
    if lines != [] {
      var init, last := lines[..|lines| - 1], lines[|lines| - 1];
      var at := StateAfter(s, init);
      assert lines == init + [last];
      if at.phase in {Steady, Building} {
        IdleStays(at, last);
      } else {
        QuietActs(s, init);
        QuietLine(at, last);
        ActsOfSnoc(s, init, last);
      }
    }
  }

  /** What tmux prints for the two seed commands: a block with the header, and a block with
      the lines of the screen.  Behind the word of a mark stand its time, number and flags. */
  function RoundLines(h: Header, marks: seq<string>, body: seq<string>): seq<string>
    requires |marks| == 4
  {
    ["%begin " + marks[0], HeaderLine(h), "%end " + marks[1], "%begin " + marks[2]] + body + ["%end " + marks[3]]
  }

  lemma MarkLines(m: string)
    requires IsLine(m)
    ensures IsLine("%begin " + m) && IsBegin("%begin " + m) && IsLine("%end " + m) && IsEnd("%end " + m)
  {
    hide ParseLine, Reports;
    LineIs("%begin " + m);
    LineIs("%end " + m);
    assert ("%begin " + m)[0] == '%' && ("%end " + m)[0] == '%';
  }

  lemma HeaderLineIs(h: Header)
    requires HeaderFits(h)
    ensures IsLine(HeaderLine(h)) && IsPlain(HeaderLine(h)) && Claims(HeaderLine(h), h.token)
  {
    hide ParseHeader, ParseLine, Reports, Dec;
    HeaderRoundTrip(h);
    var line := HeaderLine(h);
    LineIs(line);
    assert line[0] == 'K';
    HeaderChars(h);
  }

  lemma {:induction false} JoinLacks(parts: seq<string>, sep: string, c: char)
    requires c !in sep && forall i :: 0 <= i < |parts| ==> c !in parts[i]
    ensures c !in Join(parts, sep)
  {
    if |parts| > 1 { JoinLacks(parts[1..], sep, c); }
  }

  lemma HeaderChars(h: Header)
    ensures IsLine(HeaderLine(h))
  {
    hide Dec, Join;
    var w := HeaderWords(h);
    forall i | 0 <= i < 6 ensures '\n' !in w[i] {
      DecIsDigits(h.token); DecIsDigits(h.hist); DecIsDigits(h.limit);
      DecIsDigits(h.x); DecIsDigits(h.y); DecIsDigits(h.pane);
    }
    JoinLacks(w, " ", '\n');
    JoinSnoc(w[..5], w[5], " ");
    assert w == w[..5] + [w[5]];
    DecIsDigits(h.pane);
    var last := w[5][|w[5]| - 1];
    assert last == Dec(h.pane)[|Dec(h.pane)| - 1];
  }

  lemma DecIsDigits(n: nat)
    ensures '\n' !in Dec(n) && '\r' !in Dec(n) && Dec(n) != ""
  {
  }

  lemma BodyIsPlain(body: seq<string>)
    requires forall i :: 0 <= i < |body| ==> !Marked(body[i])
    ensures NoEnd(body) && NoOutput(body) && Plains(body) == body
  {
    hide ParseLine, Marked, Plains;
    PlainsAreFewer(body);
    forall i | 0 <= i < |body| ensures ParseLine(body[i]).Plain? {
      MarkedIsNotPlain(body[i]);
    }
  }

  lemma FirstMark(mark: string, token: nat)
    requires IsBegin(mark)
    ensures Waiting([mark], token)
  {
    hide ParseLine, ParseHeader, Stale, PlainSince;
    NoLines();
    WaitingSnoc([], mark, token);
    assert [] + [mark] == [mark];
  }

  /** The round that the lines are, in front of the last mark. */
  function RoundOf(h: Header, marks: seq<string>, body: seq<string>): Round
    requires |marks| == 4
  {
    Round(["%begin " + marks[0]], HeaderLine(h), [], "%end " + marks[1], [], "%begin " + marks[2], body)
  }

  lemma RoundShape(h: Header, marks: seq<string>, body: seq<string>)
    requires HeaderFits(h) && |marks| == 4 && (forall i :: 0 <= i < 4 ==> IsLine(marks[i]))
    requires forall i :: 0 <= i < |body| ==> IsLine(body[i]) && !Marked(body[i])
    ensures var r, last := RoundOf(h, marks, body), "%end " + marks[3];
            && r.Is(h.token) && IsEnd(last) && NoOutput(r.All()) && RoundLines(h, marks, body) == r.All() + [last]
    ensures forall i :: 0 <= i < |RoundLines(h, marks, body)| ==> IsLine(RoundLines(h, marks, body)[i])
  {
    hide ParseLine, HeaderLine, IsLine, Marked, Waiting, ParseHeader, Plains;
    MarkLines(marks[0]);
    MarkLines(marks[1]);
    MarkLines(marks[2]);
    MarkLines(marks[3]);
    HeaderLineIs(h);
    BodyIsPlain(body);
    FirstMark("%begin " + marks[0], h.token);
  }

  lemma EndOfRound(s: State, token: nat, r: Round, last: string)
    requires r.Is(token) && IsEnd(last) && NoOutput(r.All())
    ensures var s0, lines := AfterSeed(s, token), r.All() + [last];
            && ActsOf(s0, lines) == ActsOf(s0, r.All()) + [r.Built()]
            && (forall i :: 0 <= i < |r.All()| ==> ActsOf(s0, r.All())[i] == Nothing)
            && StateAfter(s0, lines).phase == Building
            && StateAfter(s0, lines).pane == Some(ParseHeader(r.header).value.pane)
  {
    hide ParseLine, ParseHeader, NoOutput, ActsOf, StateAfter, Plains, Waiting;
    var s0 := AfterSeed(s, token);
    RoundBuilds(s, token, r, last);
    QuietActs(s0, r.All());
    ActsOfSnoc(s0, r.All(), last);
    AfterSnoc(s0, r.All(), last);
  }

  /** The bytes of a whole round, as they are printed, give one Build: the lines of the
      screen, at the cursor of the header. */
  lemma RoundIsRead(s: State, h: Header, marks: seq<string>, body: seq<string>, eol: string)
    requires HeaderFits(h) && IsEol(eol) && |marks| == 4 && (forall i :: 0 <= i < 4 ==> IsLine(marks[i]))
    requires forall i :: 0 <= i < |body| ==> IsLine(body[i]) && !Marked(body[i])
    ensures var ran := Consume(AfterSeed(s, h.token), Printed(RoundLines(h, marks, body), eol));
            && |ran.acts| == |body| + 5 && (forall i :: 0 <= i < |body| + 4 ==> ran.acts[i] == Nothing)
            && ran.acts[|body| + 4] == Build(Join(body, "\r\n"), h.x, h.y)
            && ran.state.phase == Building && ran.state.pane == Some(h.pane) && ran.left == ""
  {
    hide ParseLine, ParseHeader, HeaderLine, IsLine, Marked, StateAfter, ActsOf, Printed, Consume, Plains, NoOutput;
    hide Waiting, Join, NoEnd;
    RoundShape(h, marks, body);
    PrintedReads(AfterSeed(s, h.token), RoundLines(h, marks, body), eol);
    EndOfRound(s, h.token, RoundOf(h, marks, body), "%end " + marks[3]);
    BodyIsPlain(body);
    HeaderRoundTrip(h);
  }

  // ---- pane output ----

  function ActsOf(s: State, lines: seq<string>): (acts: seq<Act>)
    ensures |acts| == |lines|
  {
    if lines == [] then [] else ActsOf(s, lines[..|lines| - 1]) + [ActOn(s, lines[..|lines| - 1], lines[|lines| - 1])]
  }

  lemma ActsOfSnoc(s: State, lines: seq<string>, last: string)
    ensures ActsOf(s, lines + [last]) == ActsOf(s, lines) + [OnLine(StateAfter(s, lines), last).1]
  {
    hide OnLine;
    assert (lines + [last])[..|lines|] == lines;
  }

  lemma {:induction false} ActsOfAppend(s: State, a: seq<string>, b: seq<string>)
    ensures ActsOf(s, a + b) == ActsOf(s, a) + ActsOf(StateAfter(s, a), b)
    decreases |b|
  {
    hide OnLine, StateAfter, ActsOf;
    if b == [] {
      assert a + b == a;
      NoActs(StateAfter(s, a));
    } else {
      var init, last := b[..|b| - 1], b[|b| - 1];
      assert a + b == (a + init) + [last] && b == init + [last];
      ActsOfAppend(s, a, init);
      AfterAppend(s, a, init);
      ActsOfSnoc(s, a + init, last);
      ActsOfSnoc(StateAfter(s, a), init, last);
    }
  }

  lemma NoActs(s: State)
    ensures ActsOf(s, []) == [] && StateAfter(s, []) == s
  {
  }

  lemma OneAct(s: State, line: string)
    ensures ActsOf(s, [line]) == [OnLine(s, line).1] && StateAfter(s, [line]) == OnLine(s, line).0
  {
    NoActs(s);
    assert [line] == [] + [line];
    ActsOfSnoc(s, [], line);
    AfterSnoc(s, [], line);
  }

  /** Taking in some input gives the actions of its whole lines, one by one. */
  lemma {:induction false} ConsumeIsActs(s: State, buf: string)
    ensures Consume(s, buf).state == StateAfter(s, LinesIn(buf))
    ensures Consume(s, buf).acts == ActsOf(s, LinesIn(buf))
    decreases |buf|
  {
    hide OnLine, TrimCr, StateAfter, ActsOf;
    var i := Find(buf, '\n');
    if i == |buf| {
      NoActs(s);
    } else {
      var line, rest := TrimCr(buf[..i]), buf[i + 1..];
      ConsumeIsActs(OnLine(s, line).0, rest);
      OneAct(s, line);
      ActsOfAppend(s, [line], LinesIn(rest));
      AfterAppend(s, [line], LinesIn(rest));
    }
  }

  /** The bytes that some actions hand to the canvas, now or after it is installed. */
  function Handed(acts: seq<Act>): string {
    if acts == [] then ""
    else
      var r, last := Handed(acts[..|acts| - 1]), acts[|acts| - 1];
      if last.Feed? || last.Pend? then r + last.bytes else r
  }

  /** The bytes that a pane wrote. */
  function Wrote(lines: seq<string>, pane: nat): string {
    if lines == [] then ""
    else
      var r, ev := Wrote(lines[..|lines| - 1], pane), ParseLine(lines[|lines| - 1]);
      if ev.Output? && ev.pane == pane then r + ev.bytes else r
  }

  /** Output of the claimed pane is held back for the new canvas exactly while that is
      being built; nothing else hands over bytes. */
  lemma OutputIsHanded(s: State, line: string)
    ensures var ev, act := ParseLine(line), OnLine(s, line).1;
            if ev.Output? && s.pane == Some(ev.pane) then
              OnLine(s, line).0 == s && act == (if s.phase == Building then Pend(ev.bytes) else Feed(ev.bytes))
            else !act.Feed? && !act.Pend?
  {
    hide ParseLine, ParseHeader;
  }

  /** While a pane is claimed, every byte it writes - and no other - reaches the canvas or
      the queue for it, in order and in every phase. */
  lemma {:induction false} PaneOutputArrives(s: State, lines: seq<string>, pane: nat)
    requires forall i :: 0 <= i < |lines| ==> StateAfter(s, lines[..i]).pane == Some(pane)
    ensures Handed(ActsOf(s, lines)) == Wrote(lines, pane)
  {
    hide ParseLine, OnLine, StateAfter;
    if lines != [] {
      var init, last := lines[..|lines| - 1], lines[|lines| - 1];
      forall i | 0 <= i < |init| ensures StateAfter(s, init[..i]).pane == Some(pane) {
        assert init[..i] == lines[..i];
      }
      PaneOutputArrives(s, init, pane);
      assert StateAfter(s, init).pane == Some(pane);
      OutputIsHanded(StateAfter(s, init), last);
      assert ActsOf(s, lines)[..|ActsOf(s, lines)| - 1] == ActsOf(s, init);
    }
  }

  // ---- whole histories ----

  datatype In = Line(line: string) | Seed(token: nat) | Reset | Built

  function Took(s: State, input: In): State {
    match input
    case Line(l) => OnLine(s, l).0
    case Seed(token) => AfterSeed(s, token)
    case Reset => AfterReset(s)
    case Built => s.(phase := Steady)
  }

  function History(h: seq<In>): State {
    if h == [] then Initial() else Took(History(h[..|h| - 1]), h[|h| - 1])
  }

  function LinesOf(lines: seq<string>): seq<In> {
    if lines == [] then [] else LinesOf(lines[..|lines| - 1]) + [Line(lines[|lines| - 1])]
  }

  /** Inside a round nothing but lines has come since the seed command. */
  lemma {:induction false} SeededBefore(h: seq<In>) returns (before: seq<In>, token: nat, lines: seq<string>)
    requires History(h).phase !in {Steady, Building}
    ensures h == before + [Seed(token)] + LinesOf(lines)
    ensures History(h) == StateAfter(AfterSeed(History(before), token), lines)
  {
    hide OnLine;
    var init, last := h[..|h| - 1], h[|h| - 1];
    if last.Seed? {
      before, token, lines := init, last.token, [];
      assert h == before + [Seed(token)] + [];
    } else if last.Line? {
      if History(init).phase in {Steady, Building} {
        IdleStays(History(init), last.line);
      } else {
        before, token, lines := SeededBefore(init);
        AfterSnoc(AfterSeed(History(before), token), lines, last.line);
        assert (lines + [last.line])[..|lines|] == lines;
        lines := lines + [last.line];
        assert h == before + [Seed(token)] + LinesOf(lines);
      }
    }
  }

  /** Over any history of lines, seed commands, resets and installations: a Build comes
      only at the end of a round claimed by the token of the newest seed command. */
  lemma BuildNeedsItsSeed(h: seq<In>, last: string) returns (before: seq<In>, token: nat, r: Round)
    requires OnLine(History(h), last).1.Build?
    ensures h == before + [Seed(token)] + LinesOf(r.All())
    ensures r.Is(token) && OnLine(History(h), last).1 == r.Built()
  {
    hide ParseLine, ParseHeader, Waiting, Plains, StateAfter, History;
    var lines: seq<string>;
    before, token, lines := SeededBefore(h);
    r := BuildIsOneRound(History(before), token, lines, last);
  }
}
