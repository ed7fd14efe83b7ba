/** The body half of the hand-written HTTP/1.1 client (`src/http1.rs`): a buffered
    source that delivers arbitrary fragments and time-outs, and the resumable
    body reader on top of it.  The framing is that of RFC 9112, section 6.3
    (message body length) and section 7.1 (chunked coding). */
module Http1 {
  import opened Text

  /** What one read of the socket brings: some bytes, a read time-out together with
      the verdict of the caller's tick hook, or a failure.  When the script has run
      out the peer has closed. */
  datatype Event = Data(bytes: string) | Tick(goOn: bool) | Fault

  datatype Error = Interrupted | UnexpectedEof | InvalidData

  datatype Result<+T> = Ok(value: T) | Err(error: Error)

  /** The reader's own buffer and what the source still has to say. */
  datatype Io = Io(buf: string, script: seq<Event>)

  datatype BodyState = Len(n: nat) | Eof | ChunkSize | ChunkData(n: nat) | ChunkCrlf | Trailers | Done

  /** Bytes taken from the source in one read. */
  const READ_MAX: nat := 8192

  const U64_MAX: nat := 0xFFFF_FFFF_FFFF_FFFF

  predicate Wellformed(script: seq<Event>) {
    forall i :: 0 <= i < |script| && script[i].Data? ==> script[i].bytes != ""
  }

  /** All bytes that are still to come, however they will be cut. */
  function Pending(script: seq<Event>): string {
    if script == [] then ""
    else (if script[0].Data? then script[0].bytes else "") + Pending(script[1..])
  }

  function Stream(io: Io): string { io.buf + Pending(io.script) }

  /** No read fails and every time-out is waved on. */
  predicate Calm(script: seq<Event>) {
    forall i :: 0 <= i < |script| ==> script[i].Data? || script[i] == Tick(true)
  }

  function Work(io: Io): nat { |Pending(io.script)| + |io.script| }

  // ---- BufIo, as functions of the buffer and the script ----

  /** `fill_hook`: reads until something other than a waved-on time-out comes. */
  function Fill(io: Io): (r: (Result<nat>, Io))
    decreases |io.script|
  {
    if io.script == [] then (Ok(0), io)
    else match io.script[0]
      case Tick(goOn) =>
        if goOn then Fill(io.(script := io.script[1..])) else (Err(Interrupted), io.(script := io.script[1..]))
      case Fault => (Err(Interrupted), io.(script := io.script[1..]))
      case Data(bytes) =>
        if |bytes| <= READ_MAX
        then (Ok(|bytes|), Io(io.buf + bytes, io.script[1..]))
        else (Ok(READ_MAX), Io(io.buf + bytes[..READ_MAX], [Data(bytes[READ_MAX..])] + io.script[1..]))
  }

  lemma PendingOfData(buf: string, head: string, tail: string, rest: seq<Event>)
    ensures (buf + head) + (tail + Pending(rest)) == buf + ((head + tail) + Pending(rest))
    ensures Pending([Data(tail)] + rest) == tail + Pending(rest)
  {
    assert ([Data(tail)] + rest)[1..] == rest;
  }

  /** Reading moves bytes from the source to the buffer; none is lost or invented. */
  lemma {:induction false} FillKeepsStream(io: Io)
    ensures Stream(Fill(io).1) == Stream(io)
    ensures io.buf <= Fill(io).1.buf
    decreases |io.script|
  {
    if io.script != [] {
      var rest := io.script[1..];
      match io.script[0]
      case Tick(goOn) =>
        if goOn {
          FillKeepsStream(io.(script := rest));
        }
      case Fault =>
      case Data(bytes) =>
        if |bytes| > READ_MAX {
          assert bytes == bytes[..READ_MAX] + bytes[READ_MAX..];
          PendingOfData(io.buf, bytes[..READ_MAX], bytes[READ_MAX..], rest);
        } else {
          PendingOfData(io.buf, bytes, "", rest);
          assert bytes + "" == bytes && "" + Pending(rest) == Pending(rest);
        }
    }
  }

  lemma {:induction false} FillKeepsShape(io: Io)
    requires Wellformed(io.script)
    ensures Wellformed(Fill(io).1.script)
    ensures Calm(io.script) ==> Fill(io).0.Ok? && Calm(Fill(io).1.script)
    ensures Fill(io).0.Err? ==> Fill(io).0.error == Interrupted && Fill(io).1.buf == io.buf
    ensures Fill(io).0 == Ok(0) ==> Fill(io).1 == Io(io.buf, [])
    ensures Fill(io).0.Ok? && Fill(io).0.value > 0 ==> |Fill(io).1.buf| > |io.buf|
    decreases |io.script|
  {
    if io.script != [] && io.script[0] == Tick(true) {
      FillKeepsShape(io.(script := io.script[1..]));
    }
  }

  lemma {:induction false} FillWorks(io: Io)
    requires Wellformed(io.script)
    ensures Fill(io).0 != Ok(0) ==> Work(Fill(io).1) < Work(io)
    decreases |io.script|
  {
    if io.script != [] {
      var rest := io.script[1..];
      match io.script[0]
      case Tick(goOn) =>
        if goOn {
          FillWorks(io.(script := rest));
        }
      case Fault =>
      case Data(bytes) =>
        if |bytes| > READ_MAX {
          PendingOfData(io.buf, "", bytes[READ_MAX..], rest);
        }
    }
  }

  function StripCr(line: string): string {
    if line != "" && line[|line| - 1] == '\r' then line[..|line| - 1] else line
  }

  /** `read_line_hook`: a line without its break; at the end of the source what is
      left counts as a last line, as it stands. */
  function ReadLine(io: Io): (r: (Result<Option<string>>, Io))
    requires Wellformed(io.script)
    decreases Work(io)
  {
    var i := Find(io.buf, '\n');
    if i < |io.buf| then (Ok(Some(StripCr(io.buf[..i]))), io.(buf := io.buf[i + 1..]))
    else
      FillWorks(io);
      FillKeepsShape(io);
      var (r, io') := Fill(io);
      match r
      case Err(e) => (Err(e), io')
      case Ok(n) =>
        if n > 0 then ReadLine(io')
        else if io'.buf == "" then (Ok(None), io')
        else (Ok(Some(io'.buf)), io'.(buf := ""))
  }

  /** `read_some_hook` into a buffer of `n` bytes. */
  function ReadSome(io: Io, n: nat): (Result<string>, Io) {
    if io.buf != "" then Take(io, n)
    else
      var (r, io') := Fill(io);
      match r
      case Err(e) => (Err(e), io')
      case Ok(k) => if k == 0 then (Ok(""), io') else Take(io', n)
  }

  function Take(io: Io, n: nat): (Result<string>, Io) {
    var m := if n < |io.buf| then n else |io.buf|;
    (Ok(io.buf[..m]), io.(buf := io.buf[m..]))
  }

  /** `read_exact_or_eof`: also tells what had already been drained into the
      caller's buffer when a read was interrupted. */
  function ReadExact(io: Io, n: nat, done: string): (Result<string>, Io, string)
    decreases n - |done|
  {
    if |done| >= n then (Ok(done), io, "")
    else
      var (r, io') := ReadSome(io, n - |done|);
      match r
      case Err(e) => (Err(e), io', done)
      case Ok(out) => if out == "" then (Ok(done), io', "") else ReadExact(io', n, done + out)
  }

  // ---- what the reads mean for the byte stream ----

  /** The next line of a byte stream, and what comes after it. */
  function NextLine(s: string): (r: Option<(string, string)>)
    ensures r.None? <==> s == ""
    ensures r.Some? ==> |r.value.1| < |s|
  {
    var i := Find(s, '\n');
    if i < |s| then Some((StripCr(s[..i]), s[i + 1..]))
    else if s == "" then None
    else Some((s, ""))
  }

  lemma NextLineOf(head: string, rest: string)
    requires '\n' !in head
    ensures NextLine(head + "\n" + rest) == Some((StripCr(head), rest))
  {
    var s := head + "\n" + rest;
    FindIs(s, '\n', |head|);
    assert s[..|head|] == head;
    assert s[|head| + 1..] == rest;
  }

  lemma CutAt(s: string, i: nat)
    requires i < |s|
    ensures s == s[..i] + [s[i]] + s[i + 1..]
  {
  }

  lemma NextLineInBuffer(buf: string, more: string, i: nat)
    requires i == Find(buf, '\n') < |buf|
    ensures NextLine(buf + more) == Some((StripCr(buf[..i]), buf[i + 1..] + more))
  {
    CutAt(buf, i);
    Regroup(buf[..i] + [buf[i]], buf[i + 1..], more);
    NextLineOf(buf[..i], buf[i + 1..] + more);
  }

  /** However the source cuts it, a line read is the next line of the stream. */
  lemma {:induction false} ReadLineIsNextLine(io: Io)
    requires Wellformed(io.script)
    ensures Wellformed(ReadLine(io).1.script)
    ensures Calm(io.script) ==> ReadLine(io).0.Ok? && Calm(ReadLine(io).1.script)
    ensures ReadLine(io).0.Err? ==> ReadLine(io).0 == Err(Interrupted) && Stream(ReadLine(io).1) == Stream(io)
    ensures ReadLine(io).0.Ok? ==>
              match NextLine(Stream(io))
              case None => ReadLine(io).0.value == None && Stream(ReadLine(io).1) == ""
              case Some((line, rest)) => ReadLine(io).0.value == Some(line) && Stream(ReadLine(io).1) == rest
    decreases Work(io)
  {
    hide NextLine, StripCr, Fill, Pending, Find;
    if Find(io.buf, '\n') < |io.buf| {
      NextLineInBuffer(io.buf, Pending(io.script), Find(io.buf, '\n'));
    } else {
      FillWorks(io);
      FillKeepsShape(io);
      FillKeepsStream(io);
      var (r, io') := Fill(io);
      if r.Ok? && r.value > 0 {
        ReadLineIsNextLine(io');
      } else if r.Ok? {
        NothingPending(io');
        LastLine(io.buf);
      }
    }
  }

  lemma NothingPending(io: Io)
    ensures io.script == [] ==> Stream(io) == io.buf
    ensures Stream(io.(buf := "")) == Pending(io.script)
  {
  }

  lemma LastLine(s: string)
    requires '\n' !in s
    ensures NextLine(s) == if s == "" then None else Some((s, ""))
  {
    FindIs(s, '\n', |s|);
  }

  lemma TakeIsPrefix(io: Io, n: nat)
    ensures var (r, io') := Take(io, n);
            r.Ok? && |r.value| <= n && Stream(io) == r.value + Stream(io')
            && (n > 0 && io.buf != "" ==> r.value != "")
  {
    var (r, io') := Take(io, n);
    assert io.buf == r.value + io'.buf;
    assert (r.value + io'.buf) + Pending(io.script) == r.value + (io'.buf + Pending(io.script));
  }

  /** What a read of at most `n` bytes may do to the stream. */
  ghost predicate ReadsPrefix(io: Io, n: nat, r: Result<string>, io': Io) {
    && Wellformed(io'.script)
    && (Calm(io.script) ==> r.Ok? && Calm(io'.script))
    && (r.Err? ==> r == Err(Interrupted) && Stream(io') == Stream(io))
    && (r.Ok? ==> |r.value| <= n && Stream(io) == r.value + Stream(io'))
    && (r.Ok? && 0 < n && r.value == "" ==> Stream(io) == "")
  }

  lemma ReadSomeIsPrefix(io: Io, n: nat)
    requires Wellformed(io.script)
    ensures ReadsPrefix(io, n, ReadSome(io, n).0, ReadSome(io, n).1)
  {
    if io.buf != "" {
      TakeIsPrefix(io, n);
    } else {
      FillKeepsShape(io);
      FillKeepsStream(io);
      var (r, io') := Fill(io);
      if r.Ok? && r.value > 0 {
        TakeIsPrefix(io', n);
      }
    }
  }

  /** A full read is short only at the end of the source.  When it is interrupted,
      `lost` has left the stream although the caller is told of no byte. */
  ghost predicate ReadsExactly(io: Io, n: nat, done: string, r: Result<string>, io': Io, lost: string) {
    && Wellformed(io'.script)
    && (Calm(io.script) ==> r.Ok? && Calm(io'.script))
    && (r.Err? ==> r == Err(Interrupted) && |lost| < n && lost + Stream(io') == done + Stream(io))
    && (r.Ok? ==> |r.value| <= n && r.value + Stream(io') == done + Stream(io))
    && (r.Ok? && |r.value| < n ==> Stream(io') == "")
    && (r.Ok? ==> lost == "")
  }

  lemma {:induction false} ReadExactIsPrefix(io: Io, n: nat, done: string)
    requires Wellformed(io.script) && |done| <= n
    ensures ReadsExactly(io, n, done, ReadExact(io, n, done).0, ReadExact(io, n, done).1, ReadExact(io, n, done).2)
    decreases n - |done|
  {
    if |done| < n {
      ReadSomeIsPrefix(io, n - |done|);
      var (r, io') := ReadSome(io, n - |done|);
      if r.Ok? {
        assert (done + r.value) + Stream(io') == done + (r.value + Stream(io'));
        if r.value != "" {
          ReadExactIsPrefix(io', n, done + r.value);
        } else {
          assert done + "" == done;
        }
      }
    }
  }

  lemma ReadExactFromStart(io: Io, m: nat, r: Result<string>, io': Io, lost: string)
    requires Wellformed(io.script) && ReadExact(io, m, "") == (r, io', lost)
    ensures Wellformed(io'.script) && (Calm(io.script) ==> r.Ok? && Calm(io'.script))
    ensures r.Err? ==> r == Err(Interrupted) && |lost| < m && Stream(io) == lost + Stream(io')
    ensures r.Ok? ==> |r.value| <= m && Stream(io) == r.value + Stream(io') && lost == ""
    ensures r.Ok? && |r.value| < m ==> Stream(io') == ""
  {
    ReadExactIsPrefix(io, m, "");
    assert "" + Stream(io) == Stream(io);
  }

  // ---- the body reader ----

  /** The size of a chunk: hexadecimal, with any extension after `;` ignored. */
  function ParseSize(line: string): Option<nat> {
    ParseUint(Trim(Ascii, Split(line, ';')[0]), 16, U64_MAX)
  }

  function Rank(state: BodyState): nat {
    match state
    case ChunkData(_) => 3
    case ChunkCrlf => 2
    case Len(_) => 1
    case ChunkSize => 1
    case Trailers => 1
    case _ => 0
  }

  /** How a read into a buffer of `n` bytes ends. */
  datatype Outcome = Outcome(result: Result<string>, state: BodyState, io: Io, lost: string)

  function Counted(state: BodyState, n: nat): BodyState { if state.Len? then Len(n) else ChunkData(n) }

  /** The arms that count bytes down; a read that fails leaves the count alone. */
  function ReadCounted(state: BodyState, io: Io, n: nat): Outcome
    requires state.Len? || state.ChunkData?
  {
    var m := if n < state.n then n else state.n;
    var (r, io', lost) := ReadExact(io, m, "");
    match r
    case Err(e) => Outcome(Err(e), state, io', lost)
    case Ok(out) => Outcome(Ok(out), Counted(state, if |out| <= state.n then state.n - |out| else 0), io', "")
  }

  predicate ReadsLines(state: BodyState) { state.ChunkSize? || state.ChunkCrlf? || state.Trailers? }

  /** Where a line takes the three states that read lines. */
  function AfterLine(state: BodyState, line: Option<string>): Result<BodyState>
    requires ReadsLines(state)
  {
    match state
    case ChunkCrlf => Ok(ChunkSize)
    case Trailers => Ok(if line.None? || line.value == "" then Done else Trailers)
    case ChunkSize =>
      if line.None? then Err(UnexpectedEof)
      else
        match ParseSize(line.value)
        case None => Err(InvalidData)
        case Some(size) => Ok(if size == 0 then Trailers else ChunkData(size))
  }

  function LineStep(state: BodyState, io: Io): (Result<BodyState>, Io)
    requires Wellformed(io.script) && ReadsLines(state)
  {
    var (r, io') := ReadLine(io);
    (if r.Err? then Err(r.error) else AfterLine(state, r.value), io')
  }

  lemma LineStepAdvances(state: BodyState, io: Io)
    requires Wellformed(io.script) && ReadsLines(state)
    ensures var (r, io') := LineStep(state, io);
            Wellformed(io'.script)
            && (r.Ok? ==> |Stream(io')| < |Stream(io)| || (Stream(io') == Stream(io) && Rank(r.value) < Rank(state)))
  {
    hide ReadLine, NextLine, ParseSize, Stream, Calm;
    ReadLineIsNextLine(io);
  }

  /** `read_body_hook`. */
  function ReadBody(state: BodyState, io: Io, n: nat): Outcome
    requires Wellformed(io.script)
    decreases |Stream(io)|, Rank(state)
  {
    match state
    case Done => Outcome(Ok(""), Done, io, "")
    case Eof =>
      var (r, io') := ReadSome(io, n);
      Outcome(r, Eof, io', "")
    case Len(remain) =>
      if remain == 0 then Outcome(Ok(""), Done, io, "")
      else if n == 0 then Outcome(Ok(""), state, io, "")
      else ReadCounted(state, io, n)
    case ChunkData(remain) =>
      if remain == 0 then ReadBody(ChunkCrlf, io, n)
      else if n == 0 then Outcome(Ok(""), state, io, "")
      else ReadCounted(state, io, n)
    case _ =>
      LineStepAdvances(state, io);
      var (r, io') := LineStep(state, io);
      if r.Err? then Outcome(Err(r.error), state, io', "") else ReadBody(r.value, io', n)
  }

  // ---- what a body is, read off the stream alone ----

  /** How a body ends: completely, with the bytes after it; cut short by the end of
      the source; or at a size line that is malformed or missing. */
  datatype End = Complete(rest: string) | Cut | BadSize | NoSize

  datatype Body = Body(payload: string, end: End)

  function Prefixed(head: string, b: Body): Body { Body(head + b.payload, b.end) }

  /** The framing rules: no buffer, no fragments, no caller. */
  function BodyOf(state: BodyState, s: string): Body
    decreases |s|, Rank(state)
  {
    match state
    case Done => Body("", Complete(s))
    case Len(n) => if n <= |s| then Body(s[..n], Complete(s[n..])) else Body(s, Cut)
    case Eof => Body(s, Complete(""))
    case ChunkSize =>
      (match NextLine(s)
       case None => Body("", NoSize)
       case Some((line, rest)) =>
         match ParseSize(line)
         case None => Body("", BadSize)
         case Some(size) => BodyOf(if size == 0 then Trailers else ChunkData(size), rest))
    case ChunkData(n) =>
      if n <= |s| then Prefixed(s[..n], BodyOf(ChunkCrlf, s[n..])) else Body(s, Cut)
    case ChunkCrlf =>
      (match NextLine(s)
       case None => BodyOf(ChunkSize, "")
       case Some((_, rest)) => BodyOf(ChunkSize, rest))
    case Trailers =>
      match NextLine(s)
      case None => Body("", Complete(""))
      case Some((line, rest)) => if line == "" then Body("", Complete(rest)) else BodyOf(Trailers, rest)
  }

  /** What one read promises about the body that was left. */
  ghost predicate Delivers(before: Body, o: Outcome, n: nat, calm: bool) {
    && Wellformed(o.io.script)
    && (calm ==> o.result != Err(Interrupted) && Calm(o.io.script))
    && (o.result != Err(Interrupted) ==> o.lost == "")
    && match o.result
       case Ok(out) =>
         && |out| <= n
         && before == Prefixed(out, BodyOf(o.state, Stream(o.io)))
         && (out == "" ==> before.payload == "" && (before.end == Cut || before.end == Complete(Stream(o.io))))
       case Err(InvalidData) => before == Body("", BadSize)
       case Err(UnexpectedEof) => before == Body("", NoSize)
       case Err(Interrupted) =>
         && |o.lost| < n
         && before == BodyOf(o.state, o.lost + Stream(o.io))
  }

  lemma PrefixedEmpty(b: Body)
    ensures Prefixed("", b) == b
  {
  }

  /** Splitting the bytes of a counted body. */
  lemma CountedSplit(state: BodyState, s: string, out: string, rest: string)
    requires (state.Len? || state.ChunkData?) && s == out + rest && |out| <= state.n
    ensures BodyOf(state, s)
         == Prefixed(out, BodyOf(Counted(state, state.n - |out|), rest))
  {
    var n := state.n;
    if n <= |s| {
      assert s[..n] == out + rest[..n - |out|];
      assert s[n..] == rest[n - |out|..];
      if state.ChunkData? {
        var tail := BodyOf(ChunkCrlf, s[n..]);
        assert (out + rest[..n - |out|]) + tail.payload == out + (rest[..n - |out|] + tail.payload);
      }
    }
  }

  /** What a counted read may come to, given only how it treats the stream. */
  ghost predicate CountsDown(state: BodyState, s: string, m: nat, o: Outcome, calm: bool) {
    && Wellformed(o.io.script) && (calm ==> o.result.Ok? && Calm(o.io.script))
    && (state.Len? || state.ChunkData?)
    && match o.result
       case Ok(out) =>
         && |out| <= m && s == out + Stream(o.io) && o.lost == "" && (|out| < m ==> Stream(o.io) == "")
         && o.state == Counted(state, if |out| <= state.n then state.n - |out| else 0)
       case Err(e) => e == Interrupted && |o.lost| < m && s == o.lost + Stream(o.io) && o.state == state
  }

  lemma ReadCountedCountsDown(state: BodyState, io: Io, n: nat, m: nat)
    requires Wellformed(io.script) && (state.Len? || state.ChunkData?)
    requires m == if n < state.n then n else state.n
    ensures CountsDown(state, Stream(io), m, ReadCounted(state, io, n), Calm(io.script))
  {
    var (r, io', lost) := ReadExact(io, m, "");
    ReadExactFromStart(io, m, r, io', lost);
  }

  lemma CountedDelivers(state: BodyState, s: string, n: nat, m: nat, o: Outcome, calm: bool)
    requires (state.Len? || state.ChunkData?) && 0 < m <= state.n && m <= n
    requires CountsDown(state, s, m, o, calm)
    ensures Delivers(BodyOf(state, s), o, n, calm)
  {
    hide Stream, Calm, Wellformed, BodyOf;
    if o.result.Ok? {
      CountedSplit(state, s, o.result.value, Stream(o.io));
      if o.result.value == "" {
        CountedAtEnd(state);
      }
    }
  }

  lemma ReadCountedDelivers(state: BodyState, io: Io, n: nat)
    requires Wellformed(io.script) && (state.Len? || state.ChunkData?) && 0 < state.n && 0 < n
    ensures Delivers(BodyOf(state, Stream(io)), ReadCounted(state, io, n), n, Calm(io.script))
  {
    var m := if n < state.n then n else state.n;
    ReadCountedCountsDown(state, io, n, m);
    CountedDelivers(state, Stream(io), n, m, ReadCounted(state, io, n), Calm(io.script));
  }

  lemma CountedAtEnd(state: BodyState)
    requires (state.Len? || state.ChunkData?) && 0 < state.n
    ensures BodyOf(state, "") == Body("", Cut)
  {
  }

  /** An interrupted line read leaves everything as it was. */
  lemma LineInterrupted(state: BodyState, io: Io, io': Io, n: nat)
    requires 0 < n && Stream(io') == Stream(io) && Wellformed(io'.script)
    ensures Delivers(BodyOf(state, Stream(io)), Outcome(Err(Interrupted), state, io', ""), n, false)
  {
    assert "" + Stream(io') == Stream(io);
  }

  lemma EmptyCount(state: BodyState, s: string)
    ensures BodyOf(Len(0), s) == Body("", Complete(s))
    ensures BodyOf(ChunkData(0), s) == BodyOf(ChunkCrlf, s)
  {
    assert s[..0] == "" && s[0..] == s;
    PrefixedEmpty(BodyOf(ChunkCrlf, s));
  }

  lemma FinishedDelivers(io': Io, n: nat, calm: bool)
    requires Wellformed(io'.script) && (calm ==> Calm(io'.script))
    ensures Delivers(Body("", Complete(Stream(io'))), Outcome(Ok(""), Done, io', ""), n, calm)
  {
  }

  lemma ReadSomeDelivers(io: Io, n: nat)
    requires Wellformed(io.script) && 0 < n
    ensures Delivers(BodyOf(Eof, Stream(io)), ReadBody(Eof, io, n), n, Calm(io.script))
  {
    ReadSomeIsPrefix(io, n);
    assert "" + Stream(ReadSome(io, n).1) == Stream(ReadSome(io, n).1);
  }

  /** A line takes the reader from a body to the same body one line later. */
  lemma AfterLineKeepsBody(state: BodyState, s: string)
    requires ReadsLines(state)
    ensures var (line, rest) := if s == "" then (None, "") else (Some(NextLine(s).value.0), NextLine(s).value.1);
            match AfterLine(state, line)
            case Ok(next) => BodyOf(state, s) == BodyOf(next, rest)
            case Err(e) => BodyOf(state, s) == Body("", if e == InvalidData then BadSize else NoSize)
  {
  }

  lemma LineStepKeepsBody(state: BodyState, io: Io)
    requires Wellformed(io.script) && ReadsLines(state)
    ensures var (r, io') := LineStep(state, io);
            && (r == Err(Interrupted) ==> !Calm(io.script) && Stream(io') == Stream(io))
            && (r != Err(Interrupted) && Calm(io.script) ==> Calm(io'.script))
            && (r.Ok? ==> BodyOf(state, Stream(io)) == BodyOf(r.value, Stream(io')))
            && (r == Err(InvalidData) ==> BodyOf(state, Stream(io)) == Body("", BadSize))
            && (r == Err(UnexpectedEof) ==> BodyOf(state, Stream(io)) == Body("", NoSize))
  {
    ReadLineIsNextLine(io);
    AfterLineKeepsBody(state, Stream(io));
  }

  lemma LineStepDelivers(state: BodyState, io: Io, n: nat)
    requires Wellformed(io.script) && ReadsLines(state) && 0 < n
    requires LineStep(state, io).0.Err?
    ensures Delivers(BodyOf(state, Stream(io)),
                     Outcome(Err(LineStep(state, io).0.error), state, LineStep(state, io).1, ""), n, Calm(io.script))
  {
    hide ReadLine, NextLine, ParseSize, Stream, AfterLine, BodyOf;
    LineStepAdvances(state, io);
    LineStepKeepsBody(state, io);
    if LineStep(state, io).0 == Err(Interrupted) {
      LineInterrupted(state, io, LineStep(state, io).1, n);
    }
  }

  /** One read, in any state, from any source, hands out the next bytes of the body. */
  lemma {:induction false} ReadBodyDelivers(state: BodyState, io: Io, n: nat)
    requires Wellformed(io.script) && 0 < n
    ensures Delivers(BodyOf(state, Stream(io)), ReadBody(state, io, n), n, Calm(io.script))
    decreases |Stream(io)|, Rank(state)
  {
    if state.Done? {
      FinishedDelivers(io, n, Calm(io.script));
    } else if state.Eof? {
      ReadSomeDelivers(io, n);
    } else if state == Len(0) {
      EmptyCount(state, Stream(io));
      FinishedDelivers(io, n, Calm(io.script));
    } else if state == ChunkData(0) {
      EmptyCount(state, Stream(io));
      ReadBodyDelivers(ChunkCrlf, io, n);
    } else if !ReadsLines(state) {
      ReadCountedDelivers(state, io, n);
    } else {
      var (r, io') := LineStep(state, io);
      LineStepAdvances(state, io);
      if r.Ok? {
        LineStepKeepsBody(state, io);
        ReadBodyDelivers(r.value, io', n);
      } else {
        LineStepDelivers(state, io, n);
      }
    }
  }

  // ---- whole bodies ----

  /** Repeated reads with the given buffer sizes, until a read returns nothing or
      fails.  `ended` says that a read returned nothing. */
  datatype Transcript = Transcript(bytes: string, ended: bool, state: BodyState, io: Io)

  function ReadAll(state: BodyState, io: Io, sizes: seq<nat>): Transcript
    requires Wellformed(io.script) && forall i :: 0 <= i < |sizes| ==> 0 < sizes[i]
    decreases |sizes|
  {
    if sizes == [] then Transcript("", false, state, io)
    else
      ReadBodyDelivers(state, io, sizes[0]);
      var o := ReadBody(state, io, sizes[0]);
      match o.result
      case Err(_) => Transcript("", false, o.state, o.io)
      case Ok(out) =>
        if out == "" then Transcript("", true, o.state, o.io)
        else
          var t := ReadAll(o.state, o.io, sizes[1..]);
          t.(bytes := out + t.bytes)
  }

  /** A body that ends without an error. */
  predicate EndsQuietly(b: Body) { b.end.Complete? || b.end.Cut? }

  /** A body comes out whole and unchanged, whatever the fragments and whatever the
      buffer sizes, and one read more than there are bytes is always enough.  Of a
      complete body the bytes behind it are untouched.  A body that the end of the
      source cuts short ends with an empty read just the same: the reads alone do
      not tell the two apart. */
  lemma {:induction false} ReadAllIsBody(state: BodyState, io: Io, sizes: seq<nat>)
    requires Wellformed(io.script) && Calm(io.script)
    requires forall i :: 0 <= i < |sizes| ==> 0 < sizes[i]
    requires EndsQuietly(BodyOf(state, Stream(io)))
    ensures var b, t := BodyOf(state, Stream(io)), ReadAll(state, io, sizes);
            && (t.ended ==> t.bytes == b.payload && (b.end.Complete? ==> Stream(t.io) == b.end.rest))
            && (|sizes| > |b.payload| ==> t.ended)
    decreases |sizes|
  {
    if sizes != [] {
      var before := BodyOf(state, Stream(io));
      var o := ReadBody(state, io, sizes[0]);
      assert Delivers(before, o, sizes[0], true) by { ReadBodyDelivers(state, io, sizes[0]); }
      if o.result.Ok? && o.result.value != "" {
        ReadAllIsBody(o.state, o.io, sizes[1..]);
      }
    }
  }

  // ---- chunked coding ----

  /** One chunk on the wire: size line (size and extensions) and data. */
  datatype Chunk = Chunk(size: string, data: string)

  predicate GoodChunk(c: Chunk) {
    '\n' !in c.size && c.data != "" && ParseSize(c.size) == Some(|c.data|)
  }

  /** The chunked coding of RFC 9112, section 7.1. */
  function EncodeChunks(chunks: seq<Chunk>, tail: string): string {
    if chunks == [] then tail
    else chunks[0].size + "\r\n" + (chunks[0].data + ("\r\n" + EncodeChunks(chunks[1..], tail)))
  }

  function EncodeTrailers(fields: seq<string>, rest: string): string {
    if fields == [] then "\r\n" + rest else fields[0] + "\r\n" + EncodeTrailers(fields[1..], rest)
  }

  function Encoded(chunks: seq<Chunk>, last: string, fields: seq<string>, rest: string): string {
    EncodeChunks(chunks, last + "\r\n" + EncodeTrailers(fields, rest))
  }

  function DataOf(chunks: seq<Chunk>): string {
    if chunks == [] then "" else chunks[0].data + DataOf(chunks[1..])
  }

  ghost predicate GoodMessage(chunks: seq<Chunk>, last: string, fields: seq<string>) {
    && (forall i :: 0 <= i < |chunks| ==> GoodChunk(chunks[i]))
    && '\n' !in last && ParseSize(last) == Some(0)
    && forall i :: 0 <= i < |fields| ==> fields[i] != "" && '\n' !in fields[i]
  }

  lemma CrlfLine(line: string, rest: string)
    requires '\n' !in line
    ensures NextLine(line + "\r\n" + rest) == Some((line, rest))
  {
    assert line + "\r\n" + rest == (line + "\r") + "\n" + rest;
    NextLineOf(line + "\r", rest);
    assert (line + "\r")[..|line|] == line;
  }

  lemma {:induction false} TrailersEnd(fields: seq<string>, rest: string)
    requires forall i :: 0 <= i < |fields| ==> fields[i] != "" && '\n' !in fields[i]
    ensures BodyOf(Trailers, EncodeTrailers(fields, rest)) == Body("", Complete(rest))
    decreases |fields|
  {
    if fields == [] {
      CrlfLine("", rest);
      assert "" + "\r\n" + rest == "\r\n" + rest;
    } else {
      CrlfLine(fields[0], EncodeTrailers(fields[1..], rest));
      TrailersEnd(fields[1..], rest);
    }
  }

  lemma CrlfThenSize(rest: string)
    ensures BodyOf(ChunkCrlf, "\r\n" + rest) == BodyOf(ChunkSize, rest)
  {
    hide NextLine;
    CrlfLine("", rest);
    assert "" + "\r\n" + rest == "\r\n" + rest;
  }

  lemma ChunkDataFirst(data: string, more: string)
    ensures BodyOf(ChunkData(|data|), data + more) == Prefixed(data, BodyOf(ChunkCrlf, more))
  {
    assert (data + more)[..|data|] == data && (data + more)[|data|..] == more;
    hide NextLine, ParseSize;
  }

  lemma ChunkDataThenCrlf(data: string, rest: string)
    ensures BodyOf(ChunkData(|data|), data + ("\r\n" + rest)) == Prefixed(data, BodyOf(ChunkSize, rest))
  {
    hide BodyOf;
    ChunkDataFirst(data, "\r\n" + rest);
    CrlfThenSize(rest);
  }

  /** Decoding a chunked message gives its data, and stops right behind it. */
  lemma {:induction false} ChunkedRoundTrip(chunks: seq<Chunk>, last: string, fields: seq<string>, rest: string)
    requires GoodMessage(chunks, last, fields)
    ensures BodyOf(ChunkSize, Encoded(chunks, last, fields, rest)) == Body(DataOf(chunks), Complete(rest))
    decreases |chunks|
  {
    if chunks == [] {
      CrlfLine(last, EncodeTrailers(fields, rest));
      TrailersEnd(fields, rest);
    } else {
      var c, more := chunks[0], Encoded(chunks[1..], last, fields, rest);
      CrlfLine(c.size, c.data + ("\r\n" + more));
      ChunkDataThenCrlf(c.data, more);
      ChunkedRoundTrip(chunks[1..], last, fields, rest);
    }
  }

  /** The law the reader is for: a well-formed chunked message, cut by the source at
      any places and delayed by any time-outs, read with any non-empty buffers,
      gives the chunk data and leaves what follows the trailer section. */
  lemma ChunkedMessageIsRead(chunks: seq<Chunk>, last: string, fields: seq<string>, rest: string, io: Io,
                             sizes: seq<nat>)
    requires GoodMessage(chunks, last, fields)
    requires Wellformed(io.script) && Calm(io.script) && Stream(io) == Encoded(chunks, last, fields, rest)
    requires forall i :: 0 <= i < |sizes| ==> 0 < sizes[i]
    ensures var t := ReadAll(ChunkSize, io, sizes);
            && (t.ended ==> t.bytes == DataOf(chunks) && Stream(t.io) == rest)
            && (|sizes| > |DataOf(chunks)| ==> t.ended)
  {
    ChunkedRoundTrip(chunks, last, fields, rest);
    ReadAllIsBody(ChunkSize, io, sizes);
  }

  /** The reads that can drain two bytes at once neither now nor behind the next size
      line. */
  predicate Spared(state: BodyState, n: nat) {
    n <= 1 ||
    match state
    case Done => true
    case Eof => true
    case Trailers => true
    case Len(remain) => remain <= 1
    case ChunkData(remain) => remain == 1
    case _ => false
  }

  lemma {:induction false} SparedLosesNothing(state: BodyState, io: Io, n: nat)
    requires Wellformed(io.script) && Spared(state, n)
    ensures ReadBody(state, io, n).lost == ""
    decreases |Stream(io)|, Rank(state)
  {
    if ReadsLines(state) {
      hide ParseSize, ReadLine;
      LineStepAdvances(state, io);
      var (r, io') := LineStep(state, io);
      if r.Ok? {
        SparedLosesNothing(r.value, io', n);
      }
    } else if state == ChunkData(0) {
      SparedLosesNothing(ChunkCrlf, io, n);
    } else if state.Len? || state.ChunkData? {
      ReadCountedCountsDown(state, io, n, if n < state.n then n else state.n);
    }
  }

  /** A read that the tick hook breaks off may have drained bytes that it does not
      report; going on afterwards then misses them.  No source can bring that about
      exactly for one-byte reads, for bodies that end with the source or have ended,
      and where one byte of the body or chunk is left. */
  lemma InterruptedReadsLoseNothingIff(state: BodyState, n: nat)
    ensures (forall io: Io :: Wellformed(io.script) ==> ReadBody(state, io, n).lost == "") <==> Spared(state, n)
  {
    if Spared(state, n) {
      forall io: Io | Wellformed(io.script) ensures ReadBody(state, io, n).lost == "" {
        SparedLosesNothing(state, io, n);
      }
    } else {
      var io := Losing(state);
      LosingLoses(state, n);
      assert ReadBody(state, io, n).lost != "";
    }
  }

  /** One byte of the body is in the buffer, then the hook breaks off the wait for
      the next. */
  function Losing(state: BodyState): (io: Io)
    ensures Wellformed(io.script)
  {
    Io(match state
       case ChunkSize => "2\na"
       case ChunkCrlf => "\n2\na"
       case ChunkData(remain) => if remain == 0 then "\n2\na" else "a"
       case _ => "a",
       [Tick(false)])
  }

  lemma LosingLoses(state: BodyState, n: nat)
    requires !Spared(state, n)
    ensures ReadBody(state, Losing(state), n).lost == "a"
  {
    match state
    case Len(remain) =>
      DrainedThenInterrupted(if n < remain then n else remain);
    case ChunkData(remain) =>
      if remain == 0 {
        SecondLineLoses(n);
      } else {
        DrainedThenInterrupted(if n < remain then n else remain);
      }
    case ChunkSize => FirstLineLoses(n);
    case ChunkCrlf => SecondLineLoses(n);
  }

  lemma DrainedThenInterrupted(m: nat)
    requires 1 < m
    ensures ReadExact(Io("a", [Tick(false)]), m, "") == (Err(Interrupted), Io("", []), "a")
  {
    var io, rest, end := Io("a", [Tick(false)]), Io("", [Tick(false)]), Io("", []);
    var one := io.buf;
    assert one[..1] == one && one[1..] == "" && "" + one == one;
    assert rest.script[1..] == [];
    assert ReadSome(io, m) == (Ok("a"), rest);
    assert Fill(rest) == (Err(Interrupted), end);
    assert ReadExact(rest, m, "a") == (Err(Interrupted), end, "a");
    assert ReadExact(io, m, "") == ReadExact(rest, m, "a");
  }

  lemma LineThenBody(state: BodyState, io: Io, next: BodyState, rest: Io, n: nat)
    requires Wellformed(io.script) && ReadsLines(state) && LineStep(state, io) == (Ok(next), rest)
    ensures Wellformed(rest.script) && ReadBody(state, io, n) == ReadBody(next, rest, n)
  {
    hide LineStep, ReadExact;
    LineStepAdvances(state, io);
  }

  lemma FirstLineLoses(n: nat)
    requires 1 < n
    ensures ReadBody(ChunkSize, Io("2\na", [Tick(false)]), n).lost == "a"
  {
    hide ParseSize, ReadLine, ReadExact;
    var io, rest := Io("2\na", [Tick(false)]), Io("a", [Tick(false)]);
    BufferedLine("2", "a", [Tick(false)]);
    assert "2" + "\n" + "a" == io.buf;
    SizeTwo();
    assert LineStep(ChunkSize, io) == (Ok(ChunkData(2)), rest);
    LineThenBody(ChunkSize, io, ChunkData(2), rest, n);
    DrainedThenInterrupted(2);
  }

  lemma SecondLineLoses(n: nat)
    requires 1 < n
    ensures ReadBody(ChunkCrlf, Io("\n2\na", [Tick(false)]), n).lost == "a"
  {
    hide ParseSize, ReadLine, ReadExact;
    var io, rest := Io("\n2\na", [Tick(false)]), Io("2\na", [Tick(false)]);
    BufferedLine("", "2\na", [Tick(false)]);
    assert "" + "\n" + "2\na" == io.buf;
    assert LineStep(ChunkCrlf, io) == (Ok(ChunkSize), rest);
    LineThenBody(ChunkCrlf, io, ChunkSize, rest, n);
    hide ReadBody;
    FirstLineLoses(n);
  }

  lemma BufferedLine(line: string, rest: string, script: seq<Event>)
    requires '\n' !in line && (line != "" ==> line[|line| - 1] != '\r') && Wellformed(script)
    ensures ReadLine(Io(line + "\n" + rest, script)) == (Ok(Some(line)), Io(rest, script))
  {
    var buf := line + "\n" + rest;
    FindIs(buf, '\n', |line|);
    assert buf[..|line|] == line && buf[|line| + 1..] == rest;
  }

  lemma SizeTwo()
    ensures ParseSize("2") == Some(2)
  {
    SplitNone("2", ';');
    TrimIdle(Ascii, "2");
    ParseDigitsAppend("", "2", 16, U64_MAX, 0);
    assert "2"[1..] == "";
  }

  /** A hexadecimal size as the grammar has it - digits, then nothing or an extension
      behind a semicolon - is read as its value. */
  lemma SizeLineValue(hex: string, ext: string)
    requires hex != "" && forall i :: 0 <= i < |hex| ==> DigitOf(hex[i], 16).Some?
    ensures ParseSize(hex) == if HexValue(hex) <= U64_MAX then Some(HexValue(hex)) else None
    ensures ParseSize(hex + ";" + ext) == ParseSize(hex)
  {
    HexIsPlain(hex);
    HexDigits(hex);
    SplitNone(hex, ';');
    SplitFirst(hex, ';', ext);
  }

  lemma HexIsPlain(hex: string)
    requires hex != "" && forall i :: 0 <= i < |hex| ==> DigitOf(hex[i], 16).Some?
    ensures ';' !in hex && hex[0] != '+' && Trim(Ascii, hex) == hex
  {
    TrimIdle(Ascii, hex);
  }

  function HexValue(hex: string): nat
    requires forall i :: 0 <= i < |hex| ==> DigitOf(hex[i], 16).Some?
  {
    if hex == "" then 0 else HexValue(hex[..|hex| - 1]) * 16 + DigitOf(hex[|hex| - 1], 16).value
  }

  lemma {:induction false} HexDigits(hex: string)
    requires forall i :: 0 <= i < |hex| ==> DigitOf(hex[i], 16).Some?
    ensures ParseDigits(hex, 16, U64_MAX, 0) == if HexValue(hex) <= U64_MAX then Some(HexValue(hex)) else None
    decreases |hex|
  {
    if hex != "" {
      var init, last := hex[..|hex| - 1], hex[|hex| - 1];
      HexDigits(init);
      ParseDigitsAppend(init, [last], 16, U64_MAX, 0);
      assert hex == init + [last] && [last][1..] == "";
    }
  }

  /** Some digits of base sixteen. */
  predicate IsHex(s: string) {
    s != "" && forall i :: 0 <= i < |s| ==> '0' <= s[i] <= '9' || 'a' <= s[i] <= 'f' || 'A' <= s[i] <= 'F'
  }

  /** A size line by its text: digits, perhaps behind a plus, with white space around, and
      then nothing or anything behind a semicolon. */
  ghost predicate SizeText(line: string, n: nat, a: string, plus: string, hex: string, b: string, ext: string) {
    && line == a + (plus + hex) + b + ext && AllSpace(Ascii, a) && AllSpace(Ascii, b)
    && (plus == "" || plus == "+") && IsHex(hex) && HexValue(hex) == n && n <= U64_MAX
    && (ext == "" || ext[0] == ';')
  }

  lemma HexIsDigits(s: string)
    ensures IsHex(s) <==> s != "" && forall i :: 0 <= i < |s| ==> DigitOf(s[i], 16).Some?
  {
  }

  lemma {:induction false} OnlyHexParses(s: string, acc: nat)
    requires ParseDigits(s, 16, U64_MAX, acc).Some?
    ensures forall i :: 0 <= i < |s| ==> DigitOf(s[i], 16).Some?
  {
    if s != "" {
      OnlyHexParses(s[1..], acc * 16 + DigitOf(s[0], 16).value);
    }
  }

  lemma NumberText(s: string, n: nat) returns (plus: string, hex: string)
    requires ParseUint(s, 16, U64_MAX) == Some(n)
    ensures s == plus + hex && (plus == "" || plus == "+") && IsHex(hex) && HexValue(hex) == n && n <= U64_MAX
  {
    hide ParseDigits, HexValue, DigitOf, IsHex;
    hex := if |s| > 1 && s[0] == '+' then s[1..] else s;
    plus := if |s| > 1 && s[0] == '+' then "+" else "";
    OnlyHexParses(hex, 0);
    HexIsDigits(hex);
    HexDigits(hex);
  }

  lemma TextIsNumber(plus: string, hex: string, n: nat)
    requires (plus == "" || plus == "+") && IsHex(hex) && HexValue(hex) == n && n <= U64_MAX
    ensures ParseUint(plus + hex, 16, U64_MAX) == Some(n)
  {
    hide ParseDigits, HexValue;
    HexIsDigits(hex);
    HexDigits(hex);
    if plus == "" { assert plus + hex == hex; } else { assert (plus + hex)[1..] == hex; }
  }

  lemma TrimAround(a: string, m: string, b: string)
    requires AllSpace(Ascii, a) && AllSpace(Ascii, b) && m != ""
    requires !IsSpace(Ascii, m[0]) && !IsSpace(Ascii, m[|m| - 1])
    ensures Trim(Ascii, a + m + b) == m
  {
    assert a + m + b == a + (m + b);
    SkipStart(Ascii, a, m + b);
    SkipEnd(Ascii, m, b);
  }

  /** A size is read exactly from such a line; any other is malformed. */
  lemma SizeIff(line: string, n: nat)
    ensures ParseSize(line) == Some(n)
       <==> exists a: string, plus: string, hex: string, b: string, ext: string ::
              SizeText(line, n, a, plus, hex, b, ext)
  {
    hide ParseUint, Trim, AllSpace, HexValue;
    if a: string, plus: string, hex: string, b: string, ext: string :| SizeText(line, n, a, plus, hex, b, ext) {
      SizeFromText(line, n, a, plus, hex, b, ext);
    }
    if ParseSize(line) == Some(n) {
      var i := Find(line, ';');
      var first := Split(line, ';')[0];
      FirstPart(line);
      var a, b := TrimParts(Ascii, first);
      var plus, hex := NumberText(Trim(Ascii, first), n);
      var ext := line[i..];
      assert line == a + (plus + hex) + b + ext;
      assert SizeText(line, n, a, plus, hex, b, ext);
    }
  }

  lemma SizeFromText(line: string, n: nat, a: string, plus: string, hex: string, b: string, ext: string)
    requires SizeText(line, n, a, plus, hex, b, ext)
    ensures ParseSize(line) == Some(n)
  {
    hide ParseUint, Trim, HexValue;
    var m := plus + hex;
    var front := a + m + b;
    TrimAround(a, m, b);
    TextIsNumber(plus, hex, n);
    assert ';' !in front;
    FindIs(line, ';', |front|);
    FirstPart(line);
    assert line == front + ext && line[..|front|] == front;
    hide Split, IsHex, AllSpace;
  }

  lemma FirstPart(line: string)
    ensures Split(line, ';')[0] == line[..Find(line, ';')]
  {
    assert line[..|line|] == line;
  }

  // ---- the reader as the program runs it ----

  /** `BufIo`: the buffer is filled and drained in place. */
  class BufIo {
    var buf: string
    var script: seq<Event>

    ghost function View(): Io
      reads this
    {
      Io(buf, script)
    }

    constructor (script: seq<Event>)
      ensures View() == Io("", script)
    {
      this.buf, this.script := "", script;
    }

    method FillHook() returns (r: Result<nat>)
      modifies this
      ensures (r, View()) == Fill(old(View()))
    {
      while true
        invariant Fill(View()) == Fill(old(View()))
        decreases |script|
      {
        if script == [] { return Ok(0); }
        var event := script[0];
        match event
        case Fault =>
          script := script[1..];
          return Err(Interrupted);
        case Tick(goOn) =>
          script := script[1..];
          if !goOn { return Err(Interrupted); }
        case Data(bytes) =>
          if |bytes| <= READ_MAX {
            buf, script := buf + bytes, script[1..];
            return Ok(|bytes|);
          }
          buf, script := buf + bytes[..READ_MAX], [Data(bytes[READ_MAX..])] + script[1..];
          return Ok(READ_MAX);
      }
    }

    method ReadLineHook() returns (r: Result<Option<string>>)
      requires Wellformed(script)
      modifies this
      ensures (r, View()) == ReadLine(old(View()))
    {
      while true
        invariant Wellformed(script)
        invariant ReadLine(View()) == ReadLine(old(View()))
        decreases Work(View())
      {
        var pos := Find(buf, '\n');
        if pos < |buf| {
          var line := StripCr(buf[..pos]);
          buf := buf[pos + 1..];
          return Ok(Some(line));
        }
        FillWorks(View());
        FillKeepsShape(View());
        var got := FillHook();
        match got
        case Err(e) => return Err(e);
        case Ok(n) =>
          if n == 0 {
            if buf == "" { return Ok(None); }
            var line := buf;
            buf := "";
            return Ok(Some(line));
          }
      }
    }

    method ReadSomeHook(n: nat) returns (r: Result<string>)
      modifies this
      ensures (r, View()) == ReadSome(old(View()), n)
    {
      if buf == "" {
        var got := FillHook();
        match got
        case Err(e) => return Err(e);
        case Ok(k) => if k == 0 { return Ok(""); }
      }
      var m := if n < |buf| then n else |buf|;
      var out := buf[..m];
      buf := buf[m..];
      return Ok(out);
    }

    /** `read_exact_or_eof`; `lost` is what the caller's buffer holds unreported. */
    method ReadExactOrEof(n: nat) returns (r: Result<string>, lost: string)
      modifies this
      ensures (r, View(), lost) == ReadExact(old(View()), n, "")
    {
      var done := "";
      while |done| < n
        invariant ReadExact(View(), n, done) == ReadExact(old(View()), n, "")
        decreases n - |done|
      {
        var got := ReadSomeHook(n - |done|);
        match got
        case Err(e) => return Err(e), done;
        case Ok(out) =>
          if out == "" { break; }
          done := done + out;
      }
      return Ok(done), "";
    }
  }

  /** `BodyReader`: owns its buffer and walks through the framing states. */
  class BodyReader {
    const io: BufIo
    var state: BodyState

    constructor (io: BufIo, state: BodyState)
      ensures this.io == io && this.state == state
    {
      this.io, this.state := io, state;
    }

    /** One read into a buffer of `n` bytes. */
    method ReadBodyHook(n: nat) returns (r: Result<string>, lost: string)
      requires Wellformed(io.script)
      modifies this, io
      ensures Outcome(r, state, io.View(), lost) == ReadBody(old(state), old(io.View()), n)
    {
      ghost var whole := ReadBody(state, io.View(), n);
      while true
        invariant Wellformed(io.script)
        invariant ReadBody(state, io.View(), n) == whole
        decreases |Stream(io.View())|, Rank(state)
      {
        match state
        case Done => return Ok(""), "";
        case Eof =>
          r := io.ReadSomeHook(n);
          return r, "";
        case Len(remain) =>
          if remain == 0 {
            state := Done;
            return Ok(""), "";
          }
          if n == 0 { return Ok(""), ""; }
          r, lost := ReadCount(n);
          return;
        case ChunkData(remain) =>
          if remain == 0 {
            state := ChunkCrlf;
          } else {
            if n == 0 { return Ok(""), ""; }
            r, lost := ReadCount(n);
            return;
          }
        case _ =>
          LineStepAdvances(state, io.View());
          var next := TakeLine();
          if next.Err? { return Err(next.error), ""; }
          state := next.value;
      }
    }

    /** The three arms that read a line. */
    method TakeLine() returns (next: Result<BodyState>)
      requires Wellformed(io.script) && ReadsLines(state)
      modifies io
      ensures (next, io.View()) == LineStep(state, old(io.View()))
    {
      var got := io.ReadLineHook();
      if got.Err? { return Err(got.error); }
      match state
      case ChunkCrlf => return Ok(ChunkSize);
      case Trailers =>
        if got.value.None? || got.value.value == "" { return Ok(Done); }
        return Ok(Trailers);
      case ChunkSize =>
        if got.value.None? { return Err(UnexpectedEof); }
        var size := ParseSize(got.value.value);
        if size.None? { return Err(InvalidData); }
        return Ok(if size.value == 0 then Trailers else ChunkData(size.value));
    }

    /** The two arms that count bytes down. */
    method ReadCount(n: nat) returns (r: Result<string>, lost: string)
      requires Wellformed(io.script) && (state.Len? || state.ChunkData?)
      modifies this, io
      ensures Outcome(r, state, io.View(), lost) == ReadCounted(old(state), old(io.View()), n)
    {
      var m := if n < state.n then n else state.n;
      ReadExactFromStart(io.View(), m, ReadExact(io.View(), m, "").0, ReadExact(io.View(), m, "").1,
                         ReadExact(io.View(), m, "").2);
      r, lost := io.ReadExactOrEof(m);
      if r.Ok? {
        state := Counted(state, state.n - |r.value|);
      }
    }
  }
}
