/** The head half of the HTTP/1.1 client (`src/http1.rs`): reading a response head and
    choosing how its body is framed (RFC 9112, section 6.3). */
module HttpHead {
  import opened Text
  import opened Http1

  const U16_MAX: nat := 0xFFFF

  type Field = (string, string)

  datatype Head = Head(status: nat, fields: seq<Field>)

  // ---- looking up fields ----

  function LowerChar(c: char): char { if 'A' <= c <= 'Z' then (c as int + 32) as char else c }

  /** `to_ascii_lowercase`. */
  function Lower(s: string): (r: string)
    ensures |r| == |s|
  {
    if s == "" then "" else [LowerChar(s[0])] + Lower(s[1..])
  }

  /** `eq_ignore_ascii_case`. */
  predicate SameName(a: string, b: string) {
    |a| == |b| && (a == "" || (LowerChar(a[0]) == LowerChar(b[0]) && SameName(a[1..], b[1..])))
  }

  lemma {:induction false} SameNameIs(a: string, b: string)
    ensures SameName(a, b) <==> Lower(a) == Lower(b)
  {
    if a != "" && b != "" {
      SameNameIs(a[1..], b[1..]);
      assert Lower(a)[1..] == Lower(a[1..]) && Lower(b)[1..] == Lower(b[1..]);
    }
  }

  /** The value of the first field of a name, whatever its letter case. */
  function Lookup(fields: seq<Field>, name: string): Option<string> {
    if fields == [] then None
    else if SameName(fields[0].0, name) then Some(fields[0].1)
    else Lookup(fields[1..], name)
  }

  predicate Contains(s: string, part: string) {
    part <= s || (s != "" && Contains(s[1..], part))
  }

  predicate Chunked(h: Head) {
    var te := Lookup(h.fields, "transfer-encoding");
    te.Some? && Contains(Lower(te.value), "chunked")
  }

  /** `body_kind`, as the state the body reader starts in. */
  function BodyKind(h: Head): BodyState {
    if Chunked(h) then ChunkSize
    else
      var cl := Lookup(h.fields, "content-length");
      var n := if cl.Some? then ParseUint(Trim(Ascii, cl.value), 10, U64_MAX) else None;
      if n.Some? then Len(n.value) else Eof
  }

  // ---- reading the head ----

  /** A field line; a line without a colon is passed over. */
  function FieldOf(line: string): Option<Field> {
    var i := Find(line, ':');
    if i == |line| then None else Some((Trim(Ascii, line[..i]), Trim(Ascii, line[i + 1..])))
  }

  function WithField(fields: seq<Field>, line: string): seq<Field> {
    var f := FieldOf(line);
    if f.Some? then fields + [f.value] else fields
  }

  function ReadFields(io: Io, fields: seq<Field>): (Result<seq<Field>>, Io)
    requires Wellformed(io.script)
    decreases |Stream(io)|
  {
    ReadLineIsNextLine(io);
    var (r, io') := ReadLine(io);
    match r
    case Err(e) => (Err(e), io')
    case Ok(None) => (Ok(fields), io')
    case Ok(Some(line)) => if line == "" then (Ok(fields), io') else ReadFields(io', WithField(fields, line))
  }

  /** The status code is the second word of the status line. */
  function StatusOf(line: string): Option<nat> {
    var w := Words(Ascii, line);
    if |w| < 2 then None else ParseUint(w[1], 10, U16_MAX)
  }

  /** `read_head_hook`. */
  function ReadHead(io: Io): (Result<Head>, Io)
    requires Wellformed(io.script)
  {
    ReadLineIsNextLine(io);
    var (r, io') := ReadLine(io);
    match r
    case Err(e) => (Err(e), io')
    case Ok(None) => (Err(UnexpectedEof), io')
    case Ok(Some(line)) =>
      var status := StatusOf(line);
      if status.None? then (Err(InvalidData), io')
      else
        var (fields, io'') := ReadFields(io', []);
        (match fields
         case Err(e) => (Err(e), io'')
         case Ok(fs) => (Ok(Head(status.value, fs)), io''))
  }

  method ReadHeadHook(io: BufIo) returns (r: Result<Head>)
    requires Wellformed(io.script)
    modifies io
    ensures (r, io.View()) == ReadHead(old(io.View()))
  {
    ReadLineIsNextLine(io.View());
    var first := io.ReadLineHook();
    if first.Err? { return Err(first.error); }
    if first.value.None? { return Err(UnexpectedEof); }
    var status := StatusOf(first.value.value);
    if status.None? { return Err(InvalidData); }
    var fields: seq<Field> := [];
    ghost var want := ReadFields(io.View(), []);
    while true
      invariant Wellformed(io.script) && ReadFields(io.View(), fields) == want
      decreases |Stream(io.View())|
    {
      ReadLineIsNextLine(io.View());
      var line := io.ReadLineHook();
      if line.Err? { return Err(line.error); }
      if line.value.None? || line.value.value == "" { break; }
      fields := WithField(fields, line.value.value);
    }
    return Ok(Head(status.value, fields));
  }

  // ---- a head as a server writes it ----

  /** A field as written: name, colon and space, value. */
  function FieldLine(f: Field): string { f.0 + ": " + f.1 }

  predicate Bare(s: string) { s != "" ==> !IsSpace(Ascii, s[0]) && !IsSpace(Ascii, s[|s| - 1]) }

  /** No white space around the parts, and one line; the name has no colon. */
  predicate FieldFits(f: Field) {
    Bare(f.0) && Bare(f.1) && ':' !in f.0 && '\n' !in f.0 && '\n' !in f.1
  }

  function FieldsWire(fields: seq<Field>, rest: string): string {
    if fields == [] then "" + "\r\n" + rest else FieldLine(fields[0]) + "\r\n" + FieldsWire(fields[1..], rest)
  }

  /** Version, code and reason phrase, which may hold spaces or be empty (RFC 9112,
      section 4). */
  function StatusLine(status: nat, reason: string): string { "HTTP/1.1" + (" " + (Dec(status) + (" " + reason))) }

  function Response(h: Head, reason: string, body: string): string {
    StatusLine(h.status, reason) + "\r\n" + FieldsWire(h.fields, body)
  }

  ghost predicate HeadFits(h: Head, reason: string) {
    h.status <= U16_MAX && '\n' !in reason && forall i :: 0 <= i < |h.fields| ==> FieldFits(h.fields[i])
  }

  lemma {:induction false} TrimOneSpace(s: string)
    requires Bare(s)
    ensures Trim(Ascii, " " + s) == s
  {
    assert (" " + s)[1..] == s;
    TrimIdle(Ascii, s);
  }

  lemma FieldReads(f: Field)
    requires FieldFits(f)
    ensures FieldOf(FieldLine(f)) == Some(f) && FieldLine(f) != "" && '\n' !in FieldLine(f)
  {
    hide Trim;
    var line, i := FieldLine(f), |f.0|;
    FindIs(line, ':', i);
    assert line[..i] == f.0 && line[i + 1..] == " " + f.1;
    TrimIdle(Ascii, f.0);
    TrimOneSpace(f.1);
  }

  lemma StatusReads(status: nat, reason: string)
    requires status <= U16_MAX && '\n' !in reason
    ensures StatusOf(StatusLine(status, reason)) == Some(status) && '\n' !in StatusLine(status, reason)
  {
    hide Words;
    var code, rest := Dec(status), " " + reason;
    assert code != "" && forall i :: 0 <= i < |code| ==> !IsSpace(Ascii, code[i]);
    FirstWord(Ascii, "HTTP/1.1", " " + (code + rest));
    SpaceFirst(Ascii, code + rest);
    FirstWord(Ascii, code, rest);
    ParseDec(status, U16_MAX);
  }

  /** Fields written are fields read, in order, and reading stops behind the empty line. */
  lemma {:induction false} FieldsRead(io: Io, acc: seq<Field>, fields: seq<Field>, rest: string)
    requires Wellformed(io.script) && Calm(io.script) && Stream(io) == FieldsWire(fields, rest)
    requires forall i :: 0 <= i < |fields| ==> FieldFits(fields[i])
    ensures var (r, io') := ReadFields(io, acc);
            r == Ok(acc + fields) && Stream(io') == rest && Wellformed(io'.script) && Calm(io'.script)
    decreases |fields|
  {
    hide FieldFits, FieldLine, FieldOf, ReadLine;
    ReadLineIsNextLine(io);
    if fields == [] {
      CrlfLine("", rest);
      assert acc + [] == acc;
    } else {
      var f, more := fields[0], FieldsWire(fields[1..], rest);
      FieldReads(f);
      CrlfLine(FieldLine(f), more);
      FieldsRead(ReadLine(io).1, acc + [f], fields[1..], rest);
      assert acc + [f] + fields[1..] == acc + fields;
    }
  }

  /** However the source cuts a response, its head is read as written, and what is left
      is exactly the body. */
  lemma HeadIsRead(io: Io, h: Head, reason: string, body: string)
    requires Wellformed(io.script) && Calm(io.script) && Stream(io) == Response(h, reason, body)
    requires HeadFits(h, reason)
    ensures var (r, io') := ReadHead(io);
            r == Ok(h) && Stream(io') == body && Wellformed(io'.script) && Calm(io'.script)
  {
    hide StatusOf, StatusLine, ReadFields, ReadLine, FieldFits;
    ReadLineIsNextLine(io);
    StatusReads(h.status, reason);
    CrlfLine(StatusLine(h.status, reason), FieldsWire(h.fields, body));
    FieldsRead(ReadLine(io).1, [], h.fields, body);
    assert [] + h.fields == h.fields;
  }

  // ---- which framing ----

  /** Lookup means: the value of the first field whose name matches in any letter case. */
  lemma {:induction false} LookupIsFirst(fields: seq<Field>, name: string)
    ensures Lookup(fields, name) == None <==> forall i :: 0 <= i < |fields| ==> Lower(fields[i].0) != Lower(name)
    ensures Lookup(fields, name).Some? ==>
              exists i :: 0 <= i < |fields| && Lower(fields[i].0) == Lower(name)
                          && Lookup(fields, name).value == fields[i].1
                          && forall j :: 0 <= j < i ==> Lower(fields[j].0) != Lower(name)
  {
    if fields != [] {
      var rest := fields[1..];
      SameNameIs(fields[0].0, name);
      LookupIsFirst(rest, name);
      if Lower(fields[0].0) != Lower(name) {
        assert forall i :: 0 <= i < |rest| ==> rest[i] == fields[i + 1];
        if Lookup(rest, name).Some? {
          var i :| 0 <= i < |rest| && Lower(rest[i].0) == Lower(name) && Lookup(rest, name).value == rest[i].1
                   && forall j :: 0 <= j < i ==> Lower(rest[j].0) != Lower(name);
          assert fields[i + 1] == rest[i];
          assert forall j :: 0 < j < i + 1 ==> fields[j] == rest[j - 1];
        }
      } else {
        assert fields[0].1 == Lookup(fields, name).value;
      }
    }
  }

  /** Character for character the lower-case text, in any letter case. */
  predicate ReadsAs(s: string, lower: string) {
    |s| == |lower| && forall i :: 0 <= i < |s| ==> CharReads(s[i], lower[i])
  }

  predicate CharReads(c: char, lower: char) { c == lower || ('A' <= c <= 'Z' && c as int + 32 == lower as int) }

  /** Field `i` is the first of the name. */
  predicate FirstNamed(fields: seq<Field>, name: string, i: nat) {
    i < |fields| && ReadsAs(fields[i].0, name) && forall j :: 0 <= j < i ==> !ReadsAs(fields[j].0, name)
  }

  /** Somewhere in the value stands the word. */
  ghost predicate Mentions(value: string, word: string) {
    exists k: nat :: MentionedAt(value, word, k)
  }

  predicate MentionedAt(value: string, word: string, k: nat) {
    k + |word| <= |value| && ReadsAs(value[k..k + |word|], word)
  }

  /** The first transfer encoding names the chunked coding. */
  ghost predicate NamesChunked(h: Head) {
    exists i: nat :: FirstNamed(h.fields, "transfer-encoding", i) && Mentions(h.fields[i].1, "chunked")
  }

  /** A number of bytes as a field gives it, with white space around. */
  ghost predicate Sizes(value: string, n: nat) {
    n <= U64_MAX && exists a: string, digits: string, b: string :: SizedBy(value, n, a, digits, b)
  }

  ghost predicate SizedBy(value: string, n: nat, a: string, digits: string, b: string) {
    value == a + digits + b && AllSpace(Ascii, a) && AllSpace(Ascii, b) && Writes(digits, n)
  }

  /** The first content length is this number. */
  ghost predicate NamesLength(h: Head, n: nat) {
    exists i: nat :: FirstNamed(h.fields, "content-length", i) && Sizes(h.fields[i].1, n)
  }

  predicate NoCapitals(s: string) { forall i :: 0 <= i < |s| ==> !('A' <= s[i] <= 'Z') }

  lemma {:induction false} LowerReads(s: string, lower: string)
    requires NoCapitals(lower)
    ensures Lower(s) == lower <==> ReadsAs(s, lower)
    ensures SameName(s, lower) <==> ReadsAs(s, lower)
  {
    if s != "" && lower != "" {
      LowerReads(s[1..], lower[1..]);
      assert Lower(s)[1..] == Lower(s[1..]);
      assert lower == [lower[0]] + lower[1..];
      assert ReadsAs(s, lower) ==> ReadsAs(s[1..], lower[1..]);
      assert ReadsAs(s[1..], lower[1..]) && |s| == |lower| && CharReads(s[0], lower[0]) ==> ReadsAs(s, lower) by {
        assert forall i :: 0 < i < |s| ==> s[i] == s[1..][i - 1];
        assert forall i :: 0 < i < |lower| ==> lower[i] == lower[1..][i - 1];
      }
    }
  }

  lemma {:induction false} LookupNamed(fields: seq<Field>, name: string)
    requires NoCapitals(name)
    ensures Lookup(fields, name).None? ==> forall i: nat :: !FirstNamed(fields, name, i)
    ensures forall i: nat :: FirstNamed(fields, name, i) ==> Lookup(fields, name) == Some(fields[i].1)
    ensures Lookup(fields, name).Some? ==> exists i: nat :: FirstNamed(fields, name, i)
  {
    hide ReadsAs, SameName;
    if fields != [] {
      var rest := fields[1..];
      LowerReads(fields[0].0, name);
      LookupNamed(rest, name);
      assert forall i :: 0 <= i < |rest| ==> rest[i] == fields[i + 1];
      if ReadsAs(fields[0].0, name) {
        assert FirstNamed(fields, name, 0);
      } else {
        forall i: nat ensures FirstNamed(fields, name, i + 1) <==> FirstNamed(rest, name, i) {
          assert i < |rest| ==> fields[i + 1] == rest[i];
          assert forall j :: 0 < j <= i && j < |fields| ==> fields[j] == rest[j - 1];
        }
        if Lookup(rest, name).Some? {
          var i: nat :| FirstNamed(rest, name, i);
          assert FirstNamed(fields, name, i + 1);
        }
        forall i: nat | FirstNamed(fields, name, i) ensures Lookup(fields, name) == Some(fields[i].1) {
          assert i > 0 && FirstNamed(rest, name, i - 1);
        }
      }
    }
  }

  lemma {:induction false} ContainsMentions(value: string, word: string)
    requires NoCapitals(word) && word != ""
    ensures Contains(Lower(value), word) <==> Mentions(value, word)
    decreases |value|
  {
    if |value| >= |word| {
      LowerPrefix(value, |word|);
      LowerReads(value[..|word|], word);
      assert word <= Lower(value) <==> Lower(value)[..|word|] == word;
    }
    if value != "" {
      ContainsMentions(value[1..], word);
      MentionsRest(value, word);
      assert Lower(value)[1..] == Lower(value[1..]);
    }
  }

  lemma {:induction false} LowerPrefix(s: string, n: nat)
    requires n <= |s|
    ensures Lower(s)[..n] == Lower(s[..n])
  {
    if n > 0 {
      LowerPrefix(s[1..], n - 1);
      assert s[..n][1..] == s[1..][..n - 1];
    }
  }

  lemma MentionsRest(value: string, word: string)
    requires value != "" && word != ""
    ensures Mentions(value, word)
       <==> (|value| >= |word| && ReadsAs(value[..|word|], word)) || Mentions(value[1..], word)
  {
    hide ReadsAs;
    var rest := value[1..];
    if Mentions(rest, word) {
      var k: nat :| MentionedAt(rest, word, k);
      assert rest[k..k + |word|] == value[k + 1..k + 1 + |word|];
      assert MentionedAt(value, word, k + 1);
    }
    if |value| >= |word| && ReadsAs(value[..|word|], word) {
      assert value[0..0 + |word|] == value[..|word|];
      assert MentionedAt(value, word, 0);
    }
    if Mentions(value, word) {
      var k: nat :| MentionedAt(value, word, k);
      if k > 0 {
        assert value == [value[0]] + rest;
        assert value[k..k + |word|] == rest[k - 1..k - 1 + |word|];
        assert MentionedAt(rest, word, k - 1);
      } else {
        assert value[0..0 + |word|] == value[..|word|];
      }
    }
  }

  lemma ChunkedIs(h: Head)
    ensures Chunked(h) <==> NamesChunked(h)
  {
    hide Contains, Lower, Mentions, Lookup, FirstNamed;
    LookupNamed(h.fields, "transfer-encoding");
    var te := Lookup(h.fields, "transfer-encoding");
    if te.Some? { ContainsMentions(te.value, "chunked"); }
  }

  /** White space around digits is what trimming takes off. */
  lemma TrimOfParts(a: string, digits: string, b: string, n: nat)
    requires AllSpace(Ascii, a) && AllSpace(Ascii, b) && Writes(digits, n)
    ensures Trim(Ascii, a + digits + b) == digits
  {
    assert digits != "" && !IsSpace(Ascii, digits[0]) && !IsSpace(Ascii, digits[|digits| - 1]);
    assert a + digits + b == a + (digits + b);
    SkipStart(Ascii, a, digits + b);
    SkipEnd(Ascii, digits, b);
  }

  lemma SizeIs(value: string, n: nat)
    ensures ParseUint(Trim(Ascii, value), 10, U64_MAX) == Some(n) <==> Sizes(value, n)
  {
    hide Trim, Writes, ParseUint, AllSpace;
    ParseUintIs(Trim(Ascii, value), U64_MAX, n);
    if Sizes(value, n) {
      var a: string, digits: string, b: string :| SizedBy(value, n, a, digits, b);
      TrimOfParts(a, digits, b, n);
    }
    if Writes(Trim(Ascii, value), n) && n <= U64_MAX {
      var a, b := TrimParts(Ascii, value);
      assert SizedBy(value, n, a, Trim(Ascii, value), b);
    }
  }

  lemma LengthIs(h: Head, n: nat)
    ensures var cl := Lookup(h.fields, "content-length");
            NamesLength(h, n) <==> cl.Some? && ParseUint(Trim(Ascii, cl.value), 10, U64_MAX) == Some(n)
  {
    hide Trim, Lookup, Sizes, ParseUint, FirstNamed;
    LookupNamed(h.fields, "content-length");
    var cl := Lookup(h.fields, "content-length");
    if cl.Some? { SizeIs(cl.value, n); }
  }

  /** Which framing: chunked coding if the first transfer encoding names it, in any letter
      case, whatever length is given; otherwise the first content length, exactly if it
      writes a number that fits; otherwise everything up to the end of the connection. */
  lemma FramingIs(h: Head, n: nat)
    ensures BodyKind(h) == ChunkSize <==> NamesChunked(h)
    ensures BodyKind(h) == Len(n) <==> !NamesChunked(h) && NamesLength(h, n)
    ensures BodyKind(h) == Eof <==> !NamesChunked(h) && forall m: nat :: !NamesLength(h, m)
  {
    hide Trim, Lookup, Chunked, NamesChunked, NamesLength, ParseUint;
    ChunkedIs(h);
    forall m: nat
      ensures var cl := Lookup(h.fields, "content-length");
              NamesLength(h, m) <==> cl.Some? && ParseUint(Trim(Ascii, cl.value), 10, U64_MAX) == Some(m)
    {
      LengthIs(h, m);
    }
  }

  /** A whole response: head, then a body in chunked coding.  Whatever the fragments,
      time-outs and buffer sizes, the head comes out as written, then exactly the chunk
      data, and what follows the message stays unread. */
  lemma ChunkedResponseIsRead(
      io: Io, h: Head, reason: string, chunks: seq<Chunk>, last: string, trailers: seq<string>, rest: string,
      sizes: seq<nat>)
    requires Wellformed(io.script) && Calm(io.script) && HeadFits(h, reason) && GoodMessage(chunks, last, trailers)
    requires Stream(io) == Response(h, reason, Encoded(chunks, last, trailers, rest))
    requires NamesChunked(h)
    requires |sizes| > |DataOf(chunks)| && forall i :: 0 <= i < |sizes| ==> 0 < sizes[i]
    ensures var (r, io') := ReadHead(io);
            r == Ok(h) &&
            Wellformed(io'.script) &&
            var t := ReadAll(BodyKind(h), io', sizes);
            t.ended && t.bytes == DataOf(chunks) && Stream(t.io) == rest
  {
    hide GoodMessage, Encoded, HeadFits, Response, ReadHead, ReadAll, BodyKind, NamesChunked;
    FramingIs(h, 0);
    HeadIsRead(io, h, reason, Encoded(chunks, last, trailers, rest));
    ChunkedMessageIsRead(chunks, last, trailers, rest, ReadHead(io).1, sizes);
  }

  /** A response framed by its length: exactly that many bytes, and no more are taken. */
  lemma SizedResponseIsRead(io: Io, h: Head, reason: string, body: string, rest: string, sizes: seq<nat>)
    requires Wellformed(io.script) && Calm(io.script) && HeadFits(h, reason)
    requires Stream(io) == Response(h, reason, body + rest)
    requires !NamesChunked(h) && NamesLength(h, |body|)
    requires |sizes| > |body| && forall i :: 0 <= i < |sizes| ==> 0 < sizes[i]
    ensures var (r, io') := ReadHead(io);
            r == Ok(h) &&
            Wellformed(io'.script) &&
            var t := ReadAll(BodyKind(h), io', sizes);
            t.ended && t.bytes == body && Stream(t.io) == rest
  {
    hide HeadFits, Response, ReadHead, ReadAll, BodyOf, BodyKind, NamesChunked, NamesLength;
    FramingIs(h, |body|);
    HeadIsRead(io, h, reason, body + rest);
    SizedBody(body, rest);
    SizedIsRead(ReadHead(io).1, body, rest, sizes);
  }

  lemma SizedIsRead(io: Io, body: string, rest: string, sizes: seq<nat>)
    requires Wellformed(io.script) && Calm(io.script) && Stream(io) == body + rest
    requires |sizes| > |body| && forall i :: 0 <= i < |sizes| ==> 0 < sizes[i]
    ensures var t := ReadAll(Len(|body|), io, sizes); t.ended && t.bytes == body && Stream(t.io) == rest
  {
    hide ReadAll, BodyOf, Stream;
    SizedBody(body, rest);
    ReadAllIsBody(Len(|body|), io, sizes);
  }

  lemma SizedBody(body: string, rest: string)
    ensures BodyOf(Len(|body|), body + rest) == Body(body, Complete(rest))
  {
    assert (body + rest)[..|body|] == body && (body + rest)[|body|..] == rest;
  }
}
