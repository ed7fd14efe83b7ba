/** Text helpers shared by the models: searching, splitting and joining, and the
    number notations that the program's formats rely on.  A `string` stands for
    a run of bytes; every separator and digit the formats use is ASCII. */
module Text {

  datatype Option<+T> = None | Some(value: T)

  lemma Regroup<T>(a: seq<T>, b: seq<T>, c: seq<T>)
    ensures (a + b) + c == a + (b + c)
  {
  }

  /** The position of the first `c` in `s`, or `|s|` when there is none. */
  function Find(s: string, c: char): (i: nat)
    ensures i <= |s|
    ensures i < |s| ==> s[i] == c
    ensures forall k :: 0 <= k < i ==> s[k] != c
  {
    if s == "" then 0
    else if s[0] == c then 0
    else 1 + Find(s[1..], c)
  }

  /** `Find` is characterised by what it promises. */
  lemma FindIs(s: string, c: char, i: nat)
    requires i <= |s|
    requires i < |s| ==> s[i] == c
    requires forall k :: 0 <= k < i ==> s[k] != c
    ensures Find(s, c) == i
  {
  }

  /** Rust's `split`: one more part than there are separators, so never empty. */
  function Split(s: string, c: char): (parts: seq<string>)
    ensures |parts| > 0
    decreases |s|
  {
    var i := Find(s, c);
    if i == |s| then [s] else [s[..i]] + Split(s[i + 1..], c)
  }

  function Join(parts: seq<string>, sep: string): string {
    if parts == [] then ""
    else if |parts| == 1 then parts[0]
    else parts[0] + sep + Join(parts[1..], sep)
  }

  lemma {:induction false} JoinSnoc(parts: seq<string>, last: string, sep: string)
    requires parts != []
    ensures Join(parts + [last], sep) == Join(parts, sep) + sep + last
  {
    if |parts| == 1 {
      assert (parts + [last])[1..] == [last];
    } else {
      assert (parts + [last])[1..] == parts[1..] + [last];
      JoinSnoc(parts[1..], last, sep);
    }
  }

  /** The first separator cuts off the first part. */
  lemma SplitFirst(head: string, c: char, rest: string)
    requires c !in head
    ensures Split(head + [c] + rest, c) == [head] + Split(rest, c)
  {
    var s := head + [c] + rest;
    FindIs(s, c, |head|);
    assert s[..|head|] == head && s[|head| + 1..] == rest;
  }

  lemma SplitNone(s: string, c: char)
    requires c !in s
    ensures Split(s, c) == [s]
  {
    FindIs(s, c, |s|);
  }

  lemma {:induction false} SplitJoin(parts: seq<string>, c: char)
    requires parts != []
    requires forall i :: 0 <= i < |parts| ==> c !in parts[i]
    ensures Split(Join(parts, [c]), c) == parts
  {
    hide Split, Find;
    if |parts| == 1 {
      SplitNone(parts[0], c);
    } else {
      var rest := Join(parts[1..], [c]);
      assert Join(parts, [c]) == parts[0] + [c] + rest;
      hide Join;
      SplitJoin(parts[1..], c);
      SplitFirst(parts[0], c, rest);
      assert parts == [parts[0]] + parts[1..];
    }
  }

  // ---- digits and numbers ----

  /** Rust's `char::to_digit`. */
  function DigitOf(c: char, radix: nat): (d: Option<nat>)
    requires 2 <= radix <= 16
    ensures d.Some? ==> d.value < radix
  {
    var v := if '0' <= c <= '9' then c as int - '0' as int
             else if 'a' <= c <= 'f' then c as int - 'a' as int + 10
             else if 'A' <= c <= 'F' then c as int - 'A' as int + 10
             else 16;
    if 0 <= v < radix then Some(v) else None
  }

  function DigitChar(d: nat): (c: char)
    requires d < 16
    ensures DigitOf(c, 16) == Some(d)
    ensures d < 10 ==> '0' <= c <= '9' && DigitOf(c, 10) == Some(d)
    ensures '0' <= c <= '9' || 'a' <= c <= 'f'
  {
    if d < 10 then ('0' as int + d) as char else ('a' as int + d - 10) as char
  }

  /** The digits of base sixteen, in either letter case. */
  lemma DigitIs(c: char, d: nat)
    requires d < 16
    ensures DigitOf(c, 16) == Some(d) <==> c == "0123456789abcdef"[d] || c == "0123456789ABCDEF"[d]
    ensures DigitChar(d) == "0123456789abcdef"[d]
  {
  }

  predicate IsDigit(c: char) { '0' <= c <= '9' }

  /** The digit loop of `from_str_radix`: a bad digit or a value over `max` fails. */
  function ParseDigits(s: string, radix: nat, max: nat, acc: nat): Option<nat>
    requires 2 <= radix <= 16
  {
    if s == "" then Some(acc)
    else match DigitOf(s[0], radix)
      case None => None
      case Some(d) =>
        if acc * radix + d > max then None
        else ParseDigits(s[1..], radix, max, acc * radix + d)
  }

  /** Rust's `from_str_radix` on an unsigned type: one leading plus is allowed,
      an empty number is not. */
  function ParseUint(s: string, radix: nat, max: nat): Option<nat>
    requires 2 <= radix <= 16
  {
    var body := if |s| > 1 && s[0] == '+' then s[1..] else s;
    if body == "" then None else ParseDigits(body, radix, max, 0)
  }

  /** `format!("{n}")`. */
  function Dec(n: nat): (s: string)
    ensures s != ""
    ensures forall i :: 0 <= i < |s| ==> IsDigit(s[i])
  {
    if n < 10 then [DigitChar(n)] else Dec(n / 10) + [DigitChar(n % 10)]
  }

  lemma {:induction false} ParseDigitsAppend(a: string, b: string, radix: nat, max: nat, acc: nat)
    requires 2 <= radix <= 16
    ensures ParseDigits(a + b, radix, max, acc)
         == match ParseDigits(a, radix, max, acc)
            case None => None
            case Some(v) => ParseDigits(b, radix, max, v)
  {
    if a == "" {
      assert a + b == b;
    } else {
      assert (a + b)[1..] == a[1..] + b;
      match DigitOf(a[0], radix)
      case None =>
      case Some(d) =>
        if acc * radix + d <= max {
          ParseDigitsAppend(a[1..], b, radix, max, acc * radix + d);
        }
    }
  }

  lemma {:induction false} ParseDecDigits(n: nat, max: nat)
    ensures ParseDigits(Dec(n), 10, max, 0) == if n <= max then Some(n) else None
  {
    if n < 10 {
      assert Dec(n)[1..] == "";
    } else {
      var q, d := n / 10, n % 10;
      ParseDecDigits(q, max);
      ParseDigitsAppend(Dec(q), [DigitChar(d)], 10, max, 0);
      assert [DigitChar(d)][1..] == "";
    }
  }

  /** A decimal number reads back exactly when it fits the type. */
  lemma ParseDec(n: nat, max: nat)
    ensures ParseUint(Dec(n), 10, max) == if n <= max then Some(n) else None
  {
    ParseDecDigits(n, max);
    assert Dec(n)[0] != '+';
  }

  predicate AllDigits(s: string) { forall i :: 0 <= i < |s| ==> IsDigit(s[i]) }

  /** The number that decimal digits write, place by place. */
  function Value(s: string): nat
    requires AllDigits(s)
  {
    if s == "" then 0 else Value(s[..|s| - 1]) * 10 + (s[|s| - 1] as int - '0' as int)
  }

  /** Text that writes `n` in decimal, perhaps behind a plus. */
  predicate Writes(s: string, n: nat) {
    var body := if |s| > 1 && s[0] == '+' then s[1..] else s;
    body != "" && AllDigits(body) && Value(body) == n
  }

  lemma {:induction false} DigitsAreValue(s: string, max: nat)
    ensures ParseDigits(s, 10, max, 0)
         == if AllDigits(s) && Value(s) <= max then Some(Value(s)) else None
  {
    if s != "" {
      var init, last := s[..|s| - 1], s[|s| - 1];
      DigitsAreValue(init, max);
      ParseDigitsAppend(init, [last], 10, max, 0);
      assert s == init + [last];
      assert AllDigits(s) <==> AllDigits(init) && IsDigit(last);
      OneDigit(last, max, if AllDigits(init) then Value(init) else 0);
    }
  }

  lemma OneDigit(c: char, max: nat, acc: nat)
    ensures ParseDigits([c], 10, max, acc)
         == if IsDigit(c) && acc * 10 + (c as int - '0' as int) <= max then Some(acc * 10 + (c as int - '0' as int))
            else None
  {
    assert [c][1..] == "";
  }

  /** A number is read exactly when the text writes it and it fits the type. */
  lemma ParseUintIs(s: string, max: nat, n: nat)
    ensures ParseUint(s, 10, max) == Some(n) <==> Writes(s, n) && n <= max
  {
    var body := if |s| > 1 && s[0] == '+' then s[1..] else s;
    DigitsAreValue(body, max);
  }

  // ---- white space ----

  /** What a string stands for: bytes, of which the ASCII part is understood, or the
      characters of a text. */
  datatype Charset = Ascii | Unicode

  /** `char::is_whitespace`: the White_Space property; of bytes, its ASCII part. */
  predicate IsSpace(cs: Charset, c: char) {
    || c == ' '
    || '\t' <= c <= '\r'
    || (cs.Unicode? &&
        (c == '\U{85}' || c == '\U{A0}' || c == '\U{1680}' || '\U{2000}' <= c <= '\U{200A}'
         || c == '\U{2028}' || c == '\U{2029}' || c == '\U{202F}' || c == '\U{205F}' || c == '\U{3000}'))
  }

  function TrimStart(cs: Charset, s: string): string {
    if s != "" && IsSpace(cs, s[0]) then TrimStart(cs, s[1..]) else s
  }

  function TrimEnd(cs: Charset, s: string): string {
    if s != "" && IsSpace(cs, s[|s| - 1]) then TrimEnd(cs, s[..|s| - 1]) else s
  }

  function Trim(cs: Charset, s: string): string { TrimEnd(cs, TrimStart(cs, s)) }

  /** Text that neither starts nor ends with white space is left alone. */
  lemma TrimIdle(cs: Charset, s: string)
    requires s != "" ==> !IsSpace(cs, s[0]) && !IsSpace(cs, s[|s| - 1])
    ensures Trim(cs, s) == s
  {
  }

  /** `trim_end_matches('\r')`. */
  function TrimCr(s: string): string {
    if s != "" && s[|s| - 1] == '\r' then TrimCr(s[..|s| - 1]) else s
  }

  predicate AllSpace(cs: Charset, s: string) { forall i :: 0 <= i < |s| ==> IsSpace(cs, s[i]) }

  lemma {:induction false} TrimParts(cs: Charset, s: string) returns (a: string, b: string)
    ensures s == a + Trim(cs, s) + b && AllSpace(cs, a) && AllSpace(cs, b)
  {
    var m: string;
    a, m := StartParts(cs, s);
    b := EndParts(cs, TrimStart(cs, s));
    assert s == a + (Trim(cs, s) + b);
  }

  lemma {:induction false} StartParts(cs: Charset, s: string) returns (a: string, m: string)
    ensures m == TrimStart(cs, s) && s == a + m && AllSpace(cs, a)
  {
    if s != "" && IsSpace(cs, s[0]) {
      a, m := StartParts(cs, s[1..]);
      a := [s[0]] + a;
    } else {
      a, m := "", s;
    }
  }

  lemma {:induction false} EndParts(cs: Charset, s: string) returns (b: string)
    ensures s == TrimEnd(cs, s) + b && AllSpace(cs, b)
    decreases |s|
  {
    if s != "" && IsSpace(cs, s[|s| - 1]) {
      b := EndParts(cs, s[..|s| - 1]);
      b := b + [s[|s| - 1]];
    } else {
      b := "";
    }
  }

  lemma {:induction false} SkipStart(cs: Charset, a: string, m: string)
    requires AllSpace(cs, a) && m != "" && !IsSpace(cs, m[0])
    ensures TrimStart(cs, a + m) == m
  {
    if a == "" {
      assert a + m == m;
    } else {
      assert (a + m)[1..] == a[1..] + m;
      SkipStart(cs, a[1..], m);
    }
  }

  lemma {:induction false} SkipEnd(cs: Charset, m: string, b: string)
    requires AllSpace(cs, b) && m != "" && !IsSpace(cs, m[|m| - 1])
    ensures TrimEnd(cs, m + b) == m
    decreases |b|
  {
    if b == "" {
      assert m + b == m;
    } else {
      assert (m + b)[..|m + b| - 1] == m + b[..|b| - 1];
      SkipEnd(cs, m, b[..|b| - 1]);
    }
  }

  // ---- lines ----

  /** Rust's `lines`: a carriage return belongs to the line end only before a line feed,
      and nothing stands behind the last line feed. */
  function Lines(text: string): seq<string>
    decreases |text|
  {
    if text == "" then []
    else
      var i := Find(text, '\n');
      if i == |text| then [text] else [LineBefore(text, i)] + Lines(text[i + 1..])
  }

  function LineBefore(text: string, i: nat): string
    requires i <= |text|
  {
    if i > 0 && text[i - 1] == '\r' then text[..i - 1] else text[..i]
  }

  /** No line is left open at the end. */
  predicate Whole(text: string) { text == "" || text[|text| - 1] == '\n' }

  lemma FirstLineStays(text: string, more: string)
    requires Find(text, '\n') < |text|
    ensures var i := Find(text, '\n');
            && Find(text + more, '\n') == i
            && LineBefore(text + more, i) == LineBefore(text, i)
            && (text + more)[i + 1..] == text[i + 1..] + more
  {
    var i := Find(text, '\n');
    FindIs(text + more, '\n', i);
    assert (text + more)[..i] == text[..i];
    assert i > 0 ==> (text + more)[..i - 1] == text[..i - 1];
  }

  lemma WholeRest(text: string)
    requires Whole(text) && text != ""
    ensures Find(text, '\n') < |text| && Whole(text[Find(text, '\n') + 1..])
  {
    var i := Find(text, '\n');
    assert i < |text| by { assert text[|text| - 1] == '\n'; }
    var rest := text[i + 1..];
    assert rest != "" ==> rest[|rest| - 1] == text[|text| - 1];
  }

  lemma {:induction false} LinesOfWhole(text: string, more: string)
    requires Whole(text)
    ensures Lines(text + more) == Lines(text) + Lines(more)
    decreases |text|
  {
    hide LineBefore, Whole;
    if text == "" {
      assert text + more == more;
      assert [] + Lines(more) == Lines(more);
    } else {
      WholeRest(text);
      FirstLineStays(text, more);
      var i := Find(text, '\n');
      var line, left := LineBefore(text, i), text[i + 1..];
      assert Lines(text) == [line] + Lines(left);
      assert Lines(text + more) == [line] + Lines(left + more);
      hide Lines, Find;
      LinesOfWhole(left, more);
      Regroup([line], Lines(left), Lines(more));
    }
  }

  lemma LinesOfOne(line: string)
    requires '\n' !in line && (line != "" ==> line[|line| - 1] != '\r')
    ensures Lines(line + "\n") == [line]
  {
    var text := line + "\n";
    FindIs(text, '\n', |line|);
    assert LineBefore(text, |line|) == line by { assert text[..|line|] == line; }
    hide LineBefore, Find;
    assert text[|line| + 1..] == "" && Lines("") == [];
    assert Lines(text) == [line] + Lines("");
    hide Lines;
  }

  // ---- words ----

  function FindSpace(cs: Charset, s: string): (i: nat)
    ensures i <= |s|
    ensures i < |s| ==> IsSpace(cs, s[i])
    ensures forall k :: 0 <= k < i ==> !IsSpace(cs, s[k])
  {
    if s == "" || IsSpace(cs, s[0]) then 0 else 1 + FindSpace(cs, s[1..])
  }

  lemma {:induction false} TrimStartShrinks(cs: Charset, s: string)
    ensures |TrimStart(cs, s)| <= |s| && (TrimStart(cs, s) != "" ==> !IsSpace(cs, TrimStart(cs, s)[0]))
  {
    if s != "" && IsSpace(cs, s[0]) {
      TrimStartShrinks(cs, s[1..]);
    }
  }

  /** Rust's `split_whitespace`. */
  function Words(cs: Charset, s: string): seq<string>
    decreases |s|
  {
    var t := TrimStart(cs, s);
    if t == "" then []
    else
      TrimStartShrinks(cs, s);
      var i := FindSpace(cs, t);
      [t[..i]] + Words(cs, t[i..])
  }

  predicate IsWord(cs: Charset, w: string) { w != "" && forall i :: 0 <= i < |w| ==> !IsSpace(cs, w[i]) }

  lemma {:induction false} WordsAreWords(cs: Charset, s: string)
    ensures forall k :: 0 <= k < |Words(cs, s)| ==> IsWord(cs, Words(cs, s)[k])
    decreases |s|
  {
    var t := TrimStart(cs, s);
    TrimStartShrinks(cs, s);
    if t != "" {
      WordsAreWords(cs, t[FindSpace(cs, t)..]);
    }
  }

  lemma SpaceFirst(cs: Charset, rest: string)
    ensures Words(cs, " " + rest) == Words(cs, rest)
  {
    assert (" " + rest)[1..] == rest;
  }

  lemma NoWords(cs: Charset)
    ensures Words(cs, "") == []
  {
  }

  lemma {:induction false} WordsOfJoin(cs: Charset, ws: seq<string>)
    requires forall k :: 0 <= k < |ws| ==> IsWord(cs, ws[k])
    ensures Words(cs, Join(ws, " ")) == ws
    decreases |ws|
  {
    hide Words;
    if ws == [] {
      NoWords(cs);
    } else if |ws| == 1 {
      assert ws[0] == ws[0] + "";
      FirstWord(cs, ws[0], "");
      NoWords(cs);
    } else {
      var rest := Join(ws[1..], " ");
      WordsOfJoin(cs, ws[1..]);
      assert Join(ws, " ") == ws[0] + (" " + rest);
      FirstWord(cs, ws[0], " " + rest);
      SpaceFirst(cs, rest);
    }
  }

  lemma FirstWord(cs: Charset, w: string, more: string)
    requires IsWord(cs, w) && (more != "" ==> IsSpace(cs, more[0]))
    ensures Words(cs, w + more) == [w] + Words(cs, more)
  {
    var s := w + more;
    assert s[..|w|] == w && s[|w|..] == more;
    assert TrimStart(cs, s) == s;
  }
}
