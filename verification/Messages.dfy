/**
 Requests by their text: what becomes of a request line, a list of header fields and a body, for
 every method, path, field and length.
 */
module Messages {
  import opened Http
  import opened Words
  import opened Wrappers

  // ---------- letters ----------

  /** The same letter, whatever its case. */
  predicate SameLetter(a: char, b: char) {
    || a == b
    || ('A' <= a <= 'Z' && b as int == a as int + 32)
    || ('A' <= b <= 'Z' && a as int == b as int + 32)
  }

  predicate SameText(a: string, b: string) {
    |a| == |b| && forall i :: 0 <= i < |a| ==> SameLetter(a[i], b[i])
  }

  function LowerOf(c: char): char { if 'A' <= c <= 'Z' then ((c as int) + 32) as char else c }

  lemma {:induction false} LowerAt(text: string)
    ensures |Lower(text)| == |text| && forall i :: 0 <= i < |text| ==> Lower(text)[i] == LowerOf(text[i])
  {
    if text != "" {
      LowerAt(text[1..]);
      forall i | 0 <= i < |text| ensures Lower(text)[i] == LowerOf(text[i]) {
        if i > 0 { assert text[i] == text[1..][i - 1] && Lower(text)[i] == Lower(text[1..])[i - 1]; }
      }
    }
  }

  lemma LowerLetter(a: char, b: char)
    ensures LowerOf(a) == LowerOf(b) <==> SameLetter(a, b)
  {
  }

  /** Lower-casing is comparing without case. */
  lemma LowerIsCaseless(a: string, b: string)
    ensures Lower(a) == Lower(b) <==> SameText(a, b)
  {
    LowerAt(a);
    LowerAt(b);
    if SameText(a, b) {
      forall i | 0 <= i < |a| ensures Lower(a)[i] == Lower(b)[i] { LowerLetter(a[i], b[i]); }
      assert Lower(a) == Lower(b);
    } else if |a| == |b| {
      var i :| 0 <= i < |a| && !SameLetter(a[i], b[i]);
      LowerLetter(a[i], b[i]);
      assert Lower(a)[i] != Lower(b)[i];
    }
  }

  // ---------- numbers ----------

  predicate IsDigit(c: char) { '0' <= c <= '9' }

  predicate AllDigits(text: string) { forall i :: 0 <= i < |text| ==> IsDigit(text[i]) }

  function Power(n: nat): nat { if n == 0 then 1 else 10 * Power(n - 1) }

  /** What digits mean, each at its place. */
  function Value(text: string): nat
    requires AllDigits(text)
  {
    if text == "" then 0 else (text[0] as int - '0' as int) * Power(|text| - 1) + Value(text[1..])
  }

  lemma {:induction false} ValueOfMore(text: string, c: char)
    requires AllDigits(text) && IsDigit(c)
    ensures AllDigits(text + [c]) && Value(text + [c]) == 10 * Value(text) + (c as int - '0' as int)
  {
    if text == "" {
      assert (text + [c])[1..] == "" && Power(0) == 1;
    } else {
      ValueOfMore(text[1..], c);
      assert (text + [c])[1..] == text[1..] + [c];
      assert Power(|text|) == 10 * Power(|text| - 1);
      TimesTen(text[0] as int - '0' as int, Power(|text| - 1));
      hide Power;
    }
  }

  lemma TimesTen(d: int, p: int)
    ensures d * (10 * p) == 10 * (d * p)
  {
  }

  /** The parser's numbers: digits whose value is in range, and nothing else. */
  lemma {:induction false} NumberIsValue(text: string)
    ensures AllDigits(text) && text != "" && Value(text) <= INT_MAX ==> Number(text) == Some(Value(text))
    ensures !AllDigits(text) || text == "" || Value(text) > INT_MAX ==> Number(text).None?
  {
    if text != "" {
      var n := |text| - 1;
      var before, c := text[..n], text[n];
      assert text == before + [c];
      NumberIsValue(before);
      if AllDigits(before) && IsDigit(c) {
        ValueOfMore(before, c);
        if n == 0 { assert before == "" && Value(before) == 0; }
      }
      assert AllDigits(text) ==> AllDigits(before) && IsDigit(c);
    }
  }

  /** A number in decimal digits. */
  function Decimal(n: nat): string {
    if n < 10 then [(n + '0' as int) as char] else Decimal(n / 10) + [(n % 10 + '0' as int) as char]
  }

  lemma {:induction false} DecimalMeans(n: nat)
    ensures Decimal(n) != "" && AllDigits(Decimal(n)) && Value(Decimal(n)) == n
  {
    if n < 10 {
      assert Decimal(n)[1..] == "" && Power(0) == 1;
    } else {
      DecimalMeans(n / 10);
      ValueOfMore(Decimal(n / 10), (n % 10 + '0' as int) as char);
    }
  }

  // ---------- the text of a head ----------

  datatype Field = Field(name: string, value: string)

  function FieldLine(f: Field): string { f.name + [':'] + ([' '] + f.value) }

  function CrLf(): string { ['\r', '\n'] }

  /** Lines, each on its own after what came before. */
  function LineText(lines: seq<string>): string {
    if lines == [] then "" else CrLf() + (lines[0] + LineText(lines[1..]))
  }

  function LinesOf(fields: seq<Field>): seq<string> {
    if fields == [] then [] else [FieldLine(fields[0])] + LinesOf(fields[1..])
  }

  function RequestLine(verb: string, path: string, version: string): string {
    verb + [' '] + (path + [' '] + version)
  }

  function HeadText(verb: string, path: string, version: string, fields: seq<Field>): string {
    RequestLine(verb, path, version) + LineText(LinesOf(fields))
  }

  predicate Word(text: string) { text != "" && Without(text, ' ') && Without(text, '\r') }

  /** A name without white space, and a value without white space around it. */
  predicate GoodField(f: Field) {
    && f.name != "" && Without(f.name, ':') && !HasSpace(f.name)
    && Without(f.value, '\r')
    && (f.value != "" ==> !IsSpace(f.value[0]) && !IsSpace(f.value[|f.value| - 1]))
  }

  predicate GoodFields(fields: seq<Field>) {
    && (forall i :: 0 <= i < |fields| ==> GoodField(fields[i]))
    && (forall i, j :: 0 <= i < j < |fields| ==> !SameText(fields[i].name, fields[j].name))
  }

  predicate GoodHead(verb: string, path: string, version: string, fields: seq<Field>) {
    Word(verb) && Word(path) && (version == "HTTP/1.1" || version == "HTTP/1.0") && GoodFields(fields)
  }

  lemma LowerHasNoSpace(text: string)
    requires !HasSpace(text)
    ensures !HasSpace(Lower(text))
  {
    LowerAt(text);
    forall i | 0 <= i < |text|
      ensures !(IsSpace(Lower(text)[i]) || Lower(text)[i] == '\r' || Lower(text)[i] == '\n')
    {
      assert !(IsSpace(text[i]) || text[i] == '\r' || text[i] == '\n');
    }
  }

  lemma FieldIs(f: Field)
    requires GoodField(f)
    ensures HeaderOf(FieldLine(f)) == Some((Lower(f.name), f.value))
  {
    LowerHasNoSpace(f.name);
    LowerAt(f.name);
    assert !IsSpace(f.name[0]);
    hide HasSpace, Lower;
    if f.value != "" {
      HeaderIs(f.name, f.value);
    } else {
      var line := FieldLine(f);
      IndexAfter(f.name, ':', [' '] + f.value);
      assert line[..|f.name|] == f.name && line[|f.name| + 1..] == [' '] && [' '][1..] == "";
      assert Trim([' ']) == Trim("") == "";
    }
  }

  // ---------- lines ----------

  /** Lines that are not empty and do not break. */
  predicate Lines(lines: seq<string>) { forall i :: 0 <= i < |lines| ==> lines[i] != "" && Without(lines[i], '\r') }

  lemma FieldLineWithout(f: Field)
    requires GoodField(f)
    ensures Without(FieldLine(f), '\r')
  {
    var line := FieldLine(f);
    forall i | 0 <= i < |line| ensures line[i] != '\r' {
      if i < |f.name| {
        assert line[i] == f.name[i];
      } else if i >= |f.name| + 2 {
        assert line[i] == f.value[i - |f.name| - 2];
      }
    }
  }

  lemma {:induction false} LinesAt(fields: seq<Field>, i: nat)
    requires i < |fields|
    ensures |LinesOf(fields)| == |fields| && LinesOf(fields)[i] == FieldLine(fields[i])
    decreases |fields|
  {
    hide FieldLine;
    if i > 0 { LinesAt(fields[1..], i - 1); }
    else if |fields| > 1 { LinesAt(fields[1..], 0); }
  }

  lemma FieldsAreLines(fields: seq<Field>)
    requires forall i :: 0 <= i < |fields| ==> GoodField(fields[i])
    ensures |LinesOf(fields)| == |fields| && Lines(LinesOf(fields))
  {
    forall i | 0 <= i < |fields|
      ensures |LinesOf(fields)| == |fields| && LinesOf(fields)[i] != "" && Without(LinesOf(fields)[i], '\r')
    {
      LinesAt(fields, i);
      FieldLineWithout(fields[i]);
    }
    hide GoodField, FieldLine;
  }

  lemma {:induction false} LinesSplit(line: string, lines: seq<string>)
    requires Without(line, '\r') && Lines(lines)
    ensures SplitLines(line + LineText(lines), "") == [line] + lines
    decreases |lines|
  {
    assert "" + line == line;
    if lines == [] {
      assert line + LineText(lines) == line;
      OneLine(line, "");
    } else {
      var first, rest := lines[0], LineText(lines[1..]);
      LinesSplit(first, lines[1..]);
      FirstLine(line, first + rest, "");
      assert line + LineText(lines) == line + "\r\n" + (first + rest);
      hide SplitLines;
    }
  }

  lemma RequestParts(verb: string, path: string, version: string)
    requires Word(verb) && Word(path) && Word(version)
    ensures Parts(RequestLine(verb, path, version), ' ', "") == [verb, path, version]
  {
    assert "" + verb == verb && "" + path == path && "" + version == version;
    FirstPart(verb, ' ', path + [' '] + version, "");
    FirstPart(path, ' ', version, "");
    LastPart(version, ' ', "");
    hide Parts;
  }

  lemma RequestLineWithout(verb: string, path: string, version: string)
    requires Word(verb) && Word(path) && Word(version)
    ensures Without(RequestLine(verb, path, version), '\r')
  {
    var line := RequestLine(verb, path, version);
    forall i | 0 <= i < |line| ensures line[i] != '\r' {
      if i < |verb| {
        assert line[i] == verb[i];
      } else if |verb| < i <= |verb| + |path| {
        assert line[i] == path[i - |verb| - 1];
      } else if i > |verb| + |path| + 1 {
        assert line[i] == version[i - |verb| - |path| - 2];
      }
    }
  }

  // ---------- the headers of the fields ----------

  function HeadersWith(fields: seq<Field>, headers: map<string, string>): map<string, string>
    decreases |fields|
  {
    if fields == [] then headers else HeadersWith(fields[1..], headers[Lower(fields[0].name) := fields[0].value])
  }

  predicate Lacks(fields: seq<Field>, name: string) {
    forall i :: 0 <= i < |fields| ==> !SameText(fields[i].name, name)
  }

  /** Some field of that name, in any case, has the value. */
  predicate Has(fields: seq<Field>, name: string, value: string) {
    exists i :: 0 <= i < |fields| && SameText(fields[i].name, name) && fields[i].value == value
  }

  lemma {:induction false} FieldsAreHeaders(fields: seq<Field>, headers: map<string, string>)
    requires GoodFields(fields) && forall i :: 0 <= i < |fields| ==> Lower(fields[i].name) !in headers
    ensures HeadersOf(LinesOf(fields), headers) == Some(HeadersWith(fields, headers))
    decreases |fields|
  {
    if fields != [] {
      var f, rest := fields[0], fields[1..];
      FieldIs(f);
      var more := headers[Lower(f.name) := f.value];
      forall i | 0 <= i < |rest| ensures Lower(rest[i].name) !in more {
        assert rest[i] == fields[i + 1];
        LowerIsCaseless(f.name, rest[i].name);
      }
      assert GoodFields(rest) by {
        forall i, j | 0 <= i < j < |rest| ensures !SameText(rest[i].name, rest[j].name) {
          assert rest[i] == fields[i + 1] && rest[j] == fields[j + 1];
        }
      }
      FieldsAreHeaders(rest, more);
      assert LinesOf(fields)[0] == FieldLine(f) && LinesOf(fields)[1..] == LinesOf(rest);
      hide Lower, HeaderOf, FieldLine, SameText, GoodField;
    }
  }

  /** The headers are those of the fields, under names in lower case. */
  lemma {:induction false} HeadersHold(fields: seq<Field>, headers: map<string, string>, name: string)
    requires GoodFields(fields) && Lower(name) == name
    ensures var h := HeadersWith(fields, headers);
            && (Lacks(fields, name) ==> (name in h <==> name in headers) && (name in h ==> h[name] == headers[name]))
            && (!Lacks(fields, name) ==> name in h && Has(fields, name, h[name]))
    decreases |fields|
  {
    if fields != [] {
      var f, rest := fields[0], fields[1..];
      LowerIsCaseless(f.name, name);
      assert GoodFields(rest) by {
        forall i, j | 0 <= i < j < |rest| ensures !SameText(rest[i].name, rest[j].name) {
          assert rest[i] == fields[i + 1] && rest[j] == fields[j + 1];
        }
      }
      HeadersHold(rest, headers[Lower(f.name) := f.value], name);
      RestLacks(fields, name);
      hide Lower, SameText, GoodField, HasSpace;
    }
  }

  lemma RestLacks(fields: seq<Field>, name: string)
    requires fields != [] && GoodFields(fields)
    ensures Lacks(fields, name) <==> Lacks(fields[1..], name) && !SameText(fields[0].name, name)
    ensures SameText(fields[0].name, name) ==> Lacks(fields[1..], name)
    ensures forall value :: Has(fields[1..], name, value) ==> Has(fields, name, value)
    ensures SameText(fields[0].name, name) ==> Has(fields, name, fields[0].value)
  {
    var rest := fields[1..];
    assert forall i :: 0 <= i < |rest| ==> rest[i] == fields[i + 1];
    if Lacks(rest, name) && !SameText(fields[0].name, name) {
      forall i | 0 <= i < |fields| ensures !SameText(fields[i].name, name) { if i > 0 { assert fields[i] == rest[i - 1]; } }
    }
    if SameText(fields[0].name, name) {
      forall i | 0 <= i < |rest| ensures !SameText(rest[i].name, name) {
        LowerIsCaseless(fields[0].name, name);
        LowerIsCaseless(fields[i + 1].name, name);
        LowerIsCaseless(fields[0].name, fields[i + 1].name);
      }
    }
    hide SameText, GoodField;
  }

  // ---------- where the head ends ----------

  /** Every carriage return is followed by two characters, the second of which is none. */
  predicate Unbroken(text: string) {
    forall i :: 0 <= i < |text| && text[i] == '\r' ==> i + 2 < |text| && text[i + 2] != '\r'
  }

  lemma {:induction false} LineTextUnbroken(lines: seq<string>)
    requires Lines(lines)
    ensures Unbroken(LineText(lines))
    decreases |lines|
  {
    if lines != [] {
      var line, rest := lines[0], LineText(lines[1..]);
      LineTextUnbroken(lines[1..]);
      LineUnbroken(line, rest);
      var text := LineText(lines);
      forall i | 0 <= i < |text| && text[i] == '\r' ensures i + 2 < |text| && text[i + 2] != '\r' {
        if i == 0 {
          assert text[2] == line[0];
        } else {
          assert i >= 2 && text[i] == (line + rest)[i - 2];
        }
      }
    }
  }

  lemma LineUnbroken(line: string, rest: string)
    requires Without(line, '\r') && Unbroken(rest)
    ensures Unbroken(line + rest)
  {
    forall i | 0 <= i < |line + rest| && (line + rest)[i] == '\r'
      ensures i + 2 < |line + rest| && (line + rest)[i + 2] != '\r'
    {
      assert i >= |line| && rest[i - |line|] == '\r';
    }
  }

  lemma HeadEnds(text: string, body: Bytes)
    requires Unbroken(text) && IsAscii(text)
    ensures FindEnd(Ascii(text) + Blank() + body, 0) == Some(|text|)
  {
    var data := Ascii(text) + Blank() + body;
    forall k: nat | k < |text|
      ensures !EndsAt(data, k)
    {
      var four := data[k..k + 4];
      if text[k] == '\r' {
        assert four[2] == data[k + 2] == text[k + 2] as int != 13;
      } else {
        assert four[0] == data[k] == text[k] as int != 13;
      }
    }
    assert data[|text|..|text| + 4] == Blank();
    hide FindEnd;
    FindEndIsFirst(data, 0, |text|);
  }

  // ---------- the whole message ----------

  function MessageOf(verb: string, path: string, version: string, fields: seq<Field>, body: Bytes): Bytes
    requires IsAscii(HeadText(verb, path, version, fields))
  {
    Ascii(HeadText(verb, path, version, fields)) + Blank() + body
  }

  /** The head of a text is the text before the first empty line, whatever it says. */
  lemma TextIsParsed(gateway: Gateway, line: string, lines: seq<string>, body: Bytes)
    requires Without(line, '\r') && Lines(lines)
    requires var text := line + LineText(lines);
             IsAscii(text) && |text| + 4 <= HEAD_LIMIT && gateway.decode(Ascii(text)) == Some(text)
    ensures SplitLines(line + LineText(lines), "") == [line] + lines
    ensures Parse(gateway, Ascii(line + LineText(lines)) + Blank() + body)
         == match ParseHead(gateway, Ascii(line + LineText(lines)))
            case Err(status) => Failed(status)
            case Ok(h) => if |body| < h.length then Incomplete
                          else if |body| > h.length then Failed(400)
                          else Accepted(Request(h.verb, h.path, h.headers, body))
  {
    var text := line + LineText(lines);
    var data := Ascii(text) + Blank() + body;
    LineTextUnbroken(lines);
    LineUnbroken(line, LineText(lines));
    LinesSplit(line, lines);
    HeadEnds(text, body);
    assert data[..|text|] == Ascii(text) && data[|text| + 4..] == body;
    hide FindEnd, ParseHead, Ascii, LineText, Unbroken;
  }

  lemma HeadIsParsed(gateway: Gateway, verb: string, path: string, version: string, fields: seq<Field>, head: Bytes)
    requires GoodHead(verb, path, version, fields)
    requires gateway.decode(head) == Some(HeadText(verb, path, version, fields))
    requires SplitLines(HeadText(verb, path, version, fields), "") == [RequestLine(verb, path, version)] + LinesOf(fields)
    ensures ParseHead(gateway, head) == CheckHead(gateway, verb, path, HeadersWith(fields, map[]))
  {
    RequestParts(verb, path, version);
    FieldsAreHeaders(fields, map[]);
    var lines := [RequestLine(verb, path, version)] + LinesOf(fields);
    assert lines[1..] == LinesOf(fields);
    hide SplitLines, Parts, HeadersOf, CheckHead, RequestLine, LinesOf, GoodFields, HeadText;
  }

  /** A message comes to what the checks make of its method, path and fields. */
  lemma MessageIsParsed(gateway: Gateway, verb: string, path: string, version: string, fields: seq<Field>, body: Bytes)
    requires GoodHead(verb, path, version, fields)
    requires var text := HeadText(verb, path, version, fields);
             IsAscii(text) && |text| + 4 <= HEAD_LIMIT && gateway.decode(Ascii(text)) == Some(text)
    ensures Parse(gateway, MessageOf(verb, path, version, fields, body))
         == match CheckHead(gateway, verb, path, HeadersWith(fields, map[]))
            case Err(status) => Failed(status)
            case Ok(h) => if |body| < h.length then Incomplete
                          else if |body| > h.length then Failed(400)
                          else Accepted(Request(h.verb, h.path, h.headers, body))
  {
    RequestLineWithout(verb, path, version);
    FieldsAreLines(fields);
    hide Parse, ParseHead, Ascii, LineText, CheckHead, HeadersWith, GoodFields, RequestLine, SplitLines;
    TextIsParsed(gateway, RequestLine(verb, path, version), LinesOf(fields), body);
    HeadIsParsed(gateway, verb, path, version, fields, Ascii(HeadText(verb, path, version, fields)));
  }

  // ---------- lines that are no fields ----------

  /** No name before a colon, or white space before it, in it or after it. */
  predicate BadLine(line: string) {
    || Without(line, ':')
    || IsSpace(line[0])
    || exists k :: 0 <= k < |line| && line[k] == ':' && Without(line[..k], ':') && (k == 0 || HasSpace(line[..k]))
  }

  lemma BadLineIsNone(line: string)
    requires line != "" && BadLine(line)
    ensures HeaderOf(line).None?
  {
    if Without(line, ':') {
      hide HasSpace, Lower, Trim;
    } else if !IsSpace(line[0]) {
      var k :| 0 <= k < |line| && line[k] == ':' && Without(line[..k], ':') && (k == 0 || HasSpace(line[..k]));
      assert line == line[..k] + [':'] + line[k + 1..];
      IndexAfter(line[..k], ':', line[k + 1..]);
      if k > 0 { LowerKeepsSpace(line[..k]); }
      hide HasSpace, Lower, Trim, IndexOf;
    }
  }

  lemma LowerKeepsSpace(text: string)
    requires HasSpace(text)
    ensures HasSpace(Lower(text))
  {
    LowerAt(text);
    var i :| 0 <= i < |text| && (IsSpace(text[i]) || text[i] == '\r' || text[i] == '\n');
    assert IsSpace(Lower(text)[i]) || Lower(text)[i] == '\r' || Lower(text)[i] == '\n';
  }

  lemma {:induction false} BadLinesAreNone(lines: seq<string>, i: nat, headers: map<string, string>)
    requires Lines(lines) && i < |lines| && BadLine(lines[i])
    ensures HeadersOf(lines, headers).None?
    decreases i
  {
    BadLineIsNone(lines[i]);
    hide HeaderOf, BadLine;
    if i > 0 {
      var header := HeaderOf(lines[0]);
      if header.Some? && header.value.0 !in headers {
        BadLinesAreNone(lines[1..], i - 1, headers[header.value.0 := header.value.1]);
      }
    }
  }

  /** One bad line in the head, or a request line without three words or a version: refused. */
  lemma MalformedIsRefused(gateway: Gateway, line: string, lines: seq<string>, body: Bytes)
    requires Without(line, '\r') && Lines(lines)
    requires var text := line + LineText(lines);
             IsAscii(text) && |text| + 4 <= HEAD_LIMIT && gateway.decode(Ascii(text)) == Some(text)
    requires (exists i :: 0 <= i < |lines| && BadLine(lines[i])) || !GoodRequestLine(line)
    ensures Parse(gateway, Ascii(line + LineText(lines)) + Blank() + body) == Failed(400)
  {
    TextIsParsed(gateway, line, lines, body);
    assert ([line] + lines)[0] == line && ([line] + lines)[1..] == lines;
    hide Parse, Ascii, LineText, SplitLines, CheckHead, BadLine, HeadersOf, Parts;
    if i :| 0 <= i < |lines| && BadLine(lines[i]) { BadLinesAreNone(lines, i, map[]); }
  }

  lemma {:induction false} SecondIsNone(fields: seq<Field>, j: nat, headers: map<string, string>)
    requires (forall k :: 0 <= k < |fields| ==> GoodField(fields[k])) && j < |fields|
    requires Lower(fields[j].name) in headers
    ensures HeadersOf(LinesOf(fields), headers).None?
    decreases j
  {
    FieldIs(fields[0]);
    assert LinesOf(fields)[0] == FieldLine(fields[0]) && LinesOf(fields)[1..] == LinesOf(fields[1..]);
    hide Lower, HeaderOf, FieldLine, GoodField;
    if j > 0 && Lower(fields[0].name) !in headers {
      SecondIsNone(fields[1..], j - 1, headers[Lower(fields[0].name) := fields[0].value]);
    }
  }

  lemma {:induction false} RepeatedIsNone(fields: seq<Field>, i: nat, j: nat, headers: map<string, string>)
    requires (forall k :: 0 <= k < |fields| ==> GoodField(fields[k])) && i < j < |fields|
    requires SameText(fields[i].name, fields[j].name)
    ensures HeadersOf(LinesOf(fields), headers).None?
    decreases i
  {
    FieldIs(fields[0]);
    LowerIsCaseless(fields[i].name, fields[j].name);
    assert LinesOf(fields)[0] == FieldLine(fields[0]) && LinesOf(fields)[1..] == LinesOf(fields[1..]);
    hide Lower, HeaderOf, FieldLine, GoodField, SameText;
    var more := headers[Lower(fields[0].name) := fields[0].value];
    if i > 0 { RepeatedIsNone(fields[1..], i - 1, j - 1, more); } else { SecondIsNone(fields[1..], j - 1, more); }
  }

  /** A name that is given twice, in whatever case: refused. */
  lemma RepeatedIsRefused(gateway: Gateway, line: string, fields: seq<Field>, i: nat, j: nat, body: Bytes)
    requires Without(line, '\r') && forall k :: 0 <= k < |fields| ==> GoodField(fields[k])
    requires var text := line + LineText(LinesOf(fields));
             IsAscii(text) && |text| + 4 <= HEAD_LIMIT && gateway.decode(Ascii(text)) == Some(text)
    requires i < j < |fields| && SameText(fields[i].name, fields[j].name)
    ensures Parse(gateway, Ascii(line + LineText(LinesOf(fields))) + Blank() + body) == Failed(400)
  {
    FieldsAreLines(fields);
    TextIsParsed(gateway, line, LinesOf(fields), body);
    RepeatedIsNone(fields, i, j, map[]);
    assert ([line] + LinesOf(fields))[0] == line && ([line] + LinesOf(fields))[1..] == LinesOf(fields);
    hide Parse, Ascii, LineText, SplitLines, CheckHead, HeadersOf, Parts, LinesOf;
  }

  predicate GoodRequestLine(line: string) {
    var words := Parts(line, ' ', "");
    |words| == 3 && (words[2] == "HTTP/1.1" || words[2] == "HTTP/1.0")
  }

  // ---------- what the fields must say ----------

  predicate LoopbackName(gateway: Gateway, host: string) {
    || SameText(host, "127.0.0.1") || SameText(host, "localhost")
    || SameText(host, "127.0.0.1:" + gateway.port) || SameText(host, "localhost:" + gateway.port)
  }

  /** Not sent by a browser for another site, and addressed to this machine. */
  predicate Local(gateway: Gateway, fields: seq<Field>) {
    && Lacks(fields, "origin")
    && exists i :: 0 <= i < |fields| && SameText(fields[i].name, "host") && LoopbackName(gateway, fields[i].value)
  }

  predicate IsNumber(text: string, n: nat) { text != "" && AllDigits(text) && Value(text) == n && n <= INT_MAX }

  /** The length that is declared; a GET may leave it out. */
  predicate LengthIs(verb: string, fields: seq<Field>, n: nat) {
    || (exists i :: 0 <= i < |fields| && SameText(fields[i].name, "content-length") && IsNumber(fields[i].value, n))
    || (Lacks(fields, "content-length") && verb == "GET" && n == 0)
  }

  function LimitOf(gateway: Gateway, path: string): nat {
    if path == "/v1/assets" then gateway.maxUpload else 1024 * 1024
  }

  function TypeOf(path: string): string { if path == "/v1/assets" then "image/png" else "application/json" }

  /** A media type t, without or with parameters. */
  predicate MediaOf(value: string, t: string) {
    && t != "" && Without(t, ';') && !IsSpace(t[0]) && !IsSpace(t[|t| - 1]) && t <= value
    && exists k: nat :: k <= |value| && PaddedTo(value, |t|, k)
  }

  /** Only white space up to the end or to the parameters. */
  predicate PaddedTo(value: string, from: nat, k: nat)
    requires k <= |value|
  {
    from <= k && (forall i :: from <= i < k ==> IsSpace(value[i])) && (k == |value| || value[k] == ';')
  }

  lemma {:induction false} TrimEnd(t: string, pad: string)
    requires t != "" && !IsSpace(t[0]) && !IsSpace(t[|t| - 1]) && forall i :: 0 <= i < |pad| ==> IsSpace(pad[i])
    ensures Trim(t + pad) == t
    decreases |pad|
  {
    if pad == "" {
      assert t + pad == t;
    } else {
      var n := |pad| - 1;
      assert (t + pad)[..|t + pad| - 1] == t + pad[..n] && (t + pad)[|t + pad| - 1] == pad[n];
      TrimEnd(t, pad[..n]);
    }
  }

  lemma MediaIsFirst(value: string, t: string)
    requires MediaOf(value, t)
    ensures Parts(value, ';', "") != [] && Trim(Parts(value, ';', "")[0]) == t
  {
    var k: nat :| k <= |value| && PaddedTo(value, |t|, k);
    var mid := value[..k];
    assert mid == t + value[|t|..k] && "" + mid == mid;
    assert Without(mid, ';') by {
      forall i | 0 <= i < k ensures mid[i] != ';' {
        if i < |t| { assert mid[i] == t[i]; } else { assert mid[i] == value[i] && IsSpace(value[i]); }
      }
    }
    TrimEnd(t, value[|t|..k]);
    hide Trim, MediaOf, Parts;
    if k == |value| {
      assert mid == value;
      LastPart(mid, ';', "");
    } else {
      assert value == mid + [';'] + value[k + 1..];
      FirstPart(mid, ';', value[k + 1..], "");
    }
  }

  // ---------- the checks ----------

  lemma PortIsLower(port: string, name: string)
    requires AllDigits(port) && forall i :: 0 <= i < |name| ==> !('A' <= name[i] <= 'Z')
    ensures Lower(name + port) == name + port
  {
    var text := name + port;
    forall i | 0 <= i < |text| ensures !('A' <= text[i] <= 'Z') {
      if i >= |name| { assert text[i] == port[i - |name|]; }
    }
    LowerKeeps(text);
  }

  lemma SameLower(text: string, name: string)
    requires Lower(name) == name
    ensures Lower(text) == name <==> SameText(text, name)
  {
    LowerIsCaseless(text, name);
  }

  lemma PlainName(host: string, name: string)
    requires forall i :: 0 <= i < |name| ==> !('A' <= name[i] <= 'Z')
    ensures Lower(host) == name <==> SameText(host, name)
  {
    LowerKeeps(name);
    SameLower(host, name);
  }

  lemma NameWithPort(port: string, name: string, host: string)
    requires AllDigits(port) && forall i :: 0 <= i < |name| ==> !('A' <= name[i] <= 'Z')
    ensures Lower(host) == name + port <==> SameText(host, name + port)
  {
    PortIsLower(port, name);
    SameLower(host, name + port);
  }

  lemma LoopbackMeans(gateway: Gateway, host: string)
    requires AllDigits(gateway.port)
    ensures Loopback(gateway, Lower(host)) <==> LoopbackName(gateway, host)
  {
    PlainName(host, "127.0.0.1");
    PlainName(host, "localhost");
    NameWithPort(gateway.port, "127.0.0.1:", host);
    NameWithPort(gateway.port, "localhost:", host);
    hide Lower, SameText, AllDigits;
  }

  lemma EmptyIsForeign(gateway: Gateway)
    ensures !Loopback(gateway, Lower(""))
  {
  }

  /** A name has one value. */
  lemma OneValue(fields: seq<Field>, name: string, i: nat, value: string)
    requires GoodFields(fields) && i < |fields| && SameText(fields[i].name, name) && Has(fields, name, value)
    ensures fields[i].value == value
  {
    var j :| 0 <= j < |fields| && SameText(fields[j].name, name) && fields[j].value == value;
    LowerIsCaseless(fields[i].name, name);
    LowerIsCaseless(fields[j].name, name);
    LowerIsCaseless(fields[i].name, fields[j].name);
    LowerIsCaseless(fields[j].name, fields[i].name);
    hide SameText, Lower, GoodField;
  }

  /** The headers of fields, name by name. */
  lemma HeaderOfField(fields: seq<Field>, name: string)
    requires GoodFields(fields) && Lower(name) == name
    ensures var h := HeadersWith(fields, map[]);
            && (name in h <==> !Lacks(fields, name))
            && (name in h ==> forall i :: 0 <= i < |fields| && SameText(fields[i].name, name) ==> fields[i].value == h[name])
            && (name in h ==> exists i :: 0 <= i < |fields| && SameText(fields[i].name, name) && fields[i].value == h[name])
  {
    HeadersHold(fields, map[], name);
    var h := HeadersWith(fields, map[]);
    if name in h {
      forall i | 0 <= i < |fields| && SameText(fields[i].name, name) ensures fields[i].value == h[name] {
        OneValue(fields, name, i, h[name]);
      }
    }
    hide HeadersWith, GoodFields, SameText, Lower;
  }

  lemma LocalMeans(gateway: Gateway, fields: seq<Field>)
    requires GoodFields(fields) && AllDigits(gateway.port)
    ensures var h := HeadersWith(fields, map[]);
            Local(gateway, fields) <==> "origin" !in h && Loopback(gateway, Lower(Header(h, "host")))
  {
    LowerKeeps("origin");
    LowerKeeps("host");
    HeaderOfField(fields, "origin");
    HeaderOfField(fields, "host");
    EmptyIsForeign(gateway);
    LoopbackMeans(gateway, Header(HeadersWith(fields, map[]), "host"));
    hide HeadersWith, GoodFields, SameText, Lower, Loopback, LoopbackName;
  }

  lemma IsNumberMeans(text: string, n: nat)
    ensures IsNumber(text, n) <==> Number(text) == Some(n)
  {
    NumberIsValue(text);
  }

  lemma NumberField(fields: seq<Field>, name: string, n: nat)
    requires GoodFields(fields) && Lower(name) == name
    ensures var h := HeadersWith(fields, map[]);
            && (name in h <==> !Lacks(fields, name))
            && ((exists i :: 0 <= i < |fields| && SameText(fields[i].name, name) && IsNumber(fields[i].value, n)) <==>
                  name in h && Number(h[name]) == Some(n))
  {
    HeaderOfField(fields, name);
    var h := HeadersWith(fields, map[]);
    if name in h { IsNumberMeans(h[name], n); }
    hide HeadersWith, GoodFields, SameText, Lower, Number, IsNumber;
  }

  lemma LengthMeans(verb: string, fields: seq<Field>, n: nat)
    requires GoodFields(fields)
    ensures var h := HeadersWith(fields, map[]);
            var raw := if "content-length" in h then h["content-length"] else if verb == "GET" then "0" else "";
            LengthIs(verb, fields, n) <==> Number(raw) == Some(n)
  {
    assert Number("0") == Some(0) && Number("").None?;
    hide HeadersWith, GoodFields, SameText, Lower, Number, IsNumber, Lacks;
    LowerKeeps("content-length");
    NumberField(fields, "content-length", n);
  }

  lemma HasIsHeader(fields: seq<Field>, name: string, value: string)
    requires GoodFields(fields) && Lower(name) == name && Has(fields, name, value)
    ensures Header(HeadersWith(fields, map[]), name) == value
  {
    hide HeadersWith, GoodFields, SameText, Lower;
    HeaderOfField(fields, name);
  }

  lemma TypeMeans(fields: seq<Field>, value: string, t: string, expected: string)
    requires GoodFields(fields) && Has(fields, "content-type", value) && MediaOf(value, t) && Lower(expected) == expected
    ensures MediaType(HeadersWith(fields, map[])) == expected <==> SameText(t, expected)
  {
    hide HeadersWith, GoodFields, SameText, Lower, Parts, MediaOf, Trim, Has;
    LowerKeeps("content-type");
    HasIsHeader(fields, "content-type", value);
    MediaIsFirst(value, t);
    SameLower(t, expected);
  }

  lemma NoType(fields: seq<Field>, expected: string)
    requires GoodFields(fields) && Lacks(fields, "content-type") && expected != ""
    ensures MediaType(HeadersWith(fields, map[])) != expected
  {
    hide HeadersWith, GoodFields, SameText, Lower;
    LowerKeeps("content-type");
    HeaderOfField(fields, "content-type");
  }

  lemma ExpectedIsLower(path: string)
    ensures Lower(TypeOf(path)) == TypeOf(path) != ""
  {
    hide Lower;
    LowerKeeps("image/png");
    LowerKeeps("application/json");
  }

  /** The declared type, if it is one media type with or without parameters, is not the expected one. */
  predicate OtherType(fields: seq<Field>, path: string) {
    || Lacks(fields, "content-type")
    || exists i, k :: 0 <= i < |fields| && SameText(fields[i].name, "content-type") && 0 < k <= |fields[i].value|
                      && MediaOf(fields[i].value, fields[i].value[..k]) && !SameText(fields[i].value[..k], TypeOf(path))
  }

  /** It is the expected one. */
  predicate ExpectedType(fields: seq<Field>, path: string) {
    exists i, k :: 0 <= i < |fields| && SameText(fields[i].name, "content-type") && 0 < k <= |fields[i].value|
                   && MediaOf(fields[i].value, fields[i].value[..k]) && SameText(fields[i].value[..k], TypeOf(path))
  }

  lemma TypesMean(fields: seq<Field>, path: string)
    requires GoodFields(fields)
    ensures OtherType(fields, path) ==> MediaType(HeadersWith(fields, map[])) != TypeOf(path)
    ensures ExpectedType(fields, path) ==> MediaType(HeadersWith(fields, map[])) == TypeOf(path)
  {
    ExpectedIsLower(path);
    hide TypeOf, Lower, MediaType, SameText, MediaOf, GoodFields, HeadersWith;
    if Lacks(fields, "content-type") {
      NoType(fields, TypeOf(path));
    }
    forall i, k | 0 <= i < |fields| && SameText(fields[i].name, "content-type") && 0 < k <= |fields[i].value|
                  && MediaOf(fields[i].value, fields[i].value[..k])
      ensures MediaType(HeadersWith(fields, map[])) == TypeOf(path) <==> SameText(fields[i].value[..k], TypeOf(path))
    {
      TypeMeans(fields, fields[i].value, fields[i].value[..k], TypeOf(path));
    }
  }

  /** Local, and the body comes in one piece. */
  predicate Plain(gateway: Gateway, fields: seq<Field>) { Local(gateway, fields) && Lacks(fields, "transfer-encoding") }

  predicate Allowed(verb: string) { verb == "GET" || verb == "POST" }

  lemma PlainMeans(gateway: Gateway, fields: seq<Field>)
    requires GoodFields(fields) && AllDigits(gateway.port)
    ensures var h := HeadersWith(fields, map[]);
            && (Local(gateway, fields) <==> "origin" !in h && Loopback(gateway, Lower(Header(h, "host"))))
            && (Lacks(fields, "transfer-encoding") <==> "transfer-encoding" !in h)
  {
    hide *;
    LocalMeans(gateway, fields);
    LowerKeeps("transfer-encoding");
    HeaderOfField(fields, "transfer-encoding");
  }

  /** The checks, each in the order in which it is made. */
  lemma CheckMeans(gateway: Gateway, verb: string, path: string, fields: seq<Field>, n: nat)
    requires GoodFields(fields) && AllDigits(gateway.port)
    ensures var h := HeadersWith(fields, map[]);
            var r := CheckHead(gateway, verb, path, h);
            && (!Local(gateway, fields) ==> r == Err(403))
            && (Local(gateway, fields) && !Lacks(fields, "transfer-encoding") ==> r == Err(400))
            && (Plain(gateway, fields) && !Allowed(verb) ==> r == Err(405))
            && (Plain(gateway, fields) && Allowed(verb) && (forall m :: !LengthIs(verb, fields, m)) ==> r == Err(400))
            && (Plain(gateway, fields) && Allowed(verb) && LengthIs(verb, fields, n) ==>
                  && (n > LimitOf(gateway, path) ==> r == Err(413))
                  && (n <= LimitOf(gateway, path) ==>
                        && (verb == "GET" && n > 0 ==> r == Err(400))
                        && (verb == "POST" && OtherType(fields, path) ==> r == Err(400))
                        && ((verb == "GET" && n == 0) || (verb == "POST" && ExpectedType(fields, path)) ==>
                              r == Ok(Head(verb, path, h, n)))))
  {
    PlainMeans(gateway, fields);
    TypesMean(fields, path);
    LengthMeans(verb, fields, n);
    var h := HeadersWith(fields, map[]);
    var raw := if "content-length" in h then h["content-length"] else if verb == "GET" then "0" else "";
    if Number(raw).Some? { LengthMeans(verb, fields, Number(raw).value); }
    hide HeadersWith, GoodFields, Local, Lacks, Loopback, Header, Lower, Number, LengthIs, OtherType, ExpectedType, MediaType,
      AllDigits;
  }

  /** What becomes of a message, from its text. */
  lemma MessageOutcome(gateway: Gateway, verb: string, path: string, version: string, fields: seq<Field>, body: Bytes, n: nat)
    requires GoodHead(verb, path, version, fields) && AllDigits(gateway.port)
    requires var text := HeadText(verb, path, version, fields);
             IsAscii(text) && |text| + 4 <= HEAD_LIMIT && gateway.decode(Ascii(text)) == Some(text)
    ensures var r := Parse(gateway, MessageOf(verb, path, version, fields, body));
            // A page of another site, or another host.
            && (!Local(gateway, fields) ==> r == Failed(403))
            // A body in chunks.
            && (Local(gateway, fields) && !Lacks(fields, "transfer-encoding") ==> r == Failed(400))
            && (Plain(gateway, fields) && !Allowed(verb) ==> r == Failed(405))
            // No length, or none that is a number.
            && (Plain(gateway, fields) && Allowed(verb) && (forall m :: !LengthIs(verb, fields, m)) ==> r == Failed(400))
            && (Plain(gateway, fields) && Allowed(verb) && LengthIs(verb, fields, n) ==>
                  && (n > LimitOf(gateway, path) ==> r == Failed(413))
                  && (n <= LimitOf(gateway, path) ==>
                        && (verb == "GET" && n > 0 ==> r == Failed(400))
                        && (verb == "POST" && OtherType(fields, path) ==> r == Failed(400))
                        // Everything else is accepted with its body, once that is complete.
                        && ((verb == "GET" && n == 0) || (verb == "POST" && ExpectedType(fields, path)) ==>
                              r == if |body| < n then Incomplete
                                   else if |body| > n then Failed(400)
                                   else Accepted(Request(verb, path, HeadersWith(fields, map[]), body)))))
  {
    hide *;
    assert GoodFields(fields) by { GoodHeadFields(verb, path, version, fields); }
    MessageIsParsed(gateway, verb, path, version, fields, body);
    CheckMeans(gateway, verb, path, fields, n);
  }

  lemma GoodHeadFields(verb: string, path: string, version: string, fields: seq<Field>)
    requires GoodHead(verb, path, version, fields)
    ensures GoodFields(fields)
  {
  }

  /** What is decided before any line is read: the head must end within 16 KiB and decode. */
  lemma HeadIsLimited(gateway: Gateway, data: Bytes)
    ensures (forall k: nat :: !EndsAt(data, k)) ==> Parse(gateway, data) == if |data| > 16 * 1024 then Failed(413) else Incomplete
    ensures forall end: nat :: EndsAt(data, end) && (forall k: nat :: k < end ==> !EndsAt(data, k)) ==>
              && FindEnd(data, 0) == Some(end)
              && (end + 4 > 16 * 1024 || gateway.decode(data[..end]).None? ==> Parse(gateway, data) == Failed(400))
  {
    var first := FindEnd(data, 0);
    if first.Some? {
      FindEndIsFirst(data, 0, first.value);
    }
    forall end: nat | EndsAt(data, end)
      ensures first.Some? && first.value <= end
    {
      FindEndIsFirst(data, 0, end);
    }
    hide FindEnd, EndsAt;
  }

  // ---------- a request with a body ----------

  function PostFields(path: string, n: nat): seq<Field> {
    [Field("Host", "localhost"), Field("Content-Type", TypeOf(path)), Field("Content-Length", Decimal(n))]
  }

  lemma DecimalIsWord(n: nat)
    ensures Without(Decimal(n), '\r') && IsAscii(Decimal(n))
    ensures GoodField(Field("Content-Length", Decimal(n)))
  {
    DecimalMeans(n);
    var text := Decimal(n);
    assert forall i :: 0 <= i < |text| ==> IsDigit(text[i]);
    hide Decimal;
    assert !HasSpace("Content-Length");
  }

  lemma PostFieldsAreGood(path: string, n: nat)
    ensures GoodFields(PostFields(path, n))
  {
    DecimalIsWord(n);
    assert !HasSpace("Host") && !HasSpace("Content-Type");
    hide Decimal, HasSpace;
    var fields := PostFields(path, n);
    assert GoodField(fields[0]) && GoodField(fields[1]) && GoodField(fields[2]);
    assert |fields[0].name| == 4 && |fields[1].name| == 12 && |fields[2].name| == 14;
    hide GoodField, TypeOf;
  }

  /** Every body within the limit arrives with a POST that declares its length in decimal digits and
      the media type of its path, in a message of any decoding that reads its head. */
  lemma PostIsAccepted(gateway: Gateway, path: string, body: Bytes)
    requires Word(path) && AllDigits(gateway.port) && |body| <= LimitOf(gateway, path) && |body| <= INT_MAX
    requires var text := HeadText("POST", path, "HTTP/1.1", PostFields(path, |body|));
             IsAscii(text) && |text| + 4 <= HEAD_LIMIT && gateway.decode(Ascii(text)) == Some(text)
    ensures Parse(gateway, MessageOf("POST", path, "HTTP/1.1", PostFields(path, |body|), body))
         == Accepted(Request("POST", path, HeadersWith(PostFields(path, |body|), map[]), body))
  {
    var n, fields := |body|, PostFields(path, |body|);
    PostFieldsAreGood(path, n);
    PostSays(gateway, path, n);
    hide *;
    assert GoodHead("POST", path, "HTTP/1.1", fields) && Allowed("POST") by { PostIsGood(path, fields); }
    MessageOutcome(gateway, "POST", path, "HTTP/1.1", fields, body, n);
  }

  lemma PostIsGood(path: string, fields: seq<Field>)
    requires Word(path) && GoodFields(fields)
    ensures GoodHead("POST", path, "HTTP/1.1", fields) && Allowed("POST")
  {
    hide GoodFields;
  }

  lemma PostSays(gateway: Gateway, path: string, n: nat)
    requires n <= INT_MAX
    ensures var fields := PostFields(path, n);
            Plain(gateway, fields) && LengthIs("POST", fields, n) && ExpectedType(fields, path)
  {
    var fields := PostFields(path, n);
    DecimalMeans(n);
    hide Decimal, Value;
    assert SameText(fields[0].name, "host") && LoopbackName(gateway, fields[0].value);
    assert SameText(fields[2].name, "content-length") && IsNumber(fields[2].value, n);
    var t := TypeOf(path);
    assert t[..|t|] == t && PaddedTo(t, |t|, |t|);
    assert SameText(fields[1].name, "content-type") && MediaOf(fields[1].value, fields[1].value[..|t|]);
  }

  // ---------- a request without one ----------

  lemma LowerHost()
    ensures Lower("Host") == "host"
  {
    var name := "Host";
    assert name[1..] == "ost";
    LowerKeeps("ost");
    assert Lower(name) == ['h'] + Lower(name[1..]);
  }

  lemma PlainGet(gateway: Gateway, path: string, headers: map<string, string>)
    requires "origin" !in headers && "transfer-encoding" !in headers && "content-length" !in headers
    requires Loopback(gateway, Lower(Header(headers, "host")))
    ensures CheckHead(gateway, "GET", path, headers) == Ok(Head("GET", path, headers, 0))
  {
    hide Lower, Loopback, Header, MediaType;
    assert Number("0") == Some(0);
  }

  function GetFields(): seq<Field> { [Field("Host", "localhost")] }

  lemma GetFieldsAreGood()
    ensures GoodFields(GetFields()) && HeadersWith(GetFields(), map[]) == map["host" := "localhost"]
  {
    LowerHost();
    assert !HasSpace("Host");
    hide Lower, HasSpace;
    var fields := GetFields();
    var h: map<string, string> := map[];
    assert fields[1..] == [] && HeadersWith([], h["host" := "localhost"]) == map["host" := "localhost"];
    assert HeadersWith(fields, h) == HeadersWith(fields[1..], h[Lower("Host") := "localhost"]);
  }

  lemma AsciiTogether(a: string, b: string)
    requires IsAscii(a) && IsAscii(b)
    ensures IsAscii(a + b)
  {
  }

  lemma GetHeadIs(path: string)
    requires IsAscii(path)
    ensures var head := HeadText("GET", path, "HTTP/1.1", GetFields()); IsAscii(head) && |head| == |path| + 30
  {
    var fields, line := GetFields(), FieldLine(GetFields()[0]);
    assert fields[1..] == [] && LinesOf([]) == [];
    var lines := LinesOf(fields);
    assert lines == [line];
    assert lines[1..] == [] && LineText([]) == "";
    assert LineText(lines) == CrLf() + (line + "");
    assert IsAscii(line) && |line| == 15;
    AsciiTogether(CrLf(), line + "");
    AsciiTogether(path, " HTTP/1.1");
    AsciiTogether("GET ", path + " HTTP/1.1");
    assert RequestLine("GET", path, "HTTP/1.1") == "GET " + (path + " HTTP/1.1");
    AsciiTogether(RequestLine("GET", path, "HTTP/1.1"), LineText(lines));
  }

  function GetHead(path: string): (head: string)
    requires IsAscii(path)
    ensures IsAscii(head) && |head| == |path| + 30
  {
    GetHeadIs(path);
    HeadText("GET", path, "HTTP/1.1", GetFields())
  }

  /** Small requests are accepted, whatever the path says; of the decoding only the head is needed. */
  lemma GetIsAccepted(gateway: Gateway, path: string)
    requires Word(path) && IsAscii(path) && |path| <= HEAD_LIMIT - 34
    requires gateway.decode(Ascii(GetHead(path))) == Some(GetHead(path))
    ensures Parse(gateway, Ascii(GetHead(path)) + Blank())
         == Accepted(Request("GET", path, map["host" := "localhost"], []))
  {
    GetFieldsAreGood();
    GetIsGood(path);
    LoopbackIsLocal(gateway);
    assert Ascii(GetHead(path)) + Blank() == MessageOf("GET", path, "HTTP/1.1", GetFields(), []);
    hide Parse, CheckHead, HeadersWith, GoodHead, Loopback, Lower, MessageOf, Ascii, HeadText, Header;
    MessageIsParsed(gateway, "GET", path, "HTTP/1.1", GetFields(), []);
    PlainGet(gateway, path, map["host" := "localhost"]);
  }

  lemma GetIsGood(path: string)
    requires Word(path) && GoodFields(GetFields())
    ensures GoodHead("GET", path, "HTTP/1.1", GetFields())
  {
    hide GoodFields, GetFields;
  }

  lemma LoopbackIsLocal(gateway: Gateway)
    ensures Loopback(gateway, Lower(Header(map["host" := "localhost"], "host")))
  {
    hide Lower;
    LowerKeeps("localhost");
  }

  /** Such messages exist: a GET for any path is handed on or refused as the reads fall. */
  lemma BytesAfterAGet(port: string, maxUpload: nat, path: string, extra: Bytes) returns (gateway: Gateway, message: Bytes)
    requires Word(path) && IsAscii(path) && |path| <= HEAD_LIMIT - 34 && extra != []
    ensures gateway == Gateway(port, maxUpload, Letters) && message == Ascii(GetHead(path)) + Blank()
    ensures Receive(gateway, [], [message, extra]) == Accepted(Request("GET", path, map["host" := "localhost"], []))
    ensures Receive(gateway, [], [message + extra]).Failed?
  {
    hide *;
    gateway, message := Gateway(port, maxUpload, Letters), Ascii(GetHead(path)) + Blank();
    LettersDecodes(GetHead(path));
    GetIsAccepted(gateway, path);
    ExtraBytesDependOnReads(gateway, message, extra);
  }
}
