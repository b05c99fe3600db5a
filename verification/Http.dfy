/**
 Requests arrive in pieces in a growing buffer that is parsed from the start after every piece.
 */
module Http {
  import opened Words
  import opened Wrappers

  type Bytes = seq<byte>

  const HEAD_LIMIT := 16384
  const BODY_LIMIT := 1048576
  const INT_MAX := 0x7FFF_FFFF_FFFF_FFFF

  /** decode stands for UTF-8 decoding. */
  datatype Gateway = Gateway(port: string, maxUpload: nat, decode: Bytes -> Option<string>)

  datatype Request = Request(verb: string, path: string, headers: map<string, string>, body: Bytes)

  datatype Head = Head(verb: string, path: string, headers: map<string, string>, length: nat)

  datatype Outcome = Incomplete | Accepted(request: Request) | Failed(status: nat)

  // ---------- the head ----------

  function Blank(): Bytes { [13, 10, 13, 10] }

  predicate EndsAt(data: Bytes, k: nat) { k + 4 <= |data| && data[k..k + 4] == Blank() }

  /** Where the first empty line begins. */
  function FindEnd(data: Bytes, from: nat): (r: Option<nat>)
    requires from <= |data|
    ensures r.Some? ==> from <= r.value && r.value + 4 <= |data|
    decreases |data| - from
  {
    if from + 4 > |data| then None
    else if EndsAt(data, from) then Some(from)
    else FindEnd(data, from + 1)
  }

  function IndexOf(text: string, c: char): (r: Option<nat>)
    ensures r.Some? ==> r.value < |text| && text[r.value] == c
  {
    if text == "" then None
    else if text[0] == c then Some(0)
    else var r := IndexOf(text[1..], c); if r.Some? then Some(r.value + 1) else None
  }

  function SplitLines(text: string, line: string): seq<string>
    decreases |text|
  {
    if text == "" then [line]
    else if |text| >= 2 && text[0] == '\r' && text[1] == '\n' then [line] + SplitLines(text[2..], "")
    else SplitLines(text[1..], line + [text[0]])
  }

  /** The parts between separators that are not empty. */
  function Parts(text: string, separator: char, part: string): seq<string>
    decreases |text|
  {
    if text == "" then if part == "" then [] else [part]
    else if text[0] == separator then (if part == "" then [] else [part]) + Parts(text[1..], separator, "")
    else Parts(text[1..], separator, part + [text[0]])
  }

  function Lower(text: string): string {
    if text == "" then ""
    else [if 'A' <= text[0] <= 'Z' then ((text[0] as int) + 32) as char else text[0]] + Lower(text[1..])
  }

  predicate IsSpace(c: char) { c == ' ' || c == '\t' }

  function Trim(text: string): string
    decreases |text|
  {
    if text == "" then ""
    else if IsSpace(text[0]) then Trim(text[1..])
    else if IsSpace(text[|text| - 1]) then Trim(text[..|text| - 1])
    else text
  }

  predicate HasSpace(text: string) {
    exists i :: 0 <= i < |text| && (IsSpace(text[i]) || text[i] == '\r' || text[i] == '\n')
  }

  /** Name and value of a header line, unless it is folded or malformed. */
  function HeaderOf(line: string): Option<(string, string)> {
    var colon := IndexOf(line, ':');
    if colon.None? || IsSpace(line[0]) then None
    else
      var name := Lower(line[..colon.value]);
      if name == "" || HasSpace(name) then None else Some((name, Trim(line[colon.value + 1..])))
  }

  /** All headers; a repeated name is refused. */
  function HeadersOf(lines: seq<string>, headers: map<string, string>): Option<map<string, string>>
    decreases |lines|
  {
    if lines == [] then Some(headers)
    else
      var header := HeaderOf(lines[0]);
      if header.None? || header.value.0 in headers then None
      else HeadersOf(lines[1..], headers[header.value.0 := header.value.1])
  }

  function Header(headers: map<string, string>, name: string): string {
    if name in headers then headers[name] else ""
  }

  predicate Loopback(gateway: Gateway, host: string) {
    host == "127.0.0.1" || host == "localhost" || host == "127.0.0.1:" + gateway.port || host == "localhost:" + gateway.port
  }

  function Number(text: string): (r: Option<nat>)
    ensures r.Some? ==> text != "" && r.value <= INT_MAX
  {
    if text == "" then None
    else
      var before := if |text| == 1 then Some(0) else Number(text[..|text| - 1]);
      var c := text[|text| - 1];
      if before.None? || !('0' <= c <= '9') then None
      else
        var n := 10 * before.value + (c as int - '0' as int);
        if n <= INT_MAX then Some(n) else None
  }

  function MediaType(headers: map<string, string>): string {
    var parts := Parts(Header(headers, "content-type"), ';', "");
    if parts == [] then "" else Lower(Trim(parts[0]))
  }

  /** The checks on a complete head, in the order in which they are made. */
  function CheckHead(gateway: Gateway, verb: string, path: string, headers: map<string, string>): Result<Head, nat> {
    if "origin" in headers || !Loopback(gateway, Lower(Header(headers, "host"))) then Err(403)
    else if "transfer-encoding" in headers then Err(400)
    else if verb != "GET" && verb != "POST" then Err(405)
    else
      var raw := if "content-length" in headers then headers["content-length"] else if verb == "GET" then "0" else "";
      var length := Number(raw);
      if length.None? then Err(400)
      else if length.value > (if path == "/v1/assets" then gateway.maxUpload else BODY_LIMIT) then Err(413)
      else if verb == "GET" && length.value != 0 then Err(400)
      else if verb == "POST" && MediaType(headers) != (if path == "/v1/assets" then "image/png" else "application/json")
      then Err(400)
      else Ok(Head(verb, path, headers, length.value))
  }

  function ParseHead(gateway: Gateway, head: Bytes): Result<Head, nat> {
    var text := gateway.decode(head);
    if text.None? then Err(400)
    else
      var lines := SplitLines(text.value, "");
      var line := if lines == [] then [] else Parts(lines[0], ' ', "");
      if |line| != 3 || (line[2] != "HTTP/1.1" && line[2] != "HTTP/1.0") then Err(400)
      else
        var headers := HeadersOf(lines[1..], map[]);
        if headers.None? then Err(400) else CheckHead(gateway, line[0], line[1], headers.value)
  }

  // ---------- the whole request ----------

  /** Once the head is there only the length of the body decides. */
  function ParseBody(head: Result<Head, nat>, data: Bytes, start: nat): Outcome
    requires start <= |data|
  {
    match head
    case Err(status) => Failed(status)
    case Ok(h) =>
      if |data| < start + h.length then Incomplete
      else if |data| > start + h.length then Failed(400)
      else Accepted(Request(h.verb, h.path, h.headers, data[start..]))
  }

  function Parse(gateway: Gateway, data: Bytes): Outcome {
    match FindEnd(data, 0)
    case None => if |data| > HEAD_LIMIT then Failed(413) else Incomplete
    case Some(end) =>
      if end + 4 > HEAD_LIMIT then Failed(400)
      else ParseBody(ParseHead(gateway, data[..end]), data, end + 4)
  }

  /** The parser with its loop over header lines. */
  method ParseRequest(gateway: Gateway, data: Bytes) returns (r: Outcome)
    ensures r == Parse(gateway, data)
  {
    var end := FindEnd(data, 0);
    if end.None? {
      if |data| > HEAD_LIMIT { return Failed(413); }
      return Incomplete;
    }
    if end.value + 4 > HEAD_LIMIT { return Failed(400); }
    var text := gateway.decode(data[..end.value]);
    if text.None? { return Failed(400); }
    var lines := SplitLines(text.value, "");
    if lines == [] { return Failed(400); }
    var line := Parts(lines[0], ' ', "");
    if |line| != 3 || (line[2] != "HTTP/1.1" && line[2] != "HTTP/1.0") { return Failed(400); }
    var headers: map<string, string> := map[];
    var i := 1;
    while i < |lines|
      invariant 1 <= i <= |lines|
      invariant HeadersOf(lines[1..], map[]) == HeadersOf(lines[i..], headers)
    {
      var header := HeaderOf(lines[i]);
      assert lines[i..][0] == lines[i] && lines[i..][1..] == lines[i + 1..];
      if header.None? || header.value.0 in headers { return Failed(400); }
      headers := headers[header.value.0 := header.value.1];
      i := i + 1;
    }
    var head := CheckHead(gateway, line[0], line[1], headers);
    if head.Err? { return Failed(head.error); }
    var length := head.value.length;
    if |data| < end.value + 4 + length { return Incomplete; }
    if |data| != end.value + 4 + length { return Failed(400); }
    return Accepted(Request(head.value.verb, head.value.path, headers, data[end.value + 4..]));
  }

  // ---------- prefixes and extensions ----------

  lemma EndsAtPrefix(data: Bytes, n: nat, k: nat)
    requires n <= |data|
    ensures EndsAt(data[..n], k) <==> EndsAt(data, k) && k + 4 <= n
  {
    if k + 4 <= n { assert data[..n][k..k + 4] == data[k..k + 4]; }
  }

  /** The first of all places where an empty line begins. */
  lemma {:induction false} FindEndIsFirst(data: Bytes, from: nat, j: nat)
    requires from <= j && from <= |data|
    ensures FindEnd(data, from).Some? ==> EndsAt(data, FindEnd(data, from).value)
    ensures EndsAt(data, j) ==> FindEnd(data, from).Some? && FindEnd(data, from).value <= j
    decreases |data| - from
  {
    if from + 4 <= |data| && !EndsAt(data, from) { FindEndIsFirst(data, from + 1, if from < j then j else from + 1); }
  }

  /** The head ends at the same place in every prefix that contains its end, and in no other. */
  lemma {:induction false} EndOfPrefix(data: Bytes, n: nat, from: nat)
    requires from <= n <= |data|
    ensures FindEnd(data[..n], from) == match FindEnd(data, from)
                                        case None => None
                                        case Some(k) => if k + 4 <= n then Some(k) else None
    decreases n - from
  {
    EndsAtPrefix(data, n, from);
    if from + 4 <= n && !EndsAt(data, from) { EndOfPrefix(data, n, from + 1); }
    hide EndsAt;
  }

  datatype Kind = Waiting | Good | Bad

  function KindOf(r: Outcome): Kind { if r.Incomplete? then Waiting else if r.Accepted? then Good else Bad }

  function HeadOf(gateway: Gateway, data: Bytes): Result<Head, nat> {
    var end := FindEnd(data, 0);
    if end.None? then Err(0) else ParseHead(gateway, data[..end.value])
  }

  /** What the first n bytes of a stream come to, given where its head ends and what it says. */
  function KindAt(end: Option<nat>, head: Result<Head, nat>, n: nat): Kind {
    if end.None? || end.value + 4 > n then if n > HEAD_LIMIT then Bad else Waiting
    else if end.value + 4 > HEAD_LIMIT || head.Err? || n > end.value + 4 + head.value.length then Bad
    else if n < end.value + 4 + head.value.length then Waiting
    else Good
  }

  lemma ParsePrefix(gateway: Gateway, data: Bytes, n: nat)
    requires n <= |data|
    ensures KindOf(Parse(gateway, data[..n])) == KindAt(FindEnd(data, 0), HeadOf(gateway, data), n)
  {
    EndOfPrefix(data, n, 0);
    var end := FindEnd(data, 0);
    hide ParseHead, FindEnd;
    if end.Some? && end.value + 4 <= n { assert data[..n][..end.value] == data[..end.value]; }
  }

  /** Before an accepted message everything is incomplete; after it everything is refused. */
  lemma AcceptedIsExact(gateway: Gateway, data: Bytes, n: nat, m: nat)
    requires n <= |data| && m <= |data| && Parse(gateway, data[..n]).Accepted?
    ensures m < n ==> Parse(gateway, data[..m]) == Incomplete
    ensures m > n ==> Parse(gateway, data[..m]).Failed?
  {
    hide Parse, FindEnd, HeadOf;
    ParsePrefix(gateway, data, n);
    ParsePrefix(gateway, data, m);
  }

  /** A refused buffer stays refused. */
  lemma FailureIsFinal(gateway: Gateway, data: Bytes, n: nat, m: nat)
    requires n <= m <= |data| && Parse(gateway, data[..n]).Failed?
    ensures Parse(gateway, data[..m]).Failed?
  {
    hide Parse, FindEnd, HeadOf;
    ParsePrefix(gateway, data, n);
    ParsePrefix(gateway, data, m);
  }

  // ---------- pieces of text ----------

  /** Letters that are one byte in UTF-8. */
  predicate IsAscii(text: string) { forall i :: 0 <= i < |text| ==> (text[i] as int) < 128 }

  function Ascii(text: string): (r: Bytes)
    requires IsAscii(text)
    ensures |r| == |text|
  {
    seq(|text|, i requires 0 <= i < |text| => text[i] as int)
  }

  predicate Without(text: string, c: char) { forall i :: 0 <= i < |text| ==> text[i] != c }

  lemma {:induction false} OneLine(text: string, line: string)
    requires Without(text, '\r')
    ensures SplitLines(text, line) == [line + text]
    decreases |text|
  {
    if text == "" {
      assert line + text == line;
    } else {
      OneLine(text[1..], line + [text[0]]);
      assert (line + [text[0]]) + text[1..] == line + text;
    }
  }

  lemma {:induction false} FirstLine(text: string, rest: string, line: string)
    requires Without(text, '\r')
    ensures SplitLines(text + "\r\n" + rest, line) == [line + text] + SplitLines(rest, "")
    decreases |text|
  {
    var all := text + "\r\n" + rest;
    if text == "" {
      assert all[2..] == rest && line + text == line;
    } else {
      assert all[1..] == text[1..] + "\r\n" + rest && all[0] == text[0];
      FirstLine(text[1..], rest, line + [text[0]]);
      assert (line + [text[0]]) + text[1..] == line + text;
    }
  }

  lemma {:induction false} LastPart(word: string, c: char, part: string)
    requires Without(word, c) && part + word != ""
    ensures Parts(word, c, part) == [part + word]
    decreases |word|
  {
    if word == "" {
      assert part + word == part;
    } else {
      LastPart(word[1..], c, part + [word[0]]);
      assert (part + [word[0]]) + word[1..] == part + word;
    }
  }

  lemma {:induction false} FirstPart(word: string, c: char, rest: string, part: string)
    requires Without(word, c) && part + word != ""
    ensures Parts(word + [c] + rest, c, part) == [part + word] + Parts(rest, c, "")
    decreases |word|
  {
    var all := word + [c] + rest;
    if word == "" {
      assert all[1..] == rest && all[0] == c && part + word == part;
    } else {
      assert all[1..] == word[1..] + [c] + rest && all[0] == word[0];
      FirstPart(word[1..], c, rest, part + [word[0]]);
      assert (part + [word[0]]) + word[1..] == part + word;
    }
  }

  lemma {:induction false} LowerKeeps(text: string)
    requires forall i :: 0 <= i < |text| ==> !('A' <= text[i] <= 'Z')
    ensures Lower(text) == text
  {
    if text != "" {
      LowerKeeps(text[1..]);
      assert [text[0]] + text[1..] == text;
    }
  }

  lemma {:induction false} IndexAfter(text: string, c: char, rest: string)
    requires Without(text, c)
    ensures IndexOf(text + [c] + rest, c) == Some(|text|)
  {
    if text != "" {
      assert (text + [c] + rest)[1..] == text[1..] + [c] + rest;
      IndexAfter(text[1..], c, rest);
    }
  }

  lemma HeaderIs(name: string, value: string)
    requires name != "" && Without(name, ':') && !IsSpace(name[0]) && Lower(name) != "" && !HasSpace(Lower(name))
    requires value != "" && !IsSpace(value[0]) && !IsSpace(value[|value| - 1])
    ensures HeaderOf(name + [':'] + ([' '] + value)) == Some((Lower(name), value))
  {
    var rest := [' '] + value;
    var line := name + [':'] + rest;
    IndexAfter(name, ':', rest);
    assert line[..|name|] == name && line[|name| + 1..] == rest && rest[1..] == value;
    assert Trim(rest) == Trim(value) == value;
    hide HasSpace, Lower, IndexOf, Trim;
  }

  // ---------- a connection ----------

  /** What a connection comes to: it waits for more, a request is handed on, or it is refused. */
  function Receive(gateway: Gateway, buffer: Bytes, chunks: seq<Bytes>): Outcome
    decreases |chunks|
  {
    if chunks == [] then Incomplete
    else
      var r := Parse(gateway, buffer + chunks[0]);
      if r.Incomplete? then Receive(gateway, buffer + chunks[0], chunks[1..]) else r
  }

  class Connection {
    const gateway: Gateway
    var buffer: Bytes
    var outcome: Outcome

    constructor (gateway: Gateway)
      ensures this.gateway == gateway && buffer == [] && outcome == Incomplete
    {
      this.gateway, buffer, outcome := gateway, [], Incomplete;
    }

    /** One piece; afterwards the connection reads on only while the request is incomplete. */
    method Append(data: Bytes)
      requires outcome == Incomplete
      modifies this
      ensures outcome == Parse(gateway, old(buffer) + data)
      ensures buffer == if outcome.Accepted? then [] else old(buffer) + data
    {
      buffer := buffer + data;
      outcome := ParseRequest(gateway, buffer);
      if outcome.Accepted? { buffer := []; }
    }

    method ReadAll(chunks: seq<Bytes>)
      requires outcome == Incomplete && buffer == []
      modifies this
      ensures outcome == Receive(gateway, [], chunks)
    {
      var i := 0;
      while i < |chunks| && outcome.Incomplete?
        invariant i <= |chunks|
        invariant Receive(gateway, [], chunks)
               == if outcome.Incomplete? then Receive(gateway, buffer, chunks[i..]) else outcome
      {
        assert chunks[i..][1..] == chunks[i + 1..];
        Append(chunks[i]);
        i := i + 1;
      }
    }
  }

  function Flatten(chunks: seq<Bytes>): Bytes {
    if chunks == [] then [] else chunks[0] + Flatten(chunks[1..])
  }

  /** Some pieces end exactly at byte n of the stream. */
  predicate Boundary(chunks: seq<Bytes>, n: nat) {
    chunks != [] && (n == |chunks[0]| || (n > |chunks[0]| && Boundary(chunks[1..], n - |chunks[0]|)))
  }

  /** A request is handed on exactly if the stream has an accepted beginning and some piece ends
      where it ends; it is then that request, whatever the pieces. */
  lemma {:induction false} DeliveredAtBoundary(gateway: Gateway, buffer: Bytes, chunks: seq<Bytes>, n: nat)
    requires |buffer| < n <= |buffer + Flatten(chunks)|
    requires Parse(gateway, (buffer + Flatten(chunks))[..n]).Accepted?
    ensures var r := Receive(gateway, buffer, chunks);
            if Boundary(chunks, n - |buffer|) then r == Parse(gateway, (buffer + Flatten(chunks))[..n])
            else r.Failed?
    decreases |chunks|
  {
    if chunks != [] {
      var data, longer := buffer + Flatten(chunks), buffer + chunks[0];
      Regroup(buffer, chunks);
      hide Parse, Flatten, Boundary;
      AcceptedIsExact(gateway, data, n, |longer|);
      assert Parse(gateway, data[..|longer|]) == Parse(gateway, longer);
      if |longer| < n { DeliveredAtBoundary(gateway, longer, chunks[1..], n); }
    }
  }

  lemma Regroup(buffer: Bytes, chunks: seq<Bytes>)
    requires chunks != []
    ensures (buffer + chunks[0]) + Flatten(chunks[1..]) == buffer + Flatten(chunks)
    ensures (buffer + Flatten(chunks))[..|buffer + chunks[0]|] == buffer + chunks[0]
  {
    var rest := Flatten(chunks[1..]);
    assert Flatten(chunks) == chunks[0] + rest;
    hide Flatten;
    RegroupThree(buffer, chunks[0], rest);
  }

  lemma RegroupThree(a: Bytes, b: Bytes, c: Bytes)
    ensures (a + b) + c == a + (b + c) && (a + (b + c))[..|a + b|] == a + b
  {
  }

  /** Without an accepted beginning nothing is handed on. */
  lemma {:induction false} NothingDelivered(gateway: Gateway, buffer: Bytes, chunks: seq<Bytes>)
    requires forall n: nat :: n <= |buffer + Flatten(chunks)| ==> !Parse(gateway, (buffer + Flatten(chunks))[..n]).Accepted?
    ensures !Receive(gateway, buffer, chunks).Accepted?
    decreases |chunks|
  {
    if chunks != [] {
      var data := buffer + Flatten(chunks);
      var longer := buffer + chunks[0];
      assert longer + Flatten(chunks[1..]) == data;
      assert data[..|longer|] == longer;
      NothingDelivered(gateway, longer, chunks[1..]);
    }
  }

  lemma {:induction false} EndIsBoundary(chunks: seq<Bytes>)
    requires Flatten(chunks) != []
    ensures Boundary(chunks, |Flatten(chunks)|)
  {
    if |chunks[0]| < |Flatten(chunks)| { EndIsBoundary(chunks[1..]); }
  }

  lemma NothingYet(gateway: Gateway)
    ensures Parse(gateway, []) == Incomplete
  {
  }

  /** A stream that is one message is handed on as that message in every segmentation. */
  lemma SegmentationDoesNotMatter(gateway: Gateway, chunks: seq<Bytes>)
    requires Parse(gateway, Flatten(chunks)).Accepted?
    ensures Receive(gateway, [], chunks) == Parse(gateway, Flatten(chunks))
  {
    var data := Flatten(chunks);
    NothingYet(gateway);
    hide Parse, Flatten, Boundary, Receive;
    assert [] + data == data && data[..|data|] == data;
    EndIsBoundary(chunks);
    DeliveredAtBoundary(gateway, [], chunks, |data|);
  }

  /** With bytes after the message it does matter: they are refused only if some read returns them
      together with the end of the message. */
  lemma ExtraBytesDependOnReads(gateway: Gateway, message: Bytes, extra: Bytes)
    requires Parse(gateway, message).Accepted? && extra != []
    ensures Receive(gateway, [], [message, extra]) == Parse(gateway, message)
    ensures Receive(gateway, [], [message + extra]).Failed?
  {
    var data := message + extra;
    assert data[..|message|] == message && [] + message == message && [] + data == data;
    AcceptedIsExact(gateway, data, |message|, |data|);
    assert data[..|data|] == data;
    hide Parse;
  }

  /** UTF-8 decoding, where every letter is one byte. */
  function Letters(data: Bytes): Option<string> {
    if forall i :: 0 <= i < |data| ==> data[i] < 128
    then Some(seq(|data|, i requires 0 <= i < |data| => data[i] as char)) else None
  }

  lemma LettersDecodes(text: string)
    requires IsAscii(text)
    ensures Letters(Ascii(text)) == Some(text)
  {
    var data := Ascii(text);
    forall i | 0 <= i < |text|
      ensures data[i] < 128 && data[i] as char == text[i]
    {
      assert data[i] == text[i] as int;
    }
    assert Letters(data).value == text;
  }
}
