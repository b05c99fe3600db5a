/**
 A scan of JSON text that checks only that no object repeats a member name and that nesting is
 limited. Decoding a string literal is left to a function.
 */
module JsonKeys {
  import opened Words
  import opened Wrappers

  type Bytes = seq<byte>

  /** What a string literal, quotes included, stands for. */
  type Decoder = Bytes -> Option<string>

  const MAX_DEPTH := 128

  const QUOTE: byte := 34
  const COMMA: byte := 44
  const COLON: byte := 58
  const ESCAPE: byte := 92

  predicate IsSpace(b: byte) { b == 9 || b == 10 || b == 13 || b == 32 }
  predicate IsStop(b: byte) { IsSpace(b) || b == COMMA || b == 93 || b == 125 }
  function Open(braces: bool): byte { if braces then 123 else 91 }
  function Close(braces: bool): byte { if braces then 125 else 93 }

  // ---------- the scan, on the text that is left ----------

  datatype Outcome = Rest(text: Bytes) | Invalid | Duplicate

  function Skip(s: Bytes): (r: Bytes)
    ensures |r| <= |s| && (r != [] ==> !IsSpace(r[0]))
  {
    if s != [] && IsSpace(s[0]) then Skip(s[1..]) else s
  }

  /** What follows the closing quote. */
  function AfterString(s: Bytes): (r: Option<Bytes>)
    ensures r.Some? ==> |r.value| < |s|
    decreases |s|
  {
    if s == [] then None
    else if s[0] == ESCAPE then if |s| > 1 then AfterString(s[2..]) else None
    else if s[0] == QUOTE then Some(s[1..])
    else AfterString(s[1..])
  }

  /** The decoded string at the front and what follows it. */
  function StringAt(decode: Decoder, s: Bytes): (r: Option<(string, Bytes)>)
    requires s != []
    ensures r.Some? ==> |r.value.1| < |s|
  {
    match AfterString(s[1..])
    case None => None
    case Some(rest) =>
      match decode(s[..|s| - |rest|])
      case None => None
      case Some(text) => Some((text, rest))
  }

  function AfterScalar(s: Bytes): (r: Bytes)
    ensures |r| <= |s|
  {
    if s == [] || IsStop(s[0]) then s else AfterScalar(s[1..])
  }

  function Scan(decode: Decoder, s: Bytes, depth: nat): (r: Outcome)
    ensures r.Rest? ==> |r.text| < |s|
    decreases |s|, 1
  {
    var t := Skip(s);
    if depth >= MAX_DEPTH || t == [] then Invalid
    else if t[0] == QUOTE then
      match StringAt(decode, t)
      case None => Invalid
      case Some((_, rest)) => Rest(rest)
    else if t[0] == Open(true) || t[0] == Open(false) then Bracketed(decode, t, depth)
    else
      var rest := AfterScalar(t);
      if rest == t then Invalid else Rest(rest)
  }

  /** An object or an array, with nothing in it or with entries. */
  function Bracketed(decode: Decoder, t: Bytes, depth: nat): (r: Outcome)
    requires t != []
    ensures r.Rest? ==> |r.text| < |t|
    decreases |t|, 0
  {
    var braces := t[0] == Open(true);
    var u := Skip(t[1..]);
    if u != [] && u[0] == Close(braces) then Rest(u[1..])
    else Entries(decode, u, depth, braces, {})
  }

  /** A member name that was not seen before, and its colon. */
  function NameAt(decode: Decoder, s: Bytes, keys: set<string>): (r: (Outcome, string))
    ensures r.0.Rest? ==> |r.0.text| < |s|
  {
    var t := Skip(s);
    if t == [] || t[0] != QUOTE then (Invalid, "")
    else match StringAt(decode, t)
      case None => (Invalid, "")
      case Some((key, rest)) =>
        var u := Skip(rest);
        if key in keys then (Duplicate, key)
        else if u == [] || u[0] != COLON then (Invalid, key)
        else (Rest(u[1..]), key)
  }

  /** Members or elements, up to and including the closing bracket. */
  function Entries(decode: Decoder, s: Bytes, depth: nat, braces: bool, keys: set<string>): (r: Outcome)
    ensures r.Rest? ==> |r.text| < |s|
    decreases |s|, 3
  {
    if s == [] then Invalid
    else if !braces then Element(decode, s, depth, braces, keys)
    else
      var (name, key) := NameAt(decode, s, keys);
      if name.Rest? then Element(decode, name.text, depth, braces, keys + {key}) else name
  }

  function Element(decode: Decoder, s: Bytes, depth: nat, braces: bool, keys: set<string>): (r: Outcome)
    ensures r.Rest? ==> |r.text| < |s|
    decreases |s|, 2
  {
    match Scan(decode, s, depth + 1)
    case Invalid => Invalid
    case Duplicate => Duplicate
    case Rest(rest) =>
      var t := Skip(rest);
      if t == [] then Invalid
      else if t[0] == Close(braces) then Rest(t[1..])
      else if t[0] != COMMA then Invalid
      else Entries(decode, t[1..], depth, braces, keys)
  }

  datatype Verdict = Accepted | Malformed | Repeated

  function Validate(decode: Decoder, text: Bytes): Verdict {
    match Scan(decode, text, 0)
    case Invalid => Malformed
    case Duplicate => Repeated
    case Rest(rest) => if Skip(rest) == [] then Accepted else Malformed
  }

  // ---------- the scanner ----------

  function VerdictOf(r: Outcome): Verdict {
    match r
    case Rest(_) => Accepted
    case Invalid => Malformed
    case Duplicate => Repeated
  }

  lemma Literal(bytes: Bytes, start: nat, end: nat)
    requires start <= end <= |bytes|
    ensures bytes[start..][..|bytes[start..]| - |bytes[end..]|] == bytes[start..end]
  {
  }

  class Scanner {
    const bytes: Bytes
    const decode: Decoder
    var index: nat

    ghost function Left(): Bytes
      requires index <= |bytes|
      reads this
    {
      bytes[index..]
    }

    constructor (bytes: Bytes, decode: Decoder)
      ensures this.bytes == bytes && this.decode == decode && index == 0
    {
      this.bytes, this.decode, index := bytes, decode, 0;
    }

    method SkipSpace()
      requires index <= |bytes|
      modifies this
      ensures old(index) <= index <= |bytes| && Left() == Skip(old(Left()))
    {
      while index < |bytes| && IsSpace(bytes[index])
        invariant old(index) <= index <= |bytes| && Skip(Left()) == Skip(old(Left()))
      {
        assert Left()[1..] == bytes[index + 1..];
        index := index + 1;
      }
    }

    method ReadString() returns (text: Option<string>)
      requires index < |bytes|
      modifies this
      ensures var r := StringAt(decode, old(Left()));
              && (text.Some? <==> r.Some?)
              && (r.Some? ==> old(index) < index <= |bytes| && text.value == r.value.0 && Left() == r.value.1)
    {
      var start := index;
      index := index + 1;
      assert bytes[start..][1..] == bytes[index..];
      while index < |bytes|
        invariant start < index
        invariant AfterString(bytes[start + 1..]) == if index <= |bytes| then AfterString(bytes[index..]) else None
        decreases |bytes| - index
      {
        var b := bytes[index];
        assert bytes[index..][0] == b && bytes[index..][1..] == bytes[index + 1..];
        assert index + 1 < |bytes| ==> bytes[index..][2..] == bytes[index + 2..];
        index := index + 1;
        if b == ESCAPE {
          index := index + 1;
        } else if b == QUOTE {
          Literal(bytes, start, index);
          return decode(bytes[start..index]);
        }
      }
      return None;
    }

    method SkipScalar()
      requires index <= |bytes|
      modifies this
      ensures old(index) <= index <= |bytes| && Left() == AfterScalar(old(Left()))
    {
      while index < |bytes| && !IsStop(bytes[index])
        invariant old(index) <= index <= |bytes| && AfterScalar(Left()) == AfterScalar(old(Left()))
      {
        assert Left()[1..] == bytes[index + 1..];
        index := index + 1;
      }
    }

    method ReadValue(depth: nat) returns (verdict: Verdict)
      requires index <= |bytes|
      modifies this
      ensures verdict == VerdictOf(Scan(decode, old(Left()), depth))
      ensures verdict.Accepted? ==>
                old(index) < index <= |bytes| && Left() == Scan(decode, old(Left()), depth).text
      decreases |bytes| - index, 1
    {
      SkipSpace();
      hide Bracketed, Entries;
      if depth >= MAX_DEPTH || index == |bytes| { return Malformed; }
      if bytes[index] == QUOTE {
        var text := ReadString();
        return if text.Some? then Accepted else Malformed;
      }
      if bytes[index] == Open(true) || bytes[index] == Open(false) {
        verdict := ReadGroup(depth);
        return;
      }
      var start := index;
      SkipScalar();
      return if index > start then Accepted else Malformed;
    }

    method ReadGroup(depth: nat) returns (verdict: Verdict)
      requires index < |bytes|
      modifies this
      ensures verdict == VerdictOf(Bracketed(decode, old(Left()), depth))
      ensures verdict.Accepted? ==>
                old(index) < index <= |bytes| && Left() == Bracketed(decode, old(Left()), depth).text
      decreases |bytes| - index, 0
    {
      hide Entries;
      var braces := bytes[index] == Open(true);
      assert bytes[index..][1..] == bytes[index + 1..];
      index := index + 1;
      SkipSpace();
      if index < |bytes| && bytes[index] == Close(braces) {
        assert bytes[index..][1..] == bytes[index + 1..];
        index := index + 1;
        return Accepted;
      }
      verdict := ReadEntries(depth, braces);
    }

    method ReadEntries(depth: nat, braces: bool) returns (verdict: Verdict)
      requires index <= |bytes|
      modifies this
      ensures verdict == VerdictOf(Entries(decode, old(Left()), depth, braces, {}))
      ensures verdict.Accepted? ==>
                old(index) < index <= |bytes| && Left() == Entries(decode, old(Left()), depth, braces, {}).text
      decreases |bytes| - index, 3
    {
      var keys: set<string> := {};
      while index < |bytes|
        invariant old(index) <= index <= |bytes|
        invariant Entries(decode, Left(), depth, braces, keys) == Entries(decode, old(Left()), depth, braces, {})
      {
        hide Scan, Skip, NameAt, Bracketed, Element;
        if braces {
          var key;
          verdict, key := ReadName(keys);
          if !verdict.Accepted? { return; }
          keys := keys + {key};
        }
        var more;
        verdict, more := ReadElement(depth, braces, keys);
        if !more { return; }
      }
      return Malformed;
    }

    /** A value and the comma or bracket after it; more: it was a comma. */
    method ReadElement(depth: nat, braces: bool, ghost keys: set<string>) returns (verdict: Verdict, more: bool)
      requires index <= |bytes|
      modifies this
      ensures more || verdict.Accepted? ==> old(index) < index <= |bytes|
      ensures Element(decode, old(Left()), depth, braces, keys)
           == if more then Entries(decode, Left(), depth, braces, keys)
              else match verdict
                case Accepted => Rest(Left())
                case Malformed => Invalid
                case Repeated => Duplicate
      decreases |bytes| - index, 2
    {
      hide Scan, Skip, NameAt, Bracketed, Entries;
      verdict := ReadValue(depth + 1);
      if !verdict.Accepted? { return verdict, false; }
      SkipSpace();
      if index == |bytes| { return Malformed, false; }
      assert bytes[index..][1..] == bytes[index + 1..];
      index := index + 1;
      if bytes[index - 1] == Close(braces) { return Accepted, false; }
      if bytes[index - 1] != COMMA { return Malformed, false; }
      return Accepted, true;
    }

    /** A member name and its colon. */
    method ReadName(keys: set<string>) returns (verdict: Verdict, key: string)
      requires index < |bytes|
      modifies this
      ensures var r := NameAt(decode, old(Left()), keys);
              && verdict == VerdictOf(r.0)
              && (verdict.Accepted? ==> old(index) < index <= |bytes| && Left() == r.0.text && key == r.1)
    {
      key := "";
      SkipSpace();
      if index == |bytes| || bytes[index] != QUOTE { return Malformed, key; }
      var text := ReadString();
      if text.None? { return Malformed, key; }
      key := text.value;
      if key in keys { return Repeated, key; }
      SkipSpace();
      if index == |bytes| || bytes[index] != COLON { return Malformed, key; }
      assert bytes[index..][1..] == bytes[index + 1..];
      index := index + 1;
      return Accepted, key;
    }

    /** The whole text. */
    method Check() returns (verdict: Verdict)
      requires index == 0
      modifies this
      ensures verdict == Validate(decode, bytes)
    {
      assert bytes[0..] == bytes;
      verdict := ReadValue(0);
      if !verdict.Accepted? { return; }
      SkipSpace();
      return if index == |bytes| then Accepted else Malformed;
    }
  }

  // ---------- JSON texts ----------

  /** One character of a string literal: a plain byte, or a backslash with the byte after it. */
  datatype Unit = Plain(b: byte) | Escaped(b: byte)

  /** A value with the white space inside it; key and colon space count only in objects. */
  datatype Json =
    | Scalar(token: Bytes)
    | Text(units: seq<Unit>)
    | Group(braces: bool, gap: Bytes, entries: List)

  datatype List =
    | Nil
    | Entry(lead: Bytes, key: seq<Unit>, colon: Bytes, before: Bytes, value: Json, after: Bytes, rest: List)

  function Units(units: seq<Unit>): Bytes {
    if units == [] then []
    else (if units[0].Plain? then [units[0].b] else [ESCAPE, units[0].b]) + Units(units[1..])
  }

  function Quoted(units: seq<Unit>): Bytes { [QUOTE] + (Units(units) + [QUOTE]) }

  function Print(j: Json): Bytes
    decreases j, 0
  {
    match j
    case Scalar(token) => token
    case Text(units) => Quoted(units)
    case Group(braces, gap, entries) =>
      [Open(braces)] + (if entries.Nil? then gap + [Close(braces)] else PrintList(braces, entries))
  }

  /** All entries and the closing bracket. */
  function PrintList(braces: bool, e: List): Bytes
    requires e.Entry?
    decreases e, 0
  {
    var name := if braces then e.lead + (Quoted(e.key) + (e.colon + [COLON])) else [];
    name + (e.before + (Print(e.value) + (e.after + PrintRest(braces, e.rest))))
  }

  function PrintRest(braces: bool, e: List): Bytes
    decreases e, 1
  {
    if e.Nil? then [Close(braces)] else [COMMA] + PrintList(braces, e)
  }

  predicate Blank(s: Bytes) { forall i :: 0 <= i < |s| ==> IsSpace(s[i]) }

  predicate ProperUnits(units: seq<Unit>) {
    forall i :: 0 <= i < |units| ==> units[i].Plain? ==> units[i].b != QUOTE && units[i].b != ESCAPE
  }

  predicate ProperText(decode: Decoder, units: seq<Unit>) {
    ProperUnits(units) && decode(Quoted(units)).Some?
  }

  predicate ProperToken(token: Bytes) {
    && token != [] && token[0] != QUOTE && token[0] != Open(true) && token[0] != Open(false)
    && forall i :: 0 <= i < |token| ==> !IsStop(token[i])
  }

  /** Only white space is white space, literals are literals, and every string decodes. */
  predicate Proper(decode: Decoder, j: Json)
    decreases j
  {
    match j
    case Scalar(token) => ProperToken(token)
    case Text(units) => ProperText(decode, units)
    case Group(braces, gap, entries) => Blank(gap) && ProperList(decode, braces, entries)
  }

  predicate ProperList(decode: Decoder, braces: bool, e: List)
    decreases e
  {
    e.Nil?
    || (&& (braces ==> Blank(e.lead) && ProperText(decode, e.key) && Blank(e.colon))
        && Blank(e.before) && Proper(decode, e.value) && Blank(e.after)
        && ProperList(decode, braces, e.rest))
  }

  /** How deep values are nested; a scalar counts as one level. */
  function Depth(j: Json): nat {
    if j.Group? then 1 + DepthOfList(j.entries) else 1
  }

  function DepthOfList(e: List): nat {
    if e.Nil? then 0
    else if Depth(e.value) > DepthOfList(e.rest) then Depth(e.value) else DepthOfList(e.rest)
  }

  function Name(decode: Decoder, units: seq<Unit>): string {
    var text := decode(Quoted(units));
    if text.Some? then text.value else ""
  }

  function Names(decode: Decoder, e: List): seq<string> {
    if e.Nil? then [] else [Name(decode, e.key)] + Names(decode, e.rest)
  }

  predicate Distinct(names: seq<string>) {
    forall i, j :: 0 <= i < j < |names| ==> names[i] != names[j]
  }

  /** No object of the value repeats a decoded member name. */
  predicate Unique(decode: Decoder, j: Json) {
    j.Group? ==> (j.braces ==> Distinct(Names(decode, j.entries))) && UniqueValues(decode, j.entries)
  }

  predicate UniqueValues(decode: Decoder, e: List) {
    e.Entry? ==> Unique(decode, e.value) && UniqueValues(decode, e.rest)
  }

  // ---------- scanning a printed value ----------

  lemma {:induction false} SkipBlank(space: Bytes, s: Bytes)
    requires Blank(space)
    ensures Skip(space + s) == Skip(s)
  {
    if space == [] {
      assert space + s == s;
    } else {
      assert (space + s)[1..] == space[1..] + s;
      SkipBlank(space[1..], s);
    }
  }

  lemma {:induction false} ScalarEnds(token: Bytes, tail: Bytes)
    requires forall i :: 0 <= i < |token| ==> !IsStop(token[i])
    requires tail == [] || IsStop(tail[0])
    ensures AfterScalar(token + tail) == tail
  {
    if token == [] {
      assert token + tail == tail;
    } else {
      assert (token + tail)[1..] == token[1..] + tail;
      ScalarEnds(token[1..], tail);
    }
  }

  lemma {:induction false} StringEnds(units: seq<Unit>, tail: Bytes)
    requires ProperUnits(units)
    ensures AfterString(Units(units) + [QUOTE] + tail) == Some(tail)
  {
    var s := Units(units) + [QUOTE] + tail;
    if units == [] {
      assert s == [QUOTE] + tail;
    } else {
      var rest := Units(units[1..]) + [QUOTE] + tail;
      if units[0].Plain? {
        assert s == [units[0].b] + rest;
      } else {
        assert s == [ESCAPE, units[0].b] + rest;
      }
      StringEnds(units[1..], tail);
    }
  }

  lemma QuotedIsRead(decode: Decoder, units: seq<Unit>, tail: Bytes)
    requires ProperText(decode, units)
    ensures StringAt(decode, Quoted(units) + tail) == Some((Name(decode, units), tail))
  {
    var s := Quoted(units) + tail;
    StringEnds(units, tail);
    assert s[1..] == Units(units) + [QUOTE] + tail;
    assert s[..|s| - |tail|] == Quoted(units);
  }

  predicate Ends(tail: Bytes) { tail == [] || IsStop(tail[0]) }

  /** The first byte of a value is neither white space nor a closing bracket. */
  lemma FirstByte(decode: Decoder, j: Json)
    requires Proper(decode, j)
    ensures Print(j) != [] && !IsStop(Print(j)[0])
  {
  }

  lemma EntriesSkips(decode: Decoder, s: Bytes, depth: nat, braces: bool, keys: set<string>)
    ensures Entries(decode, Skip(s), depth, braces, keys) == Entries(decode, s, depth, braces, keys)
            || (Skip(s) == [] && !Entries(decode, s, depth, braces, keys).Rest?)
  {
    SkipTwice(s);
    if !braces && s != [] {
      assert Scan(decode, s, depth + 1) == Scan(decode, Skip(s), depth + 1);
      assert Entries(decode, s, depth, braces, keys) == Element(decode, s, depth, braces, keys);
      assert Element(decode, s, depth, braces, keys) == Element(decode, Skip(s), depth, braces, keys);
    }
  }

  lemma {:induction false} SkipTwice(s: Bytes)
    ensures Skip(Skip(s)) == Skip(s)
  {
    if s != [] && IsSpace(s[0]) { SkipTwice(s[1..]); }
  }

  /** The result that a value or a list should have: repeated names make a duplicate, excessive depth
      is invalid, and with both whichever comes first decides. */
  predicate Settles(r: Outcome, fits: bool, unique: bool, tail: Bytes) {
    if fits && unique then r == Rest(tail)
    else if fits then r == Duplicate
    else if unique then r == Invalid
    else !r.Rest?
  }

  lemma {:induction false} ScanValue(decode: Decoder, space: Bytes, j: Json, tail: Bytes, depth: nat)
    requires Blank(space) && Proper(decode, j) && Ends(tail)
    ensures Settles(Scan(decode, space + (Print(j) + tail), depth), depth + Depth(j) <= MAX_DEPTH, Unique(decode, j), tail)
    decreases j
  {
    var t := Print(j) + tail;
    SkipBlank(space, t);
    FirstByte(decode, j);
    assert Skip(t) == t;
    if depth < MAX_DEPTH {
      match j
      case Scalar(token) => ScalarEnds(token, tail);
      case Text(units) => QuotedIsRead(decode, units, tail);
      case Group(braces, gap, entries) => ScanGroup(decode, j, tail, depth);
    }
  }

  lemma BracketedOpens(decode: Decoder, braces: bool, s: Bytes, depth: nat)
    ensures Bracketed(decode, [Open(braces)] + s, depth)
         == if Skip(s) != [] && Skip(s)[0] == Close(braces) then Rest(Skip(s)[1..])
            else Entries(decode, Skip(s), depth, braces, {})
  {
    assert ([Open(braces)] + s)[1..] == s;
    hide Entries, Skip;
  }

  lemma ScanEmpty(decode: Decoder, braces: bool, gap: Bytes, tail: Bytes, depth: nat)
    requires Blank(gap)
    ensures Bracketed(decode, Print(Group(braces, gap, Nil)) + tail, depth) == Rest(tail)
  {
    var closed := [Close(braces)] + tail;
    assert Print(Group(braces, gap, Nil)) == [Open(braces)] + (gap + [Close(braces)]);
    hide Print;
    assert ([Open(braces)] + (gap + [Close(braces)])) + tail == [Open(braces)] + (gap + closed);
    BracketedOpens(decode, braces, gap + closed, depth);
    SkipBlank(gap, closed);
    assert Skip(closed) == closed && closed[1..] == tail;
    hide Entries, Skip, Bracketed, Print;
  }

  lemma {:induction false} ScanGroup(decode: Decoder, j: Json, tail: Bytes, depth: nat)
    requires j.Group? && Proper(decode, j) && depth < MAX_DEPTH
    ensures Settles(Bracketed(decode, Print(j) + tail, depth), depth + Depth(j) <= MAX_DEPTH, Unique(decode, j), tail)
    decreases j, 0
  {
    if j.entries.Nil? {
      ScanEmpty(decode, j.braces, j.gap, tail, depth);
      assert DepthOfList(j.entries) == 0 && Depth(j) == 1 && Names(decode, j.entries) == [];
      assert Unique(decode, j);
      hide Bracketed, Print, Unique, Depth;
    } else {
      var s := PrintList(j.braces, j.entries) + tail;
      assert Print(j) + tail == [Open(j.braces)] + s;
      assert ProperList(decode, j.braces, j.entries) && Depth(j) == 1 + DepthOfList(j.entries);
      UniqueList(decode, j.braces, j.entries, {});
      assert Unique(decode, j) <==> NewNames(decode, j.braces, j.entries, {});
      hide Bracketed, Entries, Print, PrintList, Names, Skip, ProperList, Proper, Unique, NewNames, Depth, DepthOfList;
      BracketedOpens(decode, j.braces, s, depth);
      ScanList(decode, j.braces, j.entries, tail, depth, {});
      FirstOfList(decode, j.braces, j.entries, tail);
      EntriesSkips(decode, s, depth, j.braces, {});
    }
  }

  lemma FirstOfList(decode: Decoder, braces: bool, e: List, tail: Bytes)
    requires e.Entry? && ProperList(decode, braces, e)
    ensures var u := Skip(PrintList(braces, e) + tail); u != [] && u[0] != Close(braces)
  {
    FirstByte(decode, e.value);
    var rest := e.after + PrintRest(braces, e.rest);
    if braces {
      var name := Units(e.key) + [QUOTE];
      MoveOut(e.lead, QUOTE, name, e.colon + [COLON], e.before + (Print(e.value) + rest), tail);
      SkipTo(e.lead, QUOTE, name + (e.colon + [COLON]) + (e.before + (Print(e.value) + rest)) + tail);
    } else {
      var v := Print(e.value);
      assert v == [v[0]] + v[1..];
      MoveOut(e.before, v[0], v[1..], rest, [], tail);
      assert PrintList(braces, e) == e.before + ([v[0]] + v[1..] + rest) + [];
      SkipTo(e.before, v[0], v[1..] + rest + [] + tail);
    }
    hide Print, PrintRest, ProperList, Blank, Skip;
  }

  lemma SkipTo(space: Bytes, b: byte, s: Bytes)
    requires Blank(space) && !IsSpace(b)
    ensures Skip(space + ([b] + s)) == [b] + s
  {
    SkipBlank(space, [b] + s);
  }

  lemma MoveOut(a: Bytes, b: byte, c: Bytes, d: Bytes, e: Bytes, t: Bytes)
    ensures a + ([b] + c + d) + e + t == a + ([b] + (c + d + e + t))
  {
  }

  /** What the scan asks of the entries that are left, given the names it has seen. */
  predicate NewNames(decode: Decoder, braces: bool, e: List, keys: set<string>) {
    e.Entry? ==>
      (braces ==> Name(decode, e.key) !in keys)
      && Unique(decode, e.value)
      && NewNames(decode, braces, e.rest, if braces then keys + {Name(decode, e.key)} else keys)
  }

  lemma {:induction false} UniqueList(decode: Decoder, braces: bool, e: List, keys: set<string>)
    ensures NewNames(decode, braces, e, keys) <==>
              && UniqueValues(decode, e)
              && (braces ==> Distinct(Names(decode, e))
                             && forall i :: 0 <= i < |Names(decode, e)| ==> Names(decode, e)[i] !in keys)
  {
    if e.Entry? {
      var name := Name(decode, e.key);
      UniqueList(decode, braces, e.rest, if braces then keys + {name} else keys);
      var names, rest := Names(decode, e), Names(decode, e.rest);
      assert names[0] == name && names[1..] == rest;
      hide Unique, Name;
      assert forall i :: 0 <= i < |rest| ==> rest[i] == names[i + 1];
      assert forall i :: 0 < i < |names| ==> names[i] == rest[i - 1];
    }
  }

  lemma {:induction false} ScanList(decode: Decoder, braces: bool, e: List, tail: Bytes, depth: nat, keys: set<string>)
    requires e.Entry? && ProperList(decode, braces, e)
    ensures Settles(Entries(decode, PrintList(braces, e) + tail, depth, braces, keys),
                    depth + 1 + DepthOfList(e) <= MAX_DEPTH, NewNames(decode, braces, e, keys), tail)
    decreases e, 1
  {
    var rest := e.before + (Print(e.value) + (e.after + PrintRest(braces, e.rest)));
    if braces {
      var named := Quoted(e.key) + (e.colon + ([COLON] + (rest + tail)));
      assert PrintList(braces, e) + tail == e.lead + named;
      SkipBlank(e.lead, named);
      assert Skip(named) == named;
      QuotedIsRead(decode, e.key, e.colon + ([COLON] + (rest + tail)));
      SkipBlank(e.colon, [COLON] + (rest + tail));
      assert ([COLON] + (rest + tail))[1..] == rest + tail;
    } else {
      assert PrintList(braces, e) + tail == rest + tail;
      FirstByte(decode, e.value);
    }
    var seen := if braces then keys + {Name(decode, e.key)} else keys;
    ScanElement(decode, braces, e, tail, depth, seen);
    hide Element, Print, ProperList;
  }

  lemma {:induction false} ScanElement(decode: Decoder, braces: bool, e: List, tail: Bytes, depth: nat, keys: set<string>)
    requires e.Entry? && ProperList(decode, braces, e)
    ensures Settles(Element(decode, e.before + (Print(e.value) + (e.after + PrintRest(braces, e.rest))) + tail, depth, braces, keys),
                    depth + 1 + DepthOfList(e) <= MAX_DEPTH,
                    Unique(decode, e.value) && NewNames(decode, braces, e.rest, keys), tail)
    decreases e, 0
  {
    var next := PrintRest(braces, e.rest) + tail;
    var s := e.before + (Print(e.value) + (e.after + next));
    Regroup(e.before, Print(e.value), e.after, PrintRest(braces, e.rest), tail);
    assert Ends(e.after + next) by { if e.after != [] { assert IsSpace(e.after[0]); } }
    ScanValue(decode, e.before, e.value, e.after + next, depth + 1);
    SkipBlank(e.after, next);
    RestBegins(braces, e.rest, tail);
    if e.rest.Entry? { ScanList(decode, braces, e.rest, tail, depth, keys); }
    assert e.rest.Nil? ==> NewNames(decode, braces, e.rest, keys);
    DepthOfEntry(e, depth);
    hide *;
    AfterElement(decode, s, e.after + next, next, depth, braces, keys);
    var v, r := Scan(decode, s, depth + 1), Element(decode, s, depth, braces, keys);
    var l := if e.rest.Entry? then Entries(decode, next[1..], depth, braces, keys) else Rest(tail);
    InTurn(v, l, r, e.after + next, tail, depth + 1 + Depth(e.value) <= MAX_DEPTH, Unique(decode, e.value),
           e.rest.Nil? || depth + 1 + DepthOfList(e.rest) <= MAX_DEPTH, NewNames(decode, braces, e.rest, keys));
  }

  lemma RestBegins(braces: bool, e: List, tail: Bytes)
    ensures var next := PrintRest(braces, e) + tail;
            && next != [] && Skip(next) == next && next[0] == (if e.Entry? then COMMA else Close(braces))
            && next[1..] == (if e.Entry? then PrintList(braces, e) + tail else tail)
  {
    var rest := if e.Entry? then PrintList(braces, e) else [];
    var first := if e.Entry? then COMMA else Close(braces);
    assert PrintRest(braces, e) == [first] + rest;
    hide PrintList, PrintRest, Skip;
    MoveFirst(first, rest, tail);
    NoSkip(first, rest + tail);
    assert [] + tail == tail;
  }

  lemma MoveFirst(b: byte, rest: Bytes, tail: Bytes)
    ensures ([b] + rest) + tail == [b] + (rest + tail) && ([b] + (rest + tail))[1..] == rest + tail
  {
  }

  lemma NoSkip(b: byte, s: Bytes)
    requires !IsSpace(b)
    ensures Skip([b] + s) == [b] + s
  {
  }

  lemma DepthOfEntry(e: List, depth: nat)
    requires e.Entry?
    ensures depth + 1 + DepthOfList(e) <= MAX_DEPTH <==>
              depth + 1 + Depth(e.value) <= MAX_DEPTH && (e.rest.Nil? || depth + 1 + DepthOfList(e.rest) <= MAX_DEPTH)
  {
  }

  /** Two results in turn: the second counts only if the first lets the scan go on. */
  lemma InTurn(v: Outcome, l: Outcome, r: Outcome, middle: Bytes, tail: Bytes, fits: bool, unique: bool, fits': bool, unique': bool)
    requires Settles(v, fits, unique, middle)
    requires (l == Rest(tail) && fits' && unique') || Settles(l, fits', unique', tail)
    requires r == if v == Rest(middle) then l else v
    ensures Settles(r, fits && fits', unique && unique', tail)
  {
  }

  lemma Regroup(a: Bytes, b: Bytes, c: Bytes, d: Bytes, t: Bytes)
    ensures a + (b + (c + d)) + t == a + (b + (c + (d + t)))
  {
  }

  /** What the scan does after the value of an entry. */
  lemma AfterElement(decode: Decoder, s: Bytes, rest: Bytes, next: Bytes, depth: nat, braces: bool, keys: set<string>)
    requires Skip(rest) == next && next != []
    ensures Scan(decode, s, depth + 1) == Rest(rest) ==>
              Element(decode, s, depth, braces, keys)
              == if next[0] == Close(braces) then Rest(next[1..])
                 else if next[0] != COMMA then Invalid else Entries(decode, next[1..], depth, braces, keys)
    ensures !Scan(decode, s, depth + 1).Rest? ==> Element(decode, s, depth, braces, keys) == Scan(decode, s, depth + 1)
  {
    hide Scan, Skip, Entries;
  }

  lemma {:induction false} OnlyBlankIsSkipped(s: Bytes)
    ensures Skip(s) == [] <==> Blank(s)
  {
    if s != [] { OnlyBlankIsSkipped(s[1..]); }
  }

  /** The verdict on every text of every value, with any white space before it and anything after it:
      text after the value is malformed, and so is excessive depth; repeated names are told apart. */
  lemma VerdictIsExact(decode: Decoder, before: Bytes, j: Json, after: Bytes)
    requires Blank(before) && Proper(decode, j) && Ends(after)
    ensures var v := Validate(decode, before + (Print(j) + after));
            && (Depth(j) <= MAX_DEPTH && Unique(decode, j) ==> v == if Blank(after) then Accepted else Malformed)
            && (Depth(j) <= MAX_DEPTH && !Unique(decode, j) ==> v == Repeated)
            && (Depth(j) > MAX_DEPTH && Unique(decode, j) ==> v == Malformed)
            && (Depth(j) > MAX_DEPTH && !Unique(decode, j) ==> v != Accepted)
  {
    ScanValue(decode, before, j, after, 0);
    OnlyBlankIsSkipped(after);
    hide Scan, Unique, Print, Skip;
  }

  /** Every text of every value, with any white space: accepted exactly if nothing is nested too
      deep and every object has distinct names. */
  lemma AcceptsExactlyUniqueKeys(decode: Decoder, before: Bytes, j: Json, after: Bytes)
    requires Blank(before) && Proper(decode, j) && Blank(after)
    ensures Validate(decode, before + (Print(j) + after)) == Accepted <==> Depth(j) <= MAX_DEPTH && Unique(decode, j)
  {
    assert Ends(after) by { if after != [] { assert IsSpace(after[0]); } }
    VerdictIsExact(decode, before, j, after);
    hide Validate, Unique, Print;
  }

  function Pair(a: byte, x: byte, rest: List): List { Entry([], [Plain(a)], [], [], Scalar([x]), [], rest) }

  lemma PairIsPrinted(a: byte, x: byte, braces: bool, rest: List)
    ensures PrintList(braces, Pair(a, x, rest))
         == (if braces then ['"' as int, a, '"' as int, ':' as int] else []) + ([x] + PrintRest(braces, rest))
  {
    assert [Plain(a)][1..] == [] && Units([Plain(a)]) == [a];
  }

  /** In characters: {"a":x,"b":y} repeats a name exactly if its two strings decode to the same text,
      [x,y] repeats none, and white space is the blank, the tabulator and the two line ends. */
  lemma InCharacters(decode: Decoder, a: byte, b: byte, x: byte, y: byte)
    requires ProperText(decode, [Plain(a)]) && ProperText(decode, [Plain(b)]) && ProperToken([x]) && ProperToken([y])
    ensures Validate(decode, [' ' as int, '\t' as int, '\r' as int, '\n' as int]
                             + (['{' as int, '"' as int, a, '"' as int, ':' as int, x, ',' as int,
                                 '"' as int, b, '"' as int, ':' as int, y, '}' as int] + []))
         == if decode(['"' as int, a, '"' as int]) == decode(['"' as int, b, '"' as int]) then Repeated else Accepted
    ensures Validate(decode, [] + (['[' as int, x, ',' as int, y, ']' as int] + [])) == Accepted
  {
    var two := Pair(a, x, Pair(b, y, Nil));
    var record, list := Group(true, [], two), Group(false, [], two);
    PairIsPrinted(a, x, true, Pair(b, y, Nil));
    PairIsPrinted(b, y, true, Nil);
    PairIsPrinted(a, x, false, Pair(b, y, Nil));
    PairIsPrinted(b, y, false, Nil);
    assert Print(record) == ['{' as int, '"' as int, a, '"' as int, ':' as int, x, ',' as int,
                             '"' as int, b, '"' as int, ':' as int, y, '}' as int];
    assert Print(list) == ['[' as int, x, ',' as int, y, ']' as int];
    PairIsProper(decode, a, b, x, y);
    hide Print, Validate, Unique, Depth, Proper, ProperText;
    VerdictIsExact(decode, [' ' as int, '\t' as int, '\r' as int, '\n' as int], record, []);
    VerdictIsExact(decode, [], list, []);
  }

  lemma OnePair(decode: Decoder, a: byte, x: byte, rest: List)
    requires ProperText(decode, [Plain(a)]) && ProperToken([x])
    ensures var e := Pair(a, x, rest);
            && DepthOfList(e) == (if DepthOfList(rest) > 1 then DepthOfList(rest) else 1)
            && Names(decode, e) == [Name(decode, [Plain(a)])] + Names(decode, rest)
            && (UniqueValues(decode, e) <==> UniqueValues(decode, rest))
            && forall braces :: ProperList(decode, braces, rest) ==> ProperList(decode, braces, e)
  {
    hide ProperToken, Quoted, ProperUnits;
    var e, v := Pair(a, x, rest), Scalar([x]);
    assert e.value == v && e.rest == rest && e.key == [Plain(a)];
    assert Depth(v) == 1 && Unique(decode, v) && Proper(decode, v);
    hide Depth, Unique, Proper;
    forall braces | ProperList(decode, braces, rest)
      ensures ProperList(decode, braces, e)
    {
    }
  }

  lemma PairIsProper(decode: Decoder, a: byte, b: byte, x: byte, y: byte)
    requires ProperText(decode, [Plain(a)]) && ProperText(decode, [Plain(b)]) && ProperToken([x]) && ProperToken([y])
    ensures forall braces ::
              var j := Group(braces, [], Pair(a, x, Pair(b, y, Nil)));
              && Proper(decode, j) && Depth(j) == 2
              && (Unique(decode, j) <==> !braces || decode(['"' as int, a, '"' as int]) != decode(['"' as int, b, '"' as int]))
  {
    assert Quoted([Plain(a)]) == ['"' as int, a, '"' as int] by { assert [Plain(a)][1..] == [] && Units([Plain(a)]) == [a]; }
    assert Quoted([Plain(b)]) == ['"' as int, b, '"' as int] by { assert [Plain(b)][1..] == [] && Units([Plain(b)]) == [b]; }
    var last := Pair(b, y, Nil);
    var two := Pair(a, x, last);
    OnePair(decode, b, y, Nil);
    OnePair(decode, a, x, last);
    assert DepthOfList(Nil) == 0 && Names(decode, Nil) == [] && UniqueValues(decode, Nil);
    var names := Names(decode, two);
    assert |names| == 2 && names[0] == Name(decode, [Plain(a)]) && names[1] == Name(decode, [Plain(b)]);
    assert Distinct(names) <==> names[0] != names[1];
    assert forall braces :: ProperList(decode, braces, Nil);
    hide ProperToken, Units, Quoted, DepthOfList, Names, UniqueValues, ProperList, Distinct;
    forall braces
      ensures Proper(decode, Group(braces, [], two)) && Depth(Group(braces, [], two)) == 2
      ensures Unique(decode, Group(braces, [], two)) <==> !braces || Distinct(names)
    {
    }
  }
}
