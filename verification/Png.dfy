/**
 Complete-framing check of a staged PNG: a loop over a file that may return short reads,
 proved to accept exactly the serializations of well-formed chunk lists
 (sections 5.2, 5.3 and 5.6 of the W3C PNG specification).
 */
module Png {
  import opened Words
  import opened Wrappers
  import Crc

  const SIGNATURE: seq<byte> := [137, 80, 78, 71, 13, 10, 26, 10]
  const IHDR: seq<byte> := [73, 72, 68, 82]
  const IDAT: seq<byte> := [73, 68, 65, 84]
  const IEND: seq<byte> := [73, 69, 78, 68]
  const TWO32 := 0x1_0000_0000

  datatype Name = Header | Pixels | End | Other

  function NameOf(kind: seq<byte>): Name {
    if kind == IHDR then Header else if kind == IDAT then Pixels else if kind == IEND then End else Other
  }

  datatype Chunk = Chunk(kind: seq<byte>, data: seq<byte>) {
    predicate Valid() { |kind| == 4 && |data| < TWO32 }
    function Name(): Name { NameOf(kind) }
  }

  // ---------- the format ----------

  function Number(d: seq<byte>): nat
    requires |d| == 4
  {
    ((d[0] as int * 256 + d[1]) * 256 + d[2]) * 256 + d[3]
  }

  function BigEndian(n: nat): (d: seq<byte>)
    requires n < TWO32
    ensures |d| == 4
  {
    [n / 0x100_0000, n / 0x1_0000 % 256, n / 256 % 256, n % 256]
  }

  lemma NumberRoundTrip(n: nat)
    requires n < TWO32
    ensures Number(BigEndian(n)) == n
  {
    var a, b, c := n / 256, n / 0x1_0000, n / 0x100_0000;
    assert a / 256 == b && b / 256 == c;
  }

  lemma BigEndianRoundTrip(d: seq<byte>)
    requires |d| == 4
    ensures Number(d) < TWO32 && BigEndian(Number(d)) == d
  {
    var n := Number(d);
    assert n / 256 == (d[0] as int * 256 + d[1]) * 256 + d[2];
    assert n / 0x1_0000 == d[0] as int * 256 + d[1];
    assert n / 0x100_0000 == d[0];
    assert n % 256 == d[3] && n / 256 % 256 == d[2] && n / 0x1_0000 % 256 == d[1];
  }

  lemma PowerWord()
    ensures Power(32) == TWO32
  {
    assert Power(8) == 0x100;
    assert Power(16) == 0x1_0000;
    assert Power(24) == 0x100_0000;
  }

  function ChunkCrc(kind: seq<byte>, data: seq<byte>): (n: nat)
    ensures n < TWO32
  {
    DigitsOfValue(Crc.Checksum(kind + data), 0);
    PowerWord();
    Value(Crc.Checksum(kind + data))
  }

  function Encode(c: Chunk): seq<byte>
    requires c.Valid()
  {
    BigEndian(|c.data|) + c.kind + c.data + BigEndian(ChunkCrc(c.kind, c.data))
  }

  ghost predicate AllValid(cs: seq<Chunk>) { forall c :: c in cs ==> c.Valid() }

  function EncodeAll(cs: seq<Chunk>): seq<byte>
    requires AllValid(cs)
  {
    if cs == [] then [] else Encode(cs[0]) + EncodeAll(cs[1..])
  }

  function Serialize(cs: seq<Chunk>): seq<byte>
    requires AllValid(cs)
  {
    SIGNATURE + EncodeAll(cs)
  }

  /** One leading 13-byte IHDR, one contiguous run of IDAT chunks, a final empty IEND. */
  ghost predicate WellFormed(cs: seq<Chunk>) {
    && AllValid(cs)
    && cs != []
    && cs[0].Name() == Header && |cs[0].data| == 13
    && cs[|cs| - 1].Name() == End && cs[|cs| - 1].data == []
    && Without(cs, Header, 1, |cs|)
    && Without(cs, End, 0, |cs| - 1)
    && HasPixels(cs)
    && Contiguous(cs)
  }

  ghost predicate Without(cs: seq<Chunk>, name: Name, from: int, to: int)
    requires 0 <= from && to <= |cs|
  {
    forall i :: from <= i < to ==> cs[i].Name() != name
  }

  ghost predicate HasPixels(cs: seq<Chunk>) {
    exists i :: 0 <= i < |cs| && cs[i].Name() == Pixels
  }

  ghost predicate Contiguous(cs: seq<Chunk>) {
    forall i, j, k :: 0 <= i < j < k < |cs| && cs[i].Name() == Pixels && cs[k].Name() == Pixels ==> cs[j].Name() == Pixels
  }

  /** Every chunk before a pixel chunk is a pixel chunk. */
  ghost predicate PixelsLead(cs: seq<Chunk>) {
    forall j, k :: 0 <= j < k < |cs| && cs[k].Name() == Pixels ==> cs[j].Name() == Pixels
  }

  // ---------- the scan ----------

  /** The chunk at the front of the bytes, with a matching checksum, and the bytes after it. */
  function Next(b: seq<byte>): (r: Option<(Chunk, seq<byte>)>)
    ensures r.Some? ==> |r.value.1| < |b|
  {
    if |b| < 12 || Number(b[..4]) > |b| - 12 then None
    else
      var n := Number(b[..4]);
      if Number(b[8 + n..12 + n]) != ChunkCrc(b[4..8], b[8..8 + n]) then None
      else Some((Chunk(b[4..8], b[8..8 + n]), b[12 + n..]))
  }

  /** May the chunk come next? first: no chunk was read; ended: the pixel run is over. */
  predicate Admitted(name: Name, size: nat, first: bool, ended: bool) {
    && (if first then name == Header && size == 13 else name != Header)
    && (name == Pixels ==> !ended)
  }

  function PixelsAfter(name: Name, pixels: bool): bool { pixels || name == Pixels }

  function EndedAfter(name: Name, pixels: bool, ended: bool): bool { ended || (name != Pixels && pixels) }

  /** What the loop decides from the unread bytes and its three flags. */
  function Scan(b: seq<byte>, first: bool, pixels: bool, ended: bool): Option<seq<Chunk>>
    decreases |b|
  {
    match Next(b)
    case None => None
    case Some((c, rest)) =>
      if !Admitted(c.Name(), |c.data|, first, ended) then None
      else if c.Name() == End then
        if PixelsAfter(c.Name(), pixels) && c.data == [] && rest == [] then Some([c]) else None
      else
        match Scan(rest, false, PixelsAfter(c.Name(), pixels), EndedAfter(c.Name(), pixels, ended))
        case None => None
        case Some(cs) => Some([c] + cs)
  }

  function Decode(b: seq<byte>): Option<seq<Chunk>> {
    if |b| >= 8 && b[..8] == SIGNATURE then Scan(b[8..], true, false, false) else None
  }

  // ---------- the file and the loop ----------

  class File {
    const content: seq<byte>
    var pos: nat

    ghost predicate Valid()
      reads this
    {
      pos <= |content|
    }

    constructor (content: seq<byte>)
      ensures Valid() && this.content == content && pos == 0
    {
      this.content := content;
      pos := 0;
    }

    /** At most upTo bytes; empty only at the end of the file. */
    method Read(upTo: nat) returns (part: seq<byte>)
      requires Valid() && upTo > 0
      modifies this
      ensures Valid()
      ensures old(pos) <= pos <= old(pos) + upTo && part == content[old(pos)..pos]
      ensures part == [] <==> old(pos) == |content|
    {
      var available := |content| - pos;
      if available == 0 {
        return [];
      }
      var n: nat :| 1 <= n <= available && n <= upTo;
      part := content[pos..pos + n];
      pos := pos + n;
    }

    method ReadExactly(count: nat) returns (r: Option<seq<byte>>)
      requires Valid()
      modifies this
      ensures Valid()
      ensures r.Some? <==> old(pos) + count <= |content|
      ensures r.Some? ==> pos == old(pos) + count && r.value == content[old(pos)..pos]
    {
      var data := [];
      while |data| < count
        invariant Valid() && |data| <= count
        invariant pos == old(pos) + |data| && data == content[old(pos)..pos]
        decreases count - |data|
      {
        var part := Read(count - |data|);
        if part == [] {
          return None;
        }
        data := data + part;
      }
      r := Some(data);
    }

    /** The register after the next count bytes, read in pieces of at most 1 MiB. */
    method ReadPayload(table: seq<Word>, seed: Word, ghost kind: seq<byte>, count: nat) returns (r: Option<Word>)
      requires Valid() && Crc.IsTable(table) && seed == Crc.Register(kind)
      modifies this
      ensures Valid()
      ensures r.Some? <==> old(pos) + count <= |content|
      ensures r.Some? ==> pos == old(pos) + count && r.value == Crc.Register(kind + content[old(pos)..pos])
    {
      var crc, payload := seed, count;
      assert kind + content[pos..pos] == kind;
      while payload > 0
        invariant Valid() && 0 <= payload <= count && pos == old(pos) + count - payload
        invariant crc == Crc.Register(kind + content[old(pos)..pos])
      {
        ghost var start := pos;
        var part := ReadExactly(if payload < 1024 * 1024 then payload else 1024 * 1024);
        if part.None? {
          return None;
        }
        crc := Crc.Extend(table, crc, part.value, kind + content[old(pos)..start]);
        assert kind + content[old(pos)..start] + part.value == kind + content[old(pos)..pos];
        payload := payload - |part.value|;
      }
      r := Some(crc);
    }

    method ReadHeader() returns (r: Option<(nat, seq<byte>)>)
      requires Valid()
      modifies this
      ensures Valid()
      ensures r.Some? <==> old(pos) + 8 <= |content|
      ensures r.Some? ==> pos == old(pos) + 8 && r.value == (CountAt(content, old(pos)), KindAt(content, old(pos)))
    {
      var header := ReadExactly(8);
      if header.None? {
        return None;
      }
      SliceOfSlice(content, old(pos), pos, 0, 4);
      SliceOfSlice(content, old(pos), pos, 4, 8);
      r := Some((Number(header.value[..4]), header.value[4..]));
    }

    /** Payload and stored checksum of one chunk, after its header. */
    method ReadBody(table: seq<Word>, kind: seq<byte>, count: nat) returns (ok: bool)
      requires Valid() && Crc.IsTable(table)
      modifies this
      ensures Valid()
      ensures ok <==> BodyAt(content, old(pos), kind, count)
      ensures ok ==> pos == old(pos) + count + 4
    {
      var crc := Crc.Extend(table, Ones(32), kind, []);
      assert [] + kind == kind;
      var payload := ReadPayload(table, crc, kind, count);
      if payload.None? {
        return false;
      }
      var stored := ReadExactly(4);
      if stored.None? {
        return false;
      }
      ok := Number(stored.value) == Value(Xor(payload.value, Ones(32)));
    }

    method Validate(table: seq<Word>, bytes: nat) returns (ok: bool)
      requires Valid() && pos == 0 && Crc.IsTable(table)
      modifies this
      ensures Valid()
      ensures ok <==> bytes <= |content| && Decode(content[..bytes]).Some?
      ensures ok ==> pos == 0
    {
      if bytes < 8 {
        return false;
      }
      var signature := ReadExactly(8);
      if signature.None? || signature.value != SIGNATURE {
        assert bytes <= |content| ==> content[..bytes][..8] == content[..8];
        return false;
      }
      DecodeIsScanFrom(content, bytes);
      ok := ValidateChunks(table, bytes);
    }

    method ValidateChunks(table: seq<Word>, bytes: nat) returns (ok: bool)
      requires Valid() && pos == 8 <= bytes && Crc.IsTable(table)
      modifies this
      ensures Valid()
      ensures ok == ScanFrom(content, 8, bytes, true, false, false)
      ensures ok ==> pos == 0
    {
      var remaining := bytes - 8;
      var first, pixels, ended := true, false, false;
      hide BodyAt, CountAt, KindAt, ScanFrom, Crc.IsTable, NameOf;
      ghost var accepted := ScanFrom(content, 8, bytes, true, false, false);
      while remaining >= 12
        invariant Valid() && remaining >= 0 && pos + remaining == bytes
        invariant accepted == ScanFrom(content, pos, bytes, first, pixels, ended)
        decreases remaining
      {
        ScanRound(content, pos, bytes, first, pixels, ended);
        var header := ReadHeader();
        if header.None? {
          return false;
        }
        var (count, kind) := header.value;
        if count > remaining - 12 {
          return false;
        }
        if first {
          if NameOf(kind) != Header || count != 13 {
            return false;
          }
          first := false;
        } else if NameOf(kind) == Header {
          return false;
        }
        if NameOf(kind) == Pixels {
          if ended {
            return false;
          }
          pixels := true;
        } else if pixels {
          ended := true;
        }
        var intact := ReadBody(table, kind, count);
        if !intact {
          return false;
        }
        remaining := remaining - (count + 12);
        if NameOf(kind) == End {
          if pixels && count == 0 && remaining == 0 {
            pos := 0;
            return true;
          }
          return false;
        }
      }
      TooShort(content, pos, bytes, first, pixels, ended);
      return false;
    }
  }

  /** The payload at p is followed by its checksum. */
  ghost predicate BodyAt(s: seq<byte>, p: nat, kind: seq<byte>, count: nat) {
    && p + count + 4 <= |s|
    && Number(s[p + count..p + count + 4]) == ChunkCrc(kind, s[p..p + count])
  }

  ghost predicate ScanFrom(s: seq<byte>, p: nat, bytes: nat, first: bool, pixels: bool, ended: bool) {
    p <= bytes <= |s| && Scan(s[p..bytes], first, pixels, ended).Some?
  }

  lemma DecodeIsScanFrom(s: seq<byte>, bytes: nat)
    requires 8 <= bytes && 8 <= |s| && s[..8] == SIGNATURE
    ensures bytes <= |s| && Decode(s[..bytes]).Some? <==> ScanFrom(s, 8, bytes, true, false, false)
  {
    if bytes <= |s| {
      SliceOfSlice(s, 0, bytes, 0, 8);
      SliceOfSlice(s, 0, bytes, 8, bytes);
    }
  }

  lemma TooShort(s: seq<byte>, p: nat, bytes: nat, first: bool, pixels: bool, ended: bool)
    requires bytes < p + 12
    ensures !ScanFrom(s, p, bytes, first, pixels, ended)
  {
  }

  function CountAt(s: seq<byte>, p: nat): nat
    requires p + 8 <= |s|
  {
    Number(s[p..p + 4])
  }

  function KindAt(s: seq<byte>, p: nat): seq<byte>
    requires p + 8 <= |s|
  {
    s[p + 4..p + 8]
  }

  lemma NextAt(s: seq<byte>, p: nat, bytes: nat)
    requires p + 12 <= bytes <= |s|
    ensures
      var n, kind := CountAt(s, p), KindAt(s, p);
      Next(s[p..bytes]) ==
      if n <= bytes - p - 12 && BodyAt(s, p + 8, kind, n)
      then Some((Chunk(kind, s[p + 8..p + 8 + n]), s[p + 12 + n..bytes])) else None
  {
    SliceOfSlice(s, p, bytes, 0, 4);
    SliceOfSlice(s, p, bytes, 4, 8);
    var n := CountAt(s, p);
    if n <= bytes - p - 12 {
      SliceOfSlice(s, p, bytes, 8, 8 + n);
      SliceOfSlice(s, p, bytes, 8 + n, 12 + n);
      SliceOfSlice(s, p, bytes, 12 + n, bytes - p);
    }
  }

  /** One round of the scan, in terms of positions in the file. */
  lemma ScanRound(s: seq<byte>, p: nat, bytes: nat, first: bool, pixels: bool, ended: bool)
    requires p + 12 <= bytes
    ensures p + 8 > |s| ==> !ScanFrom(s, p, bytes, first, pixels, ended)
    ensures p + 8 <= |s| ==>
              var n, kind := CountAt(s, p), KindAt(s, p);
              var name := NameOf(kind);
              ScanFrom(s, p, bytes, first, pixels, ended) ==
              (n <= bytes - p - 12 && Admitted(name, n, first, ended) && BodyAt(s, p + 8, kind, n) &&
              if name == End then PixelsAfter(name, pixels) && n == 0 && p + 12 + n == bytes
              else ScanFrom(s, p + 12 + n, bytes, false, PixelsAfter(name, pixels), EndedAfter(name, pixels, ended)))
  {
    if bytes <= |s| {
      NextAt(s, p, bytes);
      var n := CountAt(s, p);
      if n <= bytes - p - 12 {
        assert s[p + 12 + n..bytes] == [] <==> p + 12 + n == bytes;
        assert s[p + 8..p + 8 + n] == [] <==> n == 0;
      }
    }
  }

  // ---------- the scan inverts the serialization ----------

  /** The flags as a state machine over the chunk list. */
  ghost predicate Follows(cs: seq<Chunk>, first: bool, pixels: bool, ended: bool)
    decreases |cs|
  {
    && cs != []
    && cs[0].Valid() && Admitted(cs[0].Name(), |cs[0].data|, first, ended)
    && if cs[0].Name() == End then |cs| == 1 && cs[0].data == [] && pixels
       else Follows(cs[1..], false, PixelsAfter(cs[0].Name(), pixels), EndedAfter(cs[0].Name(), pixels, ended))
  }

  lemma {:induction false} FollowsValid(cs: seq<Chunk>, first: bool, pixels: bool, ended: bool)
    requires Follows(cs, first, pixels, ended)
    ensures AllValid(cs)
    decreases |cs|
  {
    if cs[0].Name() != End {
      FollowsValid(cs[1..], false, PixelsAfter(cs[0].Name(), pixels), EndedAfter(cs[0].Name(), pixels, ended));
      assert cs == [cs[0]] + cs[1..];
    }
  }

  lemma NextEncoded(c: Chunk, tail: seq<byte>)
    requires c.Valid()
    ensures Next(Encode(c) + tail) == Some((c, tail))
  {
    var b, n := Encode(c) + tail, |c.data|;
    NumberRoundTrip(n);
    NumberRoundTrip(ChunkCrc(c.kind, c.data));
    assert b[..4] == BigEndian(n);
    assert b[4..8] == c.kind && b[8..8 + n] == c.data;
    assert b[8 + n..12 + n] == BigEndian(ChunkCrc(c.kind, c.data));
    assert b[12 + n..] == tail;
  }

  lemma NextSound(b: seq<byte>)
    requires Next(b).Some?
    ensures
      var (c, rest) := Next(b).value;
      c.Valid() && b == Encode(c) + rest
  {
    var n := Number(b[..4]);
    BigEndianRoundTrip(b[..4]);
    BigEndianRoundTrip(b[8 + n..12 + n]);
    assert b == b[..4] + b[4..8] + b[8..8 + n] + b[8 + n..12 + n] + b[12 + n..];
  }

  lemma {:induction false} ScanEncoded(cs: seq<Chunk>, first: bool, pixels: bool, ended: bool)
    requires Follows(cs, first, pixels, ended)
    ensures AllValid(cs) && Scan(EncodeAll(cs), first, pixels, ended) == Some(cs)
    decreases |cs|
  {
    FollowsValid(cs, first, pixels, ended);
    var c := cs[0];
    var tail := cs[1..];
    NextEncoded(c, EncodeAll(tail));
    assert cs == [c] + tail;
    assert Next(EncodeAll(cs)) == Some((c, EncodeAll(tail)));
    if c.Name() == End {
      assert tail == [] && cs == [c];
    } else {
      ScanEncoded(tail, false, PixelsAfter(c.Name(), pixels), EndedAfter(c.Name(), pixels, ended));
    }
  }

  lemma {:induction false} ScanSound(b: seq<byte>, first: bool, pixels: bool, ended: bool)
    requires Scan(b, first, pixels, ended).Some?
    ensures
      var cs := Scan(b, first, pixels, ended).value;
      Follows(cs, first, pixels, ended) && AllValid(cs) && EncodeAll(cs) == b
    decreases |b|
  {
    NextSound(b);
    var (c, rest) := Next(b).value;
    if c.Name() == End {
      assert [c][1..] == [];
      assert EncodeAll([c]) == Encode(c) + [];
    } else {
      ScanSound(rest, false, PixelsAfter(c.Name(), pixels), EndedAfter(c.Name(), pixels, ended));
      var tail := Scan(rest, false, PixelsAfter(c.Name(), pixels), EndedAfter(c.Name(), pixels, ended)).value;
      var cs := [c] + tail;
      assert cs[1..] == tail;
    }
  }

  // ---------- the state machine is the declarative grammar ----------

  ghost predicate Shape(cs: seq<Chunk>, first: bool, pixels: bool, ended: bool) {
    && AllValid(cs)
    && cs != []
    && (if first then cs[0].Name() == Header && |cs[0].data| == 13 else cs[0].Name() != Header)
    && cs[|cs| - 1].Name() == End && cs[|cs| - 1].data == []
    && Without(cs, Header, 1, |cs|)
    && Without(cs, End, 0, |cs| - 1)
    && (pixels || HasPixels(cs))
    && (ended ==> Without(cs, Pixels, 0, |cs|))
    && (pixels ==> PixelsLead(cs))
    && Contiguous(cs)
  }

  lemma {:induction false} FollowsIsShape(cs: seq<Chunk>, first: bool, pixels: bool, ended: bool)
    requires ended ==> pixels
    ensures Follows(cs, first, pixels, ended) <==> Shape(cs, first, pixels, ended)
    decreases |cs|
  {
    if |cs| >= 2 {
      var c, tail := cs[0], cs[1..];
      var pixels', ended' := PixelsAfter(c.Name(), pixels), EndedAfter(c.Name(), pixels, ended);
      FollowsIsShape(tail, false, pixels', ended');
      if Shape(tail, false, pixels', ended') && Follows(cs, first, pixels, ended) {
        ShapeCons(cs, first, pixels, ended);
      }
      if Shape(cs, first, pixels, ended) {
        ShapeTail(cs, first, pixels, ended);
      }
    }
  }

  lemma ShapeCons(cs: seq<Chunk>, first: bool, pixels: bool, ended: bool)
    requires |cs| >= 2 && (ended ==> pixels)
    requires cs[0].Valid() && Admitted(cs[0].Name(), |cs[0].data|, first, ended) && cs[0].Name() != End
    requires Shape(cs[1..], false, PixelsAfter(cs[0].Name(), pixels), EndedAfter(cs[0].Name(), pixels, ended))
    ensures Shape(cs, first, pixels, ended)
  {
    hide NameOf;
    var c, tail := cs[0], cs[1..];
    assert cs == [c] + tail;
    assert forall i :: 0 < i < |cs| ==> cs[i] == tail[i - 1];
    if !pixels && c.Name() != Pixels {
      var i :| 0 <= i < |tail| && tail[i].Name() == Pixels;
      assert cs[i + 1].Name() == Pixels;
    }
    assert pixels ==> PixelsLead(cs) by {
      if pixels && c.Name() != Pixels {
        assert forall k :: 0 < k < |cs| ==> cs[k].Name() != Pixels;
      }
    }
    ContiguousCons(cs);
    hide Contiguous;
  }

  lemma ContiguousCons(cs: seq<Chunk>)
    requires cs != [] && Contiguous(cs[1..]) && (cs[0].Name() == Pixels ==> PixelsLead(cs))
    ensures Contiguous(cs)
  {
    hide NameOf;
    var tail := cs[1..];
    forall i, j, k | 0 <= i < j < k < |cs| && cs[i].Name() == Pixels && cs[k].Name() == Pixels
      ensures cs[j].Name() == Pixels
    {
      assert cs[j] == tail[j - 1] && cs[k] == tail[k - 1];
      if i > 0 { assert cs[i] == tail[i - 1]; }
    }
  }

  lemma ShapeTail(cs: seq<Chunk>, first: bool, pixels: bool, ended: bool)
    requires |cs| >= 2 && (ended ==> pixels)
    requires Shape(cs, first, pixels, ended)
    ensures Shape(cs[1..], false, PixelsAfter(cs[0].Name(), pixels), EndedAfter(cs[0].Name(), pixels, ended))
  {
    hide NameOf;
    var c, tail := cs[0], cs[1..];
    assert forall i :: 0 <= i < |tail| ==> tail[i] == cs[i + 1];
    if !pixels && c.Name() != Pixels {
      var i :| 0 <= i < |cs| && cs[i].Name() == Pixels;
      assert tail[i - 1].Name() == Pixels;
    }
  }

  // ---------- results ----------

  function Letters(a: char, b: char, c: char, d: char): seq<byte>
    requires (a as int) < 128 && (b as int) < 128 && (c as int) < 128 && (d as int) < 128
  {
    [a as int, b as int, c as int, d as int]
  }

  /** The format in the bytes of the chunk types: one IHDR, in front and with 13 bytes; one IEND, at the
      end and empty; at least one IDAT, and none after a chunk of another type that follows one. */
  lemma FormatInBytes(cs: seq<Chunk>)
    ensures var ihdr, idat, iend := Letters('I', 'H', 'D', 'R'), Letters('I', 'D', 'A', 'T'), Letters('I', 'E', 'N', 'D');
            WellFormed(cs) <==>
              && AllValid(cs) && cs != []
              && cs[0].kind == ihdr && |cs[0].data| == 13 && (forall i :: 1 <= i < |cs| ==> cs[i].kind != ihdr)
              && cs[|cs| - 1].kind == iend && cs[|cs| - 1].data == [] && (forall i :: 0 <= i < |cs| - 1 ==> cs[i].kind != iend)
              && (exists i :: 0 <= i < |cs| && cs[i].kind == idat)
              && forall i, j, k :: 0 <= i < j < k < |cs| && cs[i].kind == idat && cs[k].kind == idat ==> cs[j].kind == idat
    ensures SIGNATURE[1..4] == Letters('P', 'N', 'G', '\r')[..3]
  {
    assert Letters('I', 'H', 'D', 'R') == IHDR && Letters('I', 'D', 'A', 'T') == IDAT && Letters('I', 'E', 'N', 'D') == IEND;
    forall c: Chunk
      ensures (c.Name() == Header <==> c.kind == IHDR) && (c.Name() == Pixels <==> c.kind == IDAT)
      ensures c.Name() == End <==> c.kind == IEND
    {
      assert IHDR[1] != IDAT[1] && IHDR[1] != IEND[1] && IDAT[1] != IEND[1];
    }
    hide NameOf, Letters, AllValid;
  }

  /** Serializing a well-formed list and validating it gives the list back. */
  lemma SerializeThenDecode(cs: seq<Chunk>)
    requires WellFormed(cs)
    ensures Decode(Serialize(cs)) == Some(cs)
  {
    assert Shape(cs, true, false, false);
    FollowsIsShape(cs, true, false, false);
    ScanEncoded(cs, true, false, false);
    assert Serialize(cs)[8..] == EncodeAll(cs);
  }

  /** Accepted bytes decode to a well-formed list that serializes to the same bytes. */
  lemma DecodeThenSerialize(b: seq<byte>)
    requires Decode(b).Some?
    ensures WellFormed(Decode(b).value) && Serialize(Decode(b).value) == b
  {
    var cs := Decode(b).value;
    ScanSound(b[8..], true, false, false);
    FollowsIsShape(cs, true, false, false);
    assert b == SIGNATURE + b[8..];
  }

  /** Acceptance is exactly membership in the format, and the chunk list is unique. */
  lemma AcceptsExactlyTheFormat(b: seq<byte>)
    ensures Decode(b).Some? <==> exists cs :: WellFormed(cs) && Serialize(cs) == b
    ensures forall cs, cs' :: WellFormed(cs) && WellFormed(cs') && Serialize(cs) == b == Serialize(cs') ==> cs == cs'
  {
    if Decode(b).Some? {
      DecodeThenSerialize(b);
    }
    forall cs | WellFormed(cs) && Serialize(cs) == b
      ensures Decode(b) == Some(cs)
    {
      SerializeThenDecode(cs);
    }
  }
}
