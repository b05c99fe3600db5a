/**
 The PNG checksum. The program updates a 32-bit register one byte at a time through a
 256-entry table. Section 5.5 of the W3C PNG specification defines the checksum as the
 remainder of a division of bit polynomials. This module defines the register machine and the
 division separately and proves that they agree on every byte string.
 */
module Crc {
  import opened Words

  // ---------- the shift register ----------

  /** 0xedb88320, lowest hexadecimal digit first. */
  function Polynomial(): Word {
    Hex(0x0) + Hex(0x2) + Hex(0x3) + Hex(0x8) + Hex(0x8) + Hex(0xb) + Hex(0xd) + Hex(0xe)
  }

  function Hex(n: nat): Bits { [n % 2 == 1, n / 2 % 2 == 1, n / 4 % 2 == 1, n / 8 % 2 == 1] }

  function Step(r: Word): Word {
    if r[0] then Xor(ShiftRight(r, 1), Polynomial()) else ShiftRight(r, 1)
  }

  function Steps(r: Word, n: nat): Word
    decreases n
  {
    if n == 0 then r else Steps(Step(r), n - 1)
  }

  function FeedBit(r: Word, bit: bool): Word { Step(r[0 := r[0] != bit]) }

  function FeedBits(r: Word, bits: Bits): Word
    decreases |bits|
  {
    if bits == [] then r else FeedBits(FeedBit(r, bits[0]), bits[1..])
  }

  /** The bit string of a byte string: bytes in order, each least significant bit first. */
  function MessageBits(data: seq<byte>): Bits {
    if data == [] then [] else Digits(data[0], 8) + MessageBits(data[1..])
  }

  /** The register after a byte string, fed one bit at a time. */
  function Register(data: seq<byte>): Word { FeedBits(Ones(32), MessageBits(data)) }

  /** The checksum as the format defines it. */
  function Checksum(data: seq<byte>): Word { Xor(Register(data), Ones(32)) }

  // ---------- the table ----------

  function TableStep(r: Word, b: byte): Word {
    var x := Xor(r, Widen(b));
    Xor(Steps(x[..8] + Zeros(24), 8), ShiftRight(r, 8))
  }

  function Feed(r: Word, data: seq<byte>): Word
    decreases |data|
  {
    if data == [] then r else Feed(TableStep(r, data[0]), data[1..])
  }

  ghost predicate IsTable(table: seq<Word>) {
    |table| == 256 && forall v: nat :: v < 256 ==> table[v] == Steps(Digits(v, 32), 8)
  }

  method BuildTable() returns (table: seq<Word>)
    ensures IsTable(table)
  {
    table := [];
    while |table| < 256
      invariant |table| <= 256
      invariant forall v: nat :: v < |table| ==> table[v] == Steps(Digits(v, 32), 8)
    {
      var crc := TableEntry(|table|);
      table := table + [crc];
    }
  }

  method TableEntry(value: byte) returns (crc: Word)
    ensures crc == Steps(Digits(value, 32), 8)
  {
    crc := Digits(value, 32);
    var k := 0;
    while k < 8
      invariant k <= 8
      invariant Steps(crc, 8 - k) == Steps(Digits(value, 32), 8)
    {
      var next: Word := if !crc[0] then ShiftRight(crc, 1) else Xor(ShiftRight(crc, 1), Polynomial());
      assert next == Step(crc);
      crc := next;
      k := k + 1;
    }
  }

  method Update(table: seq<Word>, crc: Word, data: seq<byte>) returns (r: Word)
    requires IsTable(table)
    ensures r == Feed(crc, data)
  {
    r := crc;
    var i := 0;
    while i < |data|
      invariant 0 <= i <= |data|
      invariant Feed(crc, data) == Feed(r, data[i..])
    {
      var low := Xor(r, Widen(data[i]))[..8];
      TableLookup(table, r, data[i]);
      var r' := Xor(table[Value(low)], ShiftRight(r, 8));
      assert data[i..][0] == data[i] && data[i..][1..] == data[i + 1..];
      r := r';
      i := i + 1;
    }
  }

  /** Table-driven update of a running checksum: it tracks the bit-by-bit register. */
  method Extend(table: seq<Word>, crc: Word, part: seq<byte>, ghost soFar: seq<byte>) returns (r: Word)
    requires IsTable(table) && crc == Register(soFar)
    ensures r == Register(soFar + part)
  {
    r := Update(table, crc, part);
    TableIsBitwise(Ones(32), soFar);
    TableIsBitwise(Ones(32), soFar + part);
    FeedConcat(Ones(32), soFar, part);
  }

  lemma TableLookup(table: seq<Word>, r: Word, b: byte)
    requires IsTable(table)
    ensures
      var index := Value(Xor(r, Widen(b))[..8]);
      index < 256 && TableStep(r, b) == Xor(table[index], ShiftRight(r, 8))
  {
    var low := Xor(r, Widen(b))[..8];
    DigitsOfValue(low, 24);
    assert Power(8) == 256;
    assert table[Value(low)] == Steps(Digits(Value(low), 32), 8);
  }

  // ---------- table-driven and bitwise registers agree ----------

  lemma StepXor(a: Word, b: Word)
    ensures Step(Xor(a, b)) == Xor(Step(a), Step(b))
  {
    var left, right := Step(Xor(a, b)), Xor(Step(a), Step(b));
    forall i | 0 <= i < 32
      ensures left[i] == right[i]
    {
    }
  }

  lemma {:induction false} StepsXor(a: Word, b: Word, n: nat)
    ensures Steps(Xor(a, b), n) == Xor(Steps(a, n), Steps(b, n))
    decreases n
  {
    if n > 0 {
      StepXor(a, b);
      StepsXor(Step(a), Step(b), n - 1);
    }
  }

  /** Low zero bits leave the register unmixed. */
  lemma {:induction false} ShiftOut(x: Word, n: nat)
    requires n <= 32 && x[..n] == Zeros(n)
    ensures Steps(x, n) == ShiftRight(x, n)
    decreases n
  {
    if n > 0 {
      assert !x[..n][0];
      var y := Step(x);
      assert y[..n - 1] == x[..n][1..] == Zeros(n - 1);
      ShiftOut(y, n - 1);
    } else {
      assert ShiftRight(x, 0) == x;
    }
  }

  lemma {:induction false} FeedLowBits(r: Word, bits: Bits)
    requires |bits| <= 32
    ensures FeedBits(r, bits) == Steps(Xor(r, bits + Zeros(32 - |bits|)), |bits|)
    decreases |bits|
  {
    var w: Word := bits + Zeros(32 - |bits|);
    if bits == [] {
      assert Xor(r, w) == r;
    } else {
      FeedLowBits(FeedBit(r, bits[0]), bits[1..]);
      FeedOneBit(r, bits);
    }
  }

  lemma FeedOneBit(r: Word, bits: Bits)
    requires 0 < |bits| <= 32
    ensures Xor(FeedBit(r, bits[0]), bits[1..] + Zeros(33 - |bits|)) == Step(Xor(r, bits + Zeros(32 - |bits|)))
  {
    var w: Word := bits + Zeros(32 - |bits|);
    var rest: Word := w[0 := false];
    var first: Word := r[0 := r[0] != bits[0]];
    assert Xor(r, w) == Xor(first, rest);
    StepXor(first, rest);
    assert Step(rest) == bits[1..] + Zeros(33 - |bits|);
  }

  lemma ByteStep(r: Word, b: byte)
    ensures TableStep(r, b) == FeedBits(r, Digits(b, 8))
  {
    WidenForm(b);
    FeedLowBits(r, Digits(b, 8));
    EightSteps(Xor(r, Widen(b)));
    SameHighPart(r, b);
  }

  lemma EightSteps(x: Word)
    ensures Steps(x, 8) == Xor(Steps(x[..8] + Zeros(24), 8), ShiftRight(x, 8))
  {
    var low: Word, high: Word := x[..8] + Zeros(24), Zeros(8) + x[8..];
    assert x == Xor(low, high);
    StepsXor(low, high, 8);
    assert high[..8] == Zeros(8);
    ShiftOut(high, 8);
    assert ShiftRight(high, 8) == ShiftRight(x, 8);
  }

  lemma SameHighPart(r: Word, b: byte)
    ensures ShiftRight(Xor(r, Widen(b)), 8) == ShiftRight(r, 8)
  {
    WidenForm(b);
    assert Xor(r, Widen(b))[8..] == r[8..];
  }

  lemma {:induction false} FeedBitsConcat(r: Word, a: Bits, b: Bits)
    ensures FeedBits(r, a + b) == FeedBits(FeedBits(r, a), b)
    decreases |a|
  {
    if a == [] {
      assert a + b == b;
    } else {
      assert (a + b)[1..] == a[1..] + b;
      FeedBitsConcat(FeedBit(r, a[0]), a[1..], b);
    }
  }

  /** The table-driven update computes the bit-by-bit register. */
  lemma {:induction false} TableIsBitwise(r: Word, data: seq<byte>)
    ensures Feed(r, data) == FeedBits(r, MessageBits(data))
    decreases |data|
  {
    if data != [] {
      ByteStep(r, data[0]);
      FeedBitsConcat(r, Digits(data[0], 8), MessageBits(data[1..]));
      TableIsBitwise(TableStep(r, data[0]), data[1..]);
    }
  }

  lemma {:induction false} FeedConcat(r: Word, a: seq<byte>, b: seq<byte>)
    ensures Feed(r, a + b) == Feed(Feed(r, a), b)
    decreases |a|
  {
    if a == [] {
      assert a + b == b;
    } else {
      assert (a + b)[1..] == a[1..] + b;
      FeedConcat(TableStep(r, a[0]), a[1..], b);
    }
  }

  function Flatten(parts: seq<seq<byte>>): seq<byte> {
    if parts == [] then [] else parts[0] + Flatten(parts[1..])
  }

  function FeedParts(r: Word, parts: seq<seq<byte>>): Word
    decreases |parts|
  {
    if parts == [] then r else FeedParts(Feed(r, parts[0]), parts[1..])
  }

  /** However the bytes are cut into pieces, the table-driven register ends as the bitwise
      register of the whole. */
  lemma {:induction false} ChecksumInPieces(r: Word, parts: seq<seq<byte>>)
    ensures FeedParts(r, parts) == FeedBits(r, MessageBits(Flatten(parts)))
    decreases |parts|
  {
    TableIsBitwise(r, Flatten(parts));
    if parts != [] {
      FeedConcat(r, parts[0], Flatten(parts[1..]));
      ChecksumInPieces(Feed(r, parts[0]), parts[1..]);
      TableIsBitwise(Feed(r, parts[0]), Flatten(parts[1..]));
    }
  }

  // ---------- the checksum is a polynomial remainder ----------

  /** x^32 + x^26 + x^23 + x^22 + x^16 + x^12 + x^11 + x^10 + x^8 + x^7 + x^5 + x^4 + x^2 + x + 1 */
  predicate HasTerm(exponent: int) {
    || exponent == 32 || exponent == 26 || exponent == 23 || exponent == 22 || exponent == 16
    || exponent == 12 || exponent == 11 || exponent == 10 || exponent == 8 || exponent == 7
    || exponent == 5 || exponent == 4 || exponent == 2 || exponent == 1 || exponent == 0
  }

  /** Coefficients of x^31 down to x^0 of the generator; its leading term is x^32. */
  function Generator(): Word { seq(32, k => HasTerm(31 - k)) }

  /** Schoolbook long division by the generator: highest coefficient first. */
  function Remainder(dividend: Bits): (r: Bits)
    requires |dividend| >= 32
    ensures |r| == 32
    decreases |dividend|
  {
    if |dividend| == 32 then dividend
    else
      Remainder(if dividend[0] then Xor(dividend[1..33], Generator()) + dividend[33..] else dividend[1..])
  }

  /** Bit k of the program's constant is the coefficient of x^(31-k). */
  lemma PolynomialIsGenerator()
    ensures Polynomial() == Generator()
  {
    assert Hex(0x0) == [false, false, false, false];
    assert Hex(0x2) == [false, true, false, false];
    assert Hex(0x3) == [true, true, false, false];
    assert Hex(0x8) == [false, false, false, true];
    assert Hex(0xb) == [true, true, false, true];
    assert Hex(0xd) == [true, false, true, true];
    assert Hex(0xe) == [false, true, true, true];
  }

  /** The dividend whose remainder a register seeded with c holds after the bits m. */
  function Dividend(c: Word, m: Bits): Bits {
    Xor(c + Zeros(|m|), m + Zeros(32))
  }

  /** A register holds the remainder, coefficient of x^31 in its lowest bit. */
  lemma {:induction false} RegisterDivides(r: Word, m: Bits)
    ensures FeedBits(r, m) == Remainder(Dividend(r, m))
    decreases |m|
  {
    if m == [] {
      assert Dividend(r, m) == r;
    } else {
      DivisionStep(r, m);
      RegisterDivides(FeedBit(r, m[0]), m[1..]);
    }
  }

  /** One step of the division leaves the dividend of the shifted, possibly reduced register. */
  lemma DivisionStep(c: Word, m: Bits)
    requires m != []
    ensures
      var d := Dividend(c, m);
      (if d[0] then Xor(d[1..33], Generator()) + d[33..] else d[1..]) == Dividend(FeedBit(c, m[0]), m[1..])
  {
    PolynomialIsGenerator();
    var d, g, c' := Dividend(c, m), Generator(), FeedBit(c, m[0]);
    var left := if d[0] then Xor(d[1..33], g) + d[33..] else d[1..];
    var right := Dividend(c', m[1..]);
    forall i | 0 <= i < |left|
      ensures left[i] == right[i]
    {
      assert (m[1..] + Zeros(32))[i] == (m + Zeros(32))[i + 1];
      if i < 31 {
        assert c'[i] == if c[0] != m[0] then c[i + 1] != g[i] else c[i + 1];
      } else if i == 31 {
        assert c'[i] == if c[0] != m[0] then g[i] else false;
      }
    }
  }

  /** Section 5.5: divide the message, its first 32 bits complemented and 32 zero bits appended,
      by the generator; the checksum is the complement of the remainder. */
  lemma ChecksumIsRemainder(data: seq<byte>)
    ensures
      var m := MessageBits(data);
      Checksum(data) == Xor(Remainder(Xor(Ones(32) + Zeros(|m|), m + Zeros(32))), Ones(32))
  {
    RegisterDivides(Ones(32), MessageBits(data));
  }
}
