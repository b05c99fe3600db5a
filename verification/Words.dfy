/** Bytes, and 32-bit words as strings of bits, least significant bit first. */
module Words {

  type byte = n: nat | n < 256

  type Bits = seq<bool>
  type Word = w: Bits | |w| == 32 witness Zeros(32)

  function Zeros(n: nat): Bits { seq(n, _ => false) }
  function Ones(n: nat): Bits { seq(n, _ => true) }

  function Xor(a: Bits, b: Bits): (c: Bits)
    requires |a| == |b|
    ensures |c| == |a|
    ensures forall i :: 0 <= i < |c| ==> c[i] == (a[i] != b[i])
  {
    seq(|a|, i requires 0 <= i < |a| => a[i] != b[i])
  }

  function ShiftRight(w: Bits, n: nat): (s: Bits)
    requires n <= |w|
    ensures |s| == |w|
  {
    w[n..] + Zeros(n)
  }

  /** The k low binary digits of n. */
  function Digits(n: nat, k: nat): (bits: Bits)
    ensures |bits| == k
  {
    if k == 0 then [] else [n % 2 == 1] + Digits(n / 2, k - 1)
  }

  function Value(bits: Bits): nat {
    if bits == [] then 0 else (if bits[0] then 1 else 0) + 2 * Value(bits[1..])
  }

  function Power(k: nat): nat { if k == 0 then 1 else 2 * Power(k - 1) }

  lemma {:induction false} DigitsOfValue(bits: Bits, k: nat)
    ensures Digits(Value(bits), |bits| + k) == bits + Zeros(k)
    ensures Value(bits) < Power(|bits|)
  {
    if bits == [] {
      ZeroDigits(k);
    } else {
      DigitsOfValue(bits[1..], k);
      assert Value(bits) / 2 == Value(bits[1..]);
    }
  }

  lemma {:induction false} ZeroDigits(k: nat)
    ensures Digits(0, k) == Zeros(k)
  {
    if k > 0 {
      ZeroDigits(k - 1);
    }
  }

  lemma {:induction false} ValueOfDigits(n: nat, k: nat)
    requires n < Power(k)
    ensures Value(Digits(n, k)) == n
  {
    if k > 0 {
      ValueOfDigits(n / 2, k - 1);
      assert Digits(n, k)[1..] == Digits(n / 2, k - 1);
    }
  }

  lemma {:induction false} DigitsExtend(n: nat, k: nat, m: nat)
    requires n < Power(k)
    ensures Digits(n, k + m) == Digits(n, k) + Zeros(m)
  {
    ValueOfDigits(n, k);
    DigitsOfValue(Digits(n, k), m);
  }

  /** A byte widened to a word. */
  function Widen(b: byte): Word { Digits(b, 32) }

  lemma WidenForm(b: byte)
    ensures Widen(b) == Digits(b, 8) + Zeros(24)
  {
    assert Power(8) == 256;
    DigitsExtend(b, 8, 24);
  }

  lemma SliceOfSlice<T>(s: seq<T>, a: nat, b: nat, i: nat, j: nat)
    requires a <= b <= |s| && i <= j <= b - a
    ensures s[a..b][i..j] == s[a + i..a + j]
  {
    var left, right := s[a..b][i..j], s[a + i..a + j];
    assert |left| == |right|;
    forall k | 0 <= k < |left|
      ensures left[k] == right[k]
    {
      assert left[k] == s[a..b][i + k] == s[a + i + k];
    }
  }
}
