/**
 * Bit-level arithmetic and the number <-> text conversions the puzzle uses:
 * JavaScript's `^` on non-negative integers, binary strings as produced by
 * `Number.prototype.toString(2)` and read by `parseInt(s, 2)`, and decimal
 * strings as produced by `String(n)`.
 */
module Bits {
  import opened Wrappers

  function Pow2(k: nat): (r: nat)
    ensures r >= 1
  {
    if k == 0 then 1 else 2 * Pow2(k - 1)
  }

  /**
   * Bitwise exclusive or of two non-negative integers, built from the least
   * significant bit up.  For operands below 2^31 this is JavaScript's `a ^ b`.
   */
  function Xor(a: nat, b: nat): (r: nat)
    ensures a == b ==> r == 0
    ensures b == 0 ==> r == a
    decreases a + b
  {
    if a == 0 && b == 0 then 0
    else 2 * Xor(a / 2, b / 2) + (if a % 2 == b % 2 then 0 else 1)
  }

  /** One step of `Xor`: the low bits combine, the high parts recurse. */
  lemma XorStep(x: nat, y: nat, p: nat, q: nat)
    requires p < 2 && q < 2
    ensures Xor(2 * x + p, 2 * y + q) == 2 * Xor(x, y) + (if p == q then 0 else 1)
  {
    var a, b := 2 * x + p, 2 * y + q;
    assert a / 2 == x && a % 2 == p;
    assert b / 2 == y && b % 2 == q;
    if a == 0 && b == 0 {
      assert x == 0 && y == 0;
    }
  }

  /** Exclusive or with the same operand undoes itself. */
  lemma {:induction false} XorSelfInverse(a: nat, b: nat)
    ensures Xor(Xor(a, b), b) == a
    decreases a + b
  {
    if a == 0 && b == 0 {
    } else {
      XorSelfInverse(a / 2, b / 2);
      var r := if a % 2 == b % 2 then 0 else 1;
      assert Xor(a, b) == 2 * Xor(a / 2, b / 2) + r;
      assert b == 2 * (b / 2) + b % 2;
      XorStep(Xor(a / 2, b / 2), b / 2, r, b % 2);
    }
  }

  /** Exclusive or of two k-bit numbers is a k-bit number. */
  lemma {:induction false} XorBelow(a: nat, b: nat, k: nat)
    requires a < Pow2(k) && b < Pow2(k)
    ensures Xor(a, b) < Pow2(k)
  {
    if a == 0 && b == 0 {
    } else {
      assert k > 0;
      XorBelow(a / 2, b / 2, k - 1);
    }
  }

  lemma XorBits(p: nat, q: nat)
    requires p < 2 && q < 2
    ensures Xor(p, q) == if p == q then 0 else 1
  {
    XorStep(0, 0, p, q);
  }

  // ---------------------------------------------------------------------
  // Binary strings

  predicate IsBinaryDigit(c: char) { c == '0' || c == '1' }

  predicate IsBinary(s: string) { forall i :: 0 <= i < |s| ==> IsBinaryDigit(s[i]) }

  /** The digit character of a bit; any non-zero value is written as '1'. */
  function BitChar(b: nat): char { if b == 0 then '0' else '1' }

  function BitOf(c: char): nat { if c == '1' then 1 else 0 }

  /** The value of a string of binary digits, most significant digit first. */
  function BinVal(s: string): nat
  {
    if s == [] then 0 else 2 * BinVal(s[..|s| - 1]) + BitOf(s[|s| - 1])
  }

  lemma {:induction false} BinValBelow(s: string)
    ensures BinVal(s) < Pow2(|s|)
  {
    if s != [] {
      BinValBelow(s[..|s| - 1]);
    }
  }

  /** Appending digits shifts the value left by their number. */
  lemma {:induction false} BinValAppend(a: string, b: string)
    ensures BinVal(a + b) == BinVal(a) * Pow2(|b|) + BinVal(b)
    decreases |b|
  {
    if b == [] {
      assert a + b == a;
    } else {
      var b' := b[..|b| - 1];
      assert (a + b)[..|a + b| - 1] == a + b';
      BinValAppend(a, b');
      calc {
        BinVal(a + b);
        2 * BinVal(a + b') + BitOf(b[|b| - 1]);
        2 * (BinVal(a) * Pow2(|b'|) + BinVal(b')) + BitOf(b[|b| - 1]);
        BinVal(a) * (2 * Pow2(|b'|)) + (2 * BinVal(b') + BitOf(b[|b| - 1]));
      }
    }
  }

  /** The digit of the exclusive or of two binary digits. */
  function XorDigit(c: char, d: char): char { if c == d then '0' else '1' }

  /** Digit-wise exclusive or of equally long binary strings is exclusive or of their values. */
  lemma {:induction false} XorDigitwise(a: string, b: string, r: string)
    requires |a| == |b| == |r| && IsBinary(a) && IsBinary(b)
    requires forall i :: 0 <= i < |r| ==> r[i] == XorDigit(a[i], b[i])
    ensures BinVal(r) == Xor(BinVal(a), BinVal(b))
    decreases |r|
  {
    if r == [] {
      XorBits(0, 0);
    } else {
      var n := |r| - 1;
      XorDigitwise(a[..n], b[..n], r[..n]);
      var p, q := BitOf(a[n]), BitOf(b[n]);
      assert IsBinaryDigit(a[n]) && IsBinaryDigit(b[n]);
      assert BitOf(r[n]) == if p == q then 0 else 1;
      var A, B := BinVal(a[..n]), BinVal(b[..n]);
      assert BinVal(a) == 2 * A + p && BinVal(b) == 2 * B + q;
      assert BinVal(r) == 2 * Xor(A, B) + BitOf(r[n]);
      XorStep(A, B, p, q);
    }
  }

  predicate AllZeroDigits(z: string) { forall i :: 0 <= i < |z| ==> z[i] == '0' }

  /** Leading zeros do not change a binary value. */
  lemma LeadingZeros(z: string, s: string)
    requires AllZeroDigits(z)
    ensures BinVal(z + s) == BinVal(s)
  {
    ZerosAreZero(z);
    BinValAppend(z, s);
  }

  lemma {:induction false} ZerosAreZero(z: string)
    requires AllZeroDigits(z)
    ensures BinVal(z) == 0
  {
    if z != [] {
      ZerosAreZero(z[..|z| - 1]);
    }
  }

  /** `d.toString(2)`: the shortest binary numeral of d ("0" for zero). */
  function NatToBinary(d: nat): (s: string)
    ensures |s| >= 1 && IsBinary(s)
  {
    if d < 2 then [BitChar(d)] else NatToBinary(d / 2) + [BitChar(d % 2)]
  }

  lemma {:induction false} NatToBinaryValue(d: nat)
    ensures BinVal(NatToBinary(d)) == d
  {
    if d >= 2 {
      NatToBinaryValue(d / 2);
      var s := NatToBinary(d);
      assert s[..|s| - 1] == NatToBinary(d / 2);
    }
  }

  lemma {:induction false} NatToBinaryLength(d: nat, k: nat)
    requires 1 <= k && d < Pow2(k)
    ensures |NatToBinary(d)| <= k
  {
    if d >= 2 {
      assert k >= 2;
      NatToBinaryLength(d / 2, k - 1);
    }
  }

  function Repeat(c: char, n: nat): (s: string)
    ensures |s| == n
  {
    if n == 0 then [] else [c] + Repeat(c, n - 1)
  }

  /** Every character of `Repeat(c, n)` is c. */
  lemma {:induction false} RepeatShape(c: char, n: nat)
    ensures forall i :: 0 <= i < n ==> Repeat(c, n)[i] == c
  {
    if n > 0 {
      RepeatShape(c, n - 1);
      assert Repeat(c, n) == [c] + Repeat(c, n - 1);
    }
  }

  /** `s.padStart(n, c)` for a one-character filler. */
  function PadStart(s: string, n: nat, c: char): (r: string)
    ensures |r| == if |s| >= n then |s| else n
  {
    if |s| >= n then s else Repeat(c, n - |s|) + s
  }

  /** The padded text ends with s and is filled with c in front of it. */
  lemma PadStartShape(s: string, n: nat, c: char)
    ensures var r := PadStart(s, n, c);
      r[|r| - |s|..] == s && forall i :: 0 <= i < |r| - |s| ==> r[i] == c
  {
    var r := PadStart(s, n, c);
    if |s| < n {
      RepeatShape(c, n - |s|);
      assert r[|r| - |s|..] == s;
    } else {
      assert r[|r| - |s|..] == r;
    }
  }

  /** Length of the longest prefix of s made of binary digits. */
  function BinaryPrefixLength(s: string): (n: nat)
    ensures n <= |s| && IsBinary(s[..n])
    ensures n < |s| ==> !IsBinaryDigit(s[n])
  {
    if s == [] || !IsBinaryDigit(s[0]) then 0
    else
      var n := 1 + BinaryPrefixLength(s[1..]);
      assert s[..n] == [s[0]] + s[1..][..n - 1];
      n
  }

  /**
   * `parseInt(s, 2)`: the value of the longest leading run of binary digits,
   * or nothing (NaN) when s does not start with one.
   */
  function ParseInt2(s: string): (r: Option<nat>)
    ensures r.None? <==> s == [] || !IsBinaryDigit(s[0])
    ensures IsBinary(s) && s != [] ==> r == Some(BinVal(s))
  {
    var n := BinaryPrefixLength(s);
    if n == 0 then None
    else
      assert IsBinary(s) ==> n == |s| && s[..n] == s;
      Some(BinVal(s[..n]))
  }

  // ---------------------------------------------------------------------
  // Decimal strings

  predicate IsDecimalDigit(c: char) { '0' <= c <= '9' }

  predicate IsDigits(s: string) { forall i :: 0 <= i < |s| ==> IsDecimalDigit(s[i]) }

  function DigitChar(d: nat): char
    requires d < 10
  {
    "0123456789"[d]
  }

  function DigitValue(c: char): nat
    requires IsDecimalDigit(c)
  {
    (c as int) - ('0' as int)
  }

  /** `String(n)` for a non-negative integer. */
  function NatToDecimal(n: nat): (s: string)
    ensures |s| >= 1 && IsDigits(s)
  {
    if n < 10 then [DigitChar(n)] else NatToDecimal(n / 10) + [DigitChar(n % 10)]
  }

  /** The value of a string of decimal digits. */
  function DecVal(s: string): nat
    requires IsDigits(s)
  {
    if s == [] then 0 else 10 * DecVal(s[..|s| - 1]) + DigitValue(s[|s| - 1])
  }

  /** Reading back the decimal numeral of n gives n, so `String` is one-to-one. */
  lemma {:induction false} NatToDecimalValue(n: nat)
    ensures DecVal(NatToDecimal(n)) == n
  {
    var s := NatToDecimal(n);
    if n >= 10 {
      NatToDecimalValue(n / 10);
      assert s[..|s| - 1] == NatToDecimal(n / 10);
    }
  }

  lemma NatToDecimalInjective(m: nat, n: nat)
    ensures NatToDecimal(m) == NatToDecimal(n) <==> m == n
  {
    NatToDecimalValue(m);
    NatToDecimalValue(n);
  }
}
