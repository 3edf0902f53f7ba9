/**
 * The four key boxes both round-1 pages share: which values a box accepts,
 * what typing into a box does, and the key string `keyBits.join('')` the
 * boxes spell.
 */
module KeyEntry {
  import opened Wrappers
  import opened Bits
  import opened Puzzle

  /** A box takes the empty string, "0" or "1"; any other input is ignored. */
  predicate BitAccepted(v: string) { v == "" || v == "0" || v == "1" }

  /** The page's `keyBits`: four boxes, each holding an accepted value. */
  predicate WellFormedBits(bits: seq<string>)
  {
    |bits| == 4 && forall i :: 0 <= i < |bits| ==> BitAccepted(bits[i])
  }

  const EmptyBoxes: seq<string> := ["", "", "", ""]

  /** No box is empty (`!keyBits.some(b => b === '')`). */
  predicate AllEntered(bits: seq<string>) { forall i :: 0 <= i < |bits| ==> bits[i] != "" }

  /** `handleBit(i, v)` on the box contents. */
  function EnterBit(bits: seq<string>, i: nat, v: string): (r: seq<string>)
    requires i < |bits|
    ensures BitAccepted(v) ==> |r| == |bits| && r[i] == v
    ensures BitAccepted(v) ==> forall j :: 0 <= j < |bits| && j != i ==> r[j] == bits[j]
    ensures !BitAccepted(v) ==> r == bits
  {
    if BitAccepted(v) then bits[i := v] else bits
  }

  /** Typing into a box keeps every box holding an accepted value. */
  lemma EnterBitKeepsWellFormed(bits: seq<string>, i: nat, v: string)
    requires WellFormedBits(bits) && i < |bits|
    ensures WellFormedBits(EnterBit(bits, i, v))
  {
  }

  /** `keyBits.join('')`. */
  function Join(bits: seq<string>): string
  {
    if bits == [] then "" else bits[0] + Join(bits[1..])
  }

  lemma JoinFour(bits: seq<string>)
    requires |bits| == 4
    ensures Join(bits) == bits[0] + bits[1] + bits[2] + bits[3]
  {
    var t1 := bits[1..];
    var t2 := t1[1..];
    var t3 := t2[1..];
    assert t3[1..] == [];
    assert Join(t3) == bits[3];
    assert Join(t2) == bits[2] + bits[3];
    assert Join(t1) == bits[1] + (bits[2] + bits[3]);
  }

  /**
   * Four filled boxes spell a four-digit binary key whose i-th digit is the
   * digit in box i.
   */
  lemma JoinedKey(bits: seq<string>)
    requires WellFormedBits(bits) && AllEntered(bits)
    ensures |Join(bits)| == 4 && IsBinary(Join(bits))
    ensures forall i :: 0 <= i < 4 ==> bits[i] == [Join(bits)[i]]
  {
    JoinFour(bits);
    assert BitAccepted(bits[0]) && BitAccepted(bits[1]) && BitAccepted(bits[2]) && BitAccepted(bits[3]);
    assert bits[0] != "" && bits[1] != "" && bits[2] != "" && bits[3] != "";
  }

  /** The boxes filled with the digits of `key`, the first digit in box 0. */
  function BoxesFor(key: string): (bits: seq<string>)
    requires |key| == 4
    ensures |bits| == 4 && forall i :: 0 <= i < 4 ==> bits[i] == [key[i]]
  {
    [[key[0]], [key[1]], [key[2]], [key[3]]]
  }

  /** Typing a binary key digit by digit into the boxes spells that key again. */
  lemma BoxesForJoin(key: string)
    requires |key| == 4 && IsBinary(key)
    ensures WellFormedBits(BoxesFor(key)) && AllEntered(BoxesFor(key))
    ensures Join(BoxesFor(key)) == key
  {
    var bits := BoxesFor(key);
    assert forall i :: 0 <= i < 4 ==> IsBinaryDigit(key[i]);
    JoinedKey(bits);
    assert Join(bits) == key;
  }

  /** The key boxes spell, read from the last box to the first. */
  function Reverse(s: string): (r: string)
    ensures |r| == |s| && forall i :: 0 <= i < |s| ==> r[i] == s[|s| - 1 - i]
  {
    if s == [] then [] else Reverse(s[1..]) + [s[0]]
  }

  /** `Number(v)` on an accepted, non-empty box: its digit's value. */
  function BoxNumber(v: string): (n: nat)
    ensures v == "1" ==> n == 1
    ensures v == "0" || v == "" ==> n == 0
  {
    if v == "1" then 1 else 0
  }

  /** `keyBits.map(Number)`. */
  function BoxNumbers(bits: seq<string>): (ns: seq<nat>)
    ensures |ns| == |bits| && forall i :: 0 <= i < |bits| ==> ns[i] == BoxNumber(bits[i])
  {
    seq(|bits|, i requires 0 <= i < |bits| => BoxNumber(bits[i]))
  }

  /** A circuit key reads the same both ways exactly when S1 and S3 agree. */
  lemma CircuitKeyPalindrome(b: SwitchBits)
    requires IsBitTuple(b)
    ensures CircuitKey(b) == Reverse(CircuitKey(b)) <==> b.s1 == b.s3
  {
    XorBits(b.s3, b.s0);
    XorBits(b.s2, b.s3);
    XorBits(b.s1, b.s2);
    XorBits(b.s0, b.s1);
    var key := CircuitKey(b);
    var rk := Reverse(key);
    assert rk == [key[3], key[2], key[1], key[0]];
  }

  /**
   * The server takes the LEDs read from Key0 to Key3, the circuit key
   * reversed, exactly when switches S1 and S3 agree.  At row 9 (S1 = 0,
   * S3 = 1) it takes neither that nor the circuit key itself, but "0111".
   */
  lemma ReversedLedsAccepted(sw: Switches)
    requires IsAssignedBits(sw)
    ensures GetCorrectKeyFromSwitches(sw) == Some(Reverse(CircuitKey(BitsOf(sw)))) <==> sw.s1 == sw.s3
  {
    var b := BitsOf(sw);
    if SwitchIndex(b) == 9 {
      RowOfIndex(b);
      assert b == SwitchBits(1, 0, 0, 1);
      XorBits(1, 1); XorBits(0, 1); XorBits(0, 0); XorBits(1, 0);
      var rk := Reverse(CircuitKey(b));
      assert rk[0] == '1' && "0111"[0] == '0';
    } else {
      CircuitKeyPalindrome(b);
    }
  }
}
