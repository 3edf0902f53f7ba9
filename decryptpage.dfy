/**
 * The round-2 decryption page: it turns the saved encrypted number into
 * eight binary digits, exclusive-ors them with the saved eight-digit key,
 * reads the result back as a decimal number and lets the decrypt player
 * submit that number.
 */
module DecryptPage {
  import opened Wrappers
  import opened Bits
  import opened Puzzle
  import opened Session
  import EncryptPage

  const DefaultKey: string := "00000000"
  const NotConnected: string := "Not connected. Please wait..."
  const IncorrectValue: string := "Incorrect value"

  /** `toBinary(d)`: `d.toString(2).padStart(8, '0')` for an integer d. */
  function ToBinary(d: int): (s: string)
    ensures |s| >= 8
  {
    PadStart(if d < 0 then "-" + NatToBinary(-d) else NatToBinary(d), 8, '0')
  }

  /** A byte comes out as exactly eight binary digits with its own value. */
  lemma ToBinaryOfByte(d: nat)
    requires d < 256
    ensures |ToBinary(d)| == 8 && IsBinary(ToBinary(d)) && BinVal(ToBinary(d)) == d
  {
    assert Pow2(8) == 256;
    NatToBinaryLength(d, 8);
    NatToBinaryValue(d);
    var b := NatToBinary(d);
    var z := Repeat('0', 8 - |b|);
    RepeatShape('0', 8 - |b|);
    assert ToBinary(d) == z + b;
    LeadingZeros(z, b);
  }

  /**
   * `+a[i]` as the `^` operator sees it: a digit's value; any other
   * character, and a missing one, converts to NaN and then to 0.
   */
  function Operand(s: string, i: nat): (v: nat)
    ensures v < 10
    ensures i < |s| && IsBinaryDigit(s[i]) ==> v == BitOf(s[i])
  {
    if i < |s| && IsDecimalDigit(s[i]) then DigitValue(s[i]) else 0
  }

  /** The text `xor(a, b)` has built after its first n steps. */
  function XorDigits(a: string, b: string, n: nat): (r: string)
    ensures |r| >= n && IsDigits(r)
  {
    if n == 0 then "" else XorDigits(a, b, n - 1) + NatToDecimal(Xor(Operand(a, n - 1), Operand(b, n - 1)))
  }

  /** The page's `xor`: eight steps, each appending the decimal text of one exclusive or. */
  method XorText(a: string, b: string) returns (r: string)
    ensures r == XorDigits(a, b, 8)
  {
    r := "";
    for i := 0 to 8
      invariant r == XorDigits(a, b, i)
    {
      r := r + NatToDecimal(Xor(Operand(a, i), Operand(b, i)));
    }
  }

  /**
   * On binary operands `xor` is the digit-wise exclusive or: its first k
   * steps write k digits, each the exclusive or of the operands' digits.
   */
  lemma {:induction false} XorDigitsOfBinary(a: string, b: string, k: nat)
    requires k <= |a| && k <= |b| && IsBinary(a) && IsBinary(b)
    ensures |XorDigits(a, b, k)| == k
    ensures forall i :: 0 <= i < k ==> XorDigits(a, b, k)[i] == XorDigit(a[i], b[i])
  {
    if k > 0 {
      XorDigitsOfBinary(a, b, k - 1);
      XorDigitStep(a, b, k);
    }
  }

  /** Step k of `xor` on binary operands appends the exclusive or of their k-th digits. */
  lemma XorDigitStep(a: string, b: string, k: nat)
    requires 0 < k <= |a| && k <= |b| && IsBinary(a) && IsBinary(b)
    ensures XorDigits(a, b, k) == XorDigits(a, b, k - 1) + [XorDigit(a[k - 1], b[k - 1])]
  {
    assert IsBinaryDigit(a[k - 1]) && IsBinaryDigit(b[k - 1]);
    var p, q := Operand(a, k - 1), Operand(b, k - 1);
    XorOfBits(p, q);
  }

  /** One step of `xor` on two bits appends the digit of their exclusive or. */
  lemma XorOfBits(p: nat, q: nat)
    requires p < 2 && q < 2
    ensures Xor(p, q) == (if p == q then 0 else 1) && NatToDecimal(Xor(p, q)) == [BitChar(Xor(p, q))]
  {
    XorBits(p, q);
  }

  /** `state.key8bit || '00000000'` for a saved key that is a string or absent. */
  function KeyOrDefault(key8bit: Option<string>): (k: string)
    ensures key8bit.Some? && key8bit.value != "" ==> k == key8bit.value
    ensures key8bit.None? || key8bit.value == "" ==> k == DefaultKey
  {
    if key8bit.Some? && key8bit.value != "" then key8bit.value else DefaultKey
  }

  /** `parseInt(d, 2).toString()`: the decimal text of the leading binary digits, or "NaN". */
  function DecimalText(d: string): (s: string)
    ensures ParseInt2(d).None? ==> s == "NaN"
    ensures ParseInt2(d).Some? ==> IsDigits(s) && DecVal(s) == ParseInt2(d).value
    ensures IsBinary(d) && d != "" ==> s == NatToDecimal(BinVal(d))
  {
    match ParseInt2(d)
    case None => "NaN"
    case Some(v) => NatToDecimalValue(v); NatToDecimal(v)
  }

  /** The decimal the page derives from a saved key and encrypted number. */
  function Plaintext(key8bit: Option<string>, encrypted: int): (r: string)
    ensures r == "NaN" || (r != "" && IsDigits(r))
  {
    DecimalText(XorDigits(ToBinary(encrypted), KeyOrDefault(key8bit), 8))
  }

  /**
   * Exclusive or with the key undoes itself: for an eight-digit binary key
   * and a byte n, the page turns n's ciphertext back into n's decimal text.
   */
  lemma PlaintextRecovered(key: string, n: nat)
    requires |key| == 8 && IsBinary(key) && n < 256
    ensures Plaintext(Some(key), Xor(n, BinVal(key))) == NatToDecimal(n)
  {
    assert Pow2(8) == 256;
    BinValBelow(key);
    XorBelow(n, BinVal(key), 8);
    var e := Xor(n, BinVal(key));
    ToBinaryOfByte(e);
    var c := ToBinary(e);
    XorDigitsOfBinary(c, key, 8);
    var r := XorDigits(c, key, 8);
    XorDigitwise(c, key, r);
    assert IsBinary(r);
    XorSelfInverse(n, BinVal(key));
  }

  /**
   * For a team the server has given a puzzle, the decimal this page derives
   * from the team's key and encrypted number is the plaintext the encrypt
   * page sends, so submitting it completes round 2.
   */
  lemma PagesAgree(t: Team, ciphertext: string, now: int)
    requires PuzzleConsistent(t) && t.queuePosition.Some?
    ensures t.assignedNumber.Some? && t.encryptionValue.Some?
    ensures Plaintext(Some(t.key8bit), t.encryptionValue.value) == EncryptPage.NumberString(t.assignedNumber.value)
    ensures var sent := Encrypted(t, ciphertext, EncryptPage.NumberString(t.assignedNumber.value));
      Decrypted(sent, Plaintext(Some(t.key8bit), t.encryptionValue.value), now).round2Complete
  {
    var p := t.queuePosition.value;
    ExpandedKeyValue(GetAssignmentFromLookup(p).key);
    PlaintextRecovered(t.key8bit, t.assignedNumber.value);
  }

  /** The three texts the mount effect derives from a saved key and encrypted number. */
  method Derive(key8bit: Option<string>, encrypted: int) returns (cipher: string, binary: string, decimal: string)
    ensures cipher == ToBinary(encrypted)
    ensures binary == XorDigits(cipher, KeyOrDefault(key8bit), 8)
    ensures decimal == Plaintext(key8bit, encrypted)
  {
    cipher := ToBinary(encrypted);
    binary := XorText(cipher, KeyOrDefault(key8bit));
    decimal := DecimalText(binary);
  }

  class Decrypt {
    var cipher: string
    var binary: string
    var decimal: string
    var input: string
    var key: string
    var success: bool
    var waiting: bool
    var error: string
    var teamId: Option<string>
    var role: Option<string>
    var submitting: bool
    /** Where the router was sent, if anywhere. */
    var redirect: Option<string>

    constructor ()
      ensures cipher == "" && binary == "" && decimal == "" && input == "" && key == ""
      ensures !success && waiting && error == "" && teamId.None? && role.None?
      ensures !submitting && redirect.None?
    {
      cipher := "";
      binary := "";
      decimal := "";
      input := "";
      key := "";
      success := false;
      waiting := true;
      error := "";
      teamId := None;
      role := None;
      submitting := false;
      redirect := None;
    }

    /**
     * The mount effect.  A saved state that has not finished round 1, or
     * whose role is not the decrypt seat, sends the router to the
     * dashboard, but the effect carries on: it takes the team and role, the
     * key (all zeros when none is saved) and, when an encrypted number is
     * saved, the cipher digits, their exclusive or with the key and the
     * decimal read from that, and stops waiting.
     */
    method Mount(round1Complete: bool, savedRole: EncryptPage.JsValue, storedTeamId: Option<string>,
                 storedRole: Option<string>, key8bit: Option<string>, encrypted: EncryptPage.JsValue)
      modifies this
      ensures !round1Complete || savedRole != EncryptPage.Text("decrypt") ==> redirect == Some("/dashboard")
      ensures round1Complete && savedRole == EncryptPage.Text("decrypt") ==> redirect == old(redirect)
      ensures teamId == storedTeamId
      ensures role == (if storedRole.Some? && storedRole.value != "" then storedRole else Some("decrypt"))
      ensures key == KeyOrDefault(key8bit)
      ensures encrypted.Number? ==> Shows(key8bit, encrypted.n) && !waiting
      ensures !encrypted.Number? ==>
        cipher == old(cipher) && binary == old(binary) && decimal == old(decimal) && waiting == old(waiting)
      ensures input == old(input) && success == old(success) && error == old(error)
      ensures submitting == old(submitting)
    {
      if !round1Complete || savedRole != EncryptPage.Text("decrypt") {
        redirect := Some("/dashboard");
      }
      teamId := storedTeamId;
      role := if storedRole.Some? && storedRole.value != "" then storedRole else Some("decrypt");
      key := KeyOrDefault(key8bit);
      ShowCipher(key8bit, encrypted);
    }

    /** The three texts derived from a saved key and encrypted number. */
    ghost predicate Shows(key8bit: Option<string>, encrypted: int)
      reads this
    {
      && cipher == ToBinary(encrypted)
      && binary == XorDigits(cipher, KeyOrDefault(key8bit), 8)
      && decimal == Plaintext(key8bit, encrypted)
    }

    /** The part of the mount effect that derives the texts from a saved encrypted number. */
    method ShowCipher(key8bit: Option<string>, encrypted: EncryptPage.JsValue)
      modifies this
      ensures encrypted.Number? ==> Shows(key8bit, encrypted.n) && !waiting
      ensures !encrypted.Number? ==>
        cipher == old(cipher) && binary == old(binary) && decimal == old(decimal) && waiting == old(waiting)
      ensures input == old(input) && key == old(key) && success == old(success) && error == old(error)
      ensures teamId == old(teamId) && role == old(role) && submitting == old(submitting) && redirect == old(redirect)
    {
      if encrypted.Number? {
        cipher, binary, decimal := Derive(key8bit, encrypted.n);
        waiting := false;
      }
    }

    /** The decimal field takes only digit strings; a change clears the error. */
    method OnInput(v: string)
      modifies this
      ensures IsDigits(v) ==> input == v && error == ""
      ensures !IsDigits(v) ==> input == old(input) && error == old(error)
      ensures cipher == old(cipher) && binary == old(binary) && decimal == old(decimal) && key == old(key)
      ensures success == old(success) && waiting == old(waiting) && teamId == old(teamId)
      ensures role == old(role) && submitting == old(submitting) && redirect == old(redirect)
    {
      if IsDigits(v) {
        input := v;
        error := "";
      }
    }

    /**
     * `submit`: offline it shows the connection message, with a value other
     * than the derived decimal it shows the mismatch message, and otherwise
     * it sends the value.
     */
    method Submit(connected: bool) returns (sent: Option<string>)
      requires input != "" && !success
      modifies this
      ensures !connected ==> sent.None? && error == NotConnected && submitting == old(submitting)
      ensures connected && input != decimal ==> sent.None? && error == IncorrectValue && submitting == old(submitting)
      ensures connected && input == decimal ==> sent == Some(decimal) && submitting && error == old(error)
      ensures cipher == old(cipher) && binary == old(binary) && decimal == old(decimal) && key == old(key)
      ensures input == old(input) && success == old(success) && waiting == old(waiting)
      ensures teamId == old(teamId) && role == old(role) && redirect == old(redirect)
    {
      if !connected {
        error := NotConnected;
        return None;
      }
      if input != decimal {
        error := IncorrectValue;
        return None;
      }
      submitting := true;
      sent := Some(input);
    }

    /** A pushed team state that reports round 2 complete marks success and moves to the result page. */
    method OnTeamState(round2Complete: bool)
      modifies this
      ensures round2Complete ==> success && redirect == Some("/round2/result")
      ensures !round2Complete ==> success == old(success) && redirect == old(redirect)
      ensures cipher == old(cipher) && binary == old(binary) && decimal == old(decimal) && key == old(key)
      ensures input == old(input) && waiting == old(waiting) && error == old(error)
      ensures teamId == old(teamId) && role == old(role) && submitting == old(submitting)
    {
      if round2Complete {
        success := true;
        redirect := Some("/round2/result");
      }
    }
  }
}
