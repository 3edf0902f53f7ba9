/**
 * The round-2 encryption page: the encrypt player works out the ciphertext
 * of the team's assigned number off-line and sends it, together with the
 * plaintext number, to the server.
 */
module EncryptPage {
  import opened Wrappers
  import opened Bits
  import opened JsText

  /** A value read from the saved `teamState` record, by JavaScript type. */
  datatype JsValue = Number(n: int) | Text(s: string) | Boolean(b: bool) | Null | Undefined

  const NotConnected: string := "Not connected to server. Please wait and try again."
  const EnterCiphertext: string := "Enter the encrypted value to submit."
  const NoAssignedNumber: string := "No assigned number available yet."

  /** `typeof v === 'number' ? v : null`. */
  function NumberOf(v: JsValue): (r: Option<int>)
    ensures r.Some? <==> v.Number?
    ensures v.Number? ==> r == Some(v.n)
  {
    if v.Number? then Some(v.n) else None
  }

  /** `String(n)` for an integer: a minus sign and the digits of |n| when negative. */
  function NumberString(n: int): (s: string)
    ensures s != [] && (n >= 0 ==> s == NatToDecimal(n) && IsDigits(s))
    ensures n < 0 ==> s[0] == '-' && s[1..] == NatToDecimal(-n)
  {
    if n < 0 then "-" + NatToDecimal(-n) else NatToDecimal(n)
  }

  /** Different numbers are written differently. */
  lemma NumberStringInjective(m: int, n: int)
    ensures NumberString(m) == NumberString(n) <==> m == n
  {
    if m < 0 && n < 0 {
      NegativeNumberStringInjective(m, n);
    } else if m >= 0 && n >= 0 {
      NatToDecimalInjective(m, n);
    } else if m < 0 {
      SignsWrittenDifferently(m, n);
    } else {
      SignsWrittenDifferently(n, m);
    }
  }

  lemma NegativeNumberStringInjective(m: int, n: int)
    requires m < 0 && n < 0
    ensures NumberString(m) == NumberString(n) <==> m == n
  {
    NatToDecimalInjective(-m, -n);
    if NumberString(m) == NumberString(n) {
      assert NatToDecimal(-m) == NumberString(m)[1..] == NumberString(n)[1..] == NatToDecimal(-n);
    }
  }

  /** A negative number's text starts with a minus sign, a non-negative one's with a digit. */
  lemma SignsWrittenDifferently(neg: int, nonneg: int)
    requires neg < 0 <= nonneg
    ensures NumberString(neg) != NumberString(nonneg)
  {
    assert NumberString(neg)[0] == '-';
    assert IsDecimalDigit(NumberString(nonneg)[0]);
  }

  /** What `submitCiphertext` sends: the trimmed ciphertext and the plaintext number. */
  datatype Submission = Submission(ciphertext: string, plaintext: string)

  class Encrypt {
    var assignedNumber: Option<int>
    var teamId: Option<string>
    var role: Option<string>
    var ciphertext: string
    var submitting: bool
    var submitError: string
    var submitSuccess: bool
    /** Where the router was sent, if anywhere. */
    var redirect: Option<string>

    constructor ()
      ensures assignedNumber.None? && teamId.None? && role.None? && ciphertext == ""
      ensures !submitting && submitError == "" && !submitSuccess && redirect.None?
    {
      assignedNumber := None;
      teamId := None;
      role := None;
      ciphertext := "";
      submitting := false;
      submitError := "";
      submitSuccess := false;
      redirect := None;
    }

    /**
     * The mount effect.  A saved state that has not finished round 1, or
     * whose role is not the encrypt seat, sends the router to the dashboard,
     * but the effect carries on: it takes the stored team id, the stored
     * role (the encrypt seat when none is stored) and the saved assigned
     * number when that is a number.
     */
    method Mount(round1Complete: bool, savedRole: JsValue, storedTeamId: Option<string>,
                 storedRole: Option<string>, savedAssigned: JsValue)
      modifies this
      ensures !round1Complete || savedRole != Text("encrypt") ==> redirect == Some("/dashboard")
      ensures round1Complete && savedRole == Text("encrypt") ==> redirect == old(redirect)
      ensures teamId == storedTeamId
      ensures role == (if storedRole.Some? && storedRole.value != "" then storedRole else Some("encrypt"))
      ensures assignedNumber == NumberOf(savedAssigned)
      ensures ciphertext == old(ciphertext) && submitting == old(submitting)
      ensures submitError == old(submitError) && submitSuccess == old(submitSuccess)
    {
      if !round1Complete || savedRole != Text("encrypt") {
        redirect := Some("/dashboard");
      }
      teamId := storedTeamId;
      role := if storedRole.Some? && storedRole.value != "" then storedRole else Some("encrypt");
      assignedNumber := NumberOf(savedAssigned);
    }

    /** Typing in the ciphertext field replaces it and clears the error. */
    method OnCiphertextInput(v: string)
      modifies this
      ensures ciphertext == v && submitError == ""
      ensures assignedNumber == old(assignedNumber) && teamId == old(teamId) && role == old(role)
      ensures submitting == old(submitting) && submitSuccess == old(submitSuccess) && redirect == old(redirect)
    {
      ciphertext := v;
      submitError := "";
    }

    /**
     * `submitCiphertext`: offline, with a blank ciphertext or without an
     * assigned number it shows the matching message and sends nothing;
     * otherwise it sends the trimmed ciphertext and the decimal text of the
     * assigned number and marks the submission done.
     */
    method SubmitCiphertext(connected: bool) returns (sent: Option<Submission>)
      requires !submitting && !submitSuccess
      modifies this
      ensures !connected ==> sent.None? && submitError == NotConnected
      ensures connected && Trim(ciphertext) == "" ==> sent.None? && submitError == EnterCiphertext
      ensures connected && Trim(ciphertext) != "" && assignedNumber.None? ==>
        sent.None? && submitError == NoAssignedNumber
      ensures sent.None? ==> submitSuccess == old(submitSuccess) && submitting == old(submitting)
      ensures connected && Trim(ciphertext) != "" && assignedNumber.Some? ==>
        && sent == Some(Submission(Trim(ciphertext), NumberString(assignedNumber.value)))
        && submitError == "" && submitSuccess && !submitting
      ensures assignedNumber == old(assignedNumber) && ciphertext == old(ciphertext)
      ensures teamId == old(teamId) && role == old(role) && redirect == old(redirect)
    {
      if !connected {
        submitError := NotConnected;
        return None;
      }
      var trimmed := Trim(ciphertext);
      if trimmed == "" {
        submitError := EnterCiphertext;
        return None;
      }
      if assignedNumber.None? {
        submitError := NoAssignedNumber;
        return None;
      }
      submitting := true;
      submitError := "";
      sent := Some(Submission(trimmed, NumberString(assignedNumber.value)));
      submitSuccess := true;
      submitting := false;
    }

    /** A pushed team state that reports round 2 complete moves to the result page. */
    method OnTeamState(round2Complete: bool)
      modifies this
      ensures redirect == (if round2Complete then Some("/round2/result") else old(redirect))
      ensures assignedNumber == old(assignedNumber) && ciphertext == old(ciphertext)
      ensures teamId == old(teamId) && role == old(role) && submitting == old(submitting)
      ensures submitError == old(submitError) && submitSuccess == old(submitSuccess)
    {
      if round2Complete {
        redirect := Some("/round2/result");
      }
    }
  }
}
