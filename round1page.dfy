/**
 * The current round-1 page: the players read the circuit's four LEDs, type
 * them into four boxes and send the joined key to the server, which decides;
 * the page then shows the server's verdict.
 */
module Round1Page {
  import opened Wrappers
  import opened Bits
  import opened Puzzle
  import opened KeyEntry

  const NotConnected: string := "Not connected to server. Please wait a moment and try again."
  const EnterAllFourBits: string := "Enter all 4 bits to proceed"
  const DefaultFailure: string := "Incorrect key."
  const DefaultSuccess: string := "Key verified."
  const FetchFailed: string := "Failed to fetch team assignment"

  /** JavaScript's `s || fallback` on a string: the fallback replaces only the empty string. */
  function OrElse(s: string, fallback: string): (r: string)
    ensures s != "" ==> r == s
    ensures s == "" ==> r == fallback
  {
    if s != "" then s else fallback
  }

  /** The key `submit` sends for filled boxes. */
  lemma SentKeyIsBinary(bits: seq<string>)
    requires WellFormedBits(bits) && AllEntered(bits)
    ensures |Join(bits)| == 4 && IsBinary(Join(bits))
  {
    JoinedKey(bits);
  }

  /**
   * Typing the LEDs in the order the instructions show them (Key3 first,
   * left to right) fills the boxes with the circuit key and sends it; the
   * server accepts it at every row but row 9, where its table expects "0111".
   */
  lemma DisplayedOrderIsAccepted(sw: Switches)
    requires IsAssignedBits(sw)
    ensures var led := CircuitKey(BitsOf(sw));
      && WellFormedBits(BoxesFor(led)) && Join(BoxesFor(led)) == led
      && (GetCorrectKeyFromSwitches(sw) == Some(led) <==> SwitchIndex(BitsOf(sw)) != 9)
  {
    var led := CircuitKey(BitsOf(sw));
    BoxesForJoin(led);
    if SwitchIndex(BitsOf(sw)) == 9 {
      RowOfIndex(BitsOf(sw));
      RowNineDisagrees();
    }
  }

  /**
   * The boxes are labelled Key0 to Key3 from left to right.  Putting each
   * LED into the box carrying its label sends the circuit key reversed,
   * which the server accepts exactly when switches S1 and S3 agree (eight
   * of the sixteen rows).
   */
  lemma LabelledOrderIsReversed(sw: Switches)
    requires IsAssignedBits(sw)
    ensures var rk := Reverse(CircuitKey(BitsOf(sw)));
      && WellFormedBits(BoxesFor(rk)) && Join(BoxesFor(rk)) == rk
      && (GetCorrectKeyFromSwitches(sw) == Some(rk) <==> sw.s1 == sw.s3)
  {
    var led := CircuitKey(BitsOf(sw));
    var rk := Reverse(led);
    assert IsBinary(rk) by {
      forall i | 0 <= i < 4 ensures IsBinaryDigit(rk[i]) {
        assert rk[i] == led[3 - i];
      }
    }
    BoxesForJoin(rk);
    ReversedLedsAccepted(sw);
  }

  class Round1 {
    var keyBits: seq<string>
    var switchValues: Switches
    var loading: bool
    var error: string
    var success: bool
    var successMessage: string
    var submitting: bool
    var teamId: Option<string>
    var role: Option<string>
    /** Where the window was sent, if anywhere. */
    var redirect: Option<string>

    ghost predicate Valid()
      reads this
    {
      WellFormedBits(keyBits)
    }

    constructor ()
      ensures Valid()
      ensures keyBits == EmptyBoxes && switchValues == UnsetSwitches && loading
      ensures error == "" && !success && successMessage == "" && !submitting
      ensures teamId.None? && role.None? && redirect.None?
    {
      keyBits := EmptyBoxes;
      switchValues := UnsetSwitches;
      loading := true;
      error := "";
      success := false;
      successMessage := "";
      submitting := false;
      teamId := None;
      role := None;
      redirect := None;
    }

    /**
     * The mount effect: without a team id or a token the window goes home;
     * with a stored role other than the two seats it goes to the dashboard;
     * otherwise the page takes the team and role and fetches the assignment.
     */
    method Mount(storedTeamId: Option<string>, token: Option<string>, storedRole: Option<string>)
      returns (fetch: Option<string>)
      modifies this
      ensures var signedIn := storedTeamId.Some? && storedTeamId.value != "" && token.Some? && token.value != "";
        var seated := storedRole == Some("encrypt") || storedRole == Some("decrypt");
        && (!signedIn ==> fetch.None? && redirect == Some("/") && teamId == old(teamId) && role == old(role))
        && (signedIn && !seated ==> fetch.None? && redirect == Some("/dashboard") && teamId == old(teamId) && role == old(role))
        && (signedIn && seated ==> fetch == storedTeamId && teamId == storedTeamId && role == storedRole && redirect == old(redirect))
      ensures keyBits == old(keyBits) && switchValues == old(switchValues) && loading == old(loading)
      ensures error == old(error) && success == old(success) && successMessage == old(successMessage)
      ensures submitting == old(submitting)
    {
      if storedTeamId.None? || storedTeamId.value == "" || token.None? || token.value == "" {
        redirect := Some("/");
        return None;
      }
      if storedRole != Some("encrypt") && storedRole != Some("decrypt") {
        redirect := Some("/dashboard");
        return None;
      }
      teamId := storedTeamId;
      role := storedRole;
      fetch := storedTeamId;
    }

    /** The assignment arrived; a response without switch values leaves them all unset. */
    method OnAssignment(response: Option<Switches>)
      modifies this
      ensures switchValues == (if response.Some? then response.value else UnsetSwitches) && !loading
      ensures keyBits == old(keyBits) && error == old(error) && success == old(success)
      ensures successMessage == old(successMessage) && submitting == old(submitting)
      ensures teamId == old(teamId) && role == old(role) && redirect == old(redirect)
    {
      switchValues := if response.Some? then response.value else UnsetSwitches;
      loading := false;
    }

    /** The assignment request failed, with the error's message when it carries one. */
    method OnAssignmentFailed(message: Option<string>)
      modifies this
      ensures error == (if message.Some? then message.value else FetchFailed) && !loading
      ensures keyBits == old(keyBits) && switchValues == old(switchValues) && success == old(success)
      ensures successMessage == old(successMessage) && submitting == old(submitting)
      ensures teamId == old(teamId) && role == old(role) && redirect == old(redirect)
    {
      error := if message.Some? then message.value else FetchFailed;
      loading := false;
    }

    /** `handleBit`: an accepted value replaces box i and clears the error. */
    method HandleBit(i: nat, v: string)
      requires Valid() && i < 4
      requires !submitting && !success
      modifies this
      ensures Valid()
      ensures keyBits == EnterBit(old(keyBits), i, v)
      ensures error == (if BitAccepted(v) then "" else old(error))
      ensures switchValues == old(switchValues) && loading == old(loading) && success == old(success)
      ensures successMessage == old(successMessage) && submitting == old(submitting)
      ensures teamId == old(teamId) && role == old(role) && redirect == old(redirect)
    {
      EnterBitKeepsWellFormed(keyBits, i, v);
      if BitAccepted(v) {
        keyBits := keyBits[i := v];
        error := "";
      }
    }

    /**
     * `submit`: offline, or with an empty box, it shows the matching message
     * and sends nothing; otherwise it sends the four-digit binary key the
     * boxes spell and stays in the submitting state until the verdict.
     */
    method Submit(connected: bool) returns (sent: Option<string>)
      requires Valid()
      requires !submitting && !success
      modifies this
      ensures Valid()
      ensures !connected ==> sent.None? && error == NotConnected && !submitting
      ensures connected && !AllEntered(keyBits) ==> sent.None? && error == EnterAllFourBits && !submitting
      ensures connected && AllEntered(keyBits) ==>
        && sent == Some(Join(keyBits)) && |sent.value| == 4 && IsBinary(sent.value)
        && submitting && error == old(error)
      ensures keyBits == old(keyBits) && switchValues == old(switchValues) && loading == old(loading)
      ensures success == old(success) && successMessage == old(successMessage)
      ensures teamId == old(teamId) && role == old(role) && redirect == old(redirect)
    {
      submitting := true;
      if !connected {
        error := NotConnected;
        submitting := false;
        return None;
      }
      if !AllEntered(keyBits) {
        error := EnterAllFourBits;
        submitting := false;
        return None;
      }
      SentKeyIsBinary(keyBits);
      sent := Some(Join(keyBits));
    }

    /**
     * The server's `round1Result`: a rejection shows its message (or a
     * default) as the error; an acceptance shows its message (or a default)
     * and, unless the teammate is still to submit, leaves for the dashboard.
     */
    method OnRound1Result(ok: bool, message: string, waitingForTeammate: Option<bool>)
      modifies this
      ensures !submitting
      ensures !ok ==>
        !success && successMessage == "" && error == OrElse(message, DefaultFailure) && redirect == old(redirect)
      ensures ok ==> success && successMessage == OrElse(message, DefaultSuccess) && error == ""
      ensures ok ==> redirect == (if waitingForTeammate == Some(true) then old(redirect) else Some("/dashboard"))
      ensures keyBits == old(keyBits) && switchValues == old(switchValues) && loading == old(loading)
      ensures teamId == old(teamId) && role == old(role)
    {
      submitting := false;
      if !ok {
        success := false;
        successMessage := "";
        error := OrElse(message, DefaultFailure);
        return;
      }
      error := "";
      success := true;
      successMessage := OrElse(message, DefaultSuccess);
      if waitingForTeammate != Some(true) {
        redirect := Some("/dashboard");
      }
    }
  }
}
