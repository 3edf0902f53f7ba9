/**
 * The earlier round-1 page: it fetches the team's switch values, computes
 * the expected key itself, checks the four boxes against it in the browser
 * and, on a match, saves the round-2 state locally.
 */
module Round1LegacyPage {
  import opened Wrappers
  import opened Bits
  import opened Puzzle
  import opened KeyEntry

  const SwitchesNotLoaded: string := "Switch values not loaded yet. Please wait a moment."
  const EnterAllBits: string := "Enter all bits"
  const IncorrectKey: string := "Incorrect key"
  const LoadFailed: string := "Failed to load team assignment"

  /**
   * `correctKey`: nothing while any switch value is missing, otherwise the
   * four gate outputs S0^S1, S1^S2, S2^S3, S3^S0, that is Key0 first.
   */
  function CorrectKey(sw: Switches): (r: Option<seq<nat>>)
    ensures r.None? <==> AnyUnset(sw)
    ensures r.Some? ==> |r.value| == 4
  {
    if AnyUnset(sw) then None
    else
      var s0, s1, s2, s3 := sw.s0.value, sw.s1.value, sw.s2.value, sw.s3.value;
      Some([Xor(s0, s1), Xor(s1, s2), Xor(s2, s3), Xor(s3, s0)])
  }

  /**
   * For switch values the server hands out, the page's expected key is the
   * circuit's LED key read from the last digit to the first.
   */
  lemma CorrectKeyIsReversedCircuitKey(sw: Switches)
    requires IsAssignedBits(sw)
    ensures CorrectKey(sw).Some?
    ensures forall i :: 0 <= i < 4 ==> CorrectKey(sw).value[i] < 2
    ensures forall i :: 0 <= i < 4 ==>
      BitChar(CorrectKey(sw).value[i]) == CircuitKey(BitsOf(sw))[3 - i]
  {
    var s0, s1, s2, s3 := sw.s0.value, sw.s1.value, sw.s2.value, sw.s3.value;
    XorBits(s0, s1);
    XorBits(s1, s2);
    XorBits(s2, s3);
    XorBits(s3, s0);
    var ck, key := CorrectKey(sw).value, CircuitKey(BitsOf(sw));
    assert ck == [Xor(s0, s1), Xor(s1, s2), Xor(s2, s3), Xor(s3, s0)];
    forall i | 0 <= i < 4 ensures ck[i] < 2 && BitChar(ck[i]) == key[3 - i] {
      assert i == 0 || i == 1 || i == 2 || i == 3;
    }
  }

  /** The three checks `submit` runs before accepting the boxes. */
  predicate Accepts(bits: seq<string>, sw: Switches): (ok: bool)
    ensures ok ==> !AnyUnset(sw) && AllEntered(bits) && |bits| == 4
  {
    CorrectKey(sw).Some? && AllEntered(bits) && BoxNumbers(bits) == CorrectKey(sw).value
  }

  /**
   * The page accepts exactly the boxes that spell the circuit key in
   * reverse: box i must hold gate output Key_i.
   */
  lemma AcceptsIffReversedKey(bits: seq<string>, sw: Switches)
    requires WellFormedBits(bits) && IsAssignedBits(sw)
    ensures Accepts(bits, sw) <==>
      AllEntered(bits) && Join(bits) == Reverse(CircuitKey(BitsOf(sw)))
  {
    CorrectKeyIsReversedCircuitKey(sw);
    if AllEntered(bits) {
      JoinedKey(bits);
      var j, ns := Join(bits), BoxNumbers(bits);
      var ck, rk := CorrectKey(sw).value, Reverse(CircuitKey(BitsOf(sw)));
      forall i | 0 <= i < 4 ensures ns[i] == ck[i] <==> j[i] == rk[i] {
        assert bits[i] == [j[i]] && IsBinaryDigit(j[i]);
        assert rk[i] == BitChar(ck[i]);
      }
      assert |ns| == |ck| == |j| == |rk| == 4;
      assert ns == ck <==> j == rk;
    }
  }

  /** The `teamState` record the page saves on success. */
  datatype SavedState = SavedState(
    round: nat, key4bit: string, key8bit: string,
    round1Complete: bool, round2Complete: bool, teammateOnline: bool)

  class Round1Legacy {
    var keyBits: seq<string>
    var switchValues: Switches
    var loading: bool
    var error: string
    var success: bool
    var submitting: bool
    /** The local-storage `teamState` entry, once written. */
    var teamState: Option<SavedState>
    /** Where the router was sent, if anywhere. */
    var redirect: Option<string>

    ghost predicate Valid()
      reads this
    {
      WellFormedBits(keyBits)
    }

    constructor ()
      ensures Valid()
      ensures keyBits == EmptyBoxes && switchValues == UnsetSwitches && loading
      ensures error == "" && !success && !submitting && teamState.None? && redirect.None?
    {
      keyBits := EmptyBoxes;
      switchValues := UnsetSwitches;
      loading := true;
      error := "";
      success := false;
      submitting := false;
      teamState := None;
      redirect := None;
    }

    /**
     * The mount effect: without a stored team id (missing or empty) the page
     * goes home, otherwise it asks for that team's assignment.
     */
    method Mount(storedTeamId: Option<string>) returns (fetch: Option<string>)
      modifies this
      ensures storedTeamId.None? || storedTeamId.value == "" ==>
        fetch.None? && redirect == Some("/")
      ensures storedTeamId.Some? && storedTeamId.value != "" ==>
        fetch == storedTeamId && redirect == old(redirect)
      ensures keyBits == old(keyBits) && switchValues == old(switchValues) && loading == old(loading)
      ensures error == old(error) && success == old(success) && submitting == old(submitting)
      ensures teamState == old(teamState)
    {
      if storedTeamId.None? || storedTeamId.value == "" {
        redirect := Some("/");
        fetch := None;
      } else {
        fetch := storedTeamId;
      }
    }

    /** The assignment arrived; a response without switch values leaves them all unset. */
    method OnAssignment(response: Option<Switches>)
      modifies this
      ensures switchValues == (if response.Some? then response.value else UnsetSwitches)
      ensures !loading
      ensures keyBits == old(keyBits) && error == old(error) && success == old(success)
      ensures submitting == old(submitting) && teamState == old(teamState) && redirect == old(redirect)
    {
      switchValues := if response.Some? then response.value else UnsetSwitches;
      loading := false;
    }

    /** The assignment request failed. */
    method OnAssignmentFailed()
      modifies this
      ensures error == LoadFailed && !loading
      ensures keyBits == old(keyBits) && switchValues == old(switchValues) && success == old(success)
      ensures submitting == old(submitting) && teamState == old(teamState) && redirect == old(redirect)
    {
      error := LoadFailed;
      loading := false;
    }

    /** `handleBit`: an accepted value replaces box i and clears the error. */
    method HandleBit(i: nat, v: string)
      requires Valid() && i < 4
      requires !submitting
      modifies this
      ensures Valid()
      ensures keyBits == EnterBit(old(keyBits), i, v)
      ensures error == (if BitAccepted(v) then "" else old(error))
      ensures switchValues == old(switchValues) && loading == old(loading) && success == old(success)
      ensures submitting == old(submitting) && teamState == old(teamState) && redirect == old(redirect)
    {
      EnterBitKeepsWellFormed(keyBits, i, v);
      if BitAccepted(v) {
        keyBits := keyBits[i := v];
        error := "";
      }
    }

    /**
     * `submit`: the checks run in order, each failure shows its message and
     * ends the submission; a match saves the round-2 state, whose key is
     * the boxes' digits followed by the fixed suffix, and schedules the move
     * to the encryption page.
     */
    method Submit()
      requires Valid()
      requires !submitting && !success
      modifies this
      ensures Valid()
      ensures keyBits == old(keyBits) && switchValues == old(switchValues) && loading == old(loading)
      ensures CorrectKey(switchValues).None? ==> error == SwitchesNotLoaded
      ensures CorrectKey(switchValues).Some? && !AllEntered(keyBits) ==> error == EnterAllBits
      ensures CorrectKey(switchValues).Some? && AllEntered(keyBits) && !Accepts(keyBits, switchValues) ==>
        error == IncorrectKey
      ensures !Accepts(keyBits, switchValues) ==>
        !submitting && success == old(success) && teamState == old(teamState) && redirect == old(redirect)
      ensures Accepts(keyBits, switchValues) ==>
        && error == old(error) && submitting && success
        && teamState == Some(SavedState(2, Join(keyBits), Join(keyBits) + KeySuffix, true, false, true))
        && redirect == Some("/round2/encrypt")
    {
      submitting := true;
      var correct := CorrectKey(switchValues);
      if correct.None? {
        error := SwitchesNotLoaded;
        submitting := false;
        return;
      }
      if !AllEntered(keyBits) {
        error := EnterAllBits;
        submitting := false;
        return;
      }
      if BoxNumbers(keyBits) != correct.value {
        error := IncorrectKey;
        submitting := false;
        return;
      }
      var key4bit := Join(keyBits);
      var key8bit := key4bit + KeySuffix;
      teamState := Some(SavedState(2, key4bit, key8bit, true, false, true));
      success := true;
      redirect := Some("/round2/encrypt");
    }
  }

  /**
   * What the page saves after a successful submit: a binary four-digit key
   * that is the circuit key reversed, expanded to eight digits with the
   * suffix.  The server's table holds that key, and the saved eight-digit
   * key equals the server's, exactly when switches S1 and S3 agree.
   */
  lemma SavedKeyIsReversed(bits: seq<string>, sw: Switches)
    requires WellFormedBits(bits) && IsAssignedBits(sw) && Accepts(bits, sw)
    ensures |Join(bits)| == 4 && IsBinary(Join(bits))
    ensures Join(bits) == Reverse(CircuitKey(BitsOf(sw)))
    ensures GetCorrectKeyFromSwitches(sw) == Some(Join(bits)) <==> sw.s1 == sw.s3
    ensures Join(bits) + KeySuffix == GetCorrectKeyFromSwitches(sw).value + KeySuffix <==> sw.s1 == sw.s3
  {
    AcceptsIffReversedKey(bits, sw);
    JoinedKey(bits);
    ReversedLedsAccepted(sw);
    var key := GetCorrectKeyFromSwitches(sw).value;
    if Join(bits) + KeySuffix == key + KeySuffix {
      assert (Join(bits) + KeySuffix)[..4] == Join(bits);
      assert (key + KeySuffix)[..4] == key;
    }
  }
}
