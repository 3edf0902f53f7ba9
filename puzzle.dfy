/**
 * The round-1 puzzle data: the sixteen-row table from switch settings to the
 * 4-bit key, the cyclic list of numbers handed out for round 2, and the
 * reverse lookup from a team's stored switch values to its key.
 */
module Puzzle {
  import opened Wrappers
  import opened Bits

  /** One row's switch settings, written S3 S2 S1 S0 as in the table. */
  datatype SwitchBits = SwitchBits(s3: nat, s2: nat, s1: nat, s0: nat)

  datatype TableEntry = TableEntry(switches: SwitchBits, key: string)

  /** A team's stored switch values: each a number or null (unassigned). */
  datatype Switches = Switches(s0: Option<nat>, s1: Option<nat>, s2: Option<nat>, s3: Option<nat>)

  const UnsetSwitches: Switches := Switches(None, None, None, None)

  /**
   * `ROUND1_LOOKUP_TABLE` as the server lists it and uses it.  Row 9
   * (S3 S2 S1 S0 = 1 0 0 1) carries "0111", which is not the circuit's key;
   * IntendedTable is the table with that row corrected.
   */
  const LookupTable: seq<TableEntry> := [
    TableEntry(SwitchBits(0, 0, 0, 0), "0000"),
    TableEntry(SwitchBits(0, 0, 0, 1), "1001"),
    TableEntry(SwitchBits(0, 0, 1, 0), "0011"),
    TableEntry(SwitchBits(0, 0, 1, 1), "1010"),
    TableEntry(SwitchBits(0, 1, 0, 0), "0110"),
    TableEntry(SwitchBits(0, 1, 0, 1), "1111"),
    TableEntry(SwitchBits(0, 1, 1, 0), "0101"),
    TableEntry(SwitchBits(0, 1, 1, 1), "1100"),
    TableEntry(SwitchBits(1, 0, 0, 0), "1100"),
    TableEntry(SwitchBits(1, 0, 0, 1), "0111"),
    TableEntry(SwitchBits(1, 0, 1, 0), "1111"),
    TableEntry(SwitchBits(1, 0, 1, 1), "0110"),
    TableEntry(SwitchBits(1, 1, 0, 0), "1010"),
    TableEntry(SwitchBits(1, 1, 0, 1), "0011"),
    TableEntry(SwitchBits(1, 1, 1, 0), "1001"),
    TableEntry(SwitchBits(1, 1, 1, 1), "0000")
  ]

  /** The table the circuit implies: row 9 carries "0101", like its complement row 6. */
  const IntendedTable: seq<TableEntry> := [
    TableEntry(SwitchBits(0, 0, 0, 0), "0000"),
    TableEntry(SwitchBits(0, 0, 0, 1), "1001"),
    TableEntry(SwitchBits(0, 0, 1, 0), "0011"),
    TableEntry(SwitchBits(0, 0, 1, 1), "1010"),
    TableEntry(SwitchBits(0, 1, 0, 0), "0110"),
    TableEntry(SwitchBits(0, 1, 0, 1), "1111"),
    TableEntry(SwitchBits(0, 1, 1, 0), "0101"),
    TableEntry(SwitchBits(0, 1, 1, 1), "1100"),
    TableEntry(SwitchBits(1, 0, 0, 0), "1100"),
    TableEntry(SwitchBits(1, 0, 0, 1), "0101"),
    TableEntry(SwitchBits(1, 0, 1, 0), "1111"),
    TableEntry(SwitchBits(1, 0, 1, 1), "0110"),
    TableEntry(SwitchBits(1, 1, 0, 0), "1010"),
    TableEntry(SwitchBits(1, 1, 0, 1), "0011"),
    TableEntry(SwitchBits(1, 1, 1, 0), "1001"),
    TableEntry(SwitchBits(1, 1, 1, 1), "0000")
  ]

  /** The numbers the encrypting teammate receives, indexed like the table. */
  const AssignedNumbers: seq<nat> := [
    42, 198, 7, 154,
    233, 89, 16, 201,
    64, 175, 29, 247,
    110, 3, 186, 95
  ]

  /** The fixed 4-bit suffix that expands a 4-bit key to 8 bits. */
  const KeySuffix: string := "1000"

  predicate IsBitTuple(sw: SwitchBits) { sw.s3 < 2 && sw.s2 < 2 && sw.s1 < 2 && sw.s0 < 2 }

  /** The four bits of i, most significant (S3) first. */
  function SwitchesOfIndex(i: nat): (sw: SwitchBits)
    ensures IsBitTuple(sw)
  {
    SwitchBits(i / 8 % 2, i / 4 % 2, i / 2 % 2, i % 2)
  }

  /** The row number a bit tuple names: S3 S2 S1 S0 read as binary. */
  function SwitchIndex(sw: SwitchBits): nat
  {
    8 * sw.s3 + 4 * sw.s2 + 2 * sw.s1 + sw.s0
  }

  /**
   * The circuit behind the table: the key string is Key3 Key2 Key1 Key0 with
   * Key0 = S0^S1, Key1 = S1^S2, Key2 = S2^S3 and Key3 = S3^S0.
   */
  function CircuitKey(sw: SwitchBits): (k: string)
    ensures |k| == 4 && IsBinary(k)
  {
    [BitChar(Xor(sw.s3, sw.s0)), BitChar(Xor(sw.s2, sw.s3)),
     BitChar(Xor(sw.s1, sw.s2)), BitChar(Xor(sw.s0, sw.s1))]
  }

  /** The switch values a team stores for a table row. */
  function Stored(sw: SwitchBits): Switches
  {
    Switches(Some(sw.s0), Some(sw.s1), Some(sw.s2), Some(sw.s3))
  }

  /**
   * Row i's switches are the 4-bit binary of i; its key is the circuit's
   * output, except in row 9.
   */
  lemma TableRow(i: nat)
    requires i < 16
    ensures LookupTable[i].switches == SwitchesOfIndex(i)
    ensures i != 9 ==> LookupTable[i].key == CircuitKey(SwitchesOfIndex(i))
    ensures i == 9 ==> LookupTable[i].key == "0111"
  {
    XorBits(0, 0); XorBits(0, 1); XorBits(1, 0); XorBits(1, 1);
    if i < 8 {
      assert i == 0 || i == 1 || i == 2 || i == 3 || i == 4 || i == 5 || i == 6 || i == 7;
    } else {
      assert i == 8 || i == 9 || i == 10 || i == 11 || i == 12 || i == 13 || i == 14 || i == 15;
    }
  }

  lemma TableRows()
    ensures |LookupTable| == 16
    ensures forall i :: 0 <= i < 16 ==> LookupTable[i].switches == SwitchesOfIndex(i)
    ensures forall i :: 0 <= i < 16 && i != 9 ==> LookupTable[i].key == CircuitKey(LookupTable[i].switches)
    ensures LookupTable[9].key == "0111"
  {
    forall i | 0 <= i < 16
      ensures LookupTable[i].switches == SwitchesOfIndex(i)
      ensures i != 9 ==> LookupTable[i].key == CircuitKey(LookupTable[i].switches)
    {
      TableRow(i);
    }
  }

  /**
   * Row 9 of the source table carries "0111" where the circuit gives "0101",
   * the key of its complement row 6; every other row is the intended one.
   */
  lemma RowNineDisagrees()
    ensures LookupTable[9].switches == SwitchesOfIndex(9)
    ensures LookupTable[9].key == "0111"
    ensures CircuitKey(SwitchesOfIndex(9)) == "0101"
    ensures LookupTable[9].key != LookupTable[15 - 9].key
    ensures forall i :: 0 <= i < 16 && i != 9 ==> LookupTable[i] == IntendedTable[i]
  {
    XorBits(1, 1); XorBits(0, 1); XorBits(0, 0); XorBits(1, 0);
  }

  /** Row i of the intended table: the source's switches, keyed by the circuit. */
  lemma IntendedRow(i: nat)
    requires i < 16
    ensures IntendedTable[i].switches == SwitchesOfIndex(i)
    ensures IntendedTable[i].key == CircuitKey(SwitchesOfIndex(i))
  {
    TableRow(i);
    if i == 9 {
      RowNineDisagrees();
    } else {
      assert IntendedTable[i] == LookupTable[i];
    }
  }

  /** The intended table: the source's switch column, each row keyed by the circuit. */
  lemma IntendedTableRows()
    ensures |IntendedTable| == 16
    ensures forall i :: 0 <= i < 16 ==> IntendedTable[i].switches == LookupTable[i].switches
    ensures forall i :: 0 <= i < 16 ==> IntendedTable[i].key == CircuitKey(IntendedTable[i].switches)
  {
    TableRows();
    RowNineDisagrees();
  }

  lemma IndexOfRow(i: nat)
    requires i < 16
    ensures SwitchIndex(SwitchesOfIndex(i)) == i
  {
    var q1, q2, q3 := i / 2, i / 4, i / 8;
    assert i == 2 * q1 + i % 2;
    assert q1 == 2 * q2 + q1 % 2 && q1 / 2 == q2;
    assert q2 == 2 * q3 + q2 % 2 && q2 / 2 == q3;
    assert q3 < 2 && q3 % 2 == q3;
  }

  lemma RowOfIndex(sw: SwitchBits)
    requires IsBitTuple(sw)
    ensures SwitchIndex(sw) < 16 && SwitchesOfIndex(SwitchIndex(sw)) == sw
  {
    var i := SwitchIndex(sw);
    assert i / 2 == 4 * sw.s3 + 2 * sw.s2 + sw.s1;
    assert i / 4 == 2 * sw.s3 + sw.s2;
    assert i / 8 == sw.s3;
  }

  /** The switch tuples are pairwise distinct and name every bit combination. */
  lemma TableIsBijection()
    ensures forall i, j :: 0 <= i < 16 && 0 <= j < 16 && i != j ==>
      LookupTable[i].switches != LookupTable[j].switches
    ensures forall sw :: IsBitTuple(sw) ==>
      SwitchIndex(sw) < 16 && LookupTable[SwitchIndex(sw)].switches == sw
  {
    TableRows();
    forall i, j | 0 <= i < 16 && 0 <= j < 16 && i != j
      ensures LookupTable[i].switches != LookupTable[j].switches
    {
      IndexOfRow(i);
      IndexOfRow(j);
    }
    forall sw | IsBitTuple(sw)
      ensures SwitchIndex(sw) < 16 && LookupTable[SwitchIndex(sw)].switches == sw
    {
      RowOfIndex(sw);
    }
  }

  /** Every key is four binary digits. */
  lemma KeysAreBinary4()
    ensures forall i :: 0 <= i < 16 ==> |LookupTable[i].key| == 4 && IsBinary(LookupTable[i].key)
  {
    TableRows();
  }

  /**
   * Flipping every switch (row 15 - i) leaves the circuit's key unchanged;
   * the source table keeps this for every pair but rows 6 and 9.
   */
  lemma ComplementRowsShareKey()
    ensures forall i :: 0 <= i < 16 && i != 6 && i != 9 ==> LookupTable[i].key == LookupTable[15 - i].key
    ensures LookupTable[6].key != LookupTable[9].key
  {
    forall i | 0 <= i < 16 && i != 6 && i != 9 ensures LookupTable[i].key == LookupTable[15 - i].key {
      assert i == 0 || i == 1 || i == 2 || i == 3 || i == 4 || i == 5 || i == 7
          || i == 8 || i == 10 || i == 11 || i == 12 || i == 13 || i == 14 || i == 15;
    }
  }

  /** In the intended table every complementary pair of rows shares its key. */
  lemma IntendedComplementRowsShareKey()
    ensures forall i :: 0 <= i < 16 ==> IntendedTable[i].key == IntendedTable[15 - i].key
  {
    ComplementRowsShareKey();
    forall i | 0 <= i < 16 ensures IntendedTable[i].key == IntendedTable[15 - i].key {
      if i == 6 || i == 9 {
        assert IntendedTable[6].key == "0101" && IntendedTable[9].key == "0101";
      } else {
        assert IntendedTable[i] == LookupTable[i] && IntendedTable[15 - i] == LookupTable[15 - i];
      }
    }
  }

  /**
   * `key + "1000"` read in binary is 16 * key + 8: one of 8, 24, ..., 248.
   */
  lemma ExpandedKeyValue(key: string)
    requires |key| == 4 && IsBinary(key)
    ensures |key + KeySuffix| == 8 && IsBinary(key + KeySuffix)
    ensures BinVal(key + KeySuffix) == 16 * BinVal(key) + 8
    ensures BinVal(key + KeySuffix) < 256 && BinVal(key + KeySuffix) % 16 == 8
  {
    BinValAppend(key, KeySuffix);
    BinValBelow(key);
    assert KeySuffix[..3] == "100" && "100"[..2] == "10" && "10"[..1] == "1" && "1"[..0] == [];
    assert BinVal(KeySuffix) == 8;
  }

  /** The table row for a queue position: row `position mod 16`. */
  function GetAssignmentFromLookup(position: nat): (e: TableEntry)
    ensures e.switches == SwitchesOfIndex(position % 16)
    ensures |e.key| == 4 && IsBinary(e.key)
    ensures position % 16 != 9 ==> e.key == CircuitKey(e.switches)
    ensures position % 16 == 9 ==> e.key == "0111"
  {
    TableRows();
    KeysAreBinary4();
    LookupTable[position % |LookupTable|]
  }

  /** The number for a queue position: entry `position mod 16`, always below 256. */
  function GetAssignedNumberFromQueue(position: nat): (n: nat)
    ensures n < 256
    ensures n in AssignedNumbers
    ensures n == AssignedNumbers[position % 16]
  {
    AssignedNumbers[position % |AssignedNumbers|]
  }

  /**
   * The queue hands out the same puzzle every sixteen positions: position
   * p + 16 gets the row and the number of position p.
   */
  lemma AssignmentRepeatsEverySixteen(position: nat)
    ensures GetAssignmentFromLookup(position + 16) == GetAssignmentFromLookup(position)
    ensures GetAssignedNumberFromQueue(position + 16) == GetAssignedNumberFromQueue(position)
  {
    assert (position + 16) % 16 == position % 16;
  }

  /** A row matches when each stored switch value is that row's bit. */
  predicate Matches(e: TableEntry, sw: Switches)
  {
    sw.s0 == Some(e.switches.s0) && sw.s1 == Some(e.switches.s1)
    && sw.s2 == Some(e.switches.s2) && sw.s3 == Some(e.switches.s3)
  }

  /** `Array.prototype.find` over the table from row i on: the first matching row. */
  function FindFrom(sw: Switches, i: nat): (r: Option<nat>)
    requires i <= |LookupTable|
    ensures r.Some? ==> i <= r.value < |LookupTable| && Matches(LookupTable[r.value], sw)
    ensures r.Some? ==> forall k :: i <= k < r.value ==> !Matches(LookupTable[k], sw)
    ensures r.None? ==> forall k :: i <= k < |LookupTable| ==> !Matches(LookupTable[k], sw)
    decreases |LookupTable| - i
  {
    if i == |LookupTable| then None
    else if Matches(LookupTable[i], sw) then Some(i)
    else FindFrom(sw, i + 1)
  }

  /** `Object.values(switchValues).some(v => v === null)`. */
  predicate AnyUnset(sw: Switches)
  {
    sw.s0.None? || sw.s1.None? || sw.s2.None? || sw.s3.None?
  }

  /** All four switch values are set and each is 0 or 1. */
  predicate IsAssignedBits(sw: Switches)
  {
    && sw.s0.Some? && sw.s1.Some? && sw.s2.Some? && sw.s3.Some?
    && sw.s0.value < 2 && sw.s1.value < 2 && sw.s2.value < 2 && sw.s3.value < 2
  }

  function BitsOf(sw: Switches): SwitchBits
    requires IsAssignedBits(sw)
  {
    SwitchBits(sw.s3.value, sw.s2.value, sw.s1.value, sw.s0.value)
  }

  /** A row matches the stored values exactly when they are that row's bits. */
  lemma MatchesIffRow(sw: Switches, k: nat)
    requires k < 16
    ensures Matches(LookupTable[k], sw) <==> IsAssignedBits(sw) && SwitchIndex(BitsOf(sw)) == k
  {
    TableRow(k);
    IndexOfRow(k);
    if IsAssignedBits(sw) {
      RowOfIndex(BitsOf(sw));
    }
  }

  /**
   * The key of the first table row matching the stored switch values, or
   * null when none does: a key is found exactly when the values are set and
   * 0/1, and then it is the circuit's output for them, except for the
   * values of row 9, which get that row's "0111".
   */
  function GetCorrectKeyFromSwitches(sw: Switches): (r: Option<string>)
    ensures r.Some? <==> IsAssignedBits(sw)
    ensures r.Some? ==> |r.value| == 4 && IsBinary(r.value)
    ensures r.Some? && SwitchIndex(BitsOf(sw)) != 9 ==> r.value == CircuitKey(BitsOf(sw))
    ensures r.Some? && SwitchIndex(BitsOf(sw)) == 9 ==> r.value == "0111"
  {
    var found := FindFrom(sw, 0);
    if found.Some? then
      MatchesIffRow(sw, found.value);
      TableRow(found.value);
      KeysAreBinary4();
      RowOfIndex(BitsOf(sw));
      Some(LookupTable[found.value].key)
    else
      assert !IsAssignedBits(sw) by {
        if IsAssignedBits(sw) {
          RowOfIndex(BitsOf(sw));
          MatchesIffRow(sw, SwitchIndex(BitsOf(sw)));
        }
      }
      None
  }

  /**
   * The lookup the circuit implies, on the intended table: for set 0/1
   * values it is always the circuit's output.
   */
  function IntendedKeyFromSwitches(sw: Switches): (r: Option<string>)
    ensures r.Some? <==> IsAssignedBits(sw)
    ensures r.Some? ==> r.value == CircuitKey(BitsOf(sw))
  {
    if IsAssignedBits(sw) then
      RowOfIndex(BitsOf(sw));
      IntendedRow(SwitchIndex(BitsOf(sw)));
      Some(IntendedTable[SwitchIndex(BitsOf(sw))].key)
    else None
  }

  /** The two lookups differ exactly on the switch values of row 9. */
  lemma LookupsDifferOnlyAtRowNine(sw: Switches)
    ensures GetCorrectKeyFromSwitches(sw) == IntendedKeyFromSwitches(sw) <==>
      !(IsAssignedBits(sw) && SwitchIndex(BitsOf(sw)) == 9)
  {
    if IsAssignedBits(sw) && SwitchIndex(BitsOf(sw)) == 9 {
      RowOfIndex(BitsOf(sw));
      RowNineDisagrees();
    }
  }

  /** The key found is the one in the row the switch values index. */
  lemma CorrectKeyIsIndexedRow(sw: Switches)
    requires IsAssignedBits(sw)
    ensures SwitchIndex(BitsOf(sw)) < 16
    ensures GetCorrectKeyFromSwitches(sw) == Some(LookupTable[SwitchIndex(BitsOf(sw))].key)
  {
    RowOfIndex(BitsOf(sw));
    TableRow(SwitchIndex(BitsOf(sw)));
  }

  /** Exactly one row matches any tuple of 0/1 switch values, and none matches otherwise. */
  lemma UniqueMatch(sw: Switches)
    ensures IsAssignedBits(sw) ==> SwitchIndex(BitsOf(sw)) < 16 && Matches(LookupTable[SwitchIndex(BitsOf(sw))], sw)
    ensures forall k :: 0 <= k < 16 && Matches(LookupTable[k], sw) ==> IsAssignedBits(sw) && k == SwitchIndex(BitsOf(sw))
  {
    if IsAssignedBits(sw) {
      RowOfIndex(BitsOf(sw));
      MatchesIffRow(sw, SwitchIndex(BitsOf(sw)));
    }
    forall k | 0 <= k < 16 && Matches(LookupTable[k], sw)
      ensures IsAssignedBits(sw) && k == SwitchIndex(BitsOf(sw))
    {
      MatchesIffRow(sw, k);
    }
  }
}
