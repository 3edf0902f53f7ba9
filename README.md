# Cipher Circuit: a Dafny model of the team-session coordinator and its pages

Cipher Circuit is a two-player puzzle game. Each team has two seats: the
encrypt teammate and the decrypt teammate.

**Round 1.** The server assigns the team a row of a sixteen-row table of
switch settings (S3 S2 S1 S0). Both players build an XOR circuit in
CircuitVerse, read its four LEDs and type the 4-bit key into four boxes.
The round completes once two sockets have sent the key the server's table
lists for those switches. The key is then expanded by appending "1000".
The table's row 9 (1 0 0 1) lists "0111", not the circuit's "0101"; the
model keeps the listed table and proves its consequences, and sets an
intended table beside it (see Findings). The key payload may also be
null: an unassigned team has no expected key, which is null too, so a
null key passes the comparison.

**Round 2.** The encrypt teammate gets an assigned number and sends its
ciphertext together with the plaintext. The decrypt teammate's page
exclusive-ors the saved encrypted number with the 8-bit key and sends
back the decimal it reads off. A match completes the game.

The project models:

- **The coordinator** (`server/index.js`). This is class
  `Server.Coordinator`:
  - its state is the team store (a map), the assignment queue (a
    sequence) and the live-socket map;
  - it has one method per socket event and REST route;
  - each method returns the messages it emits, each addressed to a
    socket, a room, or a room minus the sender.
- **The per-team transitions** behind the coordinator. These are in
  `Session`, as functions on the `Team` record, with the invariants they
  keep.
- **The puzzle data** (`server/models.js`). This is module `Puzzle`.
- **The four client validators**, each as a class whose fields are the
  page's state variables:
  - `src/app/round1/page.tsx`: `Round1Page.Round1`;
  - `src/app/round1/page_old.tsx`: `Round1LegacyPage.Round1Legacy`;
  - `src/app/round2/encrypt/page.tsx`: `EncryptPage.Encrypt`;
  - `src/app/round2/decrypt/page.tsx`: `DecryptPage.Decrypt`.
- **The JavaScript operations the code relies on**:
  - `^` on non-negative numbers, `toString(2)`, `padStart`,
    `parseInt(_, 2)` and `String(n)`: module `Bits`;
  - `trim` and `toLowerCase`: module `JsText`;
  - the four key boxes shared by the round-1 pages: module `KeyEntry`.

Main results:

- The coordinator keeps the store valid across every handler
  (`Server.Coordinator.Valid`):
  - every team has at most two members, with one seat per role and one
    per socket;
  - round 2 is reached exactly when round 1 is complete;
  - a team has either no puzzle at all or exactly the puzzle of the queue
    position it holds;
  - the queue issues positions 0, 1, 2, … each to exactly one team.
- The decrypt page recovers the encrypt page's plaintext for every
  assigned team, so a correct pair of players always completes round 2
  (`DecryptPage.PagesAgree`).
- The current round-1 page sends the key exactly as typed. The LED order
  shown in the instructions is accepted at every row except row 9
  (`Round1Page.DisplayedOrderIsAccepted`). Filling the boxes by their
  labels (Key0 … Key3) is accepted exactly when S1 equals S3.
- The legacy round-1 page accepts exactly the reversed circuit key and
  saves it (`Round1LegacyPage.AcceptsIffReversedKey`); the server's table
  holds that key exactly when S1 equals S3
  (`Round1LegacyPage.SavedKeyIsReversed`).
- At row 9 the circuit's key is rejected by the coordinator
  (`Session.CircuitKeyRejectedAtRowNine`), and an unassigned team
  completes round 1 with two null keys
  (`Session.NullKeysCompleteUnassigned`).

**Clock.** The wall clock is a parameter (`now`).

**Persistence and sockets.** The database and Socket.IO are replaced by
fields and returned event lists. `localStorage` reads are method
parameters, and router pushes are recorded in a `redirect` field.

## Model

| member | source | states |
|---|---|---|
| Puzzle.TableRow | server/models.js:4-21 | row i has the switches of the 4-bit binary of i; every row but 9 carries the key Key3 Key2 Key1 Key0 of the XOR circuit (Key0 = S0^S1, Key1 = S1^S2, Key2 = S2^S3, Key3 = S3^S0), and row 9 carries "0111" as listed |
| Puzzle.TableRows | server/models.js:4-21 | the table has sixteen rows, row i holding the switches of i; every row but 9 carries the circuit's key for its switches, and row 9 carries "0111" |
| Puzzle.RowNineDisagrees | server/models.js:14 | the listed row 9 (1 0 0 1) carries "0111" where the circuit gives "0101", unlike its complementary row 6; every other row equals the intended table's |
| Puzzle.IntendedRow | server/models.js:4-21 | in the intended table row i has the switches of i and the circuit's key for them |
| Puzzle.IntendedTableRows | server/models.js:4-21 | the intended table has the listed table's sixteen switch rows, each with the circuit's key |
| Puzzle.CircuitKey | src/app/round1/page.tsx:401-414 | the four LEDs Key3 Key2 Key1 Key0 of the circuit are four binary digits |
| Puzzle.IndexOfRow | server/models.js:4-21 | reading a row's switch bits back as a binary number gives the row number |
| Puzzle.RowOfIndex | server/models.js:4-21 | every 0/1 switch tuple names a row whose switches are that tuple |
| Puzzle.TableIsBijection | server/models.js:4-21 | the rows carry pairwise distinct switch tuples and cover all sixteen combinations |
| Puzzle.KeysAreBinary4 | server/models.js:4-21 | every key is four binary digits |
| Puzzle.ComplementRowsShareKey | server/models.js:4-21 | flipping every switch (row 15 - i) leaves the key unchanged for every pair but rows 6 and 9, whose keys differ |
| Puzzle.IntendedComplementRowsShareKey | server/models.js:4-21 | in the intended table every complementary pair of rows shares its key |
| Puzzle.SwitchesOfIndex | server/models.js:4-21 | the switches of a row number are four bits |
| Puzzle.ExpandedKeyValue | server/index.js:130-131 | key + "1000" is eight binary digits whose value is 16 * key + 8, below 256 |
| Puzzle.GetAssignmentFromLookup | server/index.js:69-72 | position p gets row p mod 16: the switches of p mod 16 and a four-binary-digit key, the circuit's output except at row 9, where it is "0111" |
| Puzzle.GetAssignedNumberFromQueue | server/index.js:74-77 | position p gets entry p mod 16 of the assigned list, always below 256 |
| Puzzle.AssignmentRepeatsEverySixteen | server/index.js:69-77 | position p + 16 gets the same row and the same number as position p |
| Puzzle.FindFrom | server/index.js:83-88 | `find` returns the first matching row at or after i, or none when no row from i on matches |
| Puzzle.MatchesIffRow | server/index.js:84-87 | a row matches the stored switch values exactly when they are all set, 0 or 1, and index that row |
| Puzzle.GetCorrectKeyFromSwitches | server/index.js:80-90 | a key is found exactly when all four values are set and 0 or 1; it is four binary digits, the circuit's output for them except at row 9 (1 0 0 1), where it is "0111" |
| Puzzle.IntendedKeyFromSwitches | server/index.js:80-90 | the lookup on the intended table finds a key exactly when all four values are set and 0 or 1, and it is always the circuit's output |
| Puzzle.LookupsDifferOnlyAtRowNine | server/models.js:14 | the listed and the intended lookups agree on every switch values except those of row 9 |
| Puzzle.CorrectKeyIsIndexedRow | server/index.js:80-90 | the key found is the key of the row the switch values index |
| Puzzle.UniqueMatch | server/index.js:83-88 | exactly one row matches a 0/1 tuple, and no row matches anything else |
| Session.NormalizeRole | server/index.js:59-66 | a role is returned only when the trimmed, lower-cased text is a role name, and then it is that role; every such text yields a role; a non-string yields none |
| Session.NormalizeAcceptsPadded | server/index.js:59-66 | a role name in any letter case, surrounded by any whitespace, is accepted as that role |
| Session.NewTeamDefaults | server/models.js:24-120 | a new record takes its schema defaults: it is valid, in round 1, with nothing complete, no key to find, no resubmissions and empty round-2 strings |
| Session.SetOnline | server/index.js:219-220 | the members on the given socket get the online flag; other members are unchanged |
| Session.HandSeat | server/index.js:210-212 | the holder of the role is moved to the new socket and marked online; other members are unchanged |
| Session.JoinedMembers | server/index.js:205-227 | a join adds at most one member, and only a new socket asking for a free role, appended online |
| Session.JoinedTeam | server/index.js:205-236 | a join on an existing record changes only the members and, from round 0 only, the round |
| Session.JoinKeepsMembersValid | server/index.js:207-226 | a join keeps at most two members, with distinct roles and distinct sockets |
| Session.JoinShape | server/index.js:207-226 | a join never removes a member or changes a role; it adds one exactly when the socket is new, the role is free and there is room, and then appends the caller online |
| Session.JoinWhenSeated | server/index.js:218-221 | a seated socket keeps every seat as it was and only goes online |
| Session.JoinSeatsCaller | server/index.js:207-226 | after a join the caller is seated, and a caller who was not seated holds the role it asked for, online |
| Session.FullTeamHoldsEveryRole | server/index.js:209-226 | two valid members hold both roles, so the last branch never drops the caller |
| Session.OnlineCount | server/index.js:230 | the online count is at most the number of members |
| Session.JoinKeepsTeamValid | server/index.js:229-236 | a join keeps the record valid, and the round-0 advance never fires on a valid record |
| Session.Assigned | server/index.js:121-148 | an assignment sets the position and the switches and leaves the members, the round, both completions, the submissions and the count alone |
| Session.AssignedIsConsistent | server/index.js:121-148 | an assignment writes exactly the puzzle of its position; the encryption value is never null, and it and the assigned number are below 256 |
| Session.AssignKeepsTeamValid | server/index.js:121-148 | assignment keeps the record valid |
| Session.UnsetIffUnassigned | server/index.js:583-586 | for a consistent record, some switch being null holds exactly when no position is held, and so does S0 being null |
| Session.AssignedKeyIsFound | server/index.js:280 | an assigned record's switch values look up its own stored 4-bit key, and its 8-bit key is that key + "1000" |
| Session.ResetPuzzle | server/index.js:724-739 | the reset leaves no position and no key to find, puts the record in round 1 with round 1 incomplete and no encryption value, and keeps members, submissions, round-2 completion and count |
| Session.ResetKeepsTeamValid | server/index.js:721-739 | the queue reset leaves every record valid with its members untouched |
| Session.Upsert | server/index.js:302-312 | the list grows by one exactly when the socket has not submitted yet |
| Session.UpsertShape | server/index.js:302-312 | the upsert keeps one entry per socket, grows only for a new socket, contains the new entry and leaves other sockets' entries as they were |
| Session.WrongKeyOnlyCounts | server/index.js:282-298 | a wrong key raises the resubmission count by one and leaves the submissions, the round, round-1 completion and both keys unchanged |
| Session.Round1Submitted | server/index.js:280-320 | a round-1 submission leaves members, position, switches and round-2 completion alone, counts at most one resubmission, and completes round 1 only with two entries |
| Session.UnassignedPassesOnlyNull | server/index.js:280-312 | an unassigned team has no expected key (null): every string key only counts a resubmission, while a null key passes and is upserted without a count |
| Session.NullKeysCompleteUnassigned | server/index.js:280-320 | a null key from a second socket completes an unassigned team's round 1, storing key4bit null and key8bit "null1000" |
| Session.CircuitKeyRejectedAtRowNine | server/index.js:280-298 | at the switches of row 9 the circuit's key "0101" only counts a resubmission, "0111" is the key that passes, and the intended lookup gives "0101" |
| Session.Round1KeepsTeamValid | server/index.js:280-320 | a round-1 submission keeps the record valid and never lowers the round |
| Session.Round1CompletionRule | server/index.js:315-319 | round 1 completes only with two entries from two different sockets, the expanded key and round 2; a correct key from a second socket always completes it |
| Session.SameSocketRepeatDoesNotComplete | server/index.js:302-315 | repeating a correct key from the only socket that submitted leaves one entry and does not complete round 1 |
| Session.Encrypted | server/index.js:370-371 | storing the ciphertext and plaintext judges nothing: completion, count, keys, encryption value and members stay |
| Session.Decrypted | server/index.js:409-460 | round 2 is complete afterwards exactly when it was or the value equals the stored plaintext; the plaintext and members stay |
| Session.Round2KeepsTeamValid | server/index.js:370-460 | storing the encryption and judging a decryption keep the record valid |
| Session.DecryptionOutcomes | server/index.js:409-460 | a value equal to the stored plaintext completes round 2 at `now` with the count unchanged; any other value leaves completion alone and counts one resubmission |
| Session.EmptyValueCompletesUnencrypted | server/index.js:409-411 | before any encryption the stored plaintext is "", so the decrypting member's "" completes round 2 |
| Session.WentOffline | server/index.js:488-492 | a disconnect changes only the members, and keeps their number |
| Session.DisconnectShape | server/index.js:488-492 | a disconnect keeps the record valid, keeps every seat's socket and role, and marks the socket's seat offline |
| Session.Teammate | server/index.js:93 | the teammate found is a member on another socket; none is found only when every member is on this socket |
| Session.BuildTeamState | server/index.js:92-118 | only the Encrypt member's view carries the assigned number and only the Decrypt member's carries the encryption value, both as stored; a non-member gets neither and no roles; the online flag is "more than one online" |
| Session.TeammateRoleIsTheOtherRole | server/index.js:93-105 | in a full valid team each member is told the other role as its teammate's |
| Session.MemberOf | server/index.js:364 | a member is found exactly when the socket is seated, and it is a member on that socket |
| Session.HoldsRoleIffSeat | server/index.js:364-365 | the role check passes exactly when some seat on that socket has that role |
| Server.CompletedCount | server/index.js:124 | the count of completed queue entries is at most the queue's length |
| Server.CompletedCountIsLength | server/index.js:124-125 | in a valid queue every entry is completed, so the next position is the queue's length |
| Server.PositionsIssuedOnce | server/index.js:121-155 | each queue position is issued to exactly one team, and no two teams record the same position |
| Server.UpdateKeepsStoreValid | server/index.js:121-155 | replacing a team by a valid record with the same id and position keeps the store valid |
| Server.InsertKeepsStoreValid | server/index.js:528-534 | adding a new unassigned valid team keeps the store valid |
| Server.AssignKeepsStoreValid | server/index.js:121-155 | assigning an unassigned team the next position, and queueing it, keeps the store valid |
| Server.EncryptKeepsStoreValid | server/index.js:370-372 | storing an encryption keeps the store valid |
| Server.DecryptKeepsStoreValid | server/index.js:409-460 | judging a decryption keeps the store valid |
| Server.Round1KeepsStoreValid | server/index.js:280-341 | a round-1 submission keeps the store valid |
| Server.JoinKeepsStoreValid | server/index.js:205-236 | a join keeps the store valid and changes only the members |
| Server.DisconnectKeepsStoreValid | server/index.js:488-492 | a disconnect keeps the store valid |
| Server.ResetStore | server/index.js:724-739 | the reset keeps every team id and clears each team's puzzle |
| Server.ResetKeepsStoreValid | server/index.js:721-739 | the reset store with an empty queue is valid |
| Server.PushStates | server/index.js:337-339 | one `team_state` per member, in member order, each addressed to that member and carrying that member's projection |
| Server.PushedSecretsFollowRoles | server/index.js:109-115 | in a state push the Encrypt member alone receives the assigned number and the Decrypt member alone the encryption value |
| Server.ResponseCarriesBothSecrets | server/index.js:588-598 | the REST team body gives an assigned team both secrets at the top level, while its projection, built for no member, carries neither |
| Server.SocketIndex | server/index.js:207 | an index is found exactly when the socket is seated, and it points at a member on that socket |
| Server.RoleIndex | server/index.js:208 | an index is found exactly when the role is held, and it points at a member with that role |
| Server.SubmissionIndex | server/index.js:302 | `findIndex` finds an index exactly when the socket has submitted, and it points at that socket's entry |
| Server.ReseatAt | server/index.js:210-212 | reseating the role holder in place is Session.HandSeat |
| Server.OnlineAt | server/index.js:219-220 | setting the seated member's flag in place is Session.SetOnline |
| Server.OnlineAbsent | server/index.js:488-492 | for an unseated socket the flag update changes nothing |
| Server.JoinInPlace | server/index.js:206-227 | the source's branch order for an existing team computes exactly Session.JoinedMembers |
| Server.UpsertInPlace | server/index.js:302-312 | the in-place submission update computes exactly Session.Upsert |
| Server.Coordinator.constructor | server/index.js:47-48 | the process starts with no teams, an empty queue and no connections, and the store is valid |
| Server.Coordinator.AssignTeamFromQueue | server/index.js:121-163 | the next position is the queue's length; the team gets that position's puzzle (Session.Assigned), a completed entry is appended, and the store stays valid |
| Server.Coordinator.Login | server/index.js:518-552 | a missing team id or name gets 400; otherwise a missing team is created unassigned and the reply echoes the id and name |
| Server.Coordinator.JoinTeam | server/index.js:174-180 | a role that does not normalise is refused with an error and nothing changes; otherwise the join happens as JoinAs states |
| Server.Coordinator.JoinAs | server/index.js:182-267 | for an unknown team without an id or a name the save fails: the caller gets "Failed to join team" and nothing changes; otherwise the socket is filed under the team; a new team is created with the caller alone and assigned the next position; a known team seats the caller; the caller gets its projection and the rest of the room hears of the join |
| Server.Coordinator.CreateTeam | server/index.js:187-204 | a team unknown to the join is created exactly when its id and name are non-empty (the schema's required fields), with the caller as its only member, then assigned and queued; otherwise no team is created and no position is used |
| Server.Coordinator.SubmitRound1Key | server/index.js:272-353 | an unknown team gets an error; otherwise the record becomes Session.Round1Submitted, under the listed table and with null as a possible key; a wrong key, waiting for a teammate and completion each get their own message; on completion the room gets the expanded key (text of the key, or "null", plus "1000") and every member a push |
| Server.Coordinator.RejectRound1Key | server/index.js:282-298 | a wrong key counts one resubmission and is answered "Incorrect key" |
| Server.Coordinator.AcceptRound1Key | server/index.js:301-348 | a correct key is upserted; with two entries round 1 completes and the pushes follow, otherwise the submitter is told to wait |
| Server.Coordinator.SubmitEncryption | server/index.js:356-392 | only the socket holding the Encrypt seat may store the ciphertext and plaintext; it is told of the transmission and the teammate receives the ciphertext |
| Server.Coordinator.SubmitDecryption | server/index.js:395-478 | only the socket holding the Decrypt seat may submit; a match completes round 2 with the elapsed time and resubmission count, and the pushes follow; a mismatch counts a resubmission |
| Server.Coordinator.CompleteRound2 | server/index.js:409-457 | the record is completed at `now`; the submitter and the room get the elapsed time and count, and every member a push of the updated record |
| Server.Coordinator.Disconnect | server/index.js:481-512 | a known socket's seat goes offline and the rest of the room gets the online count; the socket is forgotten either way |
| Server.Coordinator.FetchTeam | server/index.js:569-603 | another team's id gets 403 and an unknown id 404; an unassigned team (one with a null switch) is assigned first; the reply is the team body, always for an assigned team |
| Server.Coordinator.ForceAssign | server/index.js:694-718 | an unknown team gets 404 and a team whose S0 is set gets 400; otherwise the team is assigned the next position and the row is returned |
| Server.Coordinator.ResetQueue | server/index.js:721-749 | the queue empties and every team's puzzle is cleared, with the store still valid |
| Bits.Xor | server/index.js:132 | a number exclusive-ored with itself is 0, and with 0 is itself |
| Bits.XorBits | server/index.js:132 | on two bits `^` is 0 exactly when they are equal |
| Bits.XorStep | server/index.js:132 | `^` works bit by bit: the low bits combine independently of the rest |
| Bits.XorSelfInverse | server/index.js:132 | exclusive or with the same key twice gives the number back |
| Bits.XorBelow | server/index.js:132 | exclusive or of two numbers below 2^k is below 2^k |
| Bits.BinValBelow | server/index.js:131 | a binary numeral of k digits is below 2^k |
| Bits.BinValAppend | server/index.js:131 | the value of a concatenation is the first part shifted past the second plus the second |
| Bits.XorDigitwise | src/app/round2/decrypt/page.tsx:32-36 | digit-wise exclusive or of equally long binary strings has the exclusive or of their values |
| Bits.LeadingZeros | src/app/round2/decrypt/page.tsx:28-30 | leading zeros do not change a binary value |
| Bits.ZerosAreZero | src/app/round2/decrypt/page.tsx:28-30 | a string of zeros has value 0 |
| Bits.NatToBinary | src/app/round2/decrypt/page.tsx:29 | `toString(2)` of a non-negative number is a non-empty binary string |
| Bits.NatToBinaryValue | src/app/round2/decrypt/page.tsx:29 | `toString(2)` reads back as the number |
| Bits.NatToBinaryLength | src/app/round2/decrypt/page.tsx:29 | a number below 2^k needs at most k binary digits |
| Bits.Repeat | src/app/round2/decrypt/page.tsx:29 | repeating a character n times gives n characters |
| Bits.RepeatShape | src/app/round2/decrypt/page.tsx:29 | every repeated character is the filler |
| Bits.PadStart | src/app/round2/decrypt/page.tsx:29 | `padStart(n, c)` leaves a string of length n or more as it is and otherwise makes it exactly n long |
| Bits.PadStartShape | src/app/round2/decrypt/page.tsx:29 | the padded text ends with the original and is the filler in front of it |
| Bits.BinaryPrefixLength | src/app/round2/decrypt/page.tsx:55 | the longest leading run of binary digits ends at the first other character |
| Bits.ParseInt2 | src/app/round2/decrypt/page.tsx:55 | `parseInt(s, 2)` is NaN exactly when s is empty or does not start with a binary digit, and is the value of a non-empty all-binary string |
| Bits.NatToDecimal | src/app/round2/encrypt/page.tsx:63 | `String(n)` of a non-negative number is a non-empty string of decimal digits |
| Bits.NatToDecimalValue | src/app/round2/encrypt/page.tsx:63 | reading the decimal text back gives the number |
| Bits.NatToDecimalInjective | src/app/round2/encrypt/page.tsx:63 | two numbers have the same decimal text exactly when they are equal |
| JsText.TrimStartShape | server/index.js:64 | trimming the start removes a leading run of whitespace and stops at the first other character |
| JsText.TrimEndShape | server/index.js:64 | trimming the end removes a trailing run of whitespace and stops at the last other character |
| JsText.BlankIffWhitespace | src/app/round2/encrypt/page.tsx:52 | a string trims to "" exactly when it is all whitespace |
| JsText.TrimPadded | server/index.js:64 | trimming removes exactly the surrounding whitespace from a text that does not start or end with whitespace |
| JsText.TrimStartPadded | server/index.js:64 | leading whitespace before a non-space character is removed |
| JsText.TrimEndPadded | server/index.js:64 | trailing whitespace after a non-space character is removed |
| JsText.ToLower | server/index.js:64 | lower-casing keeps the length and maps each character |
| KeyEntry.EnterBit | src/app/round1/page.tsx:291-298 | an accepted value ("", "0" or "1") replaces box i and nothing else; any other value changes nothing |
| KeyEntry.EnterBitKeepsWellFormed | src/app/round1/page.tsx:291-298 | typing keeps four boxes, each holding an accepted value |
| KeyEntry.JoinFour | src/app/round1/page.tsx:316 | `join('')` on four boxes concatenates them in box order |
| KeyEntry.JoinedKey | src/app/round1/page.tsx:310-316 | four filled boxes spell a four-digit binary key whose i-th digit is box i's |
| KeyEntry.BoxesFor | src/app/round1/page.tsx:549-558 | filling the boxes with a key's digits puts digit i in box i |
| KeyEntry.BoxesForJoin | src/app/round1/page.tsx:549-558 | filling the boxes with a binary key and joining them gives the key back |
| KeyEntry.Reverse | src/app/round1/page.tsx:439 | the reversed text has digit i equal to the original's digit 3 - i (for four digits) |
| KeyEntry.BoxNumber | src/app/round1/page_old.tsx:80 | `Number` of a box is 1 for "1" and 0 for "0" or an empty box |
| KeyEntry.CircuitKeyPalindrome | src/app/round1/page.tsx:401-414 | a circuit key reads the same both ways exactly when S1 equals S3 |
| KeyEntry.ReversedLedsAccepted | server/index.js:80-90 | the server's table holds the circuit key reversed exactly when S1 equals S3; at row 9 it holds neither that nor the circuit key |
| Round1Page.SentKeyIsBinary | src/app/round1/page.tsx:310-317 | the key `submit` sends for four filled boxes is four binary digits |
| Round1Page.DisplayedOrderIsAccepted | src/app/round1/page.tsx:434-441 | typing the LEDs in the displayed order (Key3 first) fills the boxes with the circuit key and sends it; the server accepts it exactly when the row is not 9 |
| Round1Page.LabelledOrderIsReversed | src/app/round1/page.tsx:556-558 | putting each LED into the box with its label sends the circuit key reversed, which the server accepts exactly when S1 equals S3 |
| Round1Page.Round1.constructor | src/app/round1/page.tsx:224-233 | the initial state: four empty boxes, unset switches, loading, no error or success |
| Round1Page.Round1.Mount | src/app/round1/page.tsx:237-252 | without a team id or a token the window goes to "/"; with a role other than the two seats it goes to "/dashboard"; otherwise the team and role are taken and the assignment is fetched |
| Round1Page.Round1.OnAssignment | src/app/round1/page.tsx:279-281 | the switch values arrive (all unset when the response has none) and loading ends |
| Round1Page.Round1.OnAssignmentFailed | src/app/round1/page.tsx:282-286 | the error shows the failure's message, or the default, and loading ends |
| Round1Page.Round1.HandleBit | src/app/round1/page.tsx:291-298 | while the boxes are enabled (not submitting, not succeeded), the boxes change as KeyEntry.EnterBit says, and an accepted value clears the error |
| Round1Page.Round1.Submit | src/app/round1/page.tsx:300-319 | while the button is enabled (not submitting, not succeeded): offline, or with an empty box, the matching message is shown and nothing is sent; otherwise the joined four-digit binary key is sent and the page waits in the submitting state |
| Round1Page.Round1.OnRound1Result | src/app/round1/page.tsx:254-275 | a rejection shows its message or "Incorrect key."; an acceptance shows its message or "Key verified." and goes to the dashboard unless the server says the teammate is still to submit |
| Round1LegacyPage.CorrectKey | src/app/round1/page_old.tsx:44-55 | there is no expected key exactly while a switch value is missing; otherwise it has four digits |
| Round1LegacyPage.CorrectKeyIsReversedCircuitKey | src/app/round1/page_old.tsx:44-55 | for switch values the server hands out, the expected key's digit i is the circuit key's digit 3 - i |
| Round1LegacyPage.Accepts | src/app/round1/page_old.tsx:70-83 | the page accepts only with every switch value loaded and all four boxes filled |
| Round1LegacyPage.AcceptsIffReversedKey | src/app/round1/page_old.tsx:70-83 | the page accepts exactly the filled boxes that spell the circuit key reversed |
| Round1LegacyPage.SavedKeyIsReversed | src/app/round1/page_old.tsx:85-93 | the saved 4-bit key is the circuit key reversed; the server's table holds it, and the saved 8-bit key equals the server's, exactly when S1 equals S3 |
| Round1LegacyPage.Round1Legacy.constructor | src/app/round1/page_old.tsx:15-20 | the initial state: four empty boxes, unset switches, loading, nothing saved |
| Round1LegacyPage.Round1Legacy.Mount | src/app/round1/page_old.tsx:22-30 | without a stored team id the router goes to "/"; otherwise the assignment is fetched |
| Round1LegacyPage.Round1Legacy.OnAssignment | src/app/round1/page_old.tsx:34-36 | the switch values arrive (all unset when the response has none) and loading ends |
| Round1LegacyPage.Round1Legacy.OnAssignmentFailed | src/app/round1/page_old.tsx:37-41 | the load-failure message is shown and loading ends |
| Round1LegacyPage.Round1Legacy.HandleBit | src/app/round1/page_old.tsx:57-64 | while the boxes are enabled (not submitting), the boxes change as KeyEntry.EnterBit says, and an accepted value clears the error |
| Round1LegacyPage.Round1Legacy.Submit | src/app/round1/page_old.tsx:66-97 | while the button is enabled (not submitting, not succeeded) the three checks run in order with their messages; a match saves round 2 with the boxes' key and key + "1000", marks success and moves to the encrypt page |
| EncryptPage.NumberString | src/app/round2/encrypt/page.tsx:63 | `String(n)` is the decimal digits of a non-negative n, and a minus sign before the digits of -n otherwise |
| EncryptPage.NumberStringInjective | src/app/round2/encrypt/page.tsx:63 | two integers have the same text exactly when they are equal |
| EncryptPage.NegativeNumberStringInjective | src/app/round2/encrypt/page.tsx:63 | two negative integers have the same text exactly when they are equal |
| EncryptPage.SignsWrittenDifferently | src/app/round2/encrypt/page.tsx:63 | a negative and a non-negative integer never have the same text |
| EncryptPage.Encrypt.constructor | src/app/round2/encrypt/page.tsx:14-20 | the initial state: no number, team or role, empty ciphertext, nothing submitted |
| EncryptPage.Encrypt.Mount | src/app/round2/encrypt/page.tsx:24-39 | a saved state without round 1 complete or with another role sends the router to the dashboard, and the effect carries on; the team id is kept, the role defaults to encrypt, and the number is kept only when it is a number |
| EncryptPage.Encrypt.OnCiphertextInput | src/app/round2/encrypt/page.tsx:116-118 | the field takes the typed text and the error clears |
| EncryptPage.Encrypt.SubmitCiphertext | src/app/round2/encrypt/page.tsx:47-66 | while the button is enabled (not submitting, not submitted): offline, a blank ciphertext or no assigned number each show their message and send nothing; otherwise the trimmed ciphertext and the number's decimal text are sent and success is marked |
| EncryptPage.Encrypt.OnTeamState | src/app/round2/encrypt/page.tsx:41-45 | a pushed state with round 2 complete moves to the result page |
| DecryptPage.ToBinary | src/app/round2/decrypt/page.tsx:28-30 | `toBinary` is at least eight characters |
| DecryptPage.ToBinaryOfByte | src/app/round2/decrypt/page.tsx:28-30 | a number below 256 becomes exactly eight binary digits with its own value |
| DecryptPage.Operand | src/app/round2/decrypt/page.tsx:34 | `+a[i]` as `^` sees it is below 10, and for a binary digit it is that digit's bit |
| DecryptPage.XorDigits | src/app/round2/decrypt/page.tsx:32-36 | the text of n exclusive-or steps is decimal digits, at least one per step |
| DecryptPage.XorText | src/app/round2/decrypt/page.tsx:32-36 | the loop builds the text of eight exclusive-or steps |
| DecryptPage.XorDigitsOfBinary | src/app/round2/decrypt/page.tsx:32-36 | on binary operands the first k steps write k digits, each the exclusive or of the operands' digits |
| DecryptPage.XorDigitStep | src/app/round2/decrypt/page.tsx:34 | one step on binary operands appends the exclusive-or digit |
| DecryptPage.XorOfBits | src/app/round2/decrypt/page.tsx:34 | the exclusive or of two bits is written as one binary digit |
| DecryptPage.DecimalText | src/app/round2/decrypt/page.tsx:55 | "NaN" when nothing parses; otherwise decimal digits whose value is the parsed number, which for a binary string is its value |
| DecryptPage.Plaintext | src/app/round2/decrypt/page.tsx:49-55 | the decimal the page derives is "NaN" or a non-empty string of decimal digits |
| DecryptPage.PlaintextRecovered | src/app/round2/decrypt/page.tsx:49-55 | for an eight-digit binary key and a number below 256, the page turns the number's ciphertext back into the number's decimal text |
| DecryptPage.PagesAgree | src/app/round2/decrypt/page.tsx:49-55 | for an assigned team, the decimal the decrypt page derives is the plaintext the encrypt page sends, and submitting it completes round 2 |
| DecryptPage.Derive | src/app/round2/decrypt/page.tsx:51-55 | the cipher digits, their exclusive or with the key, and the decimal read from that |
| DecryptPage.Decrypt.constructor | src/app/round2/decrypt/page.tsx:12-22 | the initial state: empty texts, waiting, no error, nothing submitted |
| DecryptPage.Decrypt.Mount | src/app/round2/decrypt/page.tsx:38-58 | a saved state without round 1 complete or with another role sends the router to the dashboard, and the effect carries on; the key defaults to zeros; a saved number is shown as cipher, exclusive or and decimal, and waiting ends |
| DecryptPage.Decrypt.ShowCipher | src/app/round2/decrypt/page.tsx:49-57 | a saved number sets the three derived texts and ends waiting; anything else leaves them |
| DecryptPage.Decrypt.OnInput | src/app/round2/decrypt/page.tsx:151-157 | only digit strings (the empty one included) replace the input and clear the error |
| DecryptPage.Decrypt.Submit | src/app/round2/decrypt/page.tsx:68-80 | while the button is enabled (an input typed, not yet verified): offline shows the connection message, a value other than the derived decimal shows "Incorrect value", otherwise the value is sent |
| DecryptPage.Decrypt.OnTeamState | src/app/round2/decrypt/page.tsx:60-66 | a pushed state with round 2 complete marks success and moves to the result page |

## Left out

- Persistence: MongoDB and the leaderboard are not modelled. The store is
  a map field, and `save` is the field update.
- Session logs (`SessionLog.create`) are not modelled. They are write-only
  and never read by the core.
- The leaderboard upsert in `submit_decryption` is not modelled.
- Socket.IO is not modelled; messages are returned as addressed event
  lists. Room membership (`socket.join`) is implied by the team id.
- Concurrency is not modelled. Asynchronous handlers are treated as atomic
  steps, so two handlers interleaving across `await` is not captured.
- Exceptions and their `catch` branches are not modelled, apart from the
  failed save of a new team in `join_team` (`Server.Coordinator.CreateTeam`):
  - the other "Failed to …" error messages;
  - the swallowed assignment failure inside `join_team`;
  - every 500 reply.
  Nothing in the model can fail.
- JWT handling is not modelled: `server/auth.js` is not part of this
  model.
  - The socket's `socket.user` is not used by the handlers modelled.
  - `FetchTeam` takes the token's team id as a parameter.
  - The token carries no socket id, so the REST projection is built for
    no member.
- These REST routes are not modelled because they only read:
  - `/api/leaderboard`;
  - `/api/teams`;
  - `/api/team/:teamId/logs`;
  - `/api/lookup-table`;
  - `/api/queue/status`;
  - `/api/queue/assignments`;
  - `/health`.
- The wall clock is the parameter `now`. `registeredAt` and `startTime` are
  both set from it.
- The round-0 advance in `join_team` is modelled only as unreachable. It
  is proved dead, because a valid record is in round 1 or 2.
- JavaScript numbers are modelled as unbounded non-negative integers:
  - switch values and assigned numbers are `nat`;
  - `^` is modelled on them, which agrees with JavaScript for operands
    below 2^31;
  - the model does not cover negative, fractional or out-of-range values
    that a hand-edited record could hold.
- In the decrypt page the encrypted number is an integer. Fractions and
  NaN are not modelled.
- In the decrypt page a saved `key8bit` is a string or absent. Other JSON
  types are not modelled.
- `Bits.ParseInt2` does not model the leading whitespace and sign that
  `parseInt` allows. The page only parses the digits its own `xor` writes,
  so neither can occur.
- `JsText.ToLower` lower-cases A-Z only. No other character lower-cases
  to a letter of "encrypt" or "decrypt", so role normalisation is not
  affected.
- Truthiness of saved values:
  - a saved `round1Complete` is a boolean (its truthiness);
  - `teamState.round2Complete` from the socket hook is a boolean;
  - the socket hook itself (`src/hooks/useSocket.ts`) is not part of this
    model.
- Rendering is not modelled. Only the redirect target is recorded:
  - loading views, the hint toggle (`showHint`), LED previews and
    animations;
  - the 1.8 s and 0.5 s timers before redirects.
- In the current round-1 page the fetch failure's message is a parameter.
  `err instanceof Error` is not modelled.
- The round-1 key payload is a string or null (`Session.KeyPayload`).
  Any other JSON value is never strictly equal to the expected key, which
  is a string or null, so it takes the wrong-key branch like a wrong
  string; the model does not list those values separately.
- The socket payload fields `ciphertext` and `plaintext` of
  `submit_encryption`, `decryptedValue` of `submit_decryption`, and
  `teamName` of `join_team` are modelled as strings, with "" standing for a
  missing value. A missing or empty `teamName` for a new team fails the
  schema's required check, and the model covers that. Non-string values
  are not captured. The store casts a stored number to its text and keeps
  null as null. A `decryptedValue` that is not a string is never strictly
  equal to a stored string, so it always counts a resubmission.
- The `disabled` attributes of the page inputs and buttons are modelled as
  preconditions of the handlers they guard. A call to a handler that the UI
  disables is not modelled.
- `JSON.parse` of the saved `teamState` is not modelled. The pages
  receive its fields as parameters.

## Findings

| source | as written | input that shows it | evidently intended | confidence | as-written member | corrected member |
|---|---|---|---|---|---|---|
| server/models.js:14 | row S3 S2 S1 S0 = 1 0 0 1 carries key "0111" | a team at queue position 9 (or 25, 41, …) builds the circuit and reads Key3 Key2 Key1 Key0 = S3^S0, S2^S3, S1^S2, S0^S1 = 0 1 0 1; the server expects "0111", so the circuit's key is always rejected, and the encryption value is computed from "01111000" | "0101", the circuit's output, matching the complementary row 6 (0 1 1 0 → "0101") as every other complementary pair does | high; not executed | Session.CircuitKeyRejectedAtRowNine | Puzzle.IntendedKeyFromSwitches |
