# Verified models of oauth-as

This project models the storage layer of an OAuth authorization server and proves what its documentation
promises about it. The centre is the revocation protocol of the PostgreSQL store: guarded writes take
shared advisory locks on every identity they can be revoked by, check the barriers, and write;
revocations take the exclusive lock of their scope, record a barrier, and remove everything in the scope.

How the pieces fit together:

- `Records`, `Time`, `LockKeys`, `UserCodes`: the records, the rows that carry them, the 64-bit instants,
  the lock keys, the user codes.
- `Protocol`: the store as a step system. Any number of transactions run side by side at READ COMMITTED.
  Each operation is compiled to the list of statements the source sends. A statement sees the committed
  rows and the transaction's own changes; a statement over several rows takes a snapshot, then locks and
  rechecks its rows one at a time; a sweep skips locked rows; a commit publishes first and releases the
  locks afterwards; a transaction may be rolled back at any point. A write of a device grant also waits
  for the entry of its user code in the unique index, and a code that another grant has ends it. The lock
  hash and the row order are arbitrary functions.
- `Discipline`, `Invariant`, `NoResurrection`: what all programs have in common, and the invariant every
  step keeps. `Guarantees`, `Lasting`: what a revocation guarantees over every run; `ByFields`: the same, and
  what each revocation removes, in terms of nothing but the fields of the records.
- `Atomic`: the operations as single steps on a plain map of records. `RowInvariant`, `Commit`, `Serial`:
  what every commit of every run does as such a step. `Leftovers`, `Sweeps`, `Misses`, `Widenings`: what a
  deletion or a sweep may leave, and when an operation may find nothing or something else.
- `Refusals`: no operation is refused without a reason in the records. `Alone`, `Served`, `Outcomes`: an
  operation beside which nobody holds anything comes to its end, and commits if and only if the records admit
  it. `Progress`: as long as anything runs, somebody can go on.
- `CodeIndex`: the unique index on user codes. `BarrierRuns`: which barrier a run leaves.
  `Reprovisioning`: a deleted client that is registered again.
- `CodeWaits`, `Deadlock`, `KeyOrders`, `Cycles`, `TakingTurns`: what a circle of waiting transactions is
  made of, when there is none, and which key orders allow that. `CodeDeadlocks`, `RowDeadlocks`,
  `Witnesses`: the reachable circles once a condition is dropped.
- `SingleUse`, `Swaps`, `Rotation`, `ConsentPairs`: single-use records, compare-and-swap, refresh
  rotation, one consent for each pair; `Creations`: what a new consent finds in any run. `Witnesses` also
  has the runs that go wrong without the locks; `Naive` has the two-round-trip twins, under every schedule
  of two callers.
- `StoreSpec`, `TableStores`, `MemoryStores`, `StoresAgree`: the table store and the in-memory store as
  classes, proved against the same functions, and against each other. `BarrierJoin`: barriers as a join.
- `RefreshChains`: what a refresh chain carries. `Features`: the feature worklist and its checks.

Conventions: an instant is an integer number of nanoseconds; text is a sequence of characters, one for
each UTF-8 byte where its length matters (the lock keys); a record keeps the fields that queries and
guards read, and one `detail` field for all others; encoding and decoding a payload is an exact round
trip. `Config.locking` is true for the system as it is, and false only in the lemmas that show what the
locks are for. `Config.keyOrder` is one of the six orders of the three keys of a write; the system uses
client, family, consent.

Where texts disagree, the model follows the current code:

- `scripts/patch-client-assertion-and-dpop.py` compares the proof key on every rotation; the current
  `server.rs` lets a confidential client move a key-bound chain to another key. So "one key along a chain"
  is false. `AlwaysOneKeyIff` says exactly when it holds: the family is on its first key, and its client is
  public, or it is not key-bound, or none of its tokens is accepted any more.
- `crates/oauth-as-postgres/src/store.rs:165-166` says that a collision of two lock keys costs a brief wait
  and nothing else. It does not: `CollisionDeadlocks` gives a deletion and a withdrawal that wait for each
  other when the two keys collide. `NoDeadlock` excludes only collisions between a key that is held and a
  different key that is waited for.
- `crates/oauth-as-postgres/src/store.rs:200-202` says that the family key, too, must come after the client
  key. `RankExistsIff` shows that it need not: a rank exists for every order in which the client key comes
  before the consent key, wherever the family key stands. That the order after the client key is free
  (lines 204-206) is a case of this.
- `crates/oauth-as-postgres/src/store.rs:532-545` and lines 1386-1392 rest on the order of the tables. It
  keeps a deletion and a withdrawal apart (`CrossOnlyOverNew`, but for a consent written in the meantime). It
  does not order the rows of one table: `RevocationsDeadlock` gives the deletion of a client and the
  revocation of one of its families that wait for each other over two tokens. `CircleIff` shows that nothing
  else can close a circle, and `NoDeadlock`, `OneRevocationAtATime`, `OrderedRows` and `CrossersDiffer` say
  when it cannot happen.
- `crates/oauth-as-postgres/src/store.rs:182-206` argues from keys and rows. The unique index on user codes
  is one more thing to wait for, and `CodeDeadlocks` has two cycles through it.
- The naive swap is described as a lost update and a resurrection; its code also creates a record that
  was never there (`NaiveTable.Swap`).

## Model

| member | source | states |
|---|---|---|
| Guarantees.RevokedFamilyIsEmpty | crates/oauth-as-postgres/src/store.rs:343-387 | in every state of every run, for every hash and row order, no committed access or refresh record belongs to a family that has a committed barrier |
| Guarantees.RevokedFamilyStaysEmpty | crates/oauth-as-postgres/src/store.rs:1116-1147 | once a family revocation has committed, every later state has no token of the family until a committed barrier sweep reaches the deadline the revocation gave |
| Lasting.DeletedClientStays | crates/oauth-as-postgres/src/store.rs:519-589 | once a client deletion has committed, and until a committed barrier sweep reaches its deadline, every token and pushed request of the client was granted strictly after the deletion, and there is one only while the client is registered again |
| Lasting.WithdrawnPairStays | crates/oauth-as-postgres/src/store.rs:1358-1440 | once a withdrawal has committed, and until a committed barrier sweep reaches its deadline, every token of the pair was granted strictly after it |
| Reprovisioning.ServedAgainIff | crates/oauth-as/src/store.rs:1556-1599 | for any window and any guarded record, some reachable state has the barrier of the client's deletion and the record side by side if and only if the column of its grant is later than that of the deletion |
| ByFields.WithdrawalByFields | crates/oauth-as-postgres/src/store.rs:1358-1440 | by the fields of the records: a withdrawal of client and subject removes exactly their access tokens, refresh tokens and codes and the device grants of the client that the subject approved; a pending or denied grant and everything else stays |
| ByFields.WithdrawalCount | crates/oauth-as-postgres/src/store.rs:1408-1440 | the count answered is the number of those records, the consent not counted |
| ByFields.WithdrawnByFields | crates/oauth-as-postgres/src/store.rs:1358-1440 | in every run, such a record that a committed withdrawal leaves was written by a commit between its start and its own commit |
| ByFields.WithdrawalSpares | crates/oauth-as-postgres/src/store.rs:145-150 | in every run, the commit of a withdrawal leaves every other record as it was, a pending or denied grant of the client among them |
| ByFields.PairOfConsent | crates/oauth-as-postgres/src/store.rs:1376-1378 | the pair a withdrawal works on is the one its consent names |
| ByFields.DeletionByFields | crates/oauth-as-postgres/src/store.rs:519-589 | by the fields of the records: a deletion removes exactly the client and the records of all six kinds that name it |
| ByFields.DeletedByFields | crates/oauth-as-postgres/src/store.rs:519-589 | in every run, such a record that a committed deletion leaves was written while it ran |
| ByFields.FamilyByFields | crates/oauth-as-postgres/src/store.rs:1116-1147 | by the fields of the records: a family revocation removes exactly the access and refresh tokens of the family |
| ByFields.SweepByFields | crates/oauth-as-postgres/src/store.rs:1503-1597 | by the fields of the records: a sweep removes exactly the unlocked records whose own expiry is not after the cutoff |
| ByFields.WriteByFields | crates/oauth-as-postgres/src/store.rs:343-387 | by the fields of the records: exactly which barriers refuse an access token, a refresh token and a pushed request |
| ByFields.LaterGrantsOnly | crates/oauth-as-postgres/src/store.rs:519-589 | once a deletion has committed, and until its barrier is swept, the tokens of the client have a later `established` and its pushed requests a later `pushedAt` |
| ByFields.LaterConsentOnly | crates/oauth-as-postgres/src/store.rs:1358-1440 | once a withdrawal has committed, and until its barrier is swept, the tokens of its client and subject have a later `established` |
| ByFields.FamilyStaysRevoked | crates/oauth-as-postgres/src/store.rs:1116-1147 | once a family revocation has committed, and until its barrier is swept, no token names the family |
| Guarantees.ClientBarrierSeparates | crates/oauth-as-postgres/src/store.rs:519-589 | where a client barrier stands, every committed token and pushed request of the client was granted strictly after the recorded instant, and there is none while the client row is gone |
| Guarantees.ConsentBarrierSeparates | crates/oauth-as-postgres/src/store.rs:1358-1440 | where a consent barrier stands, every committed token of the pair was granted strictly after the recorded instant |
| Guarantees.BarrierStays | crates/oauth-as-postgres/src/store.rs:293-327 | a committed barrier never loses deadline or instant and stays until a barrier sweep has passed its deadline |
| Guarantees.CommitKeepsBarrier | crates/oauth-as-postgres/src/store.rs:293-327 | any single commit moves a barrier only later, except a barrier sweep whose cutoff reached the deadline |
| Guarantees.RefusalsOnlyGrow | crates/oauth-as-postgres/src/store.rs:343-387 | with no barrier sweep and no re-registered client in between, whatever is refused stays refused |
| Guarantees.OnlySweepsRemove | crates/oauth-as-postgres/src/store.rs:1503-1597 | barriers and replay identifiers leave only through a sweep of their own table, and only once expired |
| NoResurrection.StepKeepsInv | crates/oauth-as-postgres/src/store.rs:244-281 | every step of any transaction keeps the invariant: no committed guarded row is covered by a committed barrier, passed checks stay passed, cascades stay complete |
| NoResurrection.PublishKeepsSafe | crates/oauth-as-postgres/src/store.rs:917-948 | a commit leaves no guarded row covered by a barrier |
| NoResurrection.PublishKeepsCheck | crates/oauth-as-postgres/src/store.rs:244-281 | no commit can invalidate a refusal check that another transaction has passed and still relies on |
| NoResurrection.PublishKeepsCascade | crates/oauth-as-postgres/src/store.rs:270-281 | no commit adds or replaces a row in a scope that another transaction is removing |
| Discipline.ProgramDisciplined | crates/oauth-as-postgres/src/store.rs:519-1147 | in every program the check follows the shared locks of all scopes, guarded writes follow the check, a barrier follows its exclusive lock, and every barrier is followed by the removals of its scope |
| Atomic.CoversIsRevoked | crates/oauth-as-postgres/src/store.rs:343-387 | the one query with empty-string sentinels decides exactly the record-level refusal predicate of the in-memory store |
| Serial.RunIsSerial | crates/oauth-as-postgres/src/store.rs:448-1597 | in every run each commit has the effect its operation may have as one step on the plain store of records, a device grant with a taken code none at all, and no other event changes the records |
| Serial.ColumnsAlwaysAgree | crates/oauth-as-postgres/src/store.rs:389-447 | after every run every row stands under its own key and its key columns are the projection of its payload |
| Commit.CommitPut | crates/oauth-as-postgres/src/store.rs:917-948 | a guarded write that commits is not revoked at that moment and adds exactly its record |
| Commit.CommitRotate | crates/oauth-as-postgres/src/store.rs:1028-1085 | a rotation commits only over exactly the presented record, unrevoked at that moment, and then writes all its records |
| Commit.CommitRevokeFamily | crates/oauth-as-postgres/src/store.rs:1116-1147 | a family revocation removes exactly the records of the family in both tables and merges its barrier |
| Commit.CommitDeleteClient | crates/oauth-as-postgres/src/store.rs:519-589 | a client deletion is one step on tokens, pushed requests and barriers; elsewhere it removes only records of the client and `Leftovers` bounds what it leaves |
| Commit.CommitRevokeConsent | crates/oauth-as-postgres/src/store.rs:1358-1440 | a withdrawal works on the pair its consent names at commit, as one step on tokens and barriers; without a consent it changes nothing; `Leftovers` bounds what it leaves elsewhere |
| Leftovers.DeletionLeavesOnlyNew | crates/oauth-as-postgres/src/store.rs:519-589 | every record of the client that a committed deletion leaves, in any table, was written by a commit between its start and its own commit |
| Leftovers.WithdrawalLeavesOnlyNew | crates/oauth-as-postgres/src/store.rs:1358-1440 | every record of the pair that a committed withdrawal leaves was written by a commit between its start and its own commit |
| Serial.CommitPlain | crates/oauth-as-postgres/src/store.rs:604-645 | a plain write adds exactly its record, and a device grant that commits has a code no other committed grant has |
| Serial.SwapSerial | crates/oauth-as-postgres/src/store.rs:697-737 | an applied swap found the expected state in the committed record and, for a device grant, a code no other grant has; otherwise nothing changes; it never creates a record |
| Misses.MissWasReal | crates/oauth-as-postgres/src/store.rs:697-755 | a take, a swap or a withdrawal that commits without its row: in some state since its start the row was absent or not as expected |
| Misses.RefusalWasReal | crates/oauth-as-postgres/src/store.rs:1455-1471 | a claim that commits refused: in some state since its start the identifier was there |
| CodeIndex.CodesAlwaysUnique | crates/oauth-as-postgres/src/store.rs:591-645 | in every state of every run no two committed device grants answer to one normalized user code |
| CodeIndex.StepKeepsIndex | crates/oauth-as-postgres/migrations/0001_core.sql:50-56 | every step keeps the index: no two rows carry one code, and whoever writes, changes or removes a row with a code holds its entry alone |
| Commit.CommitTake | crates/oauth-as-postgres/src/store.rs:1092-1105 | a take returns the committed record and removes exactly it, or changes nothing |
| Commit.CommitClaim | crates/oauth-as-postgres/src/store.rs:1455-1471 | a granted claim found the identifier absent; a refused one changes nothing |
| Commit.CommitSwapConsent | crates/oauth-as-postgres/src/store.rs:1201-1285 | a widening commits only over exactly the consent it was computed from; what a creation finds is `CreationFindsEmptyPair` |
| Commit.CommitSweep | crates/oauth-as-postgres/src/store.rs:1503-1597 | a sweep batch beside other transactions removes only committed records of its table that have expired; a refresh record without lifetime never |
| Refusals.RefusalHasReason | crates/oauth-as-postgres/src/store.rs:448-1597 | in every run, an operation that is refused had a moment since its start at which the records did not admit it: a barrier covers the write, a revocation names nobody, the user code is taken, or the record compared is not the stored one, not the only newest of its pair, or not absent |
| Alone.NextStep | crates/oauth-as-postgres/src/store.rs:448-1597 | a running transaction that waits for no key, row or user code can take its next step |
| Alone.ComesToItsEnd | crates/oauth-as-postgres/src/store.rs:448-1597 | a transaction beside which nobody holds anything commits or is refused after finitely many steps |
| Served.CanCommitIff | crates/oauth-as-postgres/src/store.rs:448-1597 | from every reachable state in which nobody holds anything, an operation can commit if and only if the records admit it (of two equally new consents a widening may find either) |
| Progress.SomebodyMoves | crates/oauth-as-postgres/src/store.rs:174-221 | under the conditions of `NoDeadlock`, as long as a transaction is running some running transaction can take a step, or one that has ended is about to release what somebody waits for |
| Outcomes.EveryKindIsValid | crates/oauth-as-postgres/src/store.rs:448-1597 | none of the kinds of records the source writes, swaps, takes, claims or sweeps is left out of the operations |
| Outcomes.RotationSucceeds | crates/oauth-as-postgres/src/store.rs:1067-1084 | a rotation of the stored record, whatever its state, that no barrier refuses commits, and its two or three records are then in the table |
| Outcomes.EveryRotationHappens | crates/oauth-as-postgres/src/store.rs:1028-1085 | for every presented record and every records computed from it some reachable state has the spent, the access and the next record |
| Misses.RotationRefusalWasReal | crates/oauth-as-postgres/src/store.rs:1067-1076 | a rotation refused at its read: in some state since its start the committed record under the token was not the presented one |
| Widenings.WideningRefusalWasReal | crates/oauth-as-postgres/src/store.rs:1243-1262 | a widening refused at its read: in some state since its start the consent it was computed from was not stored so, not in the pair, or not the only newest of it |
| Widenings.CreationRefusalWasReal | crates/oauth-as-postgres/src/store.rs:1243-1262 | a creation refused at its read: the pair has a consent at that moment |
| Widenings.WidensItsPair | crates/oauth-as-postgres/src/store.rs:1233-1262 | a committed widening found exactly the consent it was computed from, in the pair it writes |
| Widenings.WidensNewest | crates/oauth-as-postgres/src/store.rs:1233-1242 | a consent of the pair newer than the widened one that stands at the commit was written while the widening ran, or the widened one was |
| Outcomes.CreationSucceeds | crates/oauth-as-postgres/src/store.rs:1201-1285 | a creation in a pair without consents commits and adds exactly its consent |
| Outcomes.WideningSucceeds | crates/oauth-as-postgres/src/store.rs:1201-1285 | a widening of the only newest consent of the pair commits and writes exactly its consent |
| Outcomes.EveryWideningHappens | crates/oauth-as-postgres/src/store.rs:1201-1285 | every widening within a pair is committed in some reachable state |
| Outcomes.TakeAnswers | crates/oauth-as-postgres/src/store.rs:1092-1105 | while nobody else commits, a take receives the record exactly if there is one |
| Outcomes.SwapAnswers | crates/oauth-as-postgres/src/store.rs:697-737 | while nobody else commits, a swap is applied exactly if its record is there in the expected state |
| Outcomes.SwapRefusalWasReal | crates/oauth-as-postgres/src/store.rs:884-911 | in every run, a swap that is not applied: in some state since its start its record was not there in the expected state |
| Outcomes.ClaimAnswers | crates/oauth-as-postgres/src/store.rs:1455-1471 | while nobody else commits, a claim is granted exactly if the identifier is new |
| Sweeps.SweepLeavesOnly | crates/oauth-as-postgres/src/store.rs:1530-1597 | in every run, an expired record of the table that a committed batch leaves: the batch was full, or somebody else held or wrote the row while it ran |
| Cycles.NoDeadlock | crates/oauth-as-postgres/src/store.rs:174-221 | waits for keys, rows and user codes and behind other waiters for a key all counted, and for every row order, no reachable state of any number of transactions has a circle, if the client key comes before the consent key, new keys are new, each written user code is its own, and in that state no held key collides with a different wanted one and no two revocations each hold a row of one table and wait for another one of it |
| Cycles.CircleIff | crates/oauth-as-postgres/src/store.rs:174-221 | in such a state the circles are exactly the circles of revocations in the middle of one table, each waiting for a row the next one holds and tied in the row order with one it holds itself |
| Cycles.OneRevocationAtATime | crates/oauth-as-postgres/src/store.rs:519-589 | there is no circle while at most one revocation is running, for every row order |
| Cycles.OrderedRows | crates/oauth-as-postgres/src/store.rs:519-589 | there is no circle if all statements reach the rows of a table in one order |
| Cycles.CrossersDiffer | crates/oauth-as-postgres/src/store.rs:1116-1147 | two revocations in the middle of one table hold the keys of scopes with different hashes, so never the same scope |
| TakingTurns.CrossOnlyOverNew | crates/oauth-as-postgres/src/store.rs:1386-1392 | a client deletion and a withdrawal of one of its consents meet in the middle of a table only if the consent was written after the deletion began |
| TakingTurns.WithdrawalIsNew | crates/oauth-as-postgres/src/store.rs:532-545 | while a deletion is past the consents, a withdrawal at work on a pair of that client has claimed a consent written since the deletion began |
| RowDeadlocks.RevocationsDeadlock | crates/oauth-as-postgres/src/store.rs:519-589 | for any two tokens of one client and family that the row order does not tell apart, a reachable state has the deletion of the client and the revocation of the family waiting for each other, although no keys collide and nothing is invented |
| Deadlock.BlockedHoldsBelow | crates/oauth-as-postgres/src/store.rs:174-221 | every key and row a blocked transaction holds ranks strictly below what it waits for, or is a row of the same removal that the row order does not tell from it |
| Deadlock.ProgramClimbs | crates/oauth-as-postgres/src/store.rs:519-1597 | every program acquires in increasing order of one rank over keys and rows |
| Deadlock.DeviceWriteIsFree | crates/oauth-as-postgres/src/store.rs:604-645 | a device grant whose code is its own never waits for a code, nor for its row once it has reached it |
| KeyOrders.RankExistsIff | crates/oauth-as-postgres/src/store.rs:182-206 | for each of the six orders of the three keys, a rank that fits every program exists if and only if the client key comes before the consent key |
| KeyOrders.ConsentFirstNeverFits | crates/oauth-as-postgres/src/store.rs:187-199 | with the consent key before the client key, no rank fits a write, a deletion of its client and a withdrawal of its consent |
| Witnesses.TriangleDeadlocks | crates/oauth-as-postgres/src/store.rs:187-199 | with the consent key before the client key, for any client and subject a reachable state has a write, a client deletion and a withdrawal waiting in a circle |
| Witnesses.CollisionDeadlocks | crates/oauth-as-postgres/src/store.rs:163-166 | if the consent key of a pair and the key of its client have one hash, a reachable state has a deletion and a withdrawal waiting for each other, whatever the key order |
| Witnesses.ConsentFirstDeadlocks | crates/oauth-as-postgres/src/store.rs:187-206 | with the consent key before the client key, for every hash, a reachable state has a wait-for cycle |
| CodeDeadlocks.ExchangeDeadlocks | crates/oauth-as-postgres/src/store.rs:604-645 | two writes that exchange the codes of two grants can wait for each other |
| CodeDeadlocks.DeletionAndWriteDeadlock | crates/oauth-as-postgres/src/store.rs:519-645 | a client deletion that has removed one grant and a write that gives its code to another grant can wait for each other |
| Witnesses.WithoutLocksTokenSurvives | crates/oauth-as-postgres/src/store.rs:52-66 | without the advisory locks a reachable state has a token of a family together with the family's barrier |
| Witnesses.WithoutPairLockTwoConsents | crates/oauth-as-postgres/src/store.rs:1177-1228 | with only the row lock, two creations for an empty pair both commit |
| SingleUse.LeavesOnce | crates/oauth-as-postgres/src/store.rs:739-755 | over any run the removal of one stay of a row commits at most once, whoever removes it |
| SingleUse.ReceivedByOne | crates/oauth-as-postgres/src/store.rs:1087-1105 | a record received by a take is received by one caller and removed by nobody else |
| SingleUse.LossIsARemoval | crates/oauth-as-postgres/src/store.rs:784-800 | a row that is gone left through a committed take, revocation or sweep |
| SingleUse.RunKeepsGone | crates/oauth-as-postgres/src/store.rs:849-866 | a stay that has ended never starts again |
| SingleUse.ClaimedOnceBetweenSweeps | crates/oauth-as-postgres/src/store.rs:1442-1471 | between two granted claims of one identifier a sweep has removed it |
| Swaps.SwapsChain | crates/oauth-as-postgres/src/store.rs:868-911 | every applied swap expected what the last commit on that row left |
| Swaps.AppliedSwap | crates/oauth-as-postgres/src/store.rs:678-737 | an applied swap replaces one record in place and changes nothing else |
| Swaps.AppliedCodeSwap | crates/oauth-as-postgres/src/store.rs:884-911 | an applied swap of a code found a committed code whose own state is the expected one, and replaced it in place |
| Swaps.AppliedDeviceSwap | crates/oauth-as-postgres/src/store.rs:697-737 | an applied swap of a device grant found a committed grant whose own state is the expected one, and replaced it in place |
| Swaps.AppliedClientSwap | crates/oauth-as-postgres/src/store.rs:487-517 | an applied swap of a client found exactly the expected client |
| Swaps.CodeSwappedOnce | crates/oauth-as-postgres/src/store.rs:884-911 | between two applied swaps of one code from one state, the first of which wrote another state, somebody has written the code back in the first state |
| Swaps.DeviceSwappedOnce | crates/oauth-as-postgres/src/store.rs:697-737 | likewise for two decisions on one device grant |
| Swaps.OneRedemption | crates/oauth-as-postgres/src/store.rs:884-911 | unless the code is written back in the state both expect, at most one of two swaps is applied |
| Swaps.SwapNeverRevives | crates/oauth-as-postgres/src/store.rs:678-696 | a record that was taken, revoked or swept is never re-created by a swap |
| Swaps.DecisionStands | crates/oauth-as-postgres/src/store.rs:678-737 | when everybody swaps from one state, the first record written out of that state stays while the row stays |
| Swaps.OneDecision | crates/oauth-as-postgres/src/store.rs:678-737 | at most one such decision is applied to a record |
| Swaps.RedeemerSeesDecision | crates/oauth-as-postgres/src/store.rs:739-755 | whoever takes the record after the decision receives the decision |
| Rotation.OneWinner | crates/oauth-as-postgres/src/store.rs:1028-1085 | of two committed rotations of one presented value, the first one changing it, somebody has written that very value back in between: rotations computed from one read cannot both succeed |
| Rotation.FamilyHasOneActive | crates/oauth-as-postgres/src/store.rs:1028-1085 | a family that starts with at most one active record and advances by rotations never has two |
| ConsentPairs.OneConsentPerPair | crates/oauth-as-postgres/src/store.rs:1177-1285 | when consents are written through swaps only, every state has at most one consent for each client and subject |
| ConsentPairs.CreationFindsEmptyPair | crates/oauth-as-postgres/src/store.rs:1201-1285 | a swap that creates a consent commits only while its pair has no consent under any identifier, and adds exactly its own |
| Creations.CreationMissesOnlyNew | crates/oauth-as-postgres/src/store.rs:1201-1285 | in any run, every consent of the pair that stands when a creation commits was written by a commit after the creation began |
| ConsentPairs.PairsExclude | crates/oauth-as-postgres/src/store.rs:1210-1228 | two swaps of one pair are never past their lock together |
| ConsentPairs.WithdrawnStaysGone | crates/oauth-as-postgres/src/store.rs:1358-1376 | a consent that is gone is not brought back by widenings computed from it |
| LockKeys.KeyRoundTrip | crates/oauth-as-postgres/src/store.rs:169-172 | a parser recovers scope and both parts from every key, whatever the parts contain |
| LockKeys.KeyInjective | crates/oauth-as-postgres/src/store.rs:152-172 | two identities share a lock key only if they are the same |
| LockKeys.SeparatorKeyCollides | crates/oauth-as-postgres/src/store.rs:160-166 | for every separator two different pairs collapse onto one key |
| Time.ToNanosMonotone | crates/oauth-as-postgres/src/time.rs:30-40 | the column order never reverses the order of instants, saturation included |
| Time.InstantRoundTripIff | crates/oauth-as-postgres/src/time.rs:30-50 | decoding a column gives the instant back exactly when it fits in 64 bits |
| Time.ColumnOrderIsInstantOrder | crates/oauth-as-postgres/src/time.rs:30-40 | a strict order of columns is a strict order of the instants |
| Time.ColumnRoundTrip | crates/oauth-as-postgres/src/time.rs:44-50 | every 64-bit column value, the minimum included, survives decoding and encoding |
| Time.BeforeExactIff | crates/oauth-as-postgres/src/time.rs:30-40 | comparing with the column of an instant decides what comparing with the instant decides, for every other instant, if and only if it lies above the minimum and at most at the maximum of 64 bits |
| Time.ComparisonExactIff | crates/oauth-as-postgres/src/time.rs:30-40 | comparing columns decides what comparing instants decides, except for instants out of order at or beyond one end of the range |
| UserCodes.NormalizeStable | crates/oauth-as/src/device.rs:134-142 | normalizing twice is normalizing once, and hyphens and spaces make no difference |
| UserCodes.NormalizeChar | crates/oauth-as/src/device.rs:136-142 | character by character: white space and the hyphen become nothing, a to z become A to Z, everything else stays |
| UserCodes.NormalizeIsUpper | crates/oauth-as/src/device.rs:136-142 | a normal form is the entry without its separators, letter by letter in upper case |
| UserCodes.SameCodeIff | crates/oauth-as/src/device.rs:134-142 | two entries have one normal form if and only if they differ in separators and in the case of letters A to Z at most |
| StoreSpec.ClashIff | crates/oauth-as-postgres/src/store.rs:604-645 | a grant clashes exactly with another grant whose code differs from its own in that at most |
| StoreSpec.EntryFindsIff | crates/oauth-as-postgres/src/store.rs:660-676 | an entry finds a stored grant exactly if it differs from its code in that at most |
| BarrierJoin.MergedIsMax | crates/oauth-as-postgres/src/store.rs:283-327 | after any list of revocations of a scope both stored instants are the maxima of those given |
| BarrierRuns.BarrierIsMerge | crates/oauth-as-postgres/src/store.rs:283-327 | in every run, from a state without the barrier and while no sweep removes it, the committed barrier is the merge of the windows of exactly the committed revocations of its scope |
| BarrierRuns.BarrierIsMax | crates/oauth-as-postgres/src/store.rs:283-327 | there is a barrier exactly if such a revocation has committed, and both its instants are then the maxima of those given |
| BarrierJoin.OrderAndRepetitionDoNotMatter | crates/oauth-as-postgres/src/store.rs:283-327 | the stored barrier depends only on the set of revocations |
| BarrierJoin.Reprovisioned | crates/oauth-as/src/store.rs:1556-1599 | after a deletion every write of the client is refused; once it is registered again a write is served exactly when its grant is later and no other barrier stands |
| StoreSpec.FoundIsUnique | crates/oauth-as-postgres/src/store.rs:660-676 | where codes are unique two correct lookups give one answer |
| StoreSpec.PutKeepsCodes | crates/oauth-as-postgres/src/store.rs:591-645 | a grant that changes its code retires the old one and is found under the new one; codes stay unique |
| StoreSpec.SweptByInstants | crates/oauth-as-postgres/src/store.rs:1503-1597 | an unlocked record outlives a sweep exactly while its expiry, as an instant, is later than the moment of the sweep, if and only if the columns tell the two instants apart; without an expiry always |
| TableStores.TableStore.RevokeConsent | crates/oauth-as-postgres/src/store.rs:1358-1440 | statement by statement: the records left and the count answered are those of the specification; a refusal puts the consent back |
| TableStores.TableStore.DeleteClient | crates/oauth-as-postgres/src/store.rs:519-589 | leaves the barrier and no record of the client, and answers whether it was registered |
| TableStores.TableStore.RevokeFamily | crates/oauth-as-postgres/src/store.rs:1116-1147 | leaves the barrier and no record of the family, and answers the number removed |
| TableStores.TableStore.PutGuarded | crates/oauth-as-postgres/src/store.rs:917-948 | applied exactly when the grant is not revoked |
| TableStores.TableStore.PutDeviceGrant | crates/oauth-as-postgres/src/store.rs:604-645 | a clash on the normalized code is an error and changes nothing; codes stay unique |
| TableStores.TableStore.SwapDeviceGrant | crates/oauth-as-postgres/src/store.rs:697-737 | absent or moved on is false, a clash is an error, otherwise the grant is replaced |
| TableStores.TableStore.TakeDeviceGrant | crates/oauth-as-postgres/src/store.rs:742-755 | returns and removes the grant, its user code with it |
| TableStores.TableStore.FindByUserCode | crates/oauth-as-postgres/src/store.rs:660-676 | finds exactly the grant that answers to the code |
| TableStores.TableStore.DeleteBatch | crates/oauth-as-postgres/src/store.rs:1530-1597 | one batch removes only dead unlocked rows, at most the batch size, and a short batch removes all of them |
| TableStores.TableStore.SweepTable | crates/oauth-as-postgres/src/store.rs:1580-1596 | the batches of one table end and remove exactly its dead unlocked rows, with the exact count |
| TableStores.TableStore.SweepExpired | crates/oauth-as-postgres/src/store.rs:1503-1597 | the whole sweep equals one unbounded filter by the expiry column, skipping locked rows, with the exact count |
| TableStores.PairCascadeExact | crates/oauth-as-postgres/src/store.rs:1408-1436 | the four deletions by columns remove exactly the records whose own fields name the pair |
| TableStores.ClientCascadeExact | crates/oauth-as-postgres/src/store.rs:531-581 | the seven deletions by columns remove exactly the records of the client |
| TableStores.FamilyCascadeExact | crates/oauth-as-postgres/src/store.rs:1128-1143 | the two deletions by column remove exactly the records of the family |
| MemoryStores.MemoryStore.RevokeConsent | crates/oauth-as/src/store.rs:2121-2187 | the retained maps hold the specified records, the shrinkage of four maps is the count, and the index has no dangling entry |
| MemoryStores.MemoryStore.DeleteClient | crates/oauth-as/src/store.rs:1701-1748 | no map keeps a record of the client and the index stays exact |
| MemoryStores.MemoryStore.RevokeFamily | crates/oauth-as/src/store.rs:2018-2040 | no token of the family is kept and the count is exact |
| MemoryStores.MemoryStore.RecordBarrier | crates/oauth-as/src/store.rs:1604-1640 | the barrier grouped under its identifier is the merge of the columns |
| MemoryStores.MemoryStore.PutGuarded | crates/oauth-as/src/store.rs:1915-1965 | refused exactly when the maps revoke the grant in instants; for every grant instant above the minimum and at most at the maximum of 64 bits that is when the records revoke it; never refused when they do not |
| MemoryStores.MemoryStore.PutDeviceGrant | crates/oauth-as/src/store.rs:1750-1777 | a clash changes nothing; otherwise both maps are updated and the old code is retired |
| MemoryStores.MemoryStore.SwapDeviceGrant | crates/oauth-as/src/store.rs:1821-1858 | the same three answers as the table store, in the same order |
| MemoryStores.MemoryStore.TakeDeviceGrant | crates/oauth-as/src/store.rs:1797-1808 | returns the grant and removes it from both maps |
| MemoryStores.MemoryStore.FindByUserCode | crates/oauth-as/src/store.rs:1786-1795 | through the index, finds exactly the grant that answers to the code |
| MemoryStores.MemoryStore.PruneIndex | crates/oauth-as/src/store.rs:1735-1746 | dropping the stale entries one by one makes the index exact again |
| MemoryStores.RevokedAgrees | crates/oauth-as/src/store.rs:1556-1599 | comparing instants refuses what comparing columns refuses for every grant instant above the minimum and at most at the maximum of 64 bits, and never refuses more |
| MemoryStores.RevokedAgreesIff | crates/oauth-as/src/store.rs:1556-1599 | over all contents the two refusals agree on a grant if and only if its instant lies above the minimum and at most at the maximum of 64 bits |
| MemoryStores.MergeAgrees | crates/oauth-as/src/store.rs:1476-1495 | merging instants and merging their saturated columns is the same |
| MemoryStores.CodesAreUnique | crates/oauth-as/src/store.rs:1750-1777 | an exact index means no two grants answer to one code |
| StoresAgree.RevokeConsent | scripts/patch-0.8.0-consent.py:499-543 | on equal contents both stores leave equal records and answer the same count |
| StoresAgree.RevokeFamily | crates/oauth-as/src/store.rs:2018-2040 | on equal contents both stores leave equal records and answer the same count |
| StoresAgree.DeleteClient | crates/oauth-as/src/store.rs:1701-1748 | on equal contents both stores leave equal records and the same answer |
| StoresAgree.SwapDeviceGrant | crates/oauth-as/src/store.rs:1821-1858 | on equal contents both stores leave equal records and the same answer |
| StoresAgree.PutGuarded | crates/oauth-as/src/store.rs:1915-1932 | both stores refuse or neither does for grant instants above the minimum and at most at the maximum of 64 bits; otherwise the table store may refuse more |
| StoresAgree.Disagree | crates/oauth-as/src/store.rs:1915-1932 | for every other grant instant there is a revocation after which the in-memory store admits the write and the table store refuses it |
| StoresAgree.FindByUserCode | crates/oauth-as/src/store.rs:1786-1795 | both stores find the same grant |
| Naive.NaiveTable.Take | crates/oauth-as-postgres/src/naive.rs:46-73 | alone, the read-then-delete take is a take |
| Naive.NaiveTable.Claim | crates/oauth-as-postgres/src/naive.rs:82-109 | alone, the look-then-insert claim is a claim |
| Naive.NaiveTable.Swap | crates/oauth-as-postgres/src/naive.rs:128-177 | alone, the read-then-write swap is a swap exactly when the record exists; otherwise it creates it |
| Naive.SideBySide | crates/oauth-as-postgres/src/naive.rs:46-177 | under every schedule of two naive operations either both read first and each answers as if alone, or they have the effect and the answers of one after the other |
| Naive.BothReceiveIff | crates/oauth-as-postgres/src/naive.rs:46-73 | two takers both receive the record if and only if both read before the first write |
| Naive.BothGrantedIff | crates/oauth-as-postgres/src/naive.rs:82-109 | two claims of a new identifier are both granted if and only if both read before the first write |
| Naive.BothAppliedIff | crates/oauth-as-postgres/src/naive.rs:111-177 | two decisions are both applied if and only if both read before the first write, and one of them is then lost |
| Naive.RedeemedComesBackIff | crates/oauth-as-postgres/src/naive.rs:111-177 | a decision and a redemption both succeed under every schedule, and the redeemed grant is in the table afterwards if and only if the decision wrote last |
| RefreshChains.ChainKeepsBinding | crates/oauth-as/src/server.rs:5599-5965 | along any number of redemptions every record of a family keeps certificate, authentication and grant instant; the proof key if the client is public, being key-bound if it is confidential |
| RefreshChains.ForeignBindingNeverServed | crates/oauth-as/src/server.rs:5748-5795 | after any number of redemptions, whoever presents a token of the family with a certificate, or for a public client a key, other than those of the first record gets nothing, and leaves the family as it is or, on reuse, revoked |
| RefreshChains.KeyKeptIff | crates/oauth-as/src/server.rs:5748-5778 | along a chain of any length the family is on one key after every redemption if and only if every redemption granted on it proves that key |
| RefreshChains.AlwaysOneKeyIff | crates/oauth-as/src/server.rs:5748-5778 | whatever is requested afterwards, a family stays on its first key if and only if it is on it now and its client is public, or it is not key-bound, or it has no token left that is accepted |
| RefreshChains.PublicKeepsKey | crates/oauth-as/src/server.rs:5748-5778 | the family of a public client is on its first key after any number of redemptions |
| RefreshChains.ConfidentialRekeys | crates/oauth-as/src/server.rs:5748-5778 | a confidential client can move any key-bound family to any other key, with any token of it that is accepted |
| RefreshChains.GrantedIff | crates/oauth-as/src/server.rs:5599-5795 | exactly who is served, by the fields of record and request |
| RefreshChains.GrantSpends | crates/oauth-as/src/server.rs:5904-5965 | without reuse a granted redemption spends the presented token, issues one active refresh token and one access token in its family and client, and leaves every other token as it was |
| RefreshChains.ReplayEndsFamily | crates/oauth-as/src/server.rs:5683-5747 | presenting a redeemed token again, after any further requests that leave it in the chain, answers reuse, leaves no token of its family, and every token of other families |
| RefreshChains.ChainHasOneActive | crates/oauth-as/src/server.rs:5904-5965 | along any requests whose new names are new, a family with at most one active token never has two |
| RefreshChains.ReuseIssuesAccess | crates/oauth-as/src/server.rs:5679-5682 | with reuse a granted redemption issues an access token and nothing else |
| RefreshChains.RefusalsKeepChain | crates/oauth-as/src/server.rs:2252-2282 | a refusal leaves the chain as it was, except that a replay ends the family and that a token which has run out may be gone |
| RefreshChains.ChainStore.Refresh | crates/oauth-as/src/server.rs:5599-5965 | the endpoint that takes first and puts back on refusal has the effect and the answer of one redemption; an unknown token, another client, key or certificate leaves the chain as it was, whatever the rotation mode and the retry window |
| Features.Closure | scripts/feature-mirrors.py:185-202 | the worklist ends on every table and returns exactly the features reachable by a path from the known seeds |
| Features.ReachableIsLeast | scripts/feature-mirrors.py:185-202 | what is reachable lies in every closed set that contains the known seeds |
| Features.BackendFeatures | scripts/feature-mirrors.py:235-241 | exactly the declared features that reach the backend |
| Features.CheckNoBackend | scripts/feature-mirrors.py:235-266 | passes exactly when every listed name is declared and, the default feature aside, it reaches precisely the features that do not reach the backend |
| Features.CheckNoRar | scripts/feature-mirrors.py:269-321 | passes exactly when every listed name is declared and, the default feature aside, it reaches every feature but the excluded one |

## Left out

- The SQL driver, JSON encoding, connection pools, error texts, migrations and table truncation.
- The order among consents of one pair with equal grant instants: the source takes the greater identifier, the model either.
- PostgreSQL internals: tuple addresses, vacuum, write-ahead log, index scans, and the queue for a row (a waiter behind another waiter for one row).
- The guard-free writes of codes, device grants, consents and clients can land behind a revocation in the source too; the run-level guarantees are about tokens and pushed requests.
- CommitDeleteClient: outside tokens, pushed requests and barriers it gives bounds, because a row inserted there while the deletion runs may remain in the source as well; `DeletionLeavesOnlyNew` says that nothing else remains.
- CommitRevokeConsent: outside tokens and barriers it gives the same kind of bounds, for the same reason; `WithdrawalLeavesOnlyNew` says that nothing else remains.
- NoDeadlock: assumes that keys drawn at random are new and that a written user code is its own, as `CodeDeadlocks` shows it must; its condition on crossing revocations is about the state, `OneRevocationAtATime` is about what callers start.
- RunIsSerial: for the creation of a consent it does not say that the pair is empty, because a plain write takes no lock of the pair; in any run what stands was written while the creation ran (`CreationMissesOnlyNew`), and nothing stands where consents are written through swaps only (`CreationFindsEmptyPair`).
- CommitSwapConsent: says nothing about the pair on creation, for the same reason.
- PutKeepsCodes: is about one write on the plain store; concurrent writers are in `CodesAlwaysUnique` and `CommitPlain`.
- A redemption against a barrier: `RefreshChains` has a store that accepts every write; refused writes are in `Commit`.
- The in-memory sweep, claim, rotation and consent swap, each one step under the mutex, are not modelled as methods; their meaning is in `Atomic`.
- The answer to a retried rotation inside the retry window; the window itself only decides whether a record is taken and put back.
- Client authentication, scope and resource narrowing: a redemption gets their verdict as a parameter.
- A failing store during reuse containment, and hooks and audit events.
- Plain reads (`get_*`, `consents_for_subject`): which record or list they return, and that a client sees only committed rows.
- Signature checks, JOSE parsing, rich authorization requests, HTTP handling, the conformance suite, benchmarks and size reports.
- Parsing of manifests and workflow files: the feature checks start from the parsed table and list.
