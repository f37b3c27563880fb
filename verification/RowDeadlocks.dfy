/** Why two revocations that meet in a table can wait for each other: nothing orders the rows they remove.

A client and one of its families are revoked by different keys, so the two revocations run side by side.
Each removes both tokens of the family; each can reach a different one first. */
module RowDeadlocks {
  import opened Options
  import opened Records
  import opened Protocol
  import opened NoResurrection
  import opened Deadlock
  import opened Witnesses
  import opened CodeWaits
  import opened Atomic
  import opened ByFields
  import opened Served
  import opened CodeDeadlocks

  // ----- runs without new keys and user codes

  ghost predicate FreshlyReaches(cfg: Config, s: State) {
    exists states, events :: Run(cfg, states, events) && FreshRun(states, events) && states[|events|] == s
  }

  /** An operation that invents no keys and writes no user code. */
  predicate InventsNothing(op: Operation) { NewIds(op) == {} && DeviceWrite(op).None? }

  /** A transaction that has ended, holds nothing and has invented nothing. */
  ghost predicate Over(u: Txn) {
    !u.outcome.Running? && u.rows == {} && u.codes == {} && u.keys == map[] && InventsNothing(u.op)
  }

  ghost predicate Settled(s: State) { forall t | t in s.txns :: Over(s.txns[t]) }

  /** Operations are never forgotten, so the last state tells which ones there were. */
  lemma FreshByOperations(cfg: Config, s: State)
    requires Reaches(cfg, s) && forall t | t in s.txns :: InventsNothing(s.txns[t].op)
    ensures FreshlyReaches(cfg, s)
  {
    var states: seq<State>, events: seq<Event> :| Run(cfg, states, events) && states[|events|] == s;
    forall i | 0 <= i < |events| && events[i].Begin? ensures FreshStart(states[i], events[i].t, events[i].op) {
      assert StepAt(cfg, states, events, i);
      KeptInventsNothing(cfg, states, events, i + 1, |events|, events[i].t);
      forall t | t in states[i].txns ensures InventsNothing(states[i].txns[t].op) {
        KeptInventsNothing(cfg, states, events, i, |events|, t);
      }
    }
    assert FreshRun(states, events);
  }

  lemma {:induction false} KeptInventsNothing(cfg: Config, states: seq<State>, events: seq<Event>, i: nat, n: nat,
                                              t: nat)
    requires Run(cfg, states, events) && i <= n < |states| && t in states[i].txns
    requires forall t | t in states[n].txns :: InventsNothing(states[n].txns[t].op)
    ensures InventsNothing(states[i].txns[t].op)
    decreases n - i
  {
    if i < n {
      assert StepAt(cfg, states, events, i);
      StepIsFramed(cfg, states[i], events[i], states[i + 1]);
      if events[i].t == t { StepKeepsOp(cfg, states[i], events[i], states[i + 1]); }
      KeptInventsNothing(cfg, states, events, i + 1, n, t);
    }
  }

  // ----- two tokens of one client and one family

  ghost predicate TwoTokens(db: Db, a: Record, b: Record) {
    && a.AccessToken? && b.AccessToken? && db.Keys == {IdOf(a), IdOf(b)}
    && db[IdOf(a)].payload == a && db[IdOf(a)].cols == Project(a)
    && db[IdOf(b)].payload == b && db[IdOf(b)].cols == Project(b)
  }

  lemma CommitsTokens(cfg: Config, a: Record, b: Record) returns (s': State)
    requires cfg.locking && a.AccessToken? && b.AccessToken? && IdOf(a) != IdOf(b)
    ensures Reaches(cfg, s') && Settled(s') && s'.txns.Keys == {8, 9} && TwoTokens(s'.db, a, b)
  {
    ReachInit(cfg);
    var s1 := CommitsToken(cfg, Init(), 8, a);
    s' := CommitsToken(cfg, s1, 9, b);
    assert Abs(s'.db) == map[IdOf(a) := a, IdOf(b) := b];
    StoredTokens(cfg, s', a, b);
  }

  lemma CommitsToken(cfg: Config, s: State, t: nat, a: Record) returns (s': State)
    requires cfg.locking && Reaches(cfg, s) && Settled(s) && t !in s.txns && a.AccessToken?
    requires forall id | id in s.db :: !id.BarrierId?
    ensures Reaches(cfg, s') && Settled(s') && s'.txns.Keys == s.txns.Keys + {t}
    ensures Abs(s'.db) == Abs(s.db)[IdOf(a) := a] && forall id | id in s'.db :: !id.BarrierId?
  {
    NoBarriersNoRefusal(Abs(s.db), a);
    s' := WritesToken(cfg, s, t, a);
    assert forall id | id in s'.db :: id in Abs(s'.db);
  }

  lemma StoredTokens(cfg: Config, s: State, a: Record, b: Record)
    requires cfg.locking && Reaches(cfg, s) && a.AccessToken? && b.AccessToken?
    requires Abs(s.db) == map[IdOf(a) := a, IdOf(b) := b]
    requires IdOf(a) != IdOf(b)
    ensures TwoTokens(s.db, a, b)
  {
    var states: seq<State>, events: seq<Event> :| Run(cfg, states, events) && states[|events|] == s;
    RunKeepsInv(cfg, states, events, |events|);
    assert s.db.Keys == Abs(s.db).Keys;
  }

  // ----- a revocation reaches its first row

  /** A revocation before a removal, with its barrier written and nothing removed yet. */
  ghost predicate Removing(cfg: Config, s: State, t: nat, scope: Scope, p: Pred) {
    && Runs(cfg, s, t) && Current(cfg, s, t) == Deletion(p)
    && s.txns[t].scan.None? && s.txns[t].hits == map[] && s.txns[t].dels == {}
    && s.txns[t].puts.Keys == {BarrierId(scope)} && s.txns[t].rows == {BarrierId(scope)}
  }

  /** It holds one of the two rows and has the other before it. */
  ghost predicate BetweenRows(cfg: Config, s: State, t: nat, scope: Scope, p: Pred, held: RowId, next: RowId) {
    && Runs(cfg, s, t) && Current(cfg, s, t) == Deletion(p) && s.txns[t].rows == {BarrierId(scope), held}
    && s.txns[t].scan.Some? && s.txns[t].scan.value.Keys == {next}
  }

  lemma Selects(cfg: Config, s: State, t: nat, scope: Scope, p: Pred) returns (s': State)
    requires Reaches(cfg, s) && Removing(cfg, s, t, scope, p) && Selected(View(s.db, s.txns[t]), p) == s.db
    ensures Reaches(cfg, s') && s' == With(s, t, s.txns[t].(scan := Some(s.db)))
  {
    s' := With(s, t, s.txns[t].(scan := Some(s.db)));
    ReachStep(cfg, s, ScanStart(t, s.db), s');
  }

  lemma RemovesRow(cfg: Config, s: State, t: nat, scope: Scope, p: Pred, id: RowId, next: RowId) returns (s': State)
    requires Reaches(cfg, s) && Runs(cfg, s, t) && Current(cfg, s, t) == Deletion(p) && s.txns[t].scan == Some(s.db)
    requires s.txns[t].dels == {} && s.txns[t].rows == {BarrierId(scope)} && s.txns[t].puts.Keys == {BarrierId(scope)}
    requires id != next && s.db.Keys == {id, next} && id.Keyed? && RowFree(s, t, id) && Matches(p, id, s.db[id])
    requires cfg.order(id) <= cfg.order(next)
    ensures Reaches(cfg, s') && s'.db == s.db && s'.txns.Keys == s.txns.Keys
    ensures BetweenRows(cfg, s', t, scope, p, id, next)
    ensures s'.txns[t].keys == s.txns[t].keys && s'.txns[t].op == s.txns[t].op
    ensures forall t' | t' in s.txns && t' != t :: s'.txns[t'] == s.txns[t']
  {
    var u := s.txns[t];
    assert View(s.db, u)[id] == s.db[id];
    s' := With(s, t, Hit(s.db, u, Remove, s.db, id));
    ReachStep(cfg, s, ScanRow(t, id), s');
  }

  // ----- the deletion of the client

  lemma SkipsConsents(cfg: Config, s: State, c: string, a: Record, b: Record) returns (s': State)
    requires cfg.locking && Reaches(cfg, s) && 2 in s.txns && Deleting(s.txns[2], c, 2) && TwoTokens(s.db, a, b)
    ensures Reaches(cfg, s') && s' == With(s, 2, s.txns[2].(pc := 3))
    ensures Removing(cfg, s', 2, ClientScope(c), ByClient(AccessTokens, c))
  {
    DeletionProgramAt(cfg, c, 2);
    DeletionProgramAt(cfg, c, 3);
    assert View(s.db, s.txns[2]).Keys == {IdOf(a), IdOf(b), BarrierId(ClientScope(c))};
    s' := ScansNothing(cfg, s, 2);
  }

  /** The tokens of a client or of a family to which both belong. */
  predicate OfBoth(p: Pred, a: Record, b: Record)
    requires a.AccessToken? && b.AccessToken?
  {
    || (p == ByClient(AccessTokens, a.client) && b.client == a.client)
    || (a.family.Some? && b.family == a.family && p == ByFamily(AccessTokens, a.family.value))
  }

  /** Both tokens, and nothing else, are what a revocation of their client or family removes. */
  lemma OnlyTheTokens(view: Db, db: Db, scope: Scope, p: Pred, a: Record, b: Record)
    requires TwoTokens(db, a, b) && view.Keys == db.Keys + {BarrierId(scope)}
    requires forall id | id in db :: view[id] == db[id]
    requires OfBoth(p, a, b)
    ensures Selected(view, p) == db && Matches(p, IdOf(a), db[IdOf(a)]) && Matches(p, IdOf(b), db[IdOf(b)])
  {
  }

  lemma RemovesFirstToken(cfg: Config, s: State, t: nat, scope: Scope, p: Pred, a: Record, b: Record)
    returns (s': State)
    requires Reaches(cfg, s) && Removing(cfg, s, t, scope, p) && TwoTokens(s.db, a, b) && IdOf(a) != IdOf(b)
    requires OfBoth(p, a, b)
    requires RowFree(s, t, IdOf(a)) && cfg.order(IdOf(a)) == cfg.order(IdOf(b))
    ensures Reaches(cfg, s') && s'.db == s.db && s'.txns.Keys == s.txns.Keys
    ensures BetweenRows(cfg, s', t, scope, p, IdOf(a), IdOf(b))
    ensures s'.txns[t].keys == s.txns[t].keys && s'.txns[t].op == s.txns[t].op
    ensures forall t' | t' in s.txns && t' != t :: s'.txns[t'] == s.txns[t']
  {
    OnlyTheTokens(View(s.db, s.txns[t]), s.db, scope, p, a, b);
    var s1 := Selects(cfg, s, t, scope, p);
    s' := RemovesRow(cfg, s1, t, scope, p, IdOf(a), IdOf(b));
  }

  lemma DeletionReachesTokens(cfg: Config, a: Record, b: Record) returns (s': State)
    requires cfg.locking && a.AccessToken? && b.AccessToken? && IdOf(a) != IdOf(b) && a.client == b.client != ""
    requires cfg.order(IdOf(a)) == cfg.order(IdOf(b))
    ensures Reaches(cfg, s') && s'.txns.Keys == {2, 8, 9} && TwoTokens(s'.db, a, b)
    ensures BetweenRows(cfg, s', 2, ClientScope(a.client), ByClient(AccessTokens, a.client), IdOf(a), IdOf(b))
    ensures s'.txns[2].keys == map[KeyOf(ClientScope(a.client)) := Exclusive] && s'.txns[2].op.DeleteClient?
    ensures forall t | t in s'.txns && t != 2 :: Over(s'.txns[t])
  {
    var s1 := CommitsTokens(cfg, a, b);
    var s2 := DeletionStarts(cfg, s1, a.client);
    var s3 := SkipsConsents(cfg, s2, a.client, a, b);
    s' := RemovesFirstToken(cfg, s3, 2, ClientScope(a.client), ByClient(AccessTokens, a.client), a, b);
  }

  // ----- the revocation of the family

  lemma RevocationStatements(cfg: Config, f: string)
    requires cfg.locking
    ensures Program(cfg, RevokeFamily(f, WINDOW), None)
         == [Lock(KeyOf(FamilyScope(f)), Exclusive), RecordBarrier(FamilyScope(f), WINDOW),
             Deletion(ByFamily(AccessTokens, f)), Deletion(ByFamily(RefreshTokens, f))]
  {
  }

  lemma RevocationStarts(cfg: Config, s: State, f: string) returns (s': State)
    requires cfg.locking && f != "" && Reaches(cfg, s) && 3 !in s.txns && BarrierId(FamilyScope(f)) !in s.db
    requires forall t, k | t in s.txns && k in s.txns[t].keys :: cfg.hash(k) != cfg.hash(KeyOf(FamilyScope(f)))
    requires forall t | t in s.txns :: BarrierId(FamilyScope(f)) !in s.txns[t].rows
    ensures Reaches(cfg, s') && s'.db == s.db && s'.txns.Keys == s.txns.Keys + {3}
    ensures Removing(cfg, s', 3, FamilyScope(f), ByFamily(AccessTokens, f)) && s'.txns[3].op.RevokeFamily?
    ensures forall t | t in s.txns :: s'.txns[t] == s.txns[t]
  {
    RevocationStatements(cfg, f);
    var s1 := LocksFirst(cfg, s, 3, RevokeFamily(f, WINDOW), KeyOf(FamilyScope(f)), Exclusive);
    s' := RevocationRecords(cfg, s1, f);
  }

  lemma RevocationRecords(cfg: Config, s: State, f: string) returns (s': State)
    requires cfg.locking && f != "" && Reaches(cfg, s) && 3 in s.txns && BarrierId(FamilyScope(f)) !in s.db
    requires s.txns[3] == Started(RevokeFamily(f, WINDOW)).(pc := 1, keys := s.txns[3].keys)
    requires forall t | t in s.txns :: BarrierId(FamilyScope(f)) !in s.txns[t].rows
    ensures Reaches(cfg, s') && s'.db == s.db && s'.txns.Keys == s.txns.Keys
    ensures Removing(cfg, s', 3, FamilyScope(f), ByFamily(AccessTokens, f)) && s'.txns[3].op.RevokeFamily?
    ensures forall t | t in s.txns && t != 3 :: s'.txns[t] == s.txns[t]
  {
    RevocationStatements(cfg, f);
    s' := RecordsFirst(cfg, s, 3, FamilyScope(f), WINDOW);
  }

  // ----- both wait

  lemma WaitsForRow(cfg: Config, s: State, t: nat, scope: Scope, p: Pred, held: RowId, next: RowId, t': nat)
    requires BetweenRows(cfg, s, t, scope, p, held, next) && t' in s.txns && t' != t && next in s.txns[t'].rows
    ensures WaitsFor(cfg, s, t, t')
  {
    assert IsNext(cfg, s.txns[t].scan.value, Remove, next);
    assert Blocked(cfg, s, t, RowRes(next), t');
  }

  /** The two revocations, each with the row the other one needs, and everybody else gone. */
  ghost predicate Crossed(cfg: Config, s: State, a: Record, b: Record)
    requires a.AccessToken? && b.AccessToken? && a.family.Some?
  {
    && BetweenRows(cfg, s, 2, ClientScope(a.client), ByClient(AccessTokens, a.client), IdOf(a), IdOf(b))
    && BetweenRows(cfg, s, 3, FamilyScope(a.family.value), ByFamily(AccessTokens, a.family.value), IdOf(b), IdOf(a))
    && s.txns[2].op.DeleteClient? && s.txns[3].op.RevokeFamily?
    && forall t | t in s.txns && t != 2 && t != 3 :: Over(s.txns[t])
  }

  /** Two tokens of one client and one family, which the row order leaves open. */
  predicate Siblings(cfg: Config, a: Record, b: Record) {
    && a.AccessToken? && b.AccessToken? && IdOf(a) != IdOf(b) && cfg.order(IdOf(a)) == cfg.order(IdOf(b))
    && a.client == b.client != "" && a.family.Some? && a.family == b.family && a.family.value != ""
  }

  lemma BothAtWork(cfg: Config, a: Record, b: Record) returns (s': State)
    requires cfg.locking && Siblings(cfg, a, b)
    requires cfg.hash(KeyOf(ClientScope(a.client))) != cfg.hash(KeyOf(FamilyScope(a.family.value)))
    ensures Reaches(cfg, s') && Crossed(cfg, s', a, b)
  {
    var s1 := DeletionReachesTokens(cfg, a, b);
    s' := RevocationReachesTokens(cfg, s1, a, b);
  }

  lemma RevocationReachesTokens(cfg: Config, s: State, a: Record, b: Record) returns (s': State)
    requires cfg.locking && TwoTokens(s.db, a, b) && Siblings(cfg, a, b)
    requires cfg.hash(KeyOf(ClientScope(a.client))) != cfg.hash(KeyOf(FamilyScope(a.family.value)))
    requires Reaches(cfg, s) && s.txns.Keys == {2, 8, 9} && forall t | t in s.txns && t != 2 :: Over(s.txns[t])
    requires BetweenRows(cfg, s, 2, ClientScope(a.client), ByClient(AccessTokens, a.client), IdOf(a), IdOf(b))
    requires s.txns[2].keys == map[KeyOf(ClientScope(a.client)) := Exclusive] && s.txns[2].op.DeleteClient?
    ensures Reaches(cfg, s') && Crossed(cfg, s', a, b)
  {
    var f := a.family.value;
    FamilyIsFree(cfg, s, a, IdOf(a));
    var s1 := RevocationStarts(cfg, s, f);
    StillBetweenRows(cfg, s, s1, 2, ClientScope(a.client), ByClient(AccessTokens, a.client), IdOf(a), IdOf(b));
    s' := RevocationRemoves(cfg, s1, a, b);
  }

  lemma OtherTokenIsFree(s: State, scope: Scope, a: Record, b: Record)
    requires TwoTokens(s.db, a, b) && IdOf(a) != IdOf(b) && 2 in s.txns && s.txns[2].rows == {BarrierId(scope), IdOf(a)}
    requires forall t | t in s.txns && t != 2 && t != 3 :: Over(s.txns[t])
    ensures TwoTokens(s.db, b, a) && RowFree(s, 3, IdOf(b))
  {
  }

  lemma RevocationRemoves(cfg: Config, s: State, a: Record, b: Record) returns (s': State)
    requires TwoTokens(s.db, a, b) && Siblings(cfg, a, b) && Reaches(cfg, s)
    requires forall t | t in s.txns && t != 2 && t != 3 :: Over(s.txns[t])
    requires BetweenRows(cfg, s, 2, ClientScope(a.client), ByClient(AccessTokens, a.client), IdOf(a), IdOf(b))
    requires Removing(cfg, s, 3, FamilyScope(a.family.value), ByFamily(AccessTokens, a.family.value))
    requires s.txns[2].op.DeleteClient? && s.txns[3].op.RevokeFamily?
    ensures Reaches(cfg, s') && Crossed(cfg, s', a, b)
  {
    var f := a.family.value;
    OtherTokenIsFree(s, ClientScope(a.client), a, b);
    s' := RemovesFirstToken(cfg, s, 3, FamilyScope(f), ByFamily(AccessTokens, f), b, a);
    StillBetweenRows(cfg, s, s', 2, ClientScope(a.client), ByClient(AccessTokens, a.client), IdOf(a), IdOf(b));
  }

  lemma FamilyIsFree(cfg: Config, s: State, a: Record, held: RowId)
    requires a.AccessToken? && a.family.Some? && held.Keyed?
    requires cfg.hash(KeyOf(ClientScope(a.client))) != cfg.hash(KeyOf(FamilyScope(a.family.value)))
    requires 2 in s.txns && s.txns[2].rows == {BarrierId(ClientScope(a.client)), held}
    requires s.txns[2].keys == map[KeyOf(ClientScope(a.client)) := Exclusive]
    requires forall t | t in s.txns && t != 2 :: Over(s.txns[t])
    ensures forall t, k | t in s.txns && k in s.txns[t].keys ::
              cfg.hash(k) != cfg.hash(KeyOf(FamilyScope(a.family.value)))
    ensures forall t | t in s.txns :: BarrierId(FamilyScope(a.family.value)) !in s.txns[t].rows
  {
  }

  lemma StillBetweenRows(cfg: Config, s: State, s': State, t: nat, scope: Scope, p: Pred, held: RowId, next: RowId)
    requires BetweenRows(cfg, s, t, scope, p, held, next) && t in s'.txns && s'.txns[t] == s.txns[t]
    ensures BetweenRows(cfg, s', t, scope, p, held, next)
  {
  }

  lemma CrossedIsCycle(cfg: Config, s: State, a: Record, b: Record)
    requires a.AccessToken? && b.AccessToken? && a.family.Some? && Crossed(cfg, s, a, b)
    ensures Cycle(cfg, s, [2, 3])
  {
    var ts := [2, 3];
    WaitsForRow(cfg, s, 2, ClientScope(a.client), ByClient(AccessTokens, a.client), IdOf(a), IdOf(b), 3);
    WaitsForRow(cfg, s, 3, FamilyScope(a.family.value), ByFamily(AccessTokens, a.family.value), IdOf(b), IdOf(a), 2);
    assert WaitsFor(cfg, s, ts[0], ts[1]) && WaitsFor(cfg, s, ts[1], ts[0]);
  }

  /** Nobody waits for a key. */
  lemma CrossedApart(cfg: Config, s: State, a: Record, b: Record)
    requires a.AccessToken? && b.AccessToken? && a.family.Some? && Crossed(cfg, s, a, b)
    ensures HashesApart(cfg, s) && forall t | t in s.txns :: InventsNothing(s.txns[t].op)
  {
    forall t, key ensures !Wants(cfg, s, t, KeyRes(key)) {
    }
  }

  /** For any two tokens of one client and one family that the row order does not tell apart, the deletion
  of the client and the revocation of the family can wait for each other. No keys collide, and none of the
  operations invents a key or writes a user code. */
  lemma RevocationsDeadlock(cfg: Config, a: Record, b: Record)
    requires cfg.locking && Siblings(cfg, a, b)
    requires cfg.hash(KeyOf(ClientScope(a.client))) != cfg.hash(KeyOf(FamilyScope(a.family.value)))
    ensures exists s | FreshlyReaches(cfg, s) && HashesApart(cfg, s) :: Cycle(cfg, s, [2, 3])
  {
    var s := BothAtWork(cfg, a, b);
    CrossedIsCycle(cfg, s, a, b);
    CrossedApart(cfg, s, a, b);
    FreshByOperations(cfg, s);
  }
}
