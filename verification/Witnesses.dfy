/** Why each lock is there: short runs of the step system with one of them missing. */
module Witnesses {
  import opened Options
  import opened Records
  import opened Protocol
  import opened Atomic
  import opened ConsentPairs
  import opened Deadlock

  ghost predicate Reaches(cfg: Config, s: State) {
    exists states, events :: Run(cfg, states, events) && states[|events|] == s
  }

  lemma ReachInit(cfg: Config)
    ensures Reaches(cfg, Init())
  {
    assert Run(cfg, [Init()], []);
  }

  lemma ReachStep(cfg: Config, s: State, e: Event, s': State)
    requires Reaches(cfg, s) && Step(cfg, s, e, s')
    ensures Reaches(cfg, s')
  {
    var states, events :| Run(cfg, states, events) && states[|events|] == s;
    var states', events' := states + [s'], events + [e];
    forall i | 0 <= i < |events'| ensures StepAt(cfg, states', events', i) {
      if i < |events| { assert StepAt(cfg, states, events, i); }
    }
    assert Run(cfg, states', events');
  }

  // ----- one lemma for each kind of step

  lemma Begins(cfg: Config, s: State, t: nat, op: Operation) returns (s': State)
    requires Reaches(cfg, s) && t !in s.txns && Valid(op)
    ensures s' == With(s, t, Started(op)) && Reaches(cfg, s')
  {
    s' := With(s, t, Started(op));
    ReachStep(cfg, s, Begin(t, op), s');
  }

  lemma Execs(cfg: Config, s: State, t: nat, u': Txn) returns (s': State)
    requires Reaches(cfg, s) && Runs(cfg, s, t) && ExecStmt(cfg, s, t, Current(cfg, s, t), u')
    ensures s' == With(s, t, u').(clock := s.clock + 1) && Reaches(cfg, s')
  {
    s' := With(s, t, u').(clock := s.clock + 1);
    ReachStep(cfg, s, Exec(t), s');
  }

  /** A transaction that begins and takes the lock its program starts with. */
  lemma LocksFirst(cfg: Config, s: State, t: nat, op: Operation, key: string, mode: Mode) returns (s': State)
    requires Reaches(cfg, s) && t !in s.txns && Valid(op)
    requires |Program(cfg, op, None)| > 0 && Program(cfg, op, None)[0] == Lock(key, mode)
    requires forall t, k | t in s.txns && k in s.txns[t].keys :: cfg.hash(k) != cfg.hash(key)
    ensures s' == With(s, t, Started(op).(pc := 1, keys := map[key := mode])).(clock := s.clock + 1) && Reaches(cfg, s')
  {
    var s1 := Begins(cfg, s, t, op);
    var u' := Started(op).(pc := 1, keys := map[key := mode]);
    FirstLock(cfg, s, t, op, key, mode);
    s' := Execs(cfg, s1, t, u');
    assert With(s1, t, u') == With(s, t, u');
  }

  lemma FirstLock(cfg: Config, s: State, t: nat, op: Operation, key: string, mode: Mode)
    requires t !in s.txns && Valid(op)
    requires |Program(cfg, op, None)| > 0 && Program(cfg, op, None)[0] == Lock(key, mode)
    requires forall t, k | t in s.txns && k in s.txns[t].keys :: cfg.hash(k) != cfg.hash(key)
    ensures var s1 := With(s, t, Started(op));
            && Runs(cfg, s1, t) && Current(cfg, s1, t) == Lock(key, mode)
            && ExecStmt(cfg, s1, t, Lock(key, mode), Started(op).(pc := 1, keys := map[key := mode]))
  {
  }

  /** A scan that selects nothing. */
  lemma ScansNothing(cfg: Config, s: State, t: nat) returns (s': State)
    requires Reaches(cfg, s) && Runs(cfg, s, t) && Current(cfg, s, t).Scan? && s.txns[t].scan.None?
    requires Selected(View(s.db, s.txns[t]), Current(cfg, s, t).pred) == map[] && !Current(cfg, s, t).skipLocked
    requires Proceeds(s.txns[t].op, s.txns[t].hits) && Claimed(s.txns[t]) == s.txns[t].bound
    ensures s' == With(s, t, s.txns[t].(pc := s.txns[t].pc + 1)) && Reaches(cfg, s')
  {
    var u := s.txns[t];
    var mid := With(s, t, u.(scan := Some(map[])));
    ReachStep(cfg, s, ScanStart(t, map[]), mid);
    s' := With(s, t, u.(pc := u.pc + 1));
    assert s' == With(mid, t, u.(pc := u.pc + 1));
    ReachStep(cfg, mid, ScanEnd(t), s');
  }

  lemma Publishes(cfg: Config, s: State, t: nat) returns (s': State)
    requires Reaches(cfg, s) && t in s.txns && Finished(cfg, s.txns[t])
    ensures s' == With(s, t, s.txns[t].(outcome := Committed)).(db := Published(s.db, s.txns[t])) && Reaches(cfg, s')
  {
    s' := With(s, t, s.txns[t].(outcome := Committed)).(db := Published(s.db, s.txns[t]));
    ReachStep(cfg, s, Publish(t), s');
  }

  /** Nobody holds anything. */
  ghost predicate Quiet(s: State) {
    forall t | t in s.txns :: s.txns[t].rows == {} && s.txns[t].codes == {} && s.txns[t].keys == map[]
  }

  /** The commit of a finished transaction and the release of what it held. */
  lemma Ends(cfg: Config, s: State, t: nat) returns (s': State)
    requires Reaches(cfg, s) && t in s.txns && Finished(cfg, s.txns[t])
    ensures Reaches(cfg, s') && s'.db == Published(s.db, s.txns[t]) && s'.txns.Keys == s.txns.Keys
    ensures s'.txns[t] == s.txns[t].(outcome := Committed, keys := map[], rows := {}, codes := {})
    ensures forall t' | t' in s.txns && t' != t :: s'.txns[t'] == s.txns[t']
  {
    var s1 := Publishes(cfg, s, t);
    s' := With(s1, t, s1.txns[t].(keys := map[], rows := {}, codes := {}));
    ReachStep(cfg, s1, Release(t), s');
  }

  // ----- without the advisory locks a revocation is undone

  const TOKEN: Record := AccessToken("t", "c", None, Some("f"), 0, 0, "")

  /** Read committed alone does not protect a revocation: the write checks before the barrier is there
  and commits after the removals have passed. */
  lemma WithoutLocksTokenSurvives(cfg: Config)
    requires !cfg.locking
    ensures exists s | Reaches(cfg, s) ::
              BarrierId(FamilyScope("f")) in s.db && IdOf(TOKEN) in s.db && OfFamily(s.db[IdOf(TOKEN)].payload, "f")
  {
    var s1 := TokenChecked(cfg);
    var s2 := Begins(cfg, s1, 2, RevokeFamily("f", Window(0, 0)));
    var s3 := RevokesEmpty(cfg, s2, 2);
    var s4 := TokenLands(cfg, s3);
  }

  lemma TokenStatements(cfg: Config)
    requires !cfg.locking
    ensures Program(cfg, PutGuarded(TOKEN), None) == [Check(GuardOf(TOKEN)), Upsert(TOKEN)]
  {
  }

  /** The write has checked, and written nothing yet. */
  lemma TokenChecked(cfg: Config) returns (s': State)
    requires !cfg.locking
    ensures Reaches(cfg, s') && s'.db == map[] && s'.txns == map[1 := Started(PutGuarded(TOKEN)).(pc := 1)]
  {
    ReachInit(cfg);
    TokenStatements(cfg);
    var s1 := Begins(cfg, Init(), 1, PutGuarded(TOKEN));
    s' := Execs(cfg, s1, 1, s1.txns[1].(pc := 1));
  }

  /** The write goes on as if nothing had happened. */
  lemma TokenLands(cfg: Config, s: State) returns (s': State)
    requires !cfg.locking && Reaches(cfg, s) && 1 in s.txns && s.txns[1] == Started(PutGuarded(TOKEN)).(pc := 1)
    requires RowFree(s, 1, IdOf(TOKEN))
    ensures Reaches(cfg, s') && IdOf(TOKEN) in s'.db && s'.db[IdOf(TOKEN)].payload == TOKEN
    ensures forall id | id in s.db :: id in s'.db
  {
    TokenStatements(cfg);
    var s1 := Execs(cfg, s, 1, Written(s.db, s.txns[1], TOKEN, s.clock).(pc := 2));
    s' := Publishes(cfg, s1, 1);
  }

  /** The revocation of a family with no rows, from start to commit. */
  lemma RevokesEmpty(cfg: Config, s: State, t: nat) returns (s': State)
    requires !cfg.locking && Reaches(cfg, s) && s.db == map[] && t in s.txns
    requires s.txns[t] == Started(RevokeFamily("f", Window(0, 0))) && forall t' | t' in s.txns :: s.txns[t'].rows == {}
    ensures Reaches(cfg, s') && BarrierId(FamilyScope("f")) in s'.db && s'.db.Keys == {BarrierId(FamilyScope("f"))}
    ensures forall t' | t' in s.txns && t' != t :: t' in s'.txns && s'.txns[t'] == s.txns[t']
    ensures s'.txns.Keys == s.txns.Keys && s'.txns[t].rows == {BarrierId(FamilyScope("f"))}
  {
    var scope, w := FamilyScope("f"), Window(0, 0);
    FamilyStatements(cfg);
    var s1 := Execs(cfg, s, t, Written(s.db, s.txns[t], Merge(None, scope, w), s.clock).(pc := 1));
    var s2 := FindsNothing(cfg, s1, t);
    var s3 := FindsNothing(cfg, s2, t);
    s' := Publishes(cfg, s3, t);
  }

  lemma FamilyStatements(cfg: Config)
    requires !cfg.locking
    ensures Program(cfg, RevokeFamily("f", Window(0, 0)), None)
         == [RecordBarrier(FamilyScope("f"), Window(0, 0)), Deletion(ByFamily(AccessTokens, "f")),
             Deletion(ByFamily(RefreshTokens, "f"))]
  {
  }

  lemma FindsNothing(cfg: Config, s: State, t: nat) returns (s': State)
    requires !cfg.locking && Reaches(cfg, s) && t in s.txns && s.txns[t].op == RevokeFamily("f", Window(0, 0))
    requires s.txns[t].outcome.Running? && s.txns[t].scan.None? && s.txns[t].bound.None? && 1 <= s.txns[t].pc <= 2
    requires s.db == map[] && s.txns[t].puts.Keys == {BarrierId(FamilyScope("f"))}
    ensures s' == With(s, t, s.txns[t].(pc := s.txns[t].pc + 1)) && Reaches(cfg, s')
  {
    FamilyStatements(cfg);
    assert View(s.db, s.txns[t]).Keys == {BarrierId(FamilyScope("f"))};
    s' := ScansNothing(cfg, s, t);
  }

  // ----- without the lock of the pair two consents are created

  const FIRST: Record := Consent("1", "c", "s", 0, "")
  const SECOND: Record := Consent("2", "c", "s", 0, "")

  /** Locking the row that was read is not enough when there is no row: two creations for one empty
  pair both find nothing and both commit. */
  lemma WithoutPairLockTwoConsents(cfg: Config)
    requires !cfg.locking
    ensures exists s | Reaches(cfg, s) :: !OnePerPair(Abs(s.db))
  {
    ReachInit(cfg);
    var s1 := Begins(cfg, Init(), 1, SwapConsent(None, FIRST));
    var s2 := FindsNoConsent(cfg, s1, 1, FIRST);
    var s3 := Begins(cfg, s2, 2, SwapConsent(None, SECOND));
    var s4 := FindsNoConsent(cfg, s3, 2, SECOND);
    var s5 := Creates(cfg, s4, 1, FIRST);
    var s6 := Creates(cfg, s5, 2, SECOND);
    var store := Abs(s6.db);
    assert IsConsentOf(store[IdOf(FIRST)], "c", "s") && IsConsentOf(store[IdOf(SECOND)], "c", "s");
  }

  lemma CreationStatements(cfg: Config, r: Record)
    requires !cfg.locking && r.Consent?
    ensures Program(cfg, SwapConsent(None, r), None)
         == [Scan(ByPair(Consents, r.client, r.subjectId), LockNewest, false), Upsert(r)]
  {
  }

  lemma FindsNoConsent(cfg: Config, s: State, t: nat, r: Record) returns (s': State)
    requires !cfg.locking && Reaches(cfg, s) && t in s.txns && r.Consent? && s.txns[t] == Started(SwapConsent(None, r))
    requires s.db == map[]
    ensures s' == With(s, t, s.txns[t].(pc := 1)) && Reaches(cfg, s')
  {
    CreationStatements(cfg, r);
    s' := ScansNothing(cfg, s, t);
  }

  lemma Creates(cfg: Config, s: State, t: nat, r: Record) returns (s': State)
    requires !cfg.locking && Reaches(cfg, s) && t in s.txns && r.Consent?
    requires s.txns[t] == Started(SwapConsent(None, r)).(pc := 1)
    requires RowFree(s, t, IdOf(r))
    ensures Reaches(cfg, s') && s'.txns.Keys == s.txns.Keys && s'.txns[t].rows == {IdOf(r)}
    ensures forall t' | t' in s.txns && t' != t :: s'.txns[t'] == s.txns[t']
    ensures IdOf(r) in s'.db && s'.db[IdOf(r)].payload == r
    ensures forall id | id in s.db && id != IdOf(r) :: id in s'.db && s'.db[id] == s.db[id]
  {
    var s1 := Writes(cfg, s, t, r);
    assert Finished(cfg, s1.txns[t]) by { CreationStatements(cfg, r); }
    s' := Publishes(cfg, s1, t);
    CreatedRow(s.db, s.txns[t], r, s.clock);
  }

  lemma CreatedRow(db: Db, u: Txn, r: Record, clock: nat)
    requires u.puts == map[] && u.dels == {} && u.rows == {}
    ensures var u' := Written(db, u, r, clock).(pc := 2);
            && u'.rows == {IdOf(r)} && IdOf(r) in Published(db, u') && Published(db, u')[IdOf(r)].payload == r
            && forall id | id in db && id != IdOf(r) :: id in Published(db, u') && Published(db, u')[id] == db[id]
  {
  }

  lemma Writes(cfg: Config, s: State, t: nat, r: Record) returns (s': State)
    requires !cfg.locking && Reaches(cfg, s) && t in s.txns && r.Consent?
    requires s.txns[t] == Started(SwapConsent(None, r)).(pc := 1)
    requires RowFree(s, t, IdOf(r))
    ensures var u := Written(s.db, s.txns[t], r, s.clock).(pc := 2);
              s' == With(s, t, u).(clock := s.clock + 1) && Reaches(cfg, s')
  {
    CreationStatements(cfg, r);
    s' := Execs(cfg, s, t, Written(s.db, s.txns[t], r, s.clock).(pc := 2));
  }

  // ----- with the consent key before the client key three transactions wait in a circle

  const WINDOW: Window := Window(0, 0)
  const CONSENT_ID: RowId := Keyed(Consents, "1")

  function ConsentRow(c: string, s: string): Row { RowOf(Consent("1", c, s, 0, ""), 0) }

  function BoundToken(c: string, s: string): Record { AccessToken("t", c, Some(s), None, 0, 0, "") }

  /** A committed consent and nobody holding anything. */
  lemma ConsentCommitted(cfg: Config, c: string, sub: string) returns (s': State)
    ensures Reaches(cfg, s') && s'.db == map[CONSENT_ID := ConsentRow(c, sub)] && s'.txns.Keys == {0}
    ensures s'.txns[0].rows == {} && s'.txns[0].keys == map[]
  {
    ReachInit(cfg);
    var s1 := Begins(cfg, Init(), 0, Put(ConsentRow(c, sub).payload));
    var s2 := Execs(cfg, s1, 0, Written(s1.db, s1.txns[0], ConsentRow(c, sub).payload, s1.clock).(pc := 1));
    var s3 := Publishes(cfg, s2, 0);
    s' := With(s3, 0, s3.txns[0].(keys := map[], rows := {}, codes := {}));
    ReachStep(cfg, s3, Release(0), s');
  }

  /** The withdrawal has claimed the consent and is about to lock the pair. */
  function ClaimedBy(c: string, sub: string): Txn {
    Txn(RevokeConsent("1", WINDOW), 1, Some((c, sub)), Running, map[], {CONSENT_ID}, {}, map[],
        {CONSENT_ID}, map[CONSENT_ID := ConsentRow(c, sub)], None)
  }

  lemma ConsentClaimed(cfg: Config, s: State, c: string, sub: string) returns (s': State)
    requires Reaches(cfg, s) && s.db == map[CONSENT_ID := ConsentRow(c, sub)] && s.txns.Keys == {0}
    requires s.txns[0].rows == {}
    ensures Reaches(cfg, s') && s' == With(s, 3, ClaimedBy(c, sub))
  {
    var op := RevokeConsent("1", WINDOW);
    assert Program(cfg, op, None) == [Deletion(ByKey(CONSENT_ID))];
    var s1 := Begins(cfg, s, 3, op);
    var all := map[CONSENT_ID := ConsentRow(c, sub)];
    assert View(s1.db, s1.txns[3]) == all;
    assert Selected(all, ByKey(CONSENT_ID)) == all;
    var s2 := With(s1, 3, s1.txns[3].(scan := Some(all)));
    ReachStep(cfg, s1, ScanStart(3, all), s2);
    s' := ClaimRow(cfg, s, s2, c, sub);
  }

  lemma ClaimRow(cfg: Config, s: State, s2: State, c: string, sub: string) returns (s': State)
    requires 3 !in s.txns && Reaches(cfg, s2) && s.db == map[CONSENT_ID := ConsentRow(c, sub)]
    requires (forall t | t in s.txns :: s.txns[t].rows == {})
    requires s2 == With(s, 3, Started(RevokeConsent("1", WINDOW)).(scan := Some(map[CONSENT_ID := ConsentRow(c, sub)])))
    ensures Reaches(cfg, s') && s' == With(s, 3, ClaimedBy(c, sub))
  {
    ClaimSteps(cfg, s, c, sub);
    var s3 := With(s2, 3, ClaimedBy(c, sub).(pc := 0, bound := None, scan := Some(map[])));
    ReachStep(cfg, s2, ScanRow(3, CONSENT_ID), s3);
    s' := With(s3, 3, ClaimedBy(c, sub));
    ReachStep(cfg, s3, ScanEnd(3), s');
  }

  lemma ClaimSteps(cfg: Config, s: State, c: string, sub: string)
    requires 3 !in s.txns && s.db == map[CONSENT_ID := ConsentRow(c, sub)]
    requires (forall t | t in s.txns :: s.txns[t].rows == {})
    ensures var u := Started(RevokeConsent("1", WINDOW)).(scan := Some(map[CONSENT_ID := ConsentRow(c, sub)]));
            var hit := ClaimedBy(c, sub).(pc := 0, bound := None, scan := Some(map[]));
            && Step(cfg, With(s, 3, u), ScanRow(3, CONSENT_ID), With(With(s, 3, u), 3, hit))
            && Step(cfg, With(With(s, 3, u), 3, hit), ScanEnd(3),
                    With(With(With(s, 3, u), 3, hit), 3, ClaimedBy(c, sub)))
  {
    var u := Started(RevokeConsent("1", WINDOW)).(scan := Some(map[CONSENT_ID := ConsentRow(c, sub)]));
    assert View(s.db, u) == s.db;
    assert u.scan.value - {CONSENT_ID} == map[];
  }

  /** The write holds the consent key and is about to ask for the client key. */
  function HoldingConsentKey(c: string, sub: string): Txn {
    Started(PutGuarded(BoundToken(c, sub))).(pc := 1, keys := map[KeyOf(ConsentScope(c, sub)) := Shared])
  }

  lemma WriterLocksConsent(cfg: Config, s: State, c: string, sub: string) returns (s': State)
    requires cfg.locking && !cfg.keyOrder.ClientBeforeConsent() && Reaches(cfg, s) && 1 !in s.txns
    requires forall t | t in s.txns :: s.txns[t].keys == map[]
    ensures Reaches(cfg, s') && s' == With(s, 1, HoldingConsentKey(c, sub)).(clock := s.clock + 1)
  {
    WriterStatements(cfg, c, sub);
    s' := LocksFirst(cfg, s, 1, PutGuarded(BoundToken(c, sub)), KeyOf(ConsentScope(c, sub)), Shared);
  }

  lemma WriterStatements(cfg: Config, c: string, sub: string)
    requires cfg.locking && !cfg.keyOrder.ClientBeforeConsent()
    ensures var prog := Program(cfg, PutGuarded(BoundToken(c, sub)), None);
            && |prog| > 1 && prog[0] == Lock(KeyOf(ConsentScope(c, sub)), Shared)
            && prog[1] == Lock(KeyOf(ClientScope(c)), Shared)
  {
  }

  lemma DeletionStatements(cfg: Config, c: string)
    requires cfg.locking
    ensures var prog := Program(cfg, DeleteClient(c, WINDOW), None);
            && |prog| > 2 && prog[0] == Lock(KeyOf(ClientScope(c)), Exclusive)
            && prog[1] == RecordBarrier(ClientScope(c), WINDOW) && prog[2] == Deletion(ByClient(Consents, c))
  {
  }

  /** The deletion holds the client key and has the consent before it. */
  ghost predicate AtConsents(u: Txn, c: string, sub: string) {
    && u.op == DeleteClient(c, WINDOW) && u.pc == 2 && u.bound.None? && u.outcome.Running?
    && u.keys == map[KeyOf(ClientScope(c)) := Exclusive] && u.scan == Some(map[CONSENT_ID := ConsentRow(c, sub)])
  }

  lemma DeletionReachesConsents(cfg: Config, s: State, c: string, sub: string) returns (s': State)
    requires cfg.locking && c != "" && Reaches(cfg, s) && 2 !in s.txns && s.db == map[CONSENT_ID := ConsentRow(c, sub)]
    requires forall t | t in s.txns :: BarrierId(ClientScope(c)) !in s.txns[t].rows
    requires forall t, k | t in s.txns && k in s.txns[t].keys :: cfg.hash(k) != cfg.hash(KeyOf(ClientScope(c)))
    ensures Reaches(cfg, s') && s'.db == s.db && s'.txns.Keys == s.txns.Keys + {2} && AtConsents(s'.txns[2], c, sub)
    ensures forall t | t in s.txns :: s'.txns[t] == s.txns[t]
  {
    var s2 := DeletionLocks(cfg, s, c);
    var s3 := DeletionRecords(cfg, s2, c, sub);
    s' := SelectsConsents(cfg, s3, c, sub);
  }

  lemma DeletionLocks(cfg: Config, s: State, c: string) returns (s': State)
    requires cfg.locking && Reaches(cfg, s) && 2 !in s.txns
    requires forall t, k | t in s.txns && k in s.txns[t].keys :: cfg.hash(k) != cfg.hash(KeyOf(ClientScope(c)))
    ensures Reaches(cfg, s') && s' == With(s, 2, HoldingClientKey(c)).(clock := s.clock + 1)
  {
    DeletionStatements(cfg, c);
    s' := LocksFirst(cfg, s, 2, DeleteClient(c, WINDOW), KeyOf(ClientScope(c)), Exclusive);
  }

  function HoldingClientKey(c: string): Txn {
    Started(DeleteClient(c, WINDOW)).(pc := 1, keys := map[KeyOf(ClientScope(c)) := Exclusive])
  }

  lemma DeletionRecords(cfg: Config, s: State, c: string, sub: string) returns (s': State)
    requires cfg.locking && c != "" && Reaches(cfg, s) && 2 in s.txns && s.txns[2] == HoldingClientKey(c)
    requires BarrierId(ClientScope(c)) !in s.db
    requires forall t | t in s.txns :: BarrierId(ClientScope(c)) !in s.txns[t].rows
    ensures Reaches(cfg, s') && s'.db == s.db && s'.txns.Keys == s.txns.Keys
    ensures s'.txns[2].scan.None?
    ensures AtConsents(s'.txns[2].(scan := Some(map[CONSENT_ID := ConsentRow(c, sub)])), c, sub)
    ensures s'.txns[2].dels == {} && s'.txns[2].puts.Keys == {BarrierId(ClientScope(c))}
    ensures forall t | t in s.txns && t != 2 :: s'.txns[t] == s.txns[t]
  {
    DeletionStatements(cfg, c);
    s' := RecordsFirst(cfg, s, 2, ClientScope(c), WINDOW);
  }

  function WithBarrier(s: State, u: Txn, scope: Scope, w: Window): Txn {
    var id := BarrierId(scope);
    u.(pc := u.pc + 1, rows := u.rows + {id}, puts := u.puts[id := RowOf(Merge(None, scope, w), s.clock)],
      dels := u.dels - {id})
  }

  lemma FirstBarrier(cfg: Config, s: State, t: nat, scope: Scope, w: Window)
    requires t in s.txns && NonEmpty(scope) && RowFree(s, t, BarrierId(scope))
    requires BarrierId(scope) !in View(s.db, s.txns[t])
    ensures ExecStmt(cfg, s, t, RecordBarrier(scope, w), WithBarrier(s, s.txns[t], scope, w))
  {
  }

  /** A first barrier for a scope. */
  lemma RecordsFirst(cfg: Config, s: State, t: nat, scope: Scope, w: Window) returns (s': State)
    requires Reaches(cfg, s) && Runs(cfg, s, t) && Current(cfg, s, t) == RecordBarrier(scope, w) && NonEmpty(scope)
    requires RowFree(s, t, BarrierId(scope)) && BarrierId(scope) !in View(s.db, s.txns[t])
    ensures s' == With(s, t, WithBarrier(s, s.txns[t], scope, w)).(clock := s.clock + 1) && Reaches(cfg, s')
  {
    FirstBarrier(cfg, s, t, scope, w);
    s' := Execs(cfg, s, t, WithBarrier(s, s.txns[t], scope, w));
  }

  lemma OnlyTheConsent(view: Db, c: string, sub: string)
    requires view.Keys == {CONSENT_ID, BarrierId(ClientScope(c))} && view[CONSENT_ID] == ConsentRow(c, sub)
    ensures Selected(view, ByClient(Consents, c)) == map[CONSENT_ID := ConsentRow(c, sub)]
  {
  }

  lemma SelectsConsents(cfg: Config, s: State, c: string, sub: string) returns (s': State)
    requires cfg.locking && Reaches(cfg, s) && 2 in s.txns && s.db == map[CONSENT_ID := ConsentRow(c, sub)]
    requires s.txns[2].scan.None? && AtConsents(s.txns[2].(scan := Some(map[CONSENT_ID := ConsentRow(c, sub)])), c, sub)
    requires s.txns[2].dels == {} && s.txns[2].puts.Keys == {BarrierId(ClientScope(c))}
    ensures Reaches(cfg, s') && s' == With(s, 2, s.txns[2].(scan := Some(map[CONSENT_ID := ConsentRow(c, sub)])))
  {
    DeletionStatements(cfg, c);
    var all := map[CONSENT_ID := ConsentRow(c, sub)];
    assert View(s.db, s.txns[2]).Keys == {CONSENT_ID, BarrierId(ClientScope(c))};
    OnlyTheConsent(View(s.db, s.txns[2]), c, sub);
    s' := With(s, 2, s.txns[2].(scan := Some(all)));
    ReachStep(cfg, s, ScanStart(2, all), s');
  }

  /** With the consent key before the client key, and any hash that keeps the two apart, a write, a
  deletion of its client and a withdrawal of its consent wait for one another. */
  lemma TriangleDeadlocks(cfg: Config, c: string, sub: string)
    requires cfg.locking && !cfg.keyOrder.ClientBeforeConsent() && c != ""
    requires cfg.hash(KeyOf(ConsentScope(c, sub))) != cfg.hash(KeyOf(ClientScope(c)))
    ensures exists s | Reaches(cfg, s) :: Cycle(cfg, s, [1, 2, 3])
  {
    var s1 := ConsentCommitted(cfg, c, sub);
    var s2 := ConsentClaimed(cfg, s1, c, sub);
    var s3 := WriterLocksConsent(cfg, s2, c, sub);
    assert s3.txns.Keys == {0, 1, 3};
    var s4 := DeletionReachesConsents(cfg, s3, c, sub);
    assert s4.txns.Keys >= {1, 2, 3};
    InACircle(cfg, s4, c, sub);
  }

  lemma InACircle(cfg: Config, s: State, c: string, sub: string)
    requires cfg.locking && !cfg.keyOrder.ClientBeforeConsent() && s.txns.Keys >= {1, 2, 3}
    requires s.txns[1] == HoldingConsentKey(c, sub) && AtConsents(s.txns[2], c, sub) && s.txns[3] == ClaimedBy(c, sub)
    ensures Cycle(cfg, s, [1, 2, 3])
  {
    var client, consent := KeyOf(ClientScope(c)), KeyOf(ConsentScope(c, sub));
    WriterStatements(cfg, c, sub);
    assert client in s.txns[2].keys && consent in s.txns[1].keys;
    assert Blocked(cfg, s, 1, KeyRes(client), 2);
    DeletionWaits(cfg, s, c, sub);
    assert Program(cfg, ClaimedBy(c, sub).op, ClaimedBy(c, sub).bound)[1] == Lock(consent, Exclusive);
    assert Blocked(cfg, s, 3, KeyRes(consent), 1);
    var ts := [1, 2, 3];
    assert WaitsFor(cfg, s, ts[0], ts[1]) && WaitsFor(cfg, s, ts[1], ts[2]) && WaitsFor(cfg, s, ts[2], ts[0]);
  }

  lemma DeletionWaits(cfg: Config, s: State, c: string, sub: string)
    requires cfg.locking && s.txns.Keys >= {2, 3} && AtConsents(s.txns[2], c, sub) && s.txns[3] == ClaimedBy(c, sub)
    ensures WaitsFor(cfg, s, 2, 3)
  {
    DeletionStatements(cfg, c);
    assert Blocked(cfg, s, 2, RowRes(CONSENT_ID), 3);
  }

  /** Colliding keys close a cycle in every key order: a withdrawal that has claimed its consent waits for
  a pair key that hashes like the client key, which the deletion holds while it waits for the consent. */
  lemma CollisionDeadlocks(cfg: Config, c: string, sub: string)
    requires cfg.locking && c != "" && cfg.hash(KeyOf(ConsentScope(c, sub))) == cfg.hash(KeyOf(ClientScope(c)))
    ensures exists s | Reaches(cfg, s) :: Cycle(cfg, s, [2, 3])
  {
    var s1 := ConsentCommitted(cfg, c, sub);
    var s2 := ConsentClaimed(cfg, s1, c, sub);
    assert s2.txns.Keys == {0, 3};
    var s3 := DeletionReachesConsents(cfg, s2, c, sub);
    assert s3.txns.Keys >= {2, 3};
    TwoInACircle(cfg, s3, c, sub);
  }

  lemma TwoInACircle(cfg: Config, s: State, c: string, sub: string)
    requires cfg.locking && cfg.hash(KeyOf(ConsentScope(c, sub))) == cfg.hash(KeyOf(ClientScope(c)))
    requires s.txns.Keys >= {2, 3} && AtConsents(s.txns[2], c, sub) && s.txns[3] == ClaimedBy(c, sub)
    ensures Cycle(cfg, s, [2, 3])
  {
    var client, consent := KeyOf(ClientScope(c)), KeyOf(ConsentScope(c, sub));
    DeletionWaits(cfg, s, c, sub);
    assert Program(cfg, ClaimedBy(c, sub).op, ClaimedBy(c, sub).bound)[1] == Lock(consent, Exclusive);
    assert client in s.txns[2].keys;
    assert Blocked(cfg, s, 3, KeyRes(consent), 2);
    var ts := [2, 3];
    assert WaitsFor(cfg, s, ts[0], ts[1]) && WaitsFor(cfg, s, ts[1], ts[0]);
  }

  /** So the order with the consent key before the client key deadlocks whatever the hash is. */
  lemma ConsentFirstDeadlocks(cfg: Config)
    requires cfg.locking && !cfg.keyOrder.ClientBeforeConsent()
    ensures exists s, ts | Reaches(cfg, s) :: Cycle(cfg, s, ts)
  {
    if cfg.hash(KeyOf(ConsentScope("c", "s"))) == cfg.hash(KeyOf(ClientScope("c"))) {
      CollisionDeadlocks(cfg, "c", "s");
    } else {
      TriangleDeadlocks(cfg, "c", "s");
    }
  }
}
