/** No operation is refused without a reason that the records show.

An operation ends before its commit in four ways: a barrier covers its write, its barrier would name nobody,
its user code belongs to another grant, or its read finds something else than the caller expected. */
module Refusals {
  import opened Options
  import opened Time
  import opened UserCodes
  import opened Records
  import opened Protocol
  import opened Discipline
  import opened Invariant
  import opened NoResurrection
  import opened RowInvariant
  import opened Atomic
  import opened Commit
  import opened CodeWaits
  import opened ConsentPairs
  import opened BarrierRuns
  import opened ByFields
  import opened Misses
  import opened Widenings

  // ----- when an operation can go through

  /** Another grant has a code that differs from this one in separators and in case at most. */
  ghost predicate CodeTaken(store: Store, r: Record)
    requires r.DeviceGrant?
  {
    exists id | id in store && id != Keyed(DeviceGrants, r.deviceCode) ::
      store[id].DeviceGrant? && SameEntry(store[id].userCode, r.userCode)
  }

  /** The record under the key is in the state the swap expects. */
  predicate InState(store: Store, id: RowId, e: Expected) {
    id in store && match e
                   case Whole(x) => store[id] == x
                   case OfDevice(s) => store[id].DeviceGrant? && store[id].deviceState == s
                   case OfCode(c) => store[id].Code? && store[id].codeState == c
  }

  /** The consent stands in the pair, and none of the pair is newer; if `strict`, none is as new either. */
  predicate Newest(store: Store, e: Record, c: string, s: string, strict: bool)
    requires e.Consent?
  {
    var id := Keyed(Consents, e.consentId);
    && id in store && store[id] == e && e.client == c && e.subjectId == s
    && forall other | other in store && other != id && store[other].Consent?
                      && store[other].client == c && store[other].subjectId == s ::
         if strict then ToNanos(store[other].grantedAt) < ToNanos(e.grantedAt)
         else ToNanos(store[other].grantedAt) <= ToNanos(e.grantedAt)
  }

  /** What an operation needs of the records to commit. Of two equally new consents a widening may find
  either, so there it has to be the only newest one to be certain. */
  ghost predicate Admits(op: Operation, store: Store, strict: bool)
    requires Valid(op)
  {
    match op
    case PutGuarded(r) => !Barred(store, r)
    case Rotate(e, _, _, _) =>
      Keyed(RefreshTokens, e.token) in store && store[Keyed(RefreshTokens, e.token)] == e && !Barred(store, e)
    case DeleteClient(c, _) => c != ""
    case RevokeFamily(f, _) => f != ""
    case RevokeConsent(id, _) =>
      var key := Keyed(Consents, id);
      key in store && store[key].Consent? ==> store[key].client != "" && store[key].subjectId != ""
    case Put(r) => r.DeviceGrant? ==> !CodeTaken(store, r)
    case Swap(e, r) => r.DeviceGrant? && InState(store, Keyed(DeviceGrants, r.deviceCode), e) ==> !CodeTaken(store, r)
    case SwapConsent(Some(e), r) => Newest(store, e, r.client, r.subjectId, strict)
    case SwapConsent(None, r) =>
      forall id | id in store && store[id].Consent? ::
        store[id].client != r.client || store[id].subjectId != r.subjectId
    case _ => true
  }

  // ----- refused by a statement

  lemma RollbackStatement(cfg: Config, s: State, t: nat, stmt: Stmt, u': Txn)
    requires t in s.txns && s.txns[t].outcome.Running? && ExecStmt(cfg, s, t, stmt, u') && u'.outcome.RolledBack?
    ensures var view := View(s.db, s.txns[t]);
            || (stmt.Check? && Covers(view, stmt.guard))
            || (stmt.RecordBarrier? && !NonEmpty(stmt.scope))
            || (&& (stmt.Upsert? || (stmt.Update? && IdOf(stmt.rec) in s.txns[t].hits)) && stmt.rec.DeviceGrant?
                && Taken(view, Normalize(stmt.rec.userCode), IdOf(stmt.rec)))
  {
  }

  lemma GuardedChecks(cfg: Config, g: Guard, rest: seq<Stmt>)
    requires forall stmt | stmt in rest :: !stmt.Check?
    ensures forall stmt | stmt in GuardLocks(cfg, g) + [Check(g)] + rest && stmt.Check? :: stmt.guard == g
  {
    assert forall stmt | stmt in GuardLocks(cfg, g) :: stmt.Lock?;
  }

  lemma OthersDoNotCheck(cfg: Config, op: Operation, bound: Option<(string, string)>)
    requires Valid(op) && !op.PutGuarded? && !op.Rotate?
    ensures forall stmt | stmt in Program(cfg, op, bound) :: !stmt.Check?
  {
    if Removes(op) { RemoverProgram(cfg, op, bound); }
  }

  lemma CheckStatement(cfg: Config, op: Operation, bound: Option<(string, string)>, stmt: Stmt)
    requires Valid(op) && stmt in Program(cfg, op, bound) && stmt.Check?
    ensures op.PutGuarded? || op.Rotate?
    ensures stmt.guard == if op.PutGuarded? then GuardOf(op.rec) else GuardOf(op.presented)
  {
    if op.PutGuarded? {
      PutProgram(cfg, op.rec, bound);
      GuardedChecks(cfg, GuardOf(op.rec), [Upsert(op.rec)]);
    } else if op.Rotate? {
      RotationProgram(cfg, op, bound);
      GuardedChecks(cfg, GuardOf(op.presented), RotationRead(op) + RotationWrites(op));
    } else {
      OthersDoNotCheck(cfg, op, bound);
    }
  }

  /** Before its check a transaction has changed nothing. */
  lemma NothingYet(prog: seq<Stmt>, db: Db, u: Txn)
    requires TxnInv(prog, db, u) && Disciplined(prog) && u.pc < |prog| && prog[u.pc].Check? && u.scan.None?
    ensures View(db, u) == db
  {
    assert Prepared(prog[..u.pc], prog[u.pc]);
    assert OnlyLocks(prog[..u.pc]);
    assert u.puts == map[] && u.dels == {};
  }

  lemma CheckRefusal(cfg: Config, s: State, t: nat)
    requires cfg.locking && Inv(cfg, s) && Runs(cfg, s, t) && Current(cfg, s, t).Check? && s.txns[t].scan.None?
    requires Covers(View(s.db, s.txns[t]), Current(cfg, s, t).guard)
    ensures !Admits(s.txns[t].op, Abs(s.db), true)
  {
    var u := s.txns[t];
    assert RunningOk(cfg, s.db, u);
    ProgramDisciplined(cfg, u.op, u.bound);
    NothingYet(Program(cfg, u.op, u.bound), s.db, u);
    CheckStatement(cfg, u.op, u.bound, Current(cfg, s, t));
    CoversIsRevoked(s.db, Current(cfg, s, t).guard);
    BarredIsRevoked(Abs(s.db), if u.op.PutGuarded? then u.op.rec else u.op.presented);
  }

  lemma BarrierRefusal(cfg: Config, s: State, t: nat)
    requires CommitInv(cfg, s) && Runs(cfg, s, t) && Current(cfg, s, t).RecordBarrier?
    requires !NonEmpty(Current(cfg, s, t).scope)
    ensures !Admits(s.txns[t].op, Abs(s.db), true)
  {
    var u, store := s.txns[t], Abs(s.db);
    assert RowsOk(cfg, s.db, u);
    assert Current(cfg, s, t) in Program(cfg, u.op, u.bound);
    ProgramRecords(cfg, u);
    if u.op.RevokeConsent? {
      PairOfConsent(cfg, s, t, u.op.consentId, u.op.window);
      assert Keyed(Consents, u.op.consentId) in store;
    }
  }

  lemma TakenCode(db: Db, r: Record)
    requires ColumnsAgree(db) && r.DeviceGrant? && Taken(db, Normalize(r.userCode), IdOf(r))
    ensures CodeTaken(Abs(db), r)
  {
    var other :| other in db && other != IdOf(r) && db[other].cols.userCode == Some(Normalize(r.userCode));
    assert db[other].cols == Project(db[other].payload);
    SameCodeIff(db[other].payload.userCode, r.userCode);
    assert other in Abs(db);
  }

  /** Before it writes, a device grant's writer has changed nothing. */
  lemma DeviceYet(cfg: Config, s: State, t: nat)
    requires CommitInv(cfg, s) && Runs(cfg, s, t) && IsWrite(Current(cfg, s, t)) && s.txns[t].scan.None?
    requires DeviceWrite(s.txns[t].op) == Some(Current(cfg, s, t).rec)
    requires Current(cfg, s, t).Upsert? || Current(cfg, s, t).Update?
    ensures View(s.db, s.txns[t]) == s.db
  {
    var u := s.txns[t];
    var prog := Program(cfg, u.op, u.bound);
    assert RowsOk(cfg, s.db, u);
    if u.op.Put? {
      assert prog == [Hold(IdOf(u.op.rec)), Upsert(u.op.rec)];
      NothingRemoved(prog, s.db, u);
      assert prog[..1] == [Hold(IdOf(u.op.rec))];
      HoldWritesNothing(s.db, u);
    }
  }

  lemma HoldWritesNothing(db: Db, u: Txn)
    requires u.op.Put? && Payloads(u.puts) == Effects(db, [Hold(IdOf(u.op.rec))])
    ensures u.puts == map[]
  {
    EffectsOne(db, Hold(IdOf(u.op.rec)));
    assert forall id | id in u.puts :: id in Payloads(u.puts);
  }

  lemma CodeRefusal(cfg: Config, s: State, t: nat)
    requires CommitInv(cfg, s) && Runs(cfg, s, t) && s.txns[t].scan.None?
    requires var stmt := Current(cfg, s, t);
             && (stmt.Upsert? || (stmt.Update? && IdOf(stmt.rec) in s.txns[t].hits)) && stmt.rec.DeviceGrant?
             && Taken(View(s.db, s.txns[t]), Normalize(stmt.rec.userCode), IdOf(stmt.rec))
    ensures !Admits(s.txns[t].op, Abs(s.db), true)
  {
    var u, stmt := s.txns[t], Current(cfg, s, t);
    DeviceStmt(cfg, u.op, u.bound, u.pc);
    DeviceYet(cfg, s, t);
    TakenCode(s.db, stmt.rec);
    if u.op.Swap? { FoundState(cfg, s, t); }
    TakenIsNotAdmitted(u.op, Abs(s.db), stmt.rec);
  }

  lemma TakenIsNotAdmitted(op: Operation, store: Store, r: Record)
    requires Valid(op) && DeviceWrite(op) == Some(r) && CodeTaken(store, r)
    requires op.Swap? ==> InState(store, IdOf(r), op.expected)
    ensures !Admits(op, store, true)
  {
  }

  /** A swap that goes on has found its record in the expected state. */
  lemma FoundState(cfg: Config, s: State, t: nat)
    requires CommitInv(cfg, s) && t in s.txns && s.txns[t].outcome.Running? && s.txns[t].op.Swap?
    requires s.txns[t].hits != map[]
    ensures InState(Abs(s.db), IdOf(s.txns[t].op.updated), s.txns[t].op.expected)
  {
    var u := s.txns[t];
    assert RowsOk(cfg, s.db, u);
    var id :| id in u.hits;
    assert s.db[id] == u.hits[id];
  }

  lemma ExecRefusal(cfg: Config, s: State, t: nat, u': Txn)
    requires cfg.locking && CommitInv(cfg, s) && Runs(cfg, s, t) && ExecStmt(cfg, s, t, Current(cfg, s, t), u')
    requires u'.outcome.RolledBack?
    ensures !Admits(s.txns[t].op, Abs(s.db), true)
  {
    var stmt := Current(cfg, s, t);
    assert RowsOk(cfg, s.db, s.txns[t]);
    NoScanHere(cfg, s, t, u');
    RollbackStatement(cfg, s, t, stmt, u');
    if stmt.Check? {
      CheckRefusal(cfg, s, t);
    } else if stmt.RecordBarrier? {
      BarrierRefusal(cfg, s, t);
    } else {
      CodeRefusal(cfg, s, t);
    }
  }

  // ----- refused at the read

  lemma NotAdmitted(db: Db, op: Operation)
    requires Valid(op) && ColumnsAgree(db)
    ensures op.Rotate? && Stored(db, IdOf(op.presented)) != Some(op.presented) ==> !Admits(op, Abs(db), true)
    ensures op.SwapConsent? && op.expectedConsent.Some?
            && !SoleNewest(db, op.expectedConsent.value, op.updatedConsent.client, op.updatedConsent.subjectId) ==>
              !Admits(op, Abs(db), true)
    ensures op.SwapConsent? && op.expectedConsent.None?
            && (exists id | id in db ::
                  IsConsentOf(db[id].payload, op.updatedConsent.client, op.updatedConsent.subjectId)) ==>
              !Admits(op, Abs(db), true)
  {
    var store := Abs(db);
    assert forall id | id in db :: id in store && store[id] == db[id].payload;
  }

  lemma ReadRefusal(cfg: Config, states: seq<State>, events: seq<Event>, b: nat, n: nat, t: nat, op: Operation)
      returns (k: nat)
    requires cfg.locking && Run(cfg, states, events) && b < n < |events| && events[b] == Begin(t, op)
    requires events[n].t == t && RefusesRead(states[n], events[n], states[n + 1])
    ensures b < k <= n && Valid(op) && !Admits(op, Abs(states[k].db), true)
  {
    assert StepAt(cfg, states, events, b) && StepAt(cfg, states, events, n);
    RefusedOperation(cfg, states, events, b, n, t, op);
    if op.Rotate? {
      RotationRefusalWasReal(cfg, states, events, b, n, t, op);
      k :| b < k <= n && Stored(states[k].db, IdOf(op.presented)) != Some(op.presented);
    } else if op.expectedConsent.Some? {
      var e, r := op.expectedConsent.value, op.updatedConsent;
      WideningRefusalWasReal(cfg, states, events, b, n, t, e, r);
      k :| b < k <= n && !SoleNewest(states[k].db, e, r.client, r.subjectId);
    } else {
      CreationRefusalWasReal(cfg, states, events, b, n, t, op.updatedConsent);
      k := n;
    }
    RunKeepsInv(cfg, states, events, k);
    NotAdmitted(states[k].db, op);
  }

  /** Only a rotation and a consent swap compare what they read. */
  lemma RefusedOperation(cfg: Config, states: seq<State>, events: seq<Event>, b: nat, n: nat, t: nat, op: Operation)
    requires Run(cfg, states, events) && b < n < |events| && events[b] == Begin(t, op)
    requires events[n].t == t && RefusesRead(states[n], events[n], states[n + 1])
    ensures states[n].txns[t].op == op && Valid(op) && (op.Rotate? || op.SwapConsent?)
  {
    assert StepAt(cfg, states, events, n) && StepAt(cfg, states, events, b);
    KeepsOp(cfg, states, events, b, n, t, op);
  }

  lemma {:induction false} KeepsOp(cfg: Config, states: seq<State>, events: seq<Event>, b: nat, n: nat, t: nat,
                                   op: Operation)
    requires Run(cfg, states, events) && b < n < |states| && events[b] == Begin(t, op)
    ensures t in states[n].txns && states[n].txns[t].op == op
  {
    assert StepAt(cfg, states, events, n - 1);
    StepIsFramed(cfg, states[n - 1], events[n - 1], states[n]);
    if n > b + 1 {
      KeepsOp(cfg, states, events, b, n - 1, t, op);
      if events[n - 1].t == t { StepKeepsOp(cfg, states[n - 1], events[n - 1], states[n]); }
    }
  }

  /** The step ends a running transaction without being asked to. */
  predicate Refuses(s: State, e: Event, s': State) {
    && !e.Abort? && e.t in s.txns && s.txns[e.t].outcome.Running?
    && e.t in s'.txns && s'.txns[e.t].outcome.RolledBack?
  }

  /** In every run, whatever is refused had a moment since its start at which the records did not admit it. */
  lemma RefusalHasReason(cfg: Config, states: seq<State>, events: seq<Event>, b: nat, n: nat, t: nat, op: Operation)
    requires cfg.locking && Run(cfg, states, events) && b < n < |events| && events[b] == Begin(t, op)
    requires events[n].t == t && Refuses(states[n], events[n], states[n + 1])
    ensures Valid(op) && exists k | b < k <= n :: !Admits(op, Abs(states[k].db), true)
  {
    assert StepAt(cfg, states, events, n) && StepAt(cfg, states, events, b);
    KeepsOp(cfg, states, events, b, n, t, op);
    if events[n].ScanEnd? {
      var k := ReadRefusal(cfg, states, events, b, n, t, op);
    } else {
      RunKeepsCommitInv(cfg, states, events, n);
      StatementRefusal(cfg, states[n], events[n], states[n + 1]);
    }
  }

  lemma StatementRefusal(cfg: Config, s: State, e: Event, s': State)
    requires cfg.locking && CommitInv(cfg, s) && Step(cfg, s, e, s') && Refuses(s, e, s') && !e.ScanEnd?
    ensures Valid(s.txns[e.t].op) && !Admits(s.txns[e.t].op, Abs(s.db), true)
  {
    OnlyStatementsRefuse(cfg, s, e, s');
    ExecRefusal(cfg, s, e.t, s'.txns[e.t]);
  }

  lemma OnlyStatementsRefuse(cfg: Config, s: State, e: Event, s': State)
    requires Step(cfg, s, e, s') && Refuses(s, e, s') && !e.ScanEnd?
    ensures e.Exec?
  {
  }
}
