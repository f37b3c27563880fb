/** One live consent for each client and subject.

A consent is written only by a swap that holds the lock of its pair while it reads the pair and writes
its record. The lock is what makes the absence of a consent mean something: there is no row to lock. */
module ConsentPairs {
  import opened Options
  import opened Records
  import opened Protocol
  import opened Invariant
  import opened NoResurrection
  import opened RowInvariant
  import opened Atomic
  import opened Commit
  import opened SingleUse

  predicate IsConsentOf(r: Record, c: string, s: string) { r.Consent? && r.client == c && r.subjectId == s }

  ghost predicate OnePerPair(store: Store) {
    forall a, b, c, s | a in store && b in store && IsConsentOf(store[a], c, s) && IsConsentOf(store[b], c, s) :: a == b
  }

  /** Consents are written through swaps only, and a widening keeps the identifier and the pair. */
  predicate ConsentOp(op: Operation) {
    match op
    case Put(r) => !r.Consent?
    case SwapConsent(Some(e), u) =>
      e.Consent? && u.Consent? && e.consentId == u.consentId && (e.client, e.subjectId) == (u.client, u.subjectId)
    case _ => true
  }

  ghost predicate ConsentRun(events: seq<Event>) {
    forall i | 0 <= i < |events| && events[i].Begin? :: ConsentOp(events[i].op)
  }

  function PairPred(r: Record): Pred
    requires r.Consent?
  {
    ByPair(Consents, r.client, r.subjectId)
  }

  /** What a consent swap knows, but for the rows written `since`: nothing before its read; while it reads,
  every consent of its pair is still ahead of it or has been found; what it has found is the newest; after
  a read that found nothing, there is none. */
  ghost predicate CreateOk(cfg: Config, db: Db, u: Txn, since: set<RowId>)
    requires Valid(u.op) && u.op.SwapConsent?
  {
    var p, i := PairPred(u.op.updatedConsent), ReadIndex(cfg, u.op);
    && u.dels == {} && (u.pc <= i ==> u.puts == map[])
    && (u.pc < i || (u.pc == i && u.scan.None?) ==> u.hits == map[])
    && (u.pc == i && u.scan.Some? && u.hits == map[] ==>
          forall id | id in db && Matches(p, id, db[id]) && id !in since ::
            id in u.scan.value && u.scan.value[id] == db[id])
    && (u.pc == i && u.scan.Some? && u.hits != map[] ==> u.scan.value == map[])
    && (forall id | id in u.hits :: Matches(p, id, u.hits[id]))
    && (forall id, other | id in u.hits && id !in since && other in db && Matches(p, other, db[other])
         && other !in since ::
          db[other].cols.granted <= u.hits[id].cols.granted)
    && (u.pc > i && u.op.expectedConsent.None? ==> forall id | id in db && Matches(p, id, db[id]) :: id in since)
  }

  ghost predicate PairOk(cfg: Config, db: Db, u: Txn) {
    u.outcome.Running? ==> Valid(u.op) && ConsentOp(u.op) && (u.op.SwapConsent? ==> CreateOk(cfg, db, u, {}))
  }

  /** The invariant behind the pairs: one consent for each, and every swap knows what its read found. */
  ghost predicate PairInv(cfg: Config, s: State) {
    && CommitInv(cfg, s) && OnePerPair(Abs(s.db))
    && forall t | t in s.txns :: PairOk(cfg, s.db, s.txns[t])
  }

  // ----- its own steps

  lemma SwapStatement(cfg: Config, op: Operation, bound: Option<(string, string)>, i: nat)
    requires Valid(op) && op.SwapConsent? && i < |Program(cfg, op, bound)|
    ensures var stmt, read := Program(cfg, op, bound)[i], ReadIndex(cfg, op);
            if i < read then stmt.Lock?
            else if i == read then stmt == Scan(PairPred(op.updatedConsent), LockNewest, false)
            else stmt == Upsert(op.updatedConsent)
  {
  }

  lemma ExecKeepsCreate(cfg: Config, s: State, t: nat, u': Txn, since: set<RowId>)
    requires Runs(cfg, s, t) && s.txns[t].op.SwapConsent? && ExecStmt(cfg, s, t, Current(cfg, s, t), u')
    requires CreateOk(cfg, s.db, s.txns[t], since) && s.txns[t].scan.None?
    ensures u'.op == s.txns[t].op && CreateOk(cfg, s.db, u', since)
  {
    var u := s.txns[t];
    SwapStatement(cfg, u.op, u.bound, u.pc);
    ExecKeepsOp(cfg, s, t, Current(cfg, s, t), u');
  }

  lemma StartKeepsCreate(cfg: Config, s: State, t: nat, snapshot: map<RowId, Row>, u': Txn, since: set<RowId>)
    requires Runs(cfg, s, t) && s.txns[t].op.SwapConsent?
    requires ScanStartStmt(s, t, Current(cfg, s, t), snapshot, u') && CreateOk(cfg, s.db, s.txns[t], since)
    ensures CreateOk(cfg, s.db, u', since)
  {
    var u := s.txns[t];
    SwapStatement(cfg, u.op, u.bound, u.pc);
    assert View(s.db, u) == s.db;
  }

  lemma RowKeepsCreate(cfg: Config, s: State, t: nat, id: RowId, u': Txn, since: set<RowId>)
    requires Runs(cfg, s, t) && s.txns[t].op.SwapConsent?
    requires ScanRowStmt(cfg, s, t, Current(cfg, s, t), id, u') && CreateOk(cfg, s.db, s.txns[t], since)
    ensures CreateOk(cfg, s.db, u', since)
  {
    var u := s.txns[t];
    SwapStatement(cfg, u.op, u.bound, u.pc);
    assert View(s.db, u) == s.db;
    assert u.hits == map[];
    if u'.hits != u.hits { assert u'.hits.Keys == {id} && u'.hits[id] == s.db[id]; }
  }

  lemma EndKeepsCreate(cfg: Config, s: State, t: nat, u': Txn, since: set<RowId>)
    requires Runs(cfg, s, t) && s.txns[t].op.SwapConsent? && Current(cfg, s, t).Scan?
    requires ScanEndStmt(s.txns[t], u') && CreateOk(cfg, s.db, s.txns[t], since)
    ensures u'.outcome.Running? ==> CreateOk(cfg, s.db, u', since)
  {
    var u := s.txns[t];
    SwapStatement(cfg, u.op, u.bound, u.pc);
  }

  lemma ScanStepKeepsCreate(cfg: Config, s: State, e: Event, s': State, since: set<RowId>)
    requires Step(cfg, s, e, s') && (e.ScanStart? || e.ScanRow? || e.ScanEnd?) && s.txns[e.t].op.SwapConsent?
    requires CreateOk(cfg, s.db, s.txns[e.t], since) && s'.txns[e.t].outcome.Running?
    ensures Valid(s'.txns[e.t].op) && s'.txns[e.t].op.SwapConsent? && CreateOk(cfg, s.db, s'.txns[e.t], since)
  {
    var t, u' := e.t, s'.txns[e.t];
    match e {
      case ScanStart(_, snapshot) => StartKeepsCreate(cfg, s, t, snapshot, u', since);
      case ScanRow(_, id) => RowKeepsCreate(cfg, s, t, id, u', since);
      case ScanEnd(_) => EndKeepsCreate(cfg, s, t, u', since);
    }
  }

  lemma OwnStepKeepsCreate(cfg: Config, s: State, e: Event, s': State, since: set<RowId>)
    requires Step(cfg, s, e, s') && !e.Begin? && s.txns[e.t].op.SwapConsent? && s'.txns[e.t].outcome.Running?
    requires s.txns[e.t].outcome.Running? && RowsOk(cfg, s.db, s.txns[e.t]) && CreateOk(cfg, s.db, s.txns[e.t], since)
    ensures Valid(s'.txns[e.t].op) && s'.txns[e.t].op.SwapConsent? && CreateOk(cfg, s.db, s'.txns[e.t], since)
  {
    if e.Exec? {
      NoScanHere(cfg, s, e.t, s'.txns[e.t]);
      ExecKeepsCreate(cfg, s, e.t, s'.txns[e.t], since);
    } else {
      assert e.ScanStart? || e.ScanRow? || e.ScanEnd?;
      ScanStepKeepsCreate(cfg, s, e, s', since);
    }
  }

  lemma OwnStepKeepsPair(cfg: Config, s: State, e: Event, s': State)
    requires PairInv(cfg, s) && Step(cfg, s, e, s') && !e.Begin?
    ensures PairOk(cfg, s.db, s'.txns[e.t])
  {
    assert PairOk(cfg, s.db, s.txns[e.t]) && RowsOk(cfg, s.db, s.txns[e.t]);
    StepKeepsOp(cfg, s, e, s');
    if s.txns[e.t].op.SwapConsent? && s'.txns[e.t].outcome.Running? {
      OwnStepKeepsCreate(cfg, s, e, s', {});
    }
  }

  lemma NoScanHere(cfg: Config, s: State, t: nat, u': Txn)
    requires Runs(cfg, s, t) && RowsOk(cfg, s.db, s.txns[t]) && ExecStmt(cfg, s, t, Current(cfg, s, t), u')
    ensures s.txns[t].scan.None?
  {
  }

  // ----- somebody else commits

  lemma {:induction false} EffectsKeys(db: Db, before: seq<Stmt>, id: RowId)
    requires id in Effects(db, before) && id.Keyed?
    ensures exists stmt | stmt in before :: stmt.Upsert? && IdOf(stmt.rec) == id && stmt.rec == Effects(db, before)[id]
  {
    var n := |before| - 1;
    var stmt := before[n];
    assert stmt in before;
    if !(stmt.Upsert? && IdOf(stmt.rec) == id) {
      EffectsKeys(db, before[..n], id);
    }
  }

  lemma ConsentUpserts(cfg: Config, op: Operation, bound: Option<(string, string)>, r: Record)
    requires Valid(op) && ConsentOp(op) && r.Consent? && Upsert(r) in Program(cfg, op, bound)
    ensures op.SwapConsent? && op.updatedConsent == r
  {
    if Removes(op) {
      RemoverProgram(cfg, op, bound);
    }
  }

  /** Whoever is about to write a consent is a consent swap and writes its own record. */
  lemma ConsentWriter(cfg: Config, db: Db, u: Txn, id: RowId)
    requires u.outcome.Running? && RowsOk(cfg, db, u) && ConsentOp(u.op)
    requires id in u.puts && id.Keyed? && u.puts[id].payload.Consent?
    ensures u.op.SwapConsent? && u.puts[id].payload == u.op.updatedConsent
  {
    if !u.op.Swap? && !u.op.Claim? {
      ConsentEffects(cfg, db, u, Program(cfg, u.op, u.bound), id);
    }
  }

  lemma ConsentEffects(cfg: Config, db: Db, u: Txn, prog: seq<Stmt>, id: RowId)
    requires Valid(u.op) && prog == Program(cfg, u.op, u.bound) && RowInv(prog, db, u) && ConsentOp(u.op)
    requires !u.op.Swap? && !u.op.Claim? && id in u.puts && id.Keyed? && u.puts[id].payload.Consent?
    ensures u.op.SwapConsent? && u.puts[id].payload == u.op.updatedConsent
  {
    PlainProgram(cfg, u.op, u.bound);
    assert id in Payloads(u.puts);
    EffectsKeys(db, prog[..u.pc], id);
    var stmt :| stmt in prog[..u.pc] && stmt.Upsert? && stmt.rec == u.puts[id].payload;
    assert stmt in prog;
    ConsentUpserts(cfg, u.op, u.bound, stmt.rec);
  }

  lemma PlainProgram(cfg: Config, op: Operation, bound: Option<(string, string)>)
    requires Valid(op) && !op.Swap? && !op.Claim?
    ensures forall stmt | stmt in Program(cfg, op, bound) :: IsPlain(stmt)
  {
    if Removes(op) { RemoverProgram(cfg, op, bound); }
  }

  lemma HoldsPair(cfg: Config, db: Db, u: Txn)
    requires cfg.locking && u.outcome.Running? && RunningOk(cfg, db, u) && u.op.SwapConsent?
    requires u.pc >= ReadIndex(cfg, u.op)
    ensures var key := CasKey(u.op.updatedConsent.client, u.op.updatedConsent.subjectId);
            key in u.keys && u.keys[key] == Exclusive
  {
    var lock := Lock(CasKey(u.op.updatedConsent.client, u.op.updatedConsent.subjectId), Exclusive);
    var prog := Program(cfg, u.op, u.bound);
    assert prog[0] == lock && lock in prog[..u.pc];
    assert Done(db, u.keys, u.dels, lock);
  }

  /** Two swaps of one pair do not run past their lock together. */
  lemma PairsExclude(cfg: Config, s: State, t1: nat, t2: nat)
    requires cfg.locking && Inv(cfg, s) && t1 in s.txns && t2 in s.txns && t1 != t2
    requires s.txns[t1].outcome.Running? && s.txns[t2].outcome.Running?
    requires s.txns[t1].op.SwapConsent? && s.txns[t2].op.SwapConsent? && Valid(s.txns[t1].op) && Valid(s.txns[t2].op)
    requires s.txns[t1].pc >= ReadIndex(cfg, s.txns[t1].op) && s.txns[t2].pc >= ReadIndex(cfg, s.txns[t2].op)
    ensures PairPred(s.txns[t1].op.updatedConsent) != PairPred(s.txns[t2].op.updatedConsent)
  {
    assert RunningOk(cfg, s.db, s.txns[t1]) && RunningOk(cfg, s.db, s.txns[t2]);
    HoldsPair(cfg, s.db, s.txns[t1]);
    HoldsPair(cfg, s.db, s.txns[t2]);
    var a, b := s.txns[t1].op.updatedConsent, s.txns[t2].op.updatedConsent;
    if PairPred(a) == PairPred(b) { NoConflict(cfg, s, t1, t2, CasKey(a.client, a.subjectId)); }
  }

  lemma ConsentPut(cfg: Config, db: Db, w: Txn, id: RowId)
    requires Finished(cfg, w) && RowsOk(cfg, db, w) && RunningOk(cfg, db, w) && ConsentOp(w.op)
    requires id in w.puts && id.Table() == Consents
    ensures w.op.SwapConsent? && w.puts[id].payload == w.op.updatedConsent && w.pc >= ReadIndex(cfg, w.op)
    ensures w.puts[id].cols == Project(w.puts[id].payload)
  {
    PutIsConsent(Program(cfg, w.op, w.bound), w, id);
    ConsentWriter(cfg, db, w, id);
    ConsentLength(cfg, w.op, w.bound);
  }

  /** A commit brings no consent into a pair that another swap is working on. */
  lemma NoIntruder(cfg: Config, s: State, v: nat, t: nat, id: RowId)
    requires cfg.locking && PairInv(cfg, s) && v in s.txns && t in s.txns && v != t && Finished(cfg, s.txns[v])
    requires s.txns[t].outcome.Running? && s.txns[t].op.SwapConsent? && Valid(s.txns[t].op)
    requires s.txns[t].pc >= ReadIndex(cfg, s.txns[t].op) && id in s.txns[v].puts
    ensures !Matches(PairPred(s.txns[t].op.updatedConsent), id, s.txns[v].puts[id])
  {
    var w := s.txns[v];
    if id.Table() == Consents {
      assert RowsOk(cfg, s.db, w) && RunningOk(cfg, s.db, w) && PairOk(cfg, s.db, w);
      ConsentPut(cfg, s.db, w, id);
      PairsExclude(cfg, s, v, t);
    }
  }

  lemma ConsentLength(cfg: Config, op: Operation, bound: Option<(string, string)>)
    requires Valid(op) && op.SwapConsent?
    ensures |Program(cfg, op, bound)| > ReadIndex(cfg, op)
  {
  }

  lemma PutIsConsent(prog: seq<Stmt>, u: Txn, id: RowId)
    requires id in u.puts && id.Table() == Consents && u.pc <= |prog| && PutsOk(prog[..u.pc], u.puts)
    ensures id.Keyed? && u.puts[id].payload.Consent? && u.puts[id].cols == Project(u.puts[id].payload)
  {
    assert PutOk(prog[..u.pc], id, u.puts[id]);
  }

  lemma OtherCommitKeepsPair(cfg: Config, s: State, v: nat, t: nat)
    requires cfg.locking && PairInv(cfg, s) && v in s.txns && t in s.txns && v != t && Finished(cfg, s.txns[v])
    ensures PairOk(cfg, Published(s.db, s.txns[v]), s.txns[t])
  {
    var u := s.txns[t];
    assert PairOk(cfg, s.db, u);
    if u.outcome.Running? && u.op.SwapConsent? && u.pc >= ReadIndex(cfg, u.op) {
      forall id | id in s.txns[v].puts ensures !Matches(PairPred(u.op.updatedConsent), id, s.txns[v].puts[id]) {
        NoIntruder(cfg, s, v, t, id);
      }
      CommitKeepsCreate(cfg, s.db, u, s.txns[v]);
    }
  }

  lemma CommitKeepsCreate(cfg: Config, db: Db, u: Txn, v: Txn)
    requires Valid(u.op) && u.op.SwapConsent? && CreateOk(cfg, db, u, {})
    requires forall id | id in v.puts :: !Matches(PairPred(u.op.updatedConsent), id, v.puts[id])
    ensures CreateOk(cfg, Published(db, v), u, {})
  {
    var db', p := Published(db, v), PairPred(u.op.updatedConsent);
    assert forall id | id in db' && Matches(p, id, db'[id]) :: id in db && db'[id] == db[id];
  }

  // ----- commits keep the pairs

  lemma CreateKeepsPairs(store: Store, r: Record)
    requires r.Consent? && OnePerPair(store)
    requires forall id | id in store :: !IsConsentOf(store[id], r.client, r.subjectId) || id == IdOf(r)
    ensures OnePerPair(store[IdOf(r) := r])
  {
  }

  lemma QuietKeepsPairs(db: Db, u: Txn)
    requires OnePerPair(Abs(db)) && forall id | id in u.puts :: !u.puts[id].payload.Consent?
    ensures OnePerPair(Abs(Published(db, u)))
  {
    var store, after := Abs(db), Abs(Published(db, u));
    forall id | id in after && after[id].Consent? ensures id in store && store[id] == after[id] {
    }
  }

  lemma PairIsFree(cfg: Config, s: State, t: nat, e: Option<Record>, r: Record)
    requires PairInv(cfg, s) && t in s.txns && Finished(cfg, s.txns[t]) && s.txns[t].op == SwapConsent(e, r)
    requires e.Some? ==> Stored(s.db, IdOf(e.value)) == e
    ensures forall id | id in s.db :: !IsConsentOf(s.db[id].payload, r.client, r.subjectId) || id == IdOf(r)
  {
    var u, store := s.txns[t], Abs(s.db);
    assert PairOk(cfg, s.db, u);
    ConsentLength(cfg, u.op, u.bound);
    forall id | id in s.db && IsConsentOf(s.db[id].payload, r.client, r.subjectId) ensures id == IdOf(r) {
      if e.Some? {
        assert IsConsentOf(store[IdOf(e.value)], r.client, r.subjectId)
          && IsConsentOf(store[id], r.client, r.subjectId);
      } else {
        PairMatches(s.db, id, r);
      }
    }
  }

  lemma PairMatches(db: Db, id: RowId, r: Record)
    requires ColumnsAgree(db) && id in db && r.Consent? && IsConsentOf(db[id].payload, r.client, r.subjectId)
    ensures Matches(PairPred(r), id, db[id])
  {
    assert IdOf(db[id].payload) == id;
  }

  lemma CommitKeepsPairs(cfg: Config, s: State, t: nat)
    requires cfg.locking && PairInv(cfg, s) && t in s.txns && Finished(cfg, s.txns[t])
    ensures OnePerPair(Abs(Published(s.db, s.txns[t])))
  {
    var u := s.txns[t];
    assert RowsOk(cfg, s.db, u) && RunningOk(cfg, s.db, u) && PairOk(cfg, s.db, u);
    if u.op.SwapConsent? {
      var e, r := u.op.expectedConsent, u.op.updatedConsent;
      CommitSwapConsent(cfg, s, t, e, r);
      PairIsFree(cfg, s, t, e, r);
      CreateKeepsPairs(Abs(s.db), r);
    } else {
      forall id | id in u.puts ensures !u.puts[id].payload.Consent? {
        if u.puts[id].payload.Consent? {
          KeyedPut(Program(cfg, u.op, u.bound), u, id);
          ConsentWriter(cfg, s.db, u, id);
        }
      }
      QuietKeepsPairs(s.db, u);
    }
  }

  lemma KeyedPut(prog: seq<Stmt>, u: Txn, id: RowId)
    requires id in u.puts && u.pc <= |prog| && PutsOk(prog[..u.pc], u.puts) && u.puts[id].payload.Consent?
    ensures id.Keyed?
  {
    assert PutOk(prog[..u.pc], id, u.puts[id]);
  }

  lemma StepKeepsPairInv(cfg: Config, s: State, e: Event, s': State)
    requires cfg.locking && PairInv(cfg, s) && Step(cfg, s, e, s') && (e.Begin? ==> ConsentOp(e.op))
    ensures PairInv(cfg, s')
  {
    StepKeepsCommitInv(cfg, s, e, s');
    StepIsFramed(cfg, s, e, s');
    if e.Publish? { CommitKeepsPairs(cfg, s, e.t); }
    forall t | t in s'.txns ensures PairOk(cfg, s'.db, s'.txns[t]) { StepKeepsPairOk(cfg, s, e, s', t); }
  }

  lemma StepKeepsPairOk(cfg: Config, s: State, e: Event, s': State, t: nat)
    requires cfg.locking && PairInv(cfg, s) && Step(cfg, s, e, s') && (e.Begin? ==> ConsentOp(e.op)) && t in s'.txns
    ensures PairOk(cfg, s'.db, s'.txns[t])
  {
    if t != e.t {
      assert PairOk(cfg, s.db, s.txns[t]);
      if e.Publish? { OtherCommitKeepsPair(cfg, s, e.t, t); }
    } else if !e.Begin? && !e.Publish? {
      OwnStepKeepsPair(cfg, s, e, s');
    }
  }

  lemma {:induction false} RunKeepsPairInv(cfg: Config, states: seq<State>, events: seq<Event>, n: nat)
    requires cfg.locking && Run(cfg, states, events) && ConsentRun(events) && n < |states|
    ensures PairInv(cfg, states[n])
  {
    if n == 0 {
      InitInv(cfg);
    } else {
      RunKeepsPairInv(cfg, states, events, n - 1);
      assert StepAt(cfg, states, events, n - 1);
      StepKeepsPairInv(cfg, states[n - 1], events[n - 1], states[n]);
    }
  }

  /** In every state of every such run a client and a subject share at most one consent. */
  lemma OneConsentPerPair(cfg: Config, states: seq<State>, events: seq<Event>, n: nat, a: RowId, b: RowId, c: string,
                          s: string)
    requires cfg.locking && Run(cfg, states, events) && ConsentRun(events) && n < |states|
    requires a in states[n].db && b in states[n].db
    requires IsConsentOf(states[n].db[a].payload, c, s) && IsConsentOf(states[n].db[b].payload, c, s)
    ensures a == b
  {
    RunKeepsPairInv(cfg, states, events, n);
    var store := Abs(states[n].db);
    assert IsConsentOf(store[a], c, s) && IsConsentOf(store[b], c, s);
  }

  lemma EmptyPair(cfg: Config, s: State, t: nat, r: Record)
    requires PairInv(cfg, s) && t in s.txns && Finished(cfg, s.txns[t]) && s.txns[t].op == SwapConsent(None, r)
    ensures r.Consent? && forall id | id in s.db :: !IsConsentOf(s.db[id].payload, r.client, r.subjectId)
  {
    assert PairOk(cfg, s.db, s.txns[t]);
    ConsentLength(cfg, s.txns[t].op, s.txns[t].bound);
    assert forall id | id in s.db :: !Matches(PairPred(r), id, s.db[id]);
    forall id | id in s.db ensures !IsConsentOf(s.db[id].payload, r.client, r.subjectId) {
      if IsConsentOf(s.db[id].payload, r.client, r.subjectId) { PairMatches(s.db, id, r); }
    }
  }

  /** A swap that creates a consent commits only while its pair has none at all, under any identifier. */
  lemma CreationFindsEmptyPair(cfg: Config, states: seq<State>, events: seq<Event>, i: nat, r: Record)
    requires cfg.locking && Run(cfg, states, events) && ConsentRun(events) && i < |events| && events[i].Publish?
    requires events[i].t in states[i].txns && states[i].txns[events[i].t].op == SwapConsent(None, r)
    ensures r.Consent?
    ensures forall id | id in states[i].db :: !IsConsentOf(states[i].db[id].payload, r.client, r.subjectId)
    ensures Abs(states[i + 1].db) == Abs(states[i].db)[IdOf(r) := r]
  {
    CommitStep(cfg, states, events, i);
    assert StepAt(cfg, states, events, i);
    RunKeepsPairInv(cfg, states, events, i);
    CommitSwapConsent(cfg, states[i], events[i].t, None, r);
    EmptyPair(cfg, states[i], events[i].t, r);
  }

  // ----- a withdrawn consent

  /** If the step writes the consent, it is a widening of that consent. */
  predicate Widens(s: State, ev: Event, id: RowId) {
    ev.Publish? && ev.t in s.txns && id in s.txns[ev.t].puts ==>
      var op := s.txns[ev.t].op;
      op.SwapConsent? && op.expectedConsent.Some? && IdOf(op.expectedConsent.value) == id
        && IdOf(op.updatedConsent) == id
  }

  lemma WidenNeedsConsent(cfg: Config, states: seq<State>, events: seq<Event>, k: nat, id: RowId)
    requires cfg.locking && Run(cfg, states, events) && k < |events| && Widens(states[k], events[k], id)
    requires id !in states[k].db
    ensures id !in states[k + 1].db
  {
    assert StepAt(cfg, states, events, k);
    if events[k].Publish? && id in states[k].txns[events[k].t].puts {
      CommitStep(cfg, states, events, k);
      var op := states[k].txns[events[k].t].op;
      CommitSwapConsent(cfg, states[k], events[k].t, op.expectedConsent, op.updatedConsent);
    }
  }

  /** Once a consent is gone, no widening computed from it brings it back, however long ago it was read. */
  lemma {:induction false} WithdrawnStaysGone(cfg: Config, states: seq<State>, events: seq<Event>, i: nat, n: nat,
                                              id: RowId)
    requires cfg.locking && Run(cfg, states, events) && i <= n < |states| && id !in states[i].db
    requires forall k | i <= k < n :: Widens(states[k], events[k], id)
    ensures id !in states[n].db
  {
    if i < n {
      WithdrawnStaysGone(cfg, states, events, i, n - 1, id);
      WidenNeedsConsent(cfg, states, events, n - 1, id);
    }
  }
}
