/** The unique index on user codes, beside any number of transactions.

A write of a device grant waits while another transaction has touched the entry of its code, and fails
when a row it can see carries the code. In every state of every run no two committed grants answer to
one code. */
module CodeIndex {
  import opened Options
  import opened UserCodes
  import opened Records
  import opened Protocol
  import opened Invariant
  import opened NoResurrection
  import opened Atomic
  import opened Commit
  import opened StoreSpec

  predicate Carries(row: Row, code: string) { row.cols.userCode == Some(code) }

  /** No two rows carry one code. */
  ghost predicate RowsUnique(db: Db) {
    forall a, b, code | a in db && b in db && Carries(db[a], code) && Carries(db[b], code) :: a == b
  }

  /** Whoever has touched an entry holds the committed row that carries it. */
  ghost predicate EntriesHeld(db: Db, rows: set<RowId>, codes: set<string>) {
    forall id, code | id in db && code in codes && Carries(db[id], code) :: id in rows
  }

  /** What a transaction is about to write carries entries of its own, that nothing else it sees carries. */
  ghost predicate PutsIndexed(db: Db, u: Txn) {
    forall id, code | id in u.puts && Carries(u.puts[id], code) ::
      code in u.codes && !Taken(View(db, u), code, id)
  }

  ghost predicate CodesApart(s: State) {
    forall t1, t2 | t1 in s.txns && t2 in s.txns && t1 != t2 :: s.txns[t1].codes !! s.txns[t2].codes
  }

  ghost predicate IndexOf(db: Db, u: Txn) {
    EntriesHeld(db, u.rows, u.codes) && (u.outcome.Running? ==> PutsIndexed(db, u))
  }

  /** The invariant behind the index. */
  ghost predicate IndexInv(s: State) {
    && RowsUnique(s.db) && CodesApart(s)
    && forall t | t in s.txns :: IndexOf(s.db, s.txns[t])
  }

  // ----- a transaction's own steps

  /** What a step may add to the entries a transaction has touched: nobody else's. */
  ghost predicate CodesFresh(s: State, t: nat, u': Txn) {
    forall t' | t' in s.txns && t' != t :: u'.codes !! s.txns[t'].codes
  }

  /** The entry of a row nobody else holds is nobody else's. */
  lemma EntryIsFree(s: State, t: nat, id: RowId, code: string)
    requires IndexInv(s) && t in s.txns && RowFree(s, t, id) && id in s.db && Carries(s.db[id], code)
    ensures CodeFree(s, t, code)
  {
    forall t' | t' in s.txns && t' != t ensures code !in s.txns[t'].codes {
      assert IndexOf(s.db, s.txns[t']);
    }
  }

  /** Reaching a row touches the entry it carries. */
  lemma ReachKeepsIndex(s: State, t: nat, id: RowId, u': Txn)
    requires IndexInv(s) && t in s.txns && s.txns[t].outcome.Running? && RowFree(s, t, id)
    requires u'.codes == s.txns[t].codes + CodesAt(View(s.db, s.txns[t]), id) && u'.rows == s.txns[t].rows + {id}
    ensures CodesFresh(s, t, u') && EntriesHeld(s.db, u'.rows, u'.codes)
  {
    var u := s.txns[t];
    assert IndexOf(s.db, u);
    forall code | code in CodesAt(View(s.db, u), id) ensures CodeFree(s, t, code) {
      if id in u.puts {
        assert Carries(u.puts[id], code) && code in u.codes;
      } else {
        EntryIsFree(s, t, id, code);
      }
    }
    forall i, code | i in s.db && code in u'.codes && Carries(s.db[i], code) ensures i in u'.rows {
      if code !in u.codes { assert Carries(s.db[id], code); }
    }
  }

  lemma FewerPutsIndexed(db: Db, u: Txn, u': Txn)
    requires PutsIndexed(db, u) && u.codes <= u'.codes
    requires forall id | id in u'.puts :: id in u.puts && u'.puts[id] == u.puts[id]
    requires forall id | id in View(db, u') :: id in View(db, u) && View(db, u')[id] == View(db, u)[id]
    ensures PutsIndexed(db, u')
  {
    forall id, code | id in u'.puts && Carries(u'.puts[id], code)
      ensures code in u'.codes && !Taken(View(db, u'), code, id)
    {
      assert !Taken(View(db, u), code, id);
    }
  }

  /** A write that found its code free. */
  lemma WrittenView(db: Db, u: Txn, r: Record, clock: nat)
    ensures var view, view' := View(db, u), View(db, Written(db, u, r, clock));
            forall id | id in view' && id != IdOf(r) :: id in view && view'[id] == view[id]
  {
  }

  lemma WrittenIndexed(db: Db, u: Txn, r: Record, clock: nat)
    requires PutsIndexed(db, u) && forall code | code in CodesOf(r) :: !Taken(View(db, u), code, IdOf(r))
    ensures PutsIndexed(db, Written(db, u, r, clock))
  {
    var u' := Written(db, u, r, clock);
    var view, view' := View(db, u), View(db, u');
    WrittenView(db, u, r, clock);
    forall id, code | id in u'.puts && Carries(u'.puts[id], code) ensures code in u'.codes && !Taken(view', code, id) {
      if id == IdOf(r) {
        assert code in CodesOf(r) && !Taken(view, code, id);
      } else {
        assert Carries(u.puts[id], code) && view[id] == u.puts[id];
        if code in CodesOf(r) { assert Taken(view, code, IdOf(r)); }
      }
    }
  }

  lemma WriteKeepsEntries(s: State, t: nat, r: Record, u': Txn)
    requires IndexInv(s) && t in s.txns && s.txns[t].outcome.Running?
    requires forall code | code in CodesOf(r) :: CodeFree(s, t, code)
    requires forall code | code in CodesOf(r) :: !Taken(View(s.db, s.txns[t]), code, IdOf(r))
    requires s.txns[t].puts.Keys + s.txns[t].dels <= s.txns[t].rows
    requires u'.codes == s.txns[t].codes + CodesOf(r) && u'.rows == s.txns[t].rows + {IdOf(r)}
    ensures CodesFresh(s, t, u') && EntriesHeld(s.db, u'.rows, u'.codes)
  {
    var u := s.txns[t];
    assert IndexOf(s.db, u);
    var view := View(s.db, u);
    assert forall i | i in s.db && i !in u.rows :: i in view && view[i] == s.db[i];
    forall i, code | i in s.db && code in u'.codes && Carries(s.db[i], code) ensures i in u'.rows {
      assert code in CodesOf(r) && i in view && Carries(view[i], code) ==> i == IdOf(r);
    }
  }

  /** What one step leaves of a transaction's part of the index. */
  ghost predicate IndexStep(s: State, t: nat, u': Txn) {
    CodesFresh(s, t, u') && IndexOf(s.db, u')
  }

  lemma SameIndex(s: State, t: nat, u': Txn)
    requires IndexInv(s) && t in s.txns && u'.codes == s.txns[t].codes && s.txns[t].rows <= u'.rows
    requires u'.puts == s.txns[t].puts && u'.dels == s.txns[t].dels
    requires u'.outcome.Running? ==> s.txns[t].outcome.Running?
    ensures IndexStep(s, t, u')
  {
    assert IndexOf(s.db, s.txns[t]);
    if u'.outcome.Running? { FewerPutsIndexed(s.db, s.txns[t], u'); }
  }

  lemma WriteStmtKeepsIndex(s: State, t: nat, r: Record, u': Txn)
    requires IndexInv(s) && t in s.txns && s.txns[t].outcome.Running? && WriteStmt(s, t, r, u')
    requires s.txns[t].puts.Keys + s.txns[t].dels <= s.txns[t].rows
    ensures IndexStep(s, t, u')
  {
    var u := s.txns[t];
    if u'.outcome.RolledBack? {
      SameIndex(s, t, u');
    } else {
      assert IndexOf(s.db, u);
      WriteKeepsEntries(s, t, r, u');
      PlainWriteIndexed(s.db, u, r, s.clock, u');
    }
  }

  lemma PlainWriteIndexed(db: Db, u: Txn, r: Record, clock: nat, u': Txn)
    requires PutsIndexed(db, u) && forall code | code in CodesOf(r) :: !Taken(View(db, u), code, IdOf(r))
    requires var w := Written(db, u, r, clock); u'.puts == w.puts && u'.dels == w.dels && u'.codes == w.codes
    ensures PutsIndexed(db, u')
  {
    var w := Written(db, u, r, clock);
    WrittenIndexed(db, u, r, clock);
    FewerPutsIndexed(db, w, u');
  }

  /** Records without a user code. */
  lemma UncodedWriteKeepsIndex(s: State, t: nat, r: Record, u': Txn)
    requires IndexInv(s) && t in s.txns && s.txns[t].outcome.Running? && !r.DeviceGrant?
    requires u' == Written(s.db, s.txns[t], r, s.clock).(pc := s.txns[t].pc + 1)
    ensures IndexStep(s, t, u')
  {
    assert IndexOf(s.db, s.txns[t]);
    PlainWriteIndexed(s.db, s.txns[t], r, s.clock, u');
  }

  lemma HoldKeepsIndex(s: State, t: nat, id: RowId, u': Txn)
    requires IndexInv(s) && t in s.txns && s.txns[t].outcome.Running? && RowFree(s, t, id)
    requires var u := s.txns[t];
             u' == u.(rows := u.rows + {id}, codes := u.codes + CodesAt(View(s.db, u), id), pc := u.pc + 1)
    ensures IndexStep(s, t, u')
  {
    assert IndexOf(s.db, s.txns[t]);
    ReachKeepsIndex(s, t, id, u');
    FewerPutsIndexed(s.db, s.txns[t], u');
  }

  predicate InsertsUncoded(stmt: Stmt) { stmt.InsertNew? ==> !stmt.rec.DeviceGrant? }

  lemma ExecKeepsIndex(cfg: Config, s: State, t: nat, stmt: Stmt, u': Txn)
    requires IndexInv(s) && t in s.txns && s.txns[t].outcome.Running? && ExecStmt(cfg, s, t, stmt, u')
    requires s.txns[t].puts.Keys + s.txns[t].dels <= s.txns[t].rows && InsertsUncoded(stmt)
    ensures IndexStep(s, t, u')
  {
    var u := s.txns[t];
    match stmt {
      case Upsert(r) => WriteStmtKeepsIndex(s, t, r, u');
      case Update(r) =>
        if IdOf(r) in u.hits { WriteStmtKeepsIndex(s, t, r, u'); } else { SameIndex(s, t, u'); }
      case Hold(id) => HoldKeepsIndex(s, t, id, u');
      case InsertNew(r) =>
        if IdOf(r) in View(s.db, u) { SameIndex(s, t, u'); } else { UncodedWriteKeepsIndex(s, t, r, u'); }
      case RecordBarrier(scope, w) =>
        if NonEmpty(scope) {
          UncodedWriteKeepsIndex(s, t, Merge(Stored(View(s.db, u), BarrierId(scope)), scope, w), u');
        } else {
          SameIndex(s, t, u');
        }
      case _ => SameIndex(s, t, u');
    }
  }

  lemma HitKeepsIndex(s: State, t: nat, action: Action, snapshot: map<RowId, Row>, id: RowId)
    requires IndexInv(s) && t in s.txns && s.txns[t].outcome.Running? && RowFree(s, t, id)
    requires id in View(s.db, s.txns[t])
    ensures IndexStep(s, t, Hit(s.db, s.txns[t], action, snapshot, id))
  {
    var u, u' := s.txns[t], Hit(s.db, s.txns[t], action, snapshot, id);
    assert IndexOf(s.db, u);
    ReachKeepsIndex(s, t, id, u');
    FewerPutsIndexed(s.db, u, u');
  }

  lemma ScanRowKeepsIndex(cfg: Config, s: State, t: nat, stmt: Stmt, id: RowId, u': Txn)
    requires IndexInv(s) && t in s.txns && s.txns[t].outcome.Running? && ScanRowStmt(cfg, s, t, stmt, id, u')
    ensures IndexStep(s, t, u')
  {
    var u := s.txns[t];
    if u' == u.(scan := Some(u.scan.value - {id})) {
      SameIndex(s, t, u');
    } else {
      HitKeepsIndex(s, t, stmt.action, u.scan.value, id);
    }
  }

  // ----- another transaction commits

  lemma PublishKeepsUnique(db: Db, v: Txn)
    requires RowsUnique(db) && PutsIndexed(db, v)
    ensures RowsUnique(Published(db, v))
  {
    var db' := Published(db, v);
    assert db' == View(db, v);
    forall a, b, code | a in db' && b in db' && Carries(db'[a], code) && Carries(db'[b], code) ensures a == b {
      if a in v.puts {
        assert !Taken(db', code, a);
      } else if b in v.puts {
        assert !Taken(db', code, b);
      }
    }
  }

  lemma PublishKeepsEntries(db: Db, u: Txn, v: Txn)
    requires EntriesHeld(db, u.rows, u.codes) && PutsIndexed(db, v) && u.codes !! v.codes
    ensures EntriesHeld(Published(db, v), u.rows, u.codes)
  {
    var db' := Published(db, v);
    forall id, code | id in db' && code in u.codes && Carries(db'[id], code) ensures id in u.rows {
      assert id !in v.puts;
    }
  }

  lemma OwnPublishKeepsEntries(db: Db, v: Txn)
    requires EntriesHeld(db, v.rows, v.codes) && v.puts.Keys <= v.rows
    ensures EntriesHeld(Published(db, v), v.rows, v.codes)
  {
  }

  lemma PublishKeepsPuts(db: Db, u: Txn, v: Txn)
    requires PutsIndexed(db, u) && PutsIndexed(db, v) && u.codes !! v.codes
    ensures PutsIndexed(Published(db, v), u)
  {
    var db' := Published(db, v);
    forall id, code | id in u.puts && Carries(u.puts[id], code)
      ensures code in u.codes && !Taken(View(db', u), code, id)
    {
      assert !Taken(View(db, u), code, id);
      forall other | other in View(db', u) && Carries(View(db', u)[other], code) ensures other == id {
        assert other !in u.puts && other in v.puts ==> code in v.codes;
        assert other in View(db, u) && View(db, u)[other] == View(db', u)[other];
      }
    }
  }

  lemma PublishKeepsIndex(cfg: Config, s: State, v: nat)
    requires Inv(cfg, s) && IndexInv(s) && v in s.txns && s.txns[v].outcome.Running?
    ensures IndexInv(With(s, v, s.txns[v].(outcome := Committed)).(db := Published(s.db, s.txns[v])))
  {
    var s' := With(s, v, s.txns[v].(outcome := Committed)).(db := Published(s.db, s.txns[v]));
    assert IndexOf(s.db, s.txns[v]) && RunningOk(cfg, s.db, s.txns[v]);
    PublishKeepsUnique(s.db, s.txns[v]);
    forall t | t in s'.txns ensures IndexOf(s'.db, s'.txns[t]) {
      assert IndexOf(s.db, s.txns[t]);
      if t == v {
        OwnPublishKeepsEntries(s.db, s.txns[v]);
      } else {
        PublishKeepsEntries(s.db, s.txns[t], s.txns[v]);
        if s.txns[t].outcome.Running? { PublishKeepsPuts(s.db, s.txns[t], s.txns[v]); }
      }
    }
  }

  // ----- every step

  lemma NoDeviceInserts(cfg: Config, op: Operation, bound: Option<(string, string)>, i: nat)
    requires Valid(op) && i < |Program(cfg, op, bound)|
    ensures InsertsUncoded(Program(cfg, op, bound)[i])
  {
    if Removes(op) {
      RemoversDoNotWrite(cfg, op, bound, i);
    } else if op.Rotate? || op.SwapConsent? {
      ReadIsTheOnlyScan(cfg, op, bound, i);
    }
  }

  lemma OwnStepKeepsIndex(cfg: Config, s: State, e: Event, s': State)
    requires Inv(cfg, s) && IndexInv(s) && Step(cfg, s, e, s') && !e.Begin? && !e.Publish?
    ensures IndexStep(s, e.t, s'.txns[e.t])
  {
    var t, u, u' := e.t, s.txns[e.t], s'.txns[e.t];
    assert RunningOk(cfg, s.db, u) && IndexOf(s.db, u);
    match e {
      case Exec(_) =>
        NoDeviceInserts(cfg, u.op, u.bound, u.pc);
        ExecKeepsIndex(cfg, s, t, Current(cfg, s, t), u');
      case ScanRow(_, id) => ScanRowKeepsIndex(cfg, s, t, Current(cfg, s, t), id, u');
      case Release(_) =>
      case _ => SameIndex(s, t, u');
    }
  }

  lemma IndexStepKeeps(s: State, e: Event, s': State)
    requires IndexInv(s) && Framed(s, e, s') && !e.Publish?
    requires if e.Begin? then s'.txns[e.t] == Started(e.op) else IndexStep(s, e.t, s'.txns[e.t])
    ensures IndexInv(s')
  {
    forall t | t in s'.txns ensures IndexOf(s'.db, s'.txns[t]) {
      if t != e.t { assert IndexOf(s.db, s.txns[t]); }
    }
  }

  lemma StepKeepsIndex(cfg: Config, s: State, e: Event, s': State)
    requires Inv(cfg, s) && IndexInv(s) && Step(cfg, s, e, s')
    ensures IndexInv(s')
  {
    StepIsFramed(cfg, s, e, s');
    if e.Publish? {
      PublishKeepsIndex(cfg, s, e.t);
    } else {
      if !e.Begin? { OwnStepKeepsIndex(cfg, s, e, s'); }
      IndexStepKeeps(s, e, s');
    }
  }

  lemma {:induction false} RunKeepsIndex(cfg: Config, states: seq<State>, events: seq<Event>, n: nat)
    requires cfg.locking && Run(cfg, states, events) && n < |states|
    ensures IndexInv(states[n])
  {
    if n > 0 {
      RunKeepsIndex(cfg, states, events, n - 1);
      RunKeepsInv(cfg, states, events, n - 1);
      assert StepAt(cfg, states, events, n - 1);
      StepKeepsIndex(cfg, states[n - 1], events[n - 1], states[n]);
    }
  }

  /** In every state of every run, whatever runs side by side, no two device grants share a user code. */
  lemma CodesAlwaysUnique(cfg: Config, states: seq<State>, events: seq<Event>, n: nat)
    requires cfg.locking && Run(cfg, states, events) && n < |states|
    ensures CodesUnique(Abs(states[n].db))
  {
    RunKeepsInv(cfg, states, events, n);
    RunKeepsIndex(cfg, states, events, n);
    UniqueRecords(states[n].db);
  }

  lemma UniqueRecords(db: Db)
    requires ColumnsAgree(db) && RowsUnique(db)
    ensures CodesUnique(Abs(db))
  {
    var store := Abs(db);
    forall a, b, code | a in store && b in store && AnswersTo(store[a], code) && AnswersTo(store[b], code)
      ensures a == b
    {
      assert Carries(db[a], code) && Carries(db[b], code);
    }
  }

  /** A device grant that is about to be committed clashes with nothing that is committed. */
  lemma CommittedWithoutClash(db: Db, u: Txn, r: Record)
    requires PutsIndexed(db, u) && ColumnsAgree(db) && r.DeviceGrant? && u.dels == {}
    requires IdOf(r) in u.puts && u.puts.Keys == {IdOf(r)} && u.puts[IdOf(r)].cols == Project(r)
    ensures !Clashes(Abs(db), r)
  {
    var code := Normalize(r.userCode);
    assert Carries(u.puts[IdOf(r)], code);
    forall id | id in Abs(db) && id != IdOf(r) ensures !AnswersTo(Abs(db)[id], code) {
      assert id in View(db, u) && View(db, u)[id] == db[id];
      assert !Taken(View(db, u), code, IdOf(r));
    }
  }
}
