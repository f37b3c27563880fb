/** When a write of a device grant does not have to wait for its user code.

It never waits if the code is its own: no other grant carries it, whoever touches it is working on the
same grant, and no running write gives it to another grant. A caller has this by keeping the code of the
grant it writes, or by drawing a new one. The condition then holds until the write is over. */
module CodeWaits {
  import opened Options
  import opened UserCodes
  import opened Records
  import opened Protocol
  import opened NoResurrection
  import opened Commit
  import opened CodeIndex

  /** The device grant an operation writes. */
  function DeviceWrite(op: Operation): (r: Option<Record>)
    ensures r.Some? ==> r.value.DeviceGrant?
  {
    match op
    case Put(r) => if r.DeviceGrant? then Some(r) else None
    case Swap(_, r) => if r.DeviceGrant? then Some(r) else None
    case _ => None
  }

  function CodeOf(r: Record): string
    requires r.DeviceGrant?
  {
    Normalize(r.userCode)
  }

  ghost predicate CodeIsOwn(s: State, t: nat, r: Record)
    requires r.DeviceGrant?
  {
    && (forall id | id in s.db && Carries(s.db[id], CodeOf(r)) :: id == IdOf(r))
    && (forall t' | t' in s.txns && t' != t && CodeOf(r) in s.txns[t'].codes :: IdOf(r) in s.txns[t'].rows)
    && (forall t' | t' in s.txns && t' != t && s.txns[t'].outcome.Running? && DeviceWrite(s.txns[t'].op).Some? ::
          CodeOf(DeviceWrite(s.txns[t'].op).value) == CodeOf(r) ==> IdOf(DeviceWrite(s.txns[t'].op).value) == IdOf(r))
  }

  ghost predicate OwnCode(s: State, t: nat, op: Operation) {
    DeviceWrite(op).Some? ==> CodeIsOwn(s, t, DeviceWrite(op).value)
  }

  /** A transaction writes no code but the one of its device grant. */
  ghost predicate PutsOwn(u: Txn) {
    forall id, code | id in u.puts && Carries(u.puts[id], code) ::
      DeviceWrite(u.op).Some? && id == IdOf(DeviceWrite(u.op).value) && code == CodeOf(DeviceWrite(u.op).value)
  }

  ghost predicate PutsOwnOk(u: Txn) { u.outcome.Running? ==> PutsOwn(u) }

  // ----- what a transaction writes

  lemma DeviceStmt(cfg: Config, op: Operation, bound: Option<(string, string)>, i: nat)
    requires Valid(op) && i < |Program(cfg, op, bound)|
    ensures var stmt := Program(cfg, op, bound)[i];
            IsWrite(stmt) && stmt.rec.DeviceGrant? ==> DeviceWrite(op) == Some(stmt.rec)
  {
    if Removes(op) {
      RemoversDoNotWrite(cfg, op, bound, i);
    } else if op.PutGuarded? {
      PutProgram(cfg, op.rec, bound);
    } else if op.Rotate? {
      RotationProgram(cfg, op, bound);
    }
  }

  lemma ExecKeepsOwnPuts(cfg: Config, s: State, t: nat, stmt: Stmt, u': Txn)
    requires t in s.txns && PutsOwn(s.txns[t]) && ExecStmt(cfg, s, t, stmt, u')
    requires IsWrite(stmt) && stmt.rec.DeviceGrant? ==> DeviceWrite(s.txns[t].op) == Some(stmt.rec)
    ensures PutsOwn(u')
  {
    ExecKeepsOp(cfg, s, t, stmt, u');
    var u := s.txns[t];
    match stmt {
      case RecordBarrier(scope, w) =>
        WrittenOwn(s.db, u, Merge(Stored(View(s.db, u), BarrierId(scope)), scope, w), s.clock);
      case Upsert(r) => WrittenOwn(s.db, u, r, s.clock);
      case Update(r) => WrittenOwn(s.db, u, r, s.clock);
      case InsertNew(r) => WrittenOwn(s.db, u, r, s.clock);
      case _ =>
    }
  }

  lemma WrittenOwn(db: Db, u: Txn, r: Record, clock: nat)
    requires PutsOwn(u) && (r.DeviceGrant? ==> DeviceWrite(u.op) == Some(r))
    ensures PutsOwn(Written(db, u, r, clock))
  {
  }

  lemma StepKeepsOwnPuts(cfg: Config, s: State, e: Event, s': State)
    requires Step(cfg, s, e, s') && !e.Begin? && PutsOwnOk(s.txns[e.t])
    ensures PutsOwnOk(s'.txns[e.t])
  {
    StepKeepsOp(cfg, s, e, s');
    if e.Exec? {
      var u, stmt := s.txns[e.t], Current(cfg, s, e.t);
      DeviceStmt(cfg, u.op, u.bound, u.pc);
      ExecKeepsOwnPuts(cfg, s, e.t, stmt, s'.txns[e.t]);
    }
  }

  // ----- what a step touches

  /** An entry a transaction has just touched: that of a committed row it has reached, or its own. */
  ghost predicate Touched(s: State, u: Txn, code: string) {
    || (exists id | id in s.db :: Carries(s.db[id], code) && id in u.rows)
    || (DeviceWrite(u.op).Some? && code == CodeOf(DeviceWrite(u.op).value) && IdOf(DeviceWrite(u.op).value) in u.rows)
  }

  lemma ReachTouches(s: State, t: nat, id: RowId, u': Txn)
    requires IndexInv(s) && t in s.txns && s.txns[t].outcome.Running? && id in u'.rows
    requires u'.codes == s.txns[t].codes + CodesAt(View(s.db, s.txns[t]), id)
    ensures forall code | code in u'.codes && code !in s.txns[t].codes :: Touched(s, u', code)
  {
    var u := s.txns[t];
    assert IndexOf(s.db, u);
    forall code | code in u'.codes && code !in u.codes ensures Touched(s, u', code) {
      assert id in u.puts ==> Carries(u.puts[id], code) && code in u.codes;
      assert id in s.db && Carries(s.db[id], code);
    }
  }

  lemma ExecTouches(cfg: Config, s: State, t: nat, stmt: Stmt, u': Txn)
    requires IndexInv(s) && t in s.txns && s.txns[t].outcome.Running? && ExecStmt(cfg, s, t, stmt, u')
    requires IsWrite(stmt) && stmt.rec.DeviceGrant? ==> DeviceWrite(s.txns[t].op) == Some(stmt.rec)
    ensures forall code | code in u'.codes && code !in s.txns[t].codes :: Touched(s, u', code)
    ensures s.txns[t].rows <= u'.rows
  {
    ExecKeepsOp(cfg, s, t, stmt, u');
    if stmt.Hold? { ReachTouches(s, t, stmt.id, u'); }
  }

  lemma ScanRowTouches(cfg: Config, s: State, t: nat, stmt: Stmt, id: RowId, u': Txn)
    requires IndexInv(s) && t in s.txns && s.txns[t].outcome.Running? && ScanRowStmt(cfg, s, t, stmt, id, u')
    ensures forall code | code in u'.codes && code !in s.txns[t].codes :: Touched(s, u', code)
    ensures s.txns[t].rows <= u'.rows
  {
    if u'.codes != s.txns[t].codes { ReachTouches(s, t, id, u'); }
  }

  lemma StepTouches(cfg: Config, s: State, e: Event, s': State)
    requires IndexInv(s) && Step(cfg, s, e, s') && !e.Begin?
    ensures forall code | code in s'.txns[e.t].codes && code !in s.txns[e.t].codes :: Touched(s, s'.txns[e.t], code)
    ensures s.txns[e.t].rows <= s'.txns[e.t].rows || s'.txns[e.t].codes == {}
  {
    var u, u' := s.txns[e.t], s'.txns[e.t];
    match e {
      case Exec(t) =>
        DeviceStmt(cfg, u.op, u.bound, u.pc);
        ExecTouches(cfg, s, t, Current(cfg, s, t), u');
      case ScanRow(t, id) => ScanRowTouches(cfg, s, t, Current(cfg, s, t), id, u');
      case _ =>
    }
  }

  // ----- the condition lasts

  lemma OwnStepKeepsCode(s: State, e: Event, s': State, r: Record)
    requires Framed(s, e, s') && !e.Publish? && r.DeviceGrant? && CodeIsOwn(s, e.t, r)
    ensures CodeIsOwn(s', e.t, r)
  {
  }

  /** Somebody else's step. */
  lemma OtherStepKeepsCode(cfg: Config, s: State, e: Event, s': State, t: nat, r: Record)
    requires IndexInv(s) && Step(cfg, s, e, s') && t in s.txns && t != e.t && s.txns[t].outcome.Running?
    requires DeviceWrite(s.txns[t].op) == Some(r) && CodeIsOwn(s, t, r)
    requires e.Begin? ==> OwnCode(s, e.t, e.op)
    requires !e.Begin? ==> PutsOwnOk(s.txns[e.t])
    ensures CodeIsOwn(s', t, r)
  {
    StepIsFramed(cfg, s, e, s');
    if !e.Begin? {
      StepTouches(cfg, s, e, s');
      StepKeepsOp(cfg, s, e, s');
      OtherTouches(s, e, s', t, r);
    }
    OtherRows(s, e, s', t, r);
  }

  lemma OtherTouches(s: State, e: Event, s': State, t: nat, r: Record)
    requires Framed(s, e, s') && !e.Begin? && t in s.txns && t != e.t && r.DeviceGrant? && CodeIsOwn(s, t, r)
    requires s'.txns[e.t].op == s.txns[e.t].op
    requires s'.txns[e.t].codes <= s.txns[e.t].codes || s.txns[e.t].outcome.Running?
    requires forall code | code in s'.txns[e.t].codes && code !in s.txns[e.t].codes :: Touched(s, s'.txns[e.t], code)
    requires s.txns[e.t].rows <= s'.txns[e.t].rows || s'.txns[e.t].codes == {}
    ensures CodeOf(r) in s'.txns[e.t].codes ==> IdOf(r) in s'.txns[e.t].rows
  {
    var u, u', code := s.txns[e.t], s'.txns[e.t], CodeOf(r);
    if code in u'.codes && code !in u.codes {
      assert Touched(s, u', code);
    }
  }

  lemma OtherRows(s: State, e: Event, s': State, t: nat, r: Record)
    requires Framed(s, e, s') && t in s.txns && t != e.t && s.txns[t].outcome.Running?
    requires DeviceWrite(s.txns[t].op) == Some(r) && CodeIsOwn(s, t, r)
    requires if e.Begin? then OwnCode(s, e.t, e.op)
             else
               && s'.txns[e.t].op == s.txns[e.t].op && PutsOwnOk(s.txns[e.t])
               && (e.Publish? ==> s.txns[e.t].outcome.Running?)
               && (CodeOf(r) in s'.txns[e.t].codes ==> IdOf(r) in s'.txns[e.t].rows)
    ensures CodeIsOwn(s', t, r)
  {
    forall id | id in s'.db && Carries(s'.db[id], CodeOf(r)) ensures id == IdOf(r) {
      if e.Publish? && id in s.txns[e.t].puts { assert PutsOwn(s.txns[e.t]); }
    }
  }
}
