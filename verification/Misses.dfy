/** An operation that found nothing was right to: while it ran, there was a moment without what it looked for.

A take, a swap and a withdrawal that change nothing therefore count as one step at that moment, and so
does a refused claim, at a moment when the identifier was there. */
module Misses {
  import opened Options
  import opened Records
  import opened Protocol
  import opened NoResurrection
  import opened Commit
  import opened SingleUse
  import opened Leftovers

  /** What an operation looks for before it changes anything: one row, and its condition. */
  function Looked(op: Operation): (p: Option<Pred>)
    ensures p.Some? ==> p.value.ByKey? || p.value.ByState?
  {
    match op
    case Take(id) => Some(ByKey(id))
    case Swap(e, u) => Some(ByState(IdOf(u), e))
    case RevokeConsent(id, _) => Some(ByKey(Keyed(Consents, id)))
    case Rotate(e, _, _, _) => Some(ByKey(IdOf(e)))
    case _ => None
  }

  /** The statement that looks: a rotation takes its locks and checks the barriers first. */
  function LookIndex(cfg: Config, op: Operation): (i: nat)
    requires Valid(op)
  {
    if op.Rotate? then ReadIndex(cfg, op) else 0
  }

  /** The row is not there, or does not meet the condition. */
  predicate Misses(db: Db, p: Pred)
    requires p.ByKey? || p.ByState?
  {
    p.id !in db || !Matches(p, p.id, db[p.id])
  }

  ghost predicate MissedSince(states: seq<State>, b: nat, n: nat, p: Pred)
    requires (p.ByKey? || p.ByState?) && n < |states|
  {
    exists k | b < k <= n :: Misses(states[k].db, p)
  }

  /** At some state in between, the committed row was the one of the snapshot. */
  ghost predicate StoodSince(states: seq<State>, b: nat, n: nat, id: RowId, row: Row)
    requires n < |states|
  {
    exists k | b < k <= n :: id in states[k].db && states[k].db[id].born == row.born
  }

  ghost predicate LookOk(look: nat, states: seq<State>, b: nat, n: nat, p: Pred, u: Txn)
    requires (p.ByKey? || p.ByState?) && n < |states|
  {
    || p.id in u.hits || MissedSince(states, b, n, p)
    || (&& u.pc <= look && u.puts == map[] && u.dels == {} && (u.pc < look ==> u.scan.None?)
        && (u.scan.Some? ==> p.id in u.scan.value && StoodSince(states, b, n, p.id, u.scan.value[p.id])))
  }

  lemma LookStatement(cfg: Config, op: Operation, bound: Option<(string, string)>)
    requires Valid(op) && Looked(op).Some?
    ensures |Program(cfg, op, bound)| > LookIndex(cfg, op)
    ensures var stmt := Program(cfg, op, bound)[LookIndex(cfg, op)];
            stmt.Scan? && stmt.pred == Looked(op).value && !stmt.skipLocked && !stmt.action.LockNewest?
    ensures forall i | 0 <= i < LookIndex(cfg, op) ::
              Program(cfg, op, bound)[i].Lock? || Program(cfg, op, bound)[i].Check?
  {
    if op.Rotate? {
      RotationProgram(cfg, op, bound);
      var locks := GuardLocks(cfg, GuardOf(op.presented));
      assert forall i | 0 <= i < |locks| :: locks[i].Lock? && Program(cfg, op, bound)[i] == locks[i];
    }
  }

  lemma SinceGrows(look: nat, states: seq<State>, b: nat, n: nat, p: Pred, u: Txn)
    requires (p.ByKey? || p.ByState?) && n + 1 < |states| && LookOk(look, states, b, n, p, u)
    ensures LookOk(look, states, b, n + 1, p, u)
  {
    if MissedSince(states, b, n, p) {
      var k :| b < k <= n && Misses(states[k].db, p);
      assert MissedSince(states, b, n + 1, p);
    } else if u.scan.Some? && p.id in u.scan.value && StoodSince(states, b, n, p.id, u.scan.value[p.id]) {
      var k :| b < k <= n && p.id in states[k].db && states[k].db[p.id].born == u.scan.value[p.id].born;
      assert StoodSince(states, b, n + 1, p.id, u.scan.value[p.id]);
    }
  }

  lemma StartLooks(s: State, t: nat, stmt: Stmt, p: Pred, snapshot: map<RowId, Row>, u': Txn)
    requires t in s.txns && s.txns[t].puts == map[] && s.txns[t].dels == {} && (p.ByKey? || p.ByState?)
    requires stmt.Scan? && stmt.pred == p && !stmt.skipLocked && ScanStartStmt(s, t, stmt, snapshot, u')
    ensures Misses(s.db, p) || (p.id in snapshot && p.id in s.db && snapshot[p.id] == s.db[p.id])
  {
    assert View(s.db, s.txns[t]) == s.db;
  }

  lemma RowLooks(cfg: Config, s: State, t: nat, stmt: Stmt, p: Pred, id: RowId, u': Txn)
    requires t in s.txns && s.txns[t].puts == map[] && s.txns[t].dels == {} && (p.ByKey? || p.ByState?)
    requires stmt.Scan? && stmt.pred == p && !stmt.skipLocked && ScanRowStmt(cfg, s, t, stmt, id, u')
    requires p.id in s.txns[t].scan.value
    ensures p.id in u'.hits || id != p.id || Misses(s.db, p) || s.db[p.id].born != s.txns[t].scan.value[p.id].born
    ensures id != p.id && p.id !in u'.hits && u'.scan.Some? && !stmt.action.LockNewest? ==>
              p.id in u'.scan.value && u'.scan.value[p.id] == s.txns[t].scan.value[p.id]
  {
    assert View(s.db, s.txns[t]) == s.db;
  }

  /** A row that was replaced by another one was absent in between. */
  lemma ReplacedWasMissing(cfg: Config, states: seq<State>, events: seq<Event>, b: nat, n: nat, p: Pred, row: Row)
    requires cfg.locking && Run(cfg, states, events) && n < |states| && (p.ByKey? || p.ByState?)
    requires StoodSince(states, b, n, p.id, row) && p.id in states[n].db && states[n].db[p.id].born != row.born
    ensures MissedSince(states, b, n, p)
  {
    var i :| b < i <= n && p.id in states[i].db && states[i].db[p.id].born == row.born;
    var k := LossIsARemoval(cfg, states, events, i, n, p.id);
    LeftIsAbsent(cfg, states, events, k, p.id, row.born);
    assert Misses(states[k + 1].db, p);
  }

  lemma LeftIsAbsent(cfg: Config, states: seq<State>, events: seq<Event>, k: nat, id: RowId, born: nat)
    requires cfg.locking && Run(cfg, states, events) && k < |events| && Leaves(states[k], events[k], id, born)
    ensures id !in states[k + 1].db
  {
    assert StepAt(cfg, states, events, k);
    RunKeepsBornInv(cfg, states, events, k);
    var u := states[k].txns[events[k].t];
    forall i | i in u.puts ensures i !in u.dels { assert PutBorn(states[k], events[k].t, i); }
  }

  // ----- over a run

  lemma HitsGrow(cfg: Config, s: State, e: Event, s': State, id: RowId)
    requires Step(cfg, s, e, s') && !e.Begin? && id in s.txns[e.t].hits
    ensures id in s'.txns[e.t].hits
  {
    if e.Exec? { ExecKeepsHits(cfg, s, e.t, Current(cfg, s, e.t), s'.txns[e.t]); }
  }

  lemma BeforeLook(cfg: Config, s: State, t: nat, stmt: Stmt, u': Txn)
    requires t in s.txns && ExecStmt(cfg, s, t, stmt, u') && (stmt.Lock? || stmt.Check?)
    ensures u'.outcome.RolledBack?
            || (&& u'.pc == s.txns[t].pc + 1 && u'.puts == s.txns[t].puts && u'.dels == s.txns[t].dels
                && u'.scan == s.txns[t].scan)
  {
  }

  /** The steps of the statement that looks, and of those before it. */
  lemma LookStep(cfg: Config, states: seq<State>, events: seq<Event>, b: nat, n: nat, t: nat, p: Pred)
    requires cfg.locking && Run(cfg, states, events) && b < n < |events| && events[n].t == t && t in states[n].txns
    requires Valid(states[n].txns[t].op) && Looked(states[n].txns[t].op) == Some(p)
    requires states[n].txns[t].outcome.Running? && t in states[n + 1].txns && states[n + 1].txns[t].outcome.Running?
    requires var look := LookIndex(cfg, states[n].txns[t].op);
             states[n].txns[t].pc <= look && (states[n].txns[t].pc < look ==> states[n].txns[t].scan.None?)
    requires states[n].txns[t].puts == map[] && states[n].txns[t].dels == {}
    requires states[n].txns[t].scan.Some? ==>
               p.id in states[n].txns[t].scan.value
                 && StoodSince(states, b, n, p.id, states[n].txns[t].scan.value[p.id])
    ensures LookOk(LookIndex(cfg, states[n].txns[t].op), states, b, n + 1, p, states[n + 1].txns[t])
  {
    var s, u, u' := states[n], states[n].txns[t], states[n + 1].txns[t];
    assert StepAt(cfg, states, events, n);
    LookStatement(cfg, u.op, u.bound);
    var stmt := Program(cfg, u.op, u.bound)[LookIndex(cfg, u.op)];
    match events[n] {
      case Exec(_) => BeforeLook(cfg, s, t, Program(cfg, u.op, u.bound)[u.pc], u');
      case ScanStart(_, snapshot) =>
        StartLooks(s, t, stmt, p, snapshot, u');
        if Misses(s.db, p) { assert MissedSince(states, b, n + 1, p); }
        else { assert StoodSince(states, b, n + 1, p.id, snapshot[p.id]); }
      case ScanRow(_, id) =>
        RowLooks(cfg, s, t, stmt, p, id, u');
        RowStep(cfg, states, events, b, n, t, p, id, stmt, u.pc);
      case _ =>
    }
  }

  lemma RowStep(cfg: Config, states: seq<State>, events: seq<Event>, b: nat, n: nat, t: nat, p: Pred, id: RowId,
                stmt: Stmt, look: nat)
    requires cfg.locking && Run(cfg, states, events) && b < n < |events| && t in states[n].txns
    requires t in states[n + 1].txns
    requires (p.ByKey? || p.ByState?) && ScanRowStmt(cfg, states[n], t, stmt, id, states[n + 1].txns[t])
    requires stmt.Scan? && stmt.pred == p
    requires var u, u' := states[n].txns[t], states[n + 1].txns[t];
             && u.pc == look && u.puts == map[] && u.dels == {} && u.scan.Some? && p.id in u.scan.value
             && StoodSince(states, b, n, p.id, u.scan.value[p.id]) && !stmt.action.LockNewest?
             && (|| p.id in u'.hits || id != p.id || Misses(states[n].db, p)
                 || states[n].db[p.id].born != u.scan.value[p.id].born)
             && (id != p.id && p.id !in u'.hits && u'.scan.Some? ==>
                   p.id in u'.scan.value && u'.scan.value[p.id] == u.scan.value[p.id])
    ensures LookOk(look, states, b, n + 1, p, states[n + 1].txns[t])
  {
    var u, u' := states[n].txns[t], states[n + 1].txns[t];
    var row := u.scan.value[p.id];
    if p.id !in u'.hits {
      if Misses(states[n].db, p) {
        assert MissedSince(states, b, n + 1, p);
      } else if states[n].db[p.id].born != row.born {
        ReplacedWasMissing(cfg, states, events, b, n, p, row);
        var k :| b < k <= n && Misses(states[k].db, p);
        assert MissedSince(states, b, n + 1, p);
      } else {
        ScanRowKeepsPlace(cfg, states[n], t, stmt, id, u');
        OtherRowDropped(cfg, states[n], t, stmt, id, p.id, u');
        var k :| b < k <= n && p.id in states[k].db && states[k].db[p.id].born == row.born;
        assert StoodSince(states, b, n + 1, p.id, row);
      }
    }
  }

  /** A scan that looks for one row never meets another. */
  lemma OtherRowDropped(cfg: Config, s: State, t: nat, stmt: Stmt, id: RowId, key: RowId, u': Txn)
    requires t in s.txns && s.txns[t].puts == map[] && s.txns[t].dels == {} && ScanRowStmt(cfg, s, t, stmt, id, u')
    requires stmt.Scan? && (stmt.pred.ByKey? || stmt.pred.ByState?) && stmt.pred.id == key && id != key
    ensures u'.puts == map[] && u'.dels == {} && u'.scan.Some?
  {
  }

  lemma OwnLook(cfg: Config, states: seq<State>, events: seq<Event>, b: nat, n: nat, t: nat, p: Pred)
    requires cfg.locking && Run(cfg, states, events) && b < n < |events| && events[n].t == t && t in states[n].txns
    requires Valid(states[n].txns[t].op) && Looked(states[n].txns[t].op) == Some(p)
    requires states[n].txns[t].outcome.Running? && t in states[n + 1].txns && states[n + 1].txns[t].outcome.Running?
    requires LookOk(LookIndex(cfg, states[n].txns[t].op), states, b, n, p, states[n].txns[t])
    ensures LookOk(LookIndex(cfg, states[n].txns[t].op), states, b, n + 1, p, states[n + 1].txns[t])
  {
    assert StepAt(cfg, states, events, n);
    StepIsFramed(cfg, states[n], events[n], states[n + 1]);
    if p.id in states[n].txns[t].hits {
      HitsGrow(cfg, states[n], events[n], states[n + 1], p.id);
    } else if MissedSince(states, b, n, p) {
      var k :| b < k <= n && Misses(states[k].db, p);
      assert MissedSince(states, b, n + 1, p);
    } else {
      LookStep(cfg, states, events, b, n, t, p);
    }
  }

  lemma {:induction false} RunKeepsLook(cfg: Config, states: seq<State>, events: seq<Event>, b: nat, n: nat, t: nat,
                                        op: Operation, p: Pred)
    requires cfg.locking && Run(cfg, states, events) && b < n < |states| && events[b] == Begin(t, op)
    requires Looked(op) == Some(p)
    requires t in states[n].txns && states[n].txns[t].outcome.Running?
    ensures states[n].txns[t].op == op && Valid(op)
    ensures LookOk(LookIndex(cfg, op), states, b, n, p, states[n].txns[t])
  {
    assert StepAt(cfg, states, events, n - 1) && StepAt(cfg, states, events, b);
    if n > b + 1 {
      StillThere(cfg, states, events, b, n - 1, t, op);
      StepIsFramed(cfg, states[n - 1], events[n - 1], states[n]);
      RunKeepsLook(cfg, states, events, b, n - 1, t, op, p);
      if events[n - 1].t == t {
        StepKeepsOp(cfg, states[n - 1], events[n - 1], states[n]);
        OwnLook(cfg, states, events, b, n - 1, t, p);
      } else {
        SinceGrows(LookIndex(cfg, op), states, b, n - 1, p, states[n].txns[t]);
      }
    }
  }

  /** A take, a swap or a withdrawal that commits without having found its row: in some state between its
  start and its commit the row was not there, or was not as expected. */
  lemma MissWasReal(cfg: Config, states: seq<State>, events: seq<Event>, b: nat, n: nat, t: nat, op: Operation, p: Pred)
    requires cfg.locking && Run(cfg, states, events) && b < n < |events|
    requires events[b] == Begin(t, op) && events[n] == Publish(t) && Looked(op) == Some(p)
    requires t in states[n].txns && p.id !in states[n].txns[t].hits
    ensures exists k | b < k <= n :: Misses(states[k].db, p)
  {
    CommitStep(cfg, states, events, n);
    RunKeepsLook(cfg, states, events, b, n, t, op, p);
    LookStatement(cfg, op, states[n].txns[t].bound);
    assert MissedSince(states, b, n, p);
  }

  // ----- refused rotations

  /** The step ends the transaction at a read that did not find what was expected. */
  predicate RefusesRead(s: State, e: Event, s': State) {
    e.ScanEnd? && e.t in s.txns && e.t in s'.txns && s'.txns[e.t].outcome.RolledBack?
  }

  /** A rotation that is refused at its read: in some state since its start the committed record under the
  presented token was not the presented one. */
  lemma RotationRefusalWasReal(cfg: Config, states: seq<State>, events: seq<Event>, b: nat, n: nat, t: nat,
                               op: Operation)
    requires cfg.locking && Run(cfg, states, events) && b < n < |events| && op.Rotate?
    requires events[b] == Begin(t, op) && events[n].t == t && RefusesRead(states[n], events[n], states[n + 1])
    ensures exists k | b < k <= n :: Stored(states[k].db, IdOf(op.presented)) != Some(op.presented)
  {
    var p, u := ByKey(IdOf(op.presented)), states[n].txns[t];
    assert StepAt(cfg, states, events, n);
    RunKeepsLook(cfg, states, events, b, n, t, op, p);
    RunKeepsCommitInv(cfg, states, events, n);
    assert RowsOk(cfg, states[n].db, u);
    if p.id in u.hits {
      assert states[n].db[p.id] == u.hits[p.id];
      assert Stored(states[n].db, p.id) != Some(op.presented);
    } else {
      var k :| b < k <= n && Misses(states[k].db, p);
      assert Stored(states[k].db, p.id) != Some(op.presented);
    }
  }

  // ----- refused claims

  ghost predicate KnownSince(states: seq<State>, b: nat, n: nat, id: RowId)
    requires n < |states|
  {
    exists k | b < k <= n :: id in states[k].db
  }

  lemma ClaimStep(cfg: Config, s: State, t: nat, r: Record, s': State)
    requires CommitInv(cfg, s) && Step(cfg, s, Exec(t), s') && s.txns[t].op == Claim(r) && s.txns[t].pc == 0
    ensures IdOf(r) in s.db || s'.txns[t].puts != map[]
  {
    assert RowsOk(cfg, s.db, s.txns[t]);
    assert s.txns[t].puts.Keys <= {IdOf(r)};
  }

  lemma {:induction false} RunKeepsClaim(cfg: Config, states: seq<State>, events: seq<Event>, b: nat, n: nat, t: nat,
                                         r: Record)
    requires cfg.locking && Run(cfg, states, events) && b < n < |states| && events[b] == Begin(t, Claim(r))
    requires t in states[n].txns && states[n].txns[t].outcome.Running?
    ensures states[n].txns[t].op == Claim(r)
    ensures states[n].txns[t].pc == 0 || states[n].txns[t].puts != map[] || KnownSince(states, b, n, IdOf(r))
  {
    assert StepAt(cfg, states, events, n - 1) && StepAt(cfg, states, events, b);
    if n > b + 1 {
      StillThere(cfg, states, events, b, n - 1, t, Claim(r));
      StepIsFramed(cfg, states[n - 1], events[n - 1], states[n]);
      RunKeepsClaim(cfg, states, events, b, n - 1, t, r);
      if KnownSince(states, b, n - 1, IdOf(r)) {
        var k :| b < k <= n - 1 && IdOf(r) in states[k].db;
        assert KnownSince(states, b, n, IdOf(r));
      } else if events[n - 1].t == t {
        assert IdOf(r) !in states[n - 1].db;
        RunKeepsCommitInv(cfg, states, events, n - 1);
        OwnClaimStep(cfg, states[n - 1], events[n - 1], states[n], r);
      }
    }
  }

  lemma OwnClaimStep(cfg: Config, s: State, e: Event, s': State, r: Record)
    requires CommitInv(cfg, s) && Step(cfg, s, e, s') && !e.Begin? && s.txns[e.t].op == Claim(r)
    requires s.txns[e.t].outcome.Running? && s'.txns[e.t].outcome.Running?
    requires s.txns[e.t].pc == 0 || s.txns[e.t].puts != map[]
    ensures s'.txns[e.t].op == Claim(r)
    ensures s'.txns[e.t].pc == 0 || s'.txns[e.t].puts != map[] || IdOf(r) in s.db
  {
    StepKeepsOp(cfg, s, e, s');
    if e.Exec? && s.txns[e.t].pc == 0 { ClaimStep(cfg, s, e.t, r, s'); }
  }

  /** A claim that commits without having been granted: the identifier was there in some state between its
  start and its commit. */
  lemma RefusalWasReal(cfg: Config, states: seq<State>, events: seq<Event>, b: nat, n: nat, t: nat, r: Record)
    requires cfg.locking && Run(cfg, states, events) && b < n < |events|
    requires events[b] == Begin(t, Claim(r)) && events[n] == Publish(t)
    requires t in states[n].txns && states[n].txns[t].puts == map[]
    ensures exists k | b < k <= n :: IdOf(r) in states[k].db
  {
    CommitStep(cfg, states, events, n);
    RunKeepsClaim(cfg, states, events, b, n, t, r);
    assert KnownSince(states, b, n, IdOf(r));
  }
}
