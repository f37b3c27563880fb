/** A revocation cannot be undone by a write that was in flight when it ran.

The invariant survives every step of every run, for every lock hash and every row order, so no
committed access token, refresh token or pushed request is ever covered by a committed barrier. */
module NoResurrection {
  import opened Records
  import opened Protocol
  import opened Discipline
  import opened Invariant

  // ----- the locks a transaction holds, read off its program

  lemma LockBefore(prog: seq<Stmt>, n: nat, i: nat, lock: Stmt)
    requires i <= n <= |prog| && lock in prog[..i]
    ensures lock in prog[..n]
  {
    assert prog[..i] <= prog[..n];
  }

  lemma HoldsShared(prog: seq<Stmt>, db: Db, u: Txn, g: Guard, scope: Scope)
    requires Disciplined(prog) && TxnInv(prog, db, u) && Check(g) in prog[..u.pc] && InScope(scope, g)
    ensures KeyOf(scope) in u.keys && u.keys[KeyOf(scope)] == Shared
  {
    var i :| 0 <= i < u.pc && prog[i] == Check(g);
    assert Prepared(prog[..i], prog[i]);
    LockBefore(prog, u.pc, i, Lock(KeyOf(scope), Shared));
    assert Done(db, u.keys, u.dels, Lock(KeyOf(scope), Shared));
  }

  lemma RecorderHoldsExclusive(prog: seq<Stmt>, db: Db, u: Txn, scope: Scope, w: Window)
    requires Disciplined(prog) && TxnInv(prog, db, u) && RecordBarrier(scope, w) in prog[..u.pc]
    ensures KeyOf(scope) in u.keys && u.keys[KeyOf(scope)] == Exclusive
  {
    var i :| 0 <= i < u.pc && prog[i] == RecordBarrier(scope, w);
    assert Prepared(prog[..i], prog[i]);
    LockBefore(prog, u.pc, i, Lock(KeyOf(scope), Exclusive));
    assert Done(db, u.keys, u.dels, Lock(KeyOf(scope), Exclusive));
  }

  lemma CascadeHoldsExclusive(prog: seq<Stmt>, db: Db, u: Txn, i: nat)
    requires Disciplined(prog) && TxnInv(prog, db, u) && i <= u.pc && i < |prog| && IsCascade(prog[i])
    ensures var key := KeyOf(ScopeOf(prog[i].pred).value); key in u.keys && u.keys[key] == Exclusive
  {
    var lock := Lock(KeyOf(ScopeOf(prog[i].pred).value), Exclusive);
    assert Prepared(prog[..i], prog[i]);
    LockBefore(prog, u.pc, i, lock);
    assert Done(db, u.keys, u.dels, lock);
  }

  /** A row selected by a cascade is in the cascade's scope. */
  lemma SelectedInScope(stmt: Stmt, id: RowId, row: Row)
    requires IsCascade(stmt) && Matches(stmt.pred, id, row)
    requires IdOf(row.payload) == id && row.cols == Project(row.payload)
    ensures IsGuarded(row.payload) && InScope(ScopeOf(stmt.pred).value, GuardOf(row.payload))
  {
  }

  /** A guarded record in a scope is selected by one of the scope's removals. */
  lemma ScopeSelected(scope: Scope, id: RowId, row: Row) returns (stmt: Stmt)
    requires IsGuarded(row.payload) && InScope(scope, GuardOf(row.payload))
    requires IdOf(row.payload) == id && row.cols == Project(row.payload)
    ensures stmt in CascadeOf(scope) && IsCascade(stmt) && Matches(stmt.pred, id, row)
  {
    match scope
    case ClientScope(c) => stmt := Deletion(ByClient(id.Table(), c));
    case FamilyScope(f) => stmt := Deletion(ByFamily(id.Table(), f));
    case ConsentScope(c, s) => stmt := Deletion(ByPair(id.Table(), c, s));
  }

  // ----- publishing

  /** A write becomes covered only through a barrier the publishing transaction recorded. */
  lemma CoverageComesFromBarrier(prog: seq<Stmt>, db: Db, v: Txn, g: Guard) returns (scope: Scope, w: Window)
    requires TxnInv(prog, db, v)
    requires Covers(Published(db, v), g) && !Covers(db, g)
    requires BarriersNamed(db)
    ensures InScope(scope, g) && RecordBarrier(scope, w) in prog[..v.pc]
  {
    var client, family, consent :=
      ClientScope(g.client), FamilyScope(g.family.GetOr("")), ConsentScope(g.client, g.subject.GetOr(""));
    NewCoverage(db, v, g);
    if BarrierId(client) in v.puts {
      scope := client;
      w := PutBarrier(prog, db, v, client);
    } else if BarrierId(family) in v.puts {
      scope := family;
      w := PutBarrier(prog, db, v, family);
    } else if BarrierId(consent) in v.puts {
      scope := consent;
      w := PutBarrier(prog, db, v, consent);
    } else {
      scope := client;
      w :| RecordBarrier(scope, w) in prog[..v.pc];
    }
  }

  lemma NewCoverage(db: Db, v: Txn, g: Guard)
    requires Covers(Published(db, v), g) && !Covers(db, g)
    ensures || BarrierId(ClientScope(g.client)) in v.puts || BarrierId(FamilyScope(g.family.GetOr(""))) in v.puts
            || BarrierId(ConsentScope(g.client, g.subject.GetOr(""))) in v.puts || Keyed(Clients, g.client) in v.dels
  {
  }

  lemma PutBarrier(prog: seq<Stmt>, db: Db, v: Txn, scope: Scope) returns (w: Window)
    requires TxnInv(prog, db, v) && BarrierId(scope) in v.puts
    ensures NonEmpty(scope) && RecordBarrier(scope, w) in prog[..v.pc]
  {
    assert PutOk(prog[..v.pc], BarrierId(scope), v.puts[BarrierId(scope)]);
    w :| RecordBarrier(scope, w) in prog[..v.pc];
  }

  /** What the publishing transaction has recorded a barrier for, it has removed. */
  lemma RecordedIsRemoved(prog: seq<Stmt>, db: Db, v: Txn, scope: Scope, w: Window, id: RowId)
    requires Disciplined(prog) && TxnInv(prog, db, v) && v.pc == |prog|
    requires RecordBarrier(scope, w) in prog && ColumnsAgree(db)
    requires id in db && IsGuarded(db[id].payload) && InScope(scope, GuardOf(db[id].payload))
    ensures id in v.dels
  {
    var stmt := ScopeSelected(scope, id, db[id]);
    assert CascadeOf(scope) <= set st | st in prog;
    assert prog[..v.pc] == prog;
    assert Done(db, v.keys, v.dels, stmt);
  }

  /** A program that records a barrier checks none, so it writes no guarded record. */
  lemma RecordersDoNotCheck(prog: seq<Stmt>, scope: Scope, w: Window)
    requires Disciplined(prog) && RecordBarrier(scope, w) in prog
    ensures forall stmt | stmt in prog :: !stmt.Check?
  {
    var i :| 0 <= i < |prog| && prog[i] == RecordBarrier(scope, w);
    assert Prepared(prog[..i], prog[i]);
    LockBefore(prog, |prog|, i, Lock(KeyOf(scope), Exclusive));
    assert prog[..|prog|] == prog;
  }

  lemma PublishKeepsSafe(prog: seq<Stmt>, db: Db, v: Txn)
    requires Disciplined(prog) && TxnInv(prog, db, v) && v.pc == |prog| && DbOk(db)
    ensures DbOk(Published(db, v))
  {
    var db' := Published(db, v);
    forall id | id in db' ensures IdOf(db'[id].payload) == id && db'[id].cols == Project(db'[id].payload) {
      if id in v.puts { assert PutOk(prog[..v.pc], id, v.puts[id]); }
    }
    forall scope | BarrierId(scope) in db' ensures NonEmpty(scope) {
      if BarrierId(scope) in v.puts { assert PutOk(prog[..v.pc], BarrierId(scope), v.puts[BarrierId(scope)]); }
    }
    forall id | id in db' && IsGuarded(db'[id].payload) ensures !Covers(db', GuardOf(db'[id].payload)) {
      var g := GuardOf(db'[id].payload);
      if id in v.puts {
        assert PutOk(prog[..v.pc], id, v.puts[id]);
        assert Done(db, v.keys, v.dels, Check(g));
      }
      if Covers(db', g) {
        var scope, w := CoverageComesFromBarrier(prog, db, v, g);
        assert prog[..v.pc] == prog;
        if id in v.puts {
          RecordersDoNotCheck(prog, scope, w);
        } else {
          RecordedIsRemoved(prog, db, v, scope, w, id);
        }
      }
    }
  }

  /** Two transactions cannot hold one key in conflicting modes, whatever the hash is. */
  lemma NoConflict(cfg: Config, s: State, t1: nat, t2: nat, key: string)
    requires LocksCompatible(cfg, s) && t1 in s.txns && t2 in s.txns && t1 != t2
    requires key in s.txns[t1].keys && key in s.txns[t2].keys
    ensures s.txns[t1].keys[key].Shared? && s.txns[t2].keys[key].Shared?
  {
    assert KeysCompatible(cfg, s.txns[t1].keys, s.txns[t2].keys);
  }

  /** Publishing does not disturb a refusal check another transaction has passed. */
  lemma PublishKeepsCheck(cfg: Config, s: State, tv: nat, tu: nat, pv: seq<Stmt>, pu: seq<Stmt>, g: Guard)
    requires tv in s.txns && tu in s.txns && tv != tu && LocksCompatible(cfg, s) && DbOk(s.db)
    requires Disciplined(pv) && TxnInv(pv, s.db, s.txns[tv])
    requires Disciplined(pu) && TxnInv(pu, s.db, s.txns[tu]) && Check(g) in pu[..s.txns[tu].pc]
    ensures !Covers(Published(s.db, s.txns[tv]), g)
  {
    var v, u := s.txns[tv], s.txns[tu];
    assert Done(s.db, u.keys, u.dels, Check(g));
    if Covers(Published(s.db, v), g) {
      var scope, w := CoverageComesFromBarrier(pv, s.db, v, g);
      RecorderHoldsExclusive(pv, s.db, v, scope, w);
      HoldsShared(pu, s.db, u, g, scope);
      NoConflict(cfg, s, tv, tu, KeyOf(scope));
    }
  }

  /** Publishing adds no row to a scope another transaction is removing. */
  lemma PublishKeepsCascade(cfg: Config, s: State, tv: nat, tu: nat, pv: seq<Stmt>, pu: seq<Stmt>,
                            i: nat, id: RowId)
    requires tv in s.txns && tu in s.txns && tv != tu && LocksCompatible(cfg, s)
    requires Disciplined(pv) && TxnInv(pv, s.db, s.txns[tv])
    requires Disciplined(pu) && TxnInv(pu, s.db, s.txns[tu])
    requires i <= s.txns[tu].pc && i < |pu| && IsCascade(pu[i])
    requires var db' := Published(s.db, s.txns[tv]); id in db' && Matches(pu[i].pred, id, db'[id])
    ensures id in s.db && Published(s.db, s.txns[tv])[id] == s.db[id]
  {
    var v, u := s.txns[tv], s.txns[tu];
    if id in v.puts {
      assert PutOk(pv[..v.pc], id, v.puts[id]);
      SelectedInScope(pu[i], id, v.puts[id]);
      var scope := ScopeOf(pu[i].pred).value;
      HoldsShared(pv, s.db, v, GuardOf(v.puts[id].payload), scope);
      CascadeHoldsExclusive(pu, s.db, u, i);
      NoConflict(cfg, s, tv, tu, KeyOf(scope));
    }
  }

  lemma PublishKeepsOther(cfg: Config, s: State, tv: nat, tu: nat, pv: seq<Stmt>, pu: seq<Stmt>)
    requires tv in s.txns && tu in s.txns && tv != tu && LocksCompatible(cfg, s) && DbOk(s.db)
    requires Disciplined(pv) && TxnInv(pv, s.db, s.txns[tv])
    requires Disciplined(pu) && TxnInv(pu, s.db, s.txns[tu])
    ensures TxnInv(pu, Published(s.db, s.txns[tv]), s.txns[tu])
  {
    var u, db' := s.txns[tu], Published(s.db, s.txns[tv]);
    forall stmt | stmt in pu[..u.pc] ensures Done(db', u.keys, u.dels, stmt) {
      assert Done(s.db, u.keys, u.dels, stmt);
      if stmt.Check? {
        PublishKeepsCheck(cfg, s, tv, tu, pv, pu, stmt.guard);
      } else if IsCascade(stmt) {
        var i :| 0 <= i < u.pc && pu[i] == stmt;
        forall id | id in db' && Matches(stmt.pred, id, db'[id]) ensures id in u.dels {
          PublishKeepsCascade(cfg, s, tv, tu, pv, pu, i, id);
        }
      }
    }
    if u.scan.Some? && IsCascade(pu[u.pc]) {
      forall id | id in db' && Matches(pu[u.pc].pred, id, db'[id])
        ensures id in u.dels || (id in u.scan.value && u.scan.value[id].born == db'[id].born)
      {
        PublishKeepsCascade(cfg, s, tv, tu, pv, pu, u.pc, id);
      }
    }
  }

  // ----- every step

  /** What no step does: touch another transaction, revive one that has ended, or change the committed
  rows other than by committing. */
  ghost predicate Framed(s: State, e: Event, s': State) {
    && s'.txns.Keys == s.txns.Keys + {e.t}
    && (forall t | t in s.txns && t != e.t :: s'.txns[t] == s.txns[t])
    && (e.Begin? <==> e.t !in s.txns)
    && (e.Begin? ==> s'.txns[e.t] == Started(e.op))
    && (!e.Begin? && s'.txns[e.t].outcome.Running? ==> s.txns[e.t].outcome.Running?)
    && s'.db == (if e.Publish? && e.t in s.txns then Published(s.db, s.txns[e.t]) else s.db)
    && s.clock <= s'.clock
  }

  lemma StepIsFramed(cfg: Config, s: State, e: Event, s': State)
    requires Step(cfg, s, e, s')
    ensures Framed(s, e, s')
  {
    if e.Exec? { ExecKeepsOutcome(cfg, s, e.t, Current(cfg, s, e.t), s'.txns[e.t]); }
  }

  lemma StepKeepsOp(cfg: Config, s: State, e: Event, s': State)
    requires Step(cfg, s, e, s') && !e.Begin?
    ensures s'.txns[e.t].op == s.txns[e.t].op
    ensures s'.txns[e.t].outcome.Running? ==> s.txns[e.t].outcome.Running?
  {
    if e.Exec? { ExecKeepsOp(cfg, s, e.t, Current(cfg, s, e.t), s'.txns[e.t]); }
  }

  lemma ExecKeepsOutcome(cfg: Config, s: State, t: nat, stmt: Stmt, u': Txn)
    requires t in s.txns && ExecStmt(cfg, s, t, stmt, u')
    ensures u'.outcome == s.txns[t].outcome || u'.outcome.RolledBack?
  {
  }

  lemma ProgramGrows(cfg: Config, u: Txn)
    requires Valid(u.op) && (u.pc == 0 ==> u.bound.None?)
    ensures Program(cfg, u.op, u.bound) <= Program(cfg, u.op, Claimed(u))
  {
  }

  lemma ExecKeepsOp(cfg: Config, s: State, t: nat, stmt: Stmt, u': Txn)
    requires t in s.txns && ExecStmt(cfg, s, t, stmt, u')
    ensures u'.op == s.txns[t].op && u'.bound == s.txns[t].bound
  {
  }

  lemma StartedOk(cfg: Config, db: Db, op: Operation)
    requires Valid(op)
    ensures RunningOk(cfg, db, Started(op))
  {
  }

  lemma ExecOwn(cfg: Config, s: State, t: nat, u': Txn)
    requires cfg.locking && Inv(cfg, s) && Runs(cfg, s, t) && ExecStmt(cfg, s, t, Current(cfg, s, t), u')
    ensures RunningOk(cfg, s.db, u')
  {
    var u := s.txns[t];
    assert RunningOk(cfg, s.db, u);
    ProgramDisciplined(cfg, u.op, u.bound);
    ExecKeepsTxn(cfg, s, t, Program(cfg, u.op, u.bound), u');
    ExecKeepsOp(cfg, s, t, Current(cfg, s, t), u');
  }

  lemma ScanStartOwn(cfg: Config, s: State, t: nat, snapshot: map<RowId, Row>, u': Txn)
    requires cfg.locking && Inv(cfg, s) && Runs(cfg, s, t)
    requires ScanStartStmt(s, t, Current(cfg, s, t), snapshot, u')
    ensures RunningOk(cfg, s.db, u')
  {
    var u := s.txns[t];
    assert RunningOk(cfg, s.db, u);
    ProgramDisciplined(cfg, u.op, u.bound);
    ScanStartKeepsTxn(s, t, Program(cfg, u.op, u.bound), snapshot, u');
  }

  lemma ScanRowOwn(cfg: Config, s: State, t: nat, id: RowId, u': Txn)
    requires cfg.locking && Inv(cfg, s) && Runs(cfg, s, t)
    requires ScanRowStmt(cfg, s, t, Current(cfg, s, t), id, u')
    ensures RunningOk(cfg, s.db, u')
  {
    var u := s.txns[t];
    assert RunningOk(cfg, s.db, u);
    ProgramDisciplined(cfg, u.op, u.bound);
    ScanRowKeepsTxn(cfg, s, t, Program(cfg, u.op, u.bound), id, u');
    assert u'.op == u.op && u'.bound == u.bound;
  }

  lemma ScanEndOwn(cfg: Config, s: State, t: nat, u': Txn)
    requires cfg.locking && Inv(cfg, s) && Runs(cfg, s, t) && ScanEndStmt(s.txns[t], u')
    ensures RunningOk(cfg, s.db, u')
  {
    var u := s.txns[t];
    assert RunningOk(cfg, s.db, u);
    if Proceeds(u.op, u.hits) {
      ProgramGrows(cfg, u);
      ScanEndKeepsTxn(Program(cfg, u.op, u.bound), Program(cfg, u.op, Claimed(u)), s.db, u, Claimed(u));
    }
  }

  /** What a transaction may come to hold: only what is compatible with everybody else. */
  ghost predicate Compatible(cfg: Config, s: State, t: nat, u': Txn) {
    forall t' | t' in s.txns && t' != t ::
      && KeysCompatible(cfg, u'.keys, s.txns[t'].keys) && KeysCompatible(cfg, s.txns[t'].keys, u'.keys)
      && u'.rows !! s.txns[t'].rows
  }

  lemma WithKeepsLocks(cfg: Config, s: State, t: nat, u': Txn)
    requires LocksCompatible(cfg, s) && RowsDisjoint(s) && Compatible(cfg, s, t, u')
    ensures LocksCompatible(cfg, With(s, t, u')) && RowsDisjoint(With(s, t, u'))
  {
  }

  lemma ExecKeepsLocks(cfg: Config, s: State, t: nat, stmt: Stmt, u': Txn)
    requires LocksCompatible(cfg, s) && RowsDisjoint(s) && t in s.txns && ExecStmt(cfg, s, t, stmt, u')
    ensures Compatible(cfg, s, t, u')
  {
    ExecKeepsRowsApart(cfg, s, t, stmt, u');
    assert !stmt.Lock? ==> u'.keys == s.txns[t].keys;
  }

  lemma ExecKeepsRowsApart(cfg: Config, s: State, t: nat, stmt: Stmt, u': Txn)
    requires RowsDisjoint(s) && t in s.txns && ExecStmt(cfg, s, t, stmt, u')
    ensures forall t' | t' in s.txns && t' != t :: u'.rows !! s.txns[t'].rows
  {
  }

  lemma ScanRowKeepsLocks(cfg: Config, s: State, t: nat, stmt: Stmt, id: RowId, u': Txn)
    requires LocksCompatible(cfg, s) && RowsDisjoint(s) && t in s.txns && ScanRowStmt(cfg, s, t, stmt, id, u')
    ensures Compatible(cfg, s, t, u')
  {
  }

  lemma StepKeepsLocks(cfg: Config, s: State, e: Event, s': State)
    requires LocksCompatible(cfg, s) && RowsDisjoint(s) && Step(cfg, s, e, s')
    ensures LocksCompatible(cfg, s') && RowsDisjoint(s')
  {
    var u' := s'.txns[e.t];
    assert s'.txns == With(s, e.t, u').txns;
    match e {
      case Exec(t) => ExecKeepsLocks(cfg, s, t, Current(cfg, s, t), u');
      case ScanRow(t, id) => ScanRowKeepsLocks(cfg, s, t, Current(cfg, s, t), id, u');
      case Begin(_, _) =>
      case _ => assert u'.keys == s.txns[e.t].keys || u'.keys == map[];
    }
    assert Compatible(cfg, s, e.t, u');
    WithKeepsLocks(cfg, s, e.t, u');
  }

  /** The invariant is preserved by every step, whatever the hash and the row order. */
  lemma StepKeepsInv(cfg: Config, s: State, e: Event, s': State)
    requires cfg.locking && Inv(cfg, s) && Step(cfg, s, e, s')
    ensures Inv(cfg, s')
  {
    StepKeepsLocks(cfg, s, e, s');
    if e.Publish? {
      PublishKeepsInv(cfg, s, e.t);
    } else {
      forall t | t in s'.txns ensures RunningOk(cfg, s'.db, s'.txns[t]) {
        if t == e.t { OwnStepKeepsOk(cfg, s, e, s'); } else { assert RunningOk(cfg, s.db, s.txns[t]); }
      }
    }
  }

  lemma OwnStepKeepsOk(cfg: Config, s: State, e: Event, s': State)
    requires cfg.locking && Inv(cfg, s) && Step(cfg, s, e, s') && !e.Publish?
    ensures RunningOk(cfg, s.db, s'.txns[e.t])
  {
    var t := e.t;
    match e {
      case Begin(_, op) => StartedOk(cfg, s.db, op);
      case Exec(_) => ExecOwn(cfg, s, t, s'.txns[t]);
      case ScanStart(_, snapshot) => ScanStartOwn(cfg, s, t, snapshot, s'.txns[t]);
      case ScanRow(_, id) => ScanRowOwn(cfg, s, t, id, s'.txns[t]);
      case ScanEnd(_) => ScanEndOwn(cfg, s, t, s'.txns[t]);
      case _ =>
    }
  }

  lemma PublishKeepsInv(cfg: Config, s: State, tv: nat)
    requires cfg.locking && Inv(cfg, s) && tv in s.txns && Finished(cfg, s.txns[tv])
    ensures DbOk(Published(s.db, s.txns[tv]))
    ensures forall t | t in s.txns && t != tv :: RunningOk(cfg, Published(s.db, s.txns[tv]), s.txns[t])
  {
    var v := s.txns[tv];
    assert RunningOk(cfg, s.db, v);
    var pv := Program(cfg, v.op, v.bound);
    ProgramDisciplined(cfg, v.op, v.bound);
    PublishKeepsSafe(pv, s.db, v);
    forall t | t in s.txns && t != tv ensures RunningOk(cfg, Published(s.db, v), s.txns[t]) {
      var u := s.txns[t];
      assert RunningOk(cfg, s.db, u);
      if u.outcome.Running? {
        ProgramDisciplined(cfg, u.op, u.bound);
        PublishKeepsOther(cfg, s, tv, t, pv, Program(cfg, u.op, u.bound));
      }
    }
  }

  lemma InitInv(cfg: Config)
    ensures Inv(cfg, Init())
  {
  }

  lemma {:induction false} RunKeepsInv(cfg: Config, states: seq<State>, events: seq<Event>, n: nat)
    requires cfg.locking && Run(cfg, states, events) && n < |states|
    ensures Inv(cfg, states[n])
  {
    if n == 0 {
      InitInv(cfg);
    } else {
      RunKeepsInv(cfg, states, events, n - 1);
      assert StepAt(cfg, states, events, n - 1);
      StepKeepsInv(cfg, states[n - 1], events[n - 1], states[n]);
    }
  }
}
