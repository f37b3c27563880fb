/** A record leaves the store at most once.

`born` names one stay of a row in its table, from its insertion to its removal. Over every run each
stay ends at most once, through one committed removal, and never starts again; so of all the callers
that try to take a record at most one receives it. */
module SingleUse {
  import opened Options
  import opened Records
  import opened Protocol
  import opened Invariant
  import opened NoResurrection
  import opened RowInvariant
  import opened Atomic
  import opened Commit
  import opened Guarantees

  // ----- identities are never shared

  /** No committed row, and no uncommitted one except the given one, carries the identity. */
  ghost predicate Unborn(s: State, b: nat, t: nat, id: RowId) {
    && (forall i | i in s.db :: s.db[i].born != b)
    && (forall t', i | t' in s.txns && s.txns[t'].outcome.Running? && i in s.txns[t'].puts && (t', i) != (t, id) ::
          s.txns[t'].puts[i].born != b)
  }

  ghost predicate PutBorn(s: State, t: nat, id: RowId)
    requires t in s.txns && id in s.txns[t].puts
  {
    var b := s.txns[t].puts[id].born;
    id !in s.txns[t].dels && b < s.clock && if id in s.db then b == s.db[id].born else Unborn(s, b, t, id)
  }

  ghost predicate BornOk(s: State) {
    && (forall id | id in s.db :: s.db[id].born < s.clock)
    && (forall a, b | a in s.db && b in s.db && s.db[a].born == s.db[b].born :: a == b)
    && (forall t, id | t in s.txns && s.txns[t].outcome.Running? && id in s.txns[t].puts :: PutBorn(s, t, id))
  }

  /** How one step changes the identities a transaction is about to write. */
  ghost predicate BornStep(db: Db, clock: nat, u: Txn, u': Txn) {
    && (forall id | id in u'.puts ::
          if id in u.puts then u'.puts[id].born == u.puts[id].born
          else if id in db then u'.puts[id].born == db[id].born
          else u'.puts[id].born == clock)
    && (forall a, b | a in u'.puts && b in u'.puts && a !in u.puts && b !in u.puts :: a == b)
    && (u.puts.Keys !! u.dels ==> u'.puts.Keys !! u'.dels)
  }

  lemma WrittenBorn(db: Db, u: Txn, r: Record, clock: nat)
    requires IdOf(r) !in u.dels
    ensures BornStep(db, clock, u, Written(db, u, r, clock))
  {
  }

  /** No statement writes a row its own transaction has removed. */
  lemma WriteNotRemoved(prog: seq<Stmt>, db: Db, u: Txn)
    requires RowInv(prog, db, u) && Separate(prog) && OneKind(prog) && u.pc < |prog|
    ensures IsWrite(prog[u.pc]) ==> IdOf(prog[u.pc].rec) !in u.dels
    ensures prog[u.pc].RecordBarrier? ==> BarrierId(prog[u.pc].scope) !in u.dels
  {
    assert prog[u.pc] in prog;
    if IsWrite(prog[u.pc]) {
      NothingRemoved(prog, db, u);
    } else if prog[u.pc].RecordBarrier? {
      BarrierUntouched(prog, db, u);
    }
  }

  lemma ExecBorn(cfg: Config, s: State, t: nat, stmt: Stmt, u': Txn)
    requires t in s.txns && ExecStmt(cfg, s, t, stmt, u')
    requires IsWrite(stmt) ==> IdOf(stmt.rec) !in s.txns[t].dels
    requires stmt.RecordBarrier? ==> BarrierId(stmt.scope) !in s.txns[t].dels
    ensures BornStep(s.db, s.clock, s.txns[t], u')
  {
    var u := s.txns[t];
    match stmt {
      case Upsert(r) => WrittenBorn(s.db, u, r, s.clock);
      case InsertNew(r) => WrittenBorn(s.db, u, r, s.clock);
      case RecordBarrier(scope, w) =>
        WrittenBorn(s.db, u, Merge(Stored(View(s.db, u), BarrierId(scope)), scope, w), s.clock);
      case _ =>
    }
  }

  lemma ScanRowBorn(cfg: Config, s: State, t: nat, stmt: Stmt, id: RowId, u': Txn)
    requires t in s.txns && ScanRowStmt(cfg, s, t, stmt, id, u')
    ensures BornStep(s.db, s.clock, s.txns[t], u')
  {
  }

  lemma OwnStepBorn(cfg: Config, s: State, e: Event, s': State)
    requires CommitInv(cfg, s) && Step(cfg, s, e, s') && !e.Begin?
    ensures BornStep(s.db, s.clock, s.txns[e.t], s'.txns[e.t])
  {
    var t, u := e.t, s.txns[e.t];
    assert RowsOk(cfg, s.db, u);
    match e {
      case Exec(_) =>
        ProgramSeparate(cfg, u.op, u.bound);
        ProgramOneKind(cfg, u.op, u.bound);
        WriteNotRemoved(Program(cfg, u.op, u.bound), s.db, u);
        ExecBorn(cfg, s, t, Current(cfg, s, t), s'.txns[t]);
      case ScanRow(_, id) => ScanRowBorn(cfg, s, t, Current(cfg, s, t), id, s'.txns[t]);
      case _ =>
    }
  }

  /** A step of one transaction that leaves the committed rows alone. */
  lemma QuietStepKeepsBorn(s: State, t: nat, u': Txn, clock': nat)
    requires BornOk(s) && t in s.txns && (u'.outcome.Running? ==> s.txns[t].outcome.Running?)
    requires BornStep(s.db, s.clock, s.txns[t], u')
    requires s.clock <= clock' && (u'.puts.Keys <= s.txns[t].puts.Keys + s.db.Keys || s.clock < clock')
    ensures BornOk(With(s, t, u').(clock := clock'))
  {
    var s' := With(s, t, u').(clock := clock');
    forall t1, id | t1 in s'.txns && s'.txns[t1].outcome.Running? && id in s'.txns[t1].puts
      ensures PutBorn(s', t1, id)
    {
      if t1 != t || id in s.txns[t].puts { assert PutBorn(s, t1, id); }
    }
  }

  lemma BeginKeepsBorn(s: State, t: nat, op: Operation)
    requires BornOk(s) && t !in s.txns
    ensures BornOk(With(s, t, Started(op)))
  {
    var s' := With(s, t, Started(op));
    forall t1, id | t1 in s'.txns && s'.txns[t1].outcome.Running? && id in s'.txns[t1].puts
      ensures PutBorn(s', t1, id)
    {
      assert PutBorn(s, t1, id);
    }
  }

  lemma PublishKeepsBorn(s: State, v: nat)
    requires BornOk(s) && RowsDisjoint(s) && v in s.txns && s.txns[v].outcome.Running?
    requires forall t | t in s.txns && s.txns[t].outcome.Running? ::
               s.txns[t].puts.Keys + s.txns[t].dels <= s.txns[t].rows
    ensures BornOk(With(s, v, s.txns[v].(outcome := Committed)).(db := Published(s.db, s.txns[v])))
  {
    var s' := With(s, v, s.txns[v].(outcome := Committed)).(db := Published(s.db, s.txns[v]));
    forall id | id in s'.db ensures s'.db[id].born < s'.clock {
      if id in s.txns[v].puts { assert PutBorn(s, v, id); }
    }
    forall a, b | a in s'.db && b in s'.db && s'.db[a].born == s'.db[b].born ensures a == b {
      if a in s.txns[v].puts { assert PutBorn(s, v, a); }
      if b in s.txns[v].puts { assert PutBorn(s, v, b); }
    }
    forall t, id | t in s'.txns && s'.txns[t].outcome.Running? && id in s'.txns[t].puts ensures PutBorn(s', t, id) {
      assert PutBorn(s, t, id);
      assert id in s.txns[t].rows && id !in s.txns[v].rows;
    }
  }

  /** The invariant behind single use: identities of rows are never shared. */
  ghost predicate BornInv(cfg: Config, s: State) { CommitInv(cfg, s) && BornOk(s) }

  lemma StepKeepsBorn(cfg: Config, s: State, e: Event, s': State)
    requires BornInv(cfg, s) && Step(cfg, s, e, s')
    ensures BornOk(s')
  {
    match e {
      case Begin(t, op) => BeginKeepsBorn(s, t, op);
      case Publish(t) =>
        RunningRows(cfg, s);
        PublishKeepsBorn(s, t);
      case _ => OtherStepKeepsBorn(cfg, s, e, s');
    }
  }

  lemma OtherStepKeepsBorn(cfg: Config, s: State, e: Event, s': State)
    requires BornInv(cfg, s) && Step(cfg, s, e, s') && !e.Begin? && !e.Publish?
    ensures BornOk(s')
  {
    OwnStepBorn(cfg, s, e, s');
    OwnStepQuiet(cfg, s, e, s');
  }

  lemma StepKeepsBornInv(cfg: Config, s: State, e: Event, s': State)
    requires cfg.locking && BornInv(cfg, s) && Step(cfg, s, e, s')
    ensures BornInv(cfg, s')
  {
    StepKeepsCommitInv(cfg, s, e, s');
    StepKeepsBorn(cfg, s, e, s');
  }

  lemma RunningRows(cfg: Config, s: State)
    requires Inv(cfg, s)
    ensures forall t | t in s.txns && s.txns[t].outcome.Running? ::
              s.txns[t].puts.Keys + s.txns[t].dels <= s.txns[t].rows
  {
    forall t | t in s.txns && s.txns[t].outcome.Running?
      ensures s.txns[t].puts.Keys + s.txns[t].dels <= s.txns[t].rows
    {
      assert RunningOk(cfg, s.db, s.txns[t]);
    }
  }

  lemma OwnStepQuiet(cfg: Config, s: State, e: Event, s': State)
    requires BornOk(s) && Step(cfg, s, e, s') && !e.Begin? && !e.Publish?
    requires BornStep(s.db, s.clock, s.txns[e.t], s'.txns[e.t])
    ensures BornOk(s')
  {
    var u' := s'.txns[e.t];
    assert s' == With(s, e.t, u').(clock := s'.clock);
    QuietStepKeepsBorn(s, e.t, u', s'.clock);
  }

  lemma {:induction false} RunKeepsBornInv(cfg: Config, states: seq<State>, events: seq<Event>, n: nat)
    requires cfg.locking && Run(cfg, states, events) && n < |states|
    ensures BornInv(cfg, states[n])
  {
    if n == 0 {
      InitInv(cfg);
    } else {
      RunKeepsBornInv(cfg, states, events, n - 1);
      assert StepAt(cfg, states, events, n - 1);
      StepKeepsBornInv(cfg, states[n - 1], events[n - 1], states[n]);
    }
  }

  // ----- a stay ends once

  /** The step commits the removal of the row with this identity. */
  predicate Leaves(s: State, e: Event, id: RowId, b: nat) {
    e.Publish? && e.t in s.txns && id in s.txns[e.t].dels && id in s.db && s.db[id].born == b
  }

  ghost predicate Gone(s: State, b: nat) {
    && b < s.clock
    && (forall id | id in s.db :: s.db[id].born != b)
    && (forall t, id | t in s.txns && s.txns[t].outcome.Running? && id in s.txns[t].puts ::
         s.txns[t].puts[id].born != b)
  }

  lemma LeavingIsGone(cfg: Config, s: State, e: Event, s': State, id: RowId, b: nat)
    requires BornInv(cfg, s) && Step(cfg, s, e, s') && Leaves(s, e, id, b)
    ensures Gone(s', b)
  {
    var v := s.txns[e.t];
    forall i | i in s'.db ensures s'.db[i].born != b {
      if i in v.puts { assert PutBorn(s, e.t, i); }
    }
    forall t, i | t in s'.txns && s'.txns[t].outcome.Running? && i in s'.txns[t].puts
      ensures s'.txns[t].puts[i].born != b
    {
      assert PutBorn(s, t, i);
      assert RunningOk(cfg, s.db, v) && RunningOk(cfg, s.db, s.txns[t]);
      assert i in s.txns[t].rows && id in v.rows;
    }
  }

  lemma GoneStays(cfg: Config, s: State, e: Event, s': State, b: nat)
    requires BornInv(cfg, s) && Step(cfg, s, e, s') && Gone(s, b)
    ensures Gone(s', b)
  {
    StepIsFramed(cfg, s, e, s');
    if !e.Begin? { OwnStepBorn(cfg, s, e, s'); }
    if e.Publish? { assert Finished(cfg, s.txns[e.t]); }
    StaysGone(s, e, s', b);
  }

  lemma StaysGone(s: State, e: Event, s': State, b: nat)
    requires Framed(s, e, s') && Gone(s, b)
    requires !e.Begin? ==> BornStep(s.db, s.clock, s.txns[e.t], s'.txns[e.t])
    requires e.Publish? ==> s.txns[e.t].outcome.Running?
    ensures Gone(s', b)
  {
  }

  /** Once its removal has committed, an identity never stands in the table again. */
  lemma {:induction false} RunKeepsGone(cfg: Config, states: seq<State>, events: seq<Event>, i: nat, n: nat,
                                        id: RowId, b: nat)
    requires cfg.locking && Run(cfg, states, events) && i < n < |states| && Leaves(states[i], events[i], id, b)
    ensures Gone(states[n], b)
  {
    RunKeepsBornInv(cfg, states, events, n - 1);
    assert StepAt(cfg, states, events, n - 1);
    if i == n - 1 {
      LeavingIsGone(cfg, states[i], events[i], states[n], id, b);
    } else {
      RunKeepsGone(cfg, states, events, i, n - 1, id, b);
      GoneStays(cfg, states[n - 1], events[n - 1], states[n], b);
    }
  }

  /** Each row leaves at most once in the whole run, whoever removes it. */
  lemma LeavesOnce(cfg: Config, states: seq<State>, events: seq<Event>, i: nat, j: nat, id: RowId, id': RowId, b: nat)
    requires cfg.locking && Run(cfg, states, events) && i < |events| && j < |events|
    requires Leaves(states[i], events[i], id, b) && Leaves(states[j], events[j], id', b)
    ensures i == j && id == id'
  {
    if i < j {
      RunKeepsGone(cfg, states, events, i, j, id, b);
    } else if j < i {
      RunKeepsGone(cfg, states, events, j, i, id', b);
    } else {
      RunKeepsBornInv(cfg, states, events, i);
    }
  }

  /** The step commits a take that returned this row to its caller. */
  predicate Receives(s: State, e: Event, id: RowId, row: Row) {
    && e.Publish? && e.t in s.txns && s.txns[e.t].op == Take(id)
    && id in s.txns[e.t].hits && s.txns[e.t].hits[id] == row
  }

  lemma ReceivedLeaves(cfg: Config, s: State, e: Event, s': State, id: RowId, row: Row)
    requires CommitInv(cfg, s) && Step(cfg, s, e, s') && Receives(s, e, id, row)
    ensures Leaves(s, e, id, row.born) && s.db[id] == row
  {
    assert RowsOk(cfg, s.db, s.txns[e.t]);
  }

  /** At most one caller ever receives a given record, and nobody else removes it: not another take, not
  a revocation, not a sweep. */
  lemma ReceivedByOne(cfg: Config, states: seq<State>, events: seq<Event>, i: nat, j: nat, id: RowId, id': RowId,
                      row: Row)
    requires cfg.locking && Run(cfg, states, events) && i < |events| && j < |events|
    requires Receives(states[i], events[i], id, row) && Leaves(states[j], events[j], id', row.born)
    ensures i == j && id == id'
  {
    RunKeepsCommitInv(cfg, states, events, i);
    assert StepAt(cfg, states, events, i);
    ReceivedLeaves(cfg, states[i], events[i], states[i + 1], id, row);
    LeavesOnce(cfg, states, events, i, j, id, id', row.born);
  }

  /** A row that is there and later is not there has left through a committed removal: a take, a
  revocation or a sweep. */
  lemma {:induction false} LossIsARemoval(cfg: Config, states: seq<State>, events: seq<Event>, i: nat, n: nat,
                                          id: RowId)
      returns (k: nat)
    requires cfg.locking && Run(cfg, states, events) && i <= n < |states|
    requires id in states[i].db
    requires id !in states[n].db || states[n].db[id].born != states[i].db[id].born
    ensures i <= k < n && Leaves(states[k], events[k], id, states[i].db[id].born)
    ensures Removes(states[k].txns[events[k].t].op)
  {
    var b := states[i].db[id].born;
    if id in states[n - 1].db && states[n - 1].db[id].born == b {
      k := n - 1;
      RunLosingStep(cfg, states, events, k, id);
    } else {
      k := LossIsARemoval(cfg, states, events, i, n - 1, id);
    }
  }

  lemma RunLosingStep(cfg: Config, states: seq<State>, events: seq<Event>, k: nat, id: RowId)
    requires cfg.locking && Run(cfg, states, events) && k < |events| && id in states[k].db
    requires id !in states[k + 1].db || states[k + 1].db[id].born != states[k].db[id].born
    ensures Leaves(states[k], events[k], id, states[k].db[id].born) && Removes(states[k].txns[events[k].t].op)
  {
    RunKeepsBornInv(cfg, states, events, k);
    assert StepAt(cfg, states, events, k);
    LosingStep(cfg, states[k], events[k], states[k + 1], id);
  }

  lemma LosingStep(cfg: Config, s: State, e: Event, s': State, id: RowId)
    requires BornInv(cfg, s) && Step(cfg, s, e, s') && id in s.db
    requires id !in s'.db || s'.db[id].born != s.db[id].born
    ensures Leaves(s, e, id, s.db[id].born) && Removes(s.txns[e.t].op)
  {
    StepIsFramed(cfg, s, e, s');
    LosingCommit(cfg, s, e.t, id);
  }

  lemma LosingCommit(cfg: Config, s: State, t: nat, id: RowId)
    requires BornInv(cfg, s) && t in s.txns && s.txns[t].outcome.Running? && id in s.db
    requires var db' := Published(s.db, s.txns[t]); id !in db' || db'[id].born != s.db[id].born
    ensures id in s.txns[t].dels && Removes(s.txns[t].op)
  {
    assert id in s.txns[t].puts ==> PutBorn(s, t, id);
    assert RowsOk(cfg, s.db, s.txns[t]);
    RemovalsOnly(cfg, s.db, s.txns[t]);
  }

  lemma RemovalsOnly(cfg: Config, db: Db, u: Txn)
    requires u.outcome.Running? && RowsOk(cfg, db, u) && u.dels != {}
    ensures Removes(u.op)
  {
    if !Removes(u.op) {
      WritersRemoveNothing(cfg, u.op, u.bound);
      NothingRemoved(Program(cfg, u.op, u.bound), db, u);
    }
  }

  lemma WritersRemoveNothing(cfg: Config, op: Operation, bound: Option<(string, string)>)
    requires Valid(op) && !Removes(op)
    ensures forall stmt | stmt in Program(cfg, op, bound) :: !IsRemoval(stmt)
  {
  }

  // ----- replay identifiers

  /** The step commits a claim that was granted. */
  predicate Grants(s: State, e: Event, r: Record) {
    e.Publish? && e.t in s.txns && s.txns[e.t].op == Claim(r) && s.txns[e.t].puts != map[]
  }

  lemma GrantedWasAbsent(cfg: Config, states: seq<State>, events: seq<Event>, i: nat, r: Record)
    requires cfg.locking && Run(cfg, states, events) && i < |events| && Grants(states[i], events[i], r)
    ensures IdOf(r) !in states[i].db && IdOf(r) in states[i + 1].db
  {
    assert StepAt(cfg, states, events, i);
    RunKeepsCommitInv(cfg, states, events, i);
    CommitClaim(cfg, states[i], events[i].t, r);
    assert IdOf(r) in Abs(states[i + 1].db);
  }

  /** Of two granted claims of one identifier, a sweep has removed the identifier in between. */
  lemma ClaimedOnceBetweenSweeps(cfg: Config, states: seq<State>, events: seq<Event>, i: nat, j: nat,
                                 r: Record, r': Record) returns (k: nat)
    requires cfg.locking && Run(cfg, states, events) && i < j < |events|
    requires Grants(states[i], events[i], r) && Grants(states[j], events[j], r') && IdOf(r) == IdOf(r') && r.ReplayId?
    ensures i < k < j && events[k].Publish? && events[k].t in states[k].txns
    ensures var u := states[k].txns[events[k].t]; u.op.SweepBatch? && u.op.table == ReplayIds && IdOf(r) in u.dels
  {
    GrantedWasAbsent(cfg, states, events, i, r);
    GrantedWasAbsent(cfg, states, events, j, r');
    k := LossIsARemoval(cfg, states, events, i + 1, j, IdOf(r));
    CommitStep(cfg, states, events, k);
    ReplayIdsAreSwept(cfg, states[k], events[k].t, IdOf(r));
  }

  lemma CommitStep(cfg: Config, states: seq<State>, events: seq<Event>, k: nat)
    requires cfg.locking && Run(cfg, states, events) && k < |events| && events[k].Publish?
    ensures CommitInv(cfg, states[k]) && events[k].t in states[k].txns && Finished(cfg, states[k].txns[events[k].t])
  {
    RunKeepsCommitInv(cfg, states, events, k);
    assert StepAt(cfg, states, events, k);
  }

  lemma ReplayIdsAreSwept(cfg: Config, s: State, t: nat, id: RowId)
    requires CommitInv(cfg, s) && t in s.txns && s.txns[t].outcome.Running? && id in s.txns[t].dels
    requires id.Table() == ReplayIds
    ensures s.txns[t].op.SweepBatch? && s.txns[t].op.table == ReplayIds
  {
    var u := s.txns[t];
    assert RowsOk(cfg, s.db, u);
    var prog := Program(cfg, u.op, u.bound);
    assert RemovedBy(prog[..Reach(u)], id, u.hits[id]);
    assert RemovedBy(prog, id, u.hits[id]) by {
      var stmt :| stmt in prog[..Reach(u)] && stmt.Scan? && stmt.action.Remove? && Matches(stmt.pred, id, u.hits[id]);
      assert stmt in prog;
    }
    OnlySweepsRemove(cfg, u.op, u.bound, id, u.hits[id]);
  }
}
