/** What a revocation leaves behind in the tables whose writes do not consult the barriers.

A record of the client or of the pair that survives the commit of its revocation was written by another
commit while the revocation ran; everything that was there when it began is gone. */
module Leftovers {
  import opened Options
  import opened Records
  import opened Protocol
  import opened Invariant
  import opened NoResurrection
  import opened RowInvariant
  import opened Atomic
  import opened Commit
  import opened SingleUse

  /** A removal that waits for locked rows. */
  predicate Thorough(stmt: Stmt) { IsRemoval(stmt) && !stmt.skipLocked }

  /** Every committed row the removal selects is removed, or among those written since. */
  ghost predicate Emptied(p: Pred, db: Db, dels: set<RowId>, since: set<RowId>) {
    forall id | id in db && Matches(p, id, db[id]) :: id in dels || id in since
  }

  /** Likewise for the removal in progress, with the rows still ahead of it. */
  ghost predicate Emptying(p: Pred, db: Db, dels: set<RowId>, since: set<RowId>, ahead: map<RowId, Row>) {
    forall id | id in db && Matches(p, id, db[id]) ::
      id in dels || id in since || (id in ahead && ahead[id].born == db[id].born)
  }

  ghost predicate LeftOk(prog: seq<Stmt>, db: Db, u: Txn, since: set<RowId>) {
    && u.pc <= |prog|
    && (forall stmt | stmt in prog[..u.pc] && Thorough(stmt) :: Emptied(stmt.pred, db, u.dels, since))
    && (u.scan.Some? ==>
          && u.pc < |prog| && prog[u.pc].Scan?
          && (Thorough(prog[u.pc]) ==> Emptying(prog[u.pc].pred, db, u.dels, since, u.scan.value)))
  }

  // ----- its own steps

  lemma ExecKeepsLeft(prog: seq<Stmt>, db: Db, u: Txn, since: set<RowId>, u': Txn)
    requires LeftOk(prog, db, u, since) && u.pc < |prog| && !prog[u.pc].Scan?
    requires u'.dels == u.dels && u'.scan == u.scan && u'.pc == u.pc + 1
    ensures LeftOk(prog, db, u', since)
  {
    assert prog[..u.pc + 1] == prog[..u.pc] + [prog[u.pc]];
  }

  lemma ScanStartKeepsLeft(s: State, t: nat, prog: seq<Stmt>, snapshot: map<RowId, Row>, u': Txn, since: set<RowId>)
    requires t in s.txns && s.txns[t].pc < |prog| && Separate(prog) && RowInv(prog, s.db, s.txns[t])
    requires LeftOk(prog, s.db, s.txns[t], since) && ScanStartStmt(s, t, prog[s.txns[t].pc], snapshot, u')
    ensures LeftOk(prog, s.db, u', since)
  {
    var u := s.txns[t];
    TableUntouched(prog, s.db, u);
    if Thorough(prog[u.pc]) {
      forall id | id in s.db && Matches(prog[u.pc].pred, id, s.db[id])
        ensures id in snapshot && snapshot[id].born == s.db[id].born
      {
        assert id in View(s.db, u) && View(s.db, u)[id] == s.db[id];
      }
    }
  }

  lemma ScanRowKeepsLeft(cfg: Config, s: State, t: nat, prog: seq<Stmt>, id: RowId, u': Txn, since: set<RowId>)
    requires t in s.txns && s.txns[t].pc < |prog| && RowInv(prog, s.db, s.txns[t]) && IsRemoval(prog[s.txns[t].pc])
    requires LeftOk(prog, s.db, s.txns[t], since) && ScanRowStmt(cfg, s, t, prog[s.txns[t].pc], id, u')
    ensures LeftOk(prog, s.db, u', since)
  {
    var u := s.txns[t];
    assert u.dels <= u'.dels && u'.pc == u.pc;
    assert u'.scan == Some(u.scan.value - {id});
    if Thorough(prog[u.pc]) && id !in u'.dels {
      assert !StillMatches(View(s.db, u), prog[u.pc].pred, u.scan.value, id);
      assert id in s.db ==> id in View(s.db, u) && View(s.db, u)[id] == s.db[id];
    }
  }

  lemma ScanEndKeepsLeft(prog: seq<Stmt>, prog': seq<Stmt>, db: Db, u: Txn, since: set<RowId>,
                         bound: Option<(string, string)>)
    requires LeftOk(prog, db, u, since) && u.scan == Some(map[]) && prog <= prog'
    ensures LeftOk(prog', db, u.(pc := u.pc + 1, scan := None, bound := bound), since)
  {
    assert prog'[..u.pc + 1] == prog[..u.pc] + [prog[u.pc]];
  }

  // ----- somebody else commits

  lemma PublishKeepsLeft(prog: seq<Stmt>, db: Db, u: Txn, since: set<RowId>, v: Txn)
    requires LeftOk(prog, db, u, since)
    ensures LeftOk(prog, Published(db, v), u, since + v.puts.Keys)
  {
    var db' := Published(db, v);
    assert forall id | id in db' && id !in v.puts :: id in db && db'[id] == db[id];
    forall stmt | stmt in prog[..u.pc] && Thorough(stmt) ensures Emptied(stmt.pred, db', u.dels, since + v.puts.Keys) {
      assert Emptied(stmt.pred, db, u.dels, since);
    }
  }

  // ----- over a run

  /** The rows written by the commits between two states of a run. */
  function WrittenBetween(states: seq<State>, events: seq<Event>, b: nat, n: nat): (ids: set<RowId>)
    requires |states| == |events| + 1 && n < |states|
  {
    if n <= b then {}
    else
      var e := events[n - 1];
      WrittenBetween(states, events, b, n - 1)
      + (if e.Publish? && e.t in states[n - 1].txns then states[n - 1].txns[e.t].puts.Keys else {})
  }

  ghost predicate LeftAt(cfg: Config, s: State, t: nat, since: set<RowId>) {
    t in s.txns && s.txns[t].outcome.Running? && Valid(s.txns[t].op)
    && LeftOk(Program(cfg, s.txns[t].op, s.txns[t].bound), s.db, s.txns[t], since)
  }

  lemma OwnStepKeepsLeft(cfg: Config, s: State, e: Event, s': State, since: set<RowId>)
    requires CommitInv(cfg, s) && Step(cfg, s, e, s') && !e.Begin? && !e.Publish?
    requires LeftAt(cfg, s, e.t, since) && Revoking(s.txns[e.t].op) && s'.txns[e.t].outcome.Running?
    ensures LeftAt(cfg, s', e.t, since)
  {
    var t, u, u' := e.t, s.txns[e.t], s'.txns[e.t];
    var prog := Program(cfg, u.op, u.bound);
    assert RowsOk(cfg, s.db, u) && RunningOk(cfg, s.db, u);
    StepKeepsOp(cfg, s, e, s');
    match e {
      case Exec(_) => OwnExecKeepsLeft(cfg, s, t, u', since);
      case ScanStart(_, snapshot) =>
        ProgramSeparate(cfg, u.op, u.bound);
        ScanStartKeepsLeft(s, t, prog, snapshot, u', since);
      case ScanRow(_, id) => OwnRowKeepsLeft(cfg, s, t, id, u', since);
      case ScanEnd(_) =>
        ProgramGrows(cfg, u);
        ScanEndKeepsLeft(prog, Program(cfg, u.op, Claimed(u)), s.db, u, since, Claimed(u));
      case _ =>
    }
  }

  lemma OwnRowKeepsLeft(cfg: Config, s: State, t: nat, id: RowId, u': Txn, since: set<RowId>)
    requires Runs(cfg, s, t) && ScanRowStmt(cfg, s, t, Current(cfg, s, t), id, u') && RowsOk(cfg, s.db, s.txns[t])
    requires LeftAt(cfg, s, t, since) && Revoking(s.txns[t].op)
    ensures u'.op == s.txns[t].op && u'.bound == s.txns[t].bound
    ensures LeftOk(Program(cfg, u'.op, u'.bound), s.db, u', since)
  {
    var u := s.txns[t];
    RemoversDoNotWrite(cfg, u.op, u.bound, u.pc);
    ScanRowKeepsPlace(cfg, s, t, Current(cfg, s, t), id, u');
    ScanRowKeepsLeft(cfg, s, t, Program(cfg, u.op, u.bound), id, u', since);
  }

  lemma OwnExecKeepsLeft(cfg: Config, s: State, t: nat, u': Txn, since: set<RowId>)
    requires Runs(cfg, s, t) && ExecStmt(cfg, s, t, Current(cfg, s, t), u') && RowsOk(cfg, s.db, s.txns[t])
    requires LeftAt(cfg, s, t, since) && Revoking(s.txns[t].op) && u'.outcome.Running?
    ensures u'.op == s.txns[t].op && u'.bound == s.txns[t].bound
    ensures LeftOk(Program(cfg, u'.op, u'.bound), s.db, u', since)
  {
    var u := s.txns[t];
    var prog := Program(cfg, u.op, u.bound);
    ExecKeepsOp(cfg, s, t, prog[u.pc], u');
    RemoversDoNotWrite(cfg, u.op, u.bound, u.pc);
    ProgramSeparate(cfg, u.op, u.bound);
    ExecKeepsRemovals(cfg, s, t, prog, u');
    RemoverAdvances(cfg, s, t, prog[u.pc], u');
    ExecKeepsLeft(prog, s.db, u, since, u');
  }

  lemma RemoverAdvances(cfg: Config, s: State, t: nat, stmt: Stmt, u': Txn)
    requires t in s.txns && ExecStmt(cfg, s, t, stmt, u') && RemoverStmt(stmt) && u'.outcome.Running?
    requires s.txns[t].outcome.Running?
    ensures !stmt.Scan? && u'.pc == s.txns[t].pc + 1 && u'.scan == s.txns[t].scan
  {
  }

  lemma {:induction false} RunKeepsLeft(cfg: Config, states: seq<State>, events: seq<Event>, b: nat, n: nat, t: nat,
                                        op: Operation)
    requires cfg.locking && Run(cfg, states, events) && b < n < |states| && events[b] == Begin(t, op) && Revoking(op)
    requires t in states[n].txns && states[n].txns[t].outcome.Running?
    ensures states[n].txns[t].op == op && LeftAt(cfg, states[n], t, WrittenBetween(states, events, b, n))
  {
    assert StepAt(cfg, states, events, n - 1) && StepAt(cfg, states, events, b);
    var s, e, s' := states[n - 1], events[n - 1], states[n];
    if n > b + 1 {
      StillThere(cfg, states, events, b, n - 1, t, op);
      StepIsFramed(cfg, s, e, s');
      RunKeepsLeft(cfg, states, events, b, n - 1, t, op);
      RunKeepsCommitInv(cfg, states, events, n - 1);
      LeftStep(cfg, s, e, s', t, WrittenBetween(states, events, b, n - 1));
    }
  }

  lemma LeftStep(cfg: Config, s: State, e: Event, s': State, t: nat, since: set<RowId>)
    requires CommitInv(cfg, s) && Step(cfg, s, e, s') && LeftAt(cfg, s, t, since) && Revoking(s.txns[t].op)
    requires t in s'.txns && s'.txns[t].outcome.Running?
    ensures s'.txns[t].op == s.txns[t].op
    ensures LeftAt(cfg, s', t, since + if e.Publish? && e.t in s.txns then s.txns[e.t].puts.Keys else {})
  {
    StepIsFramed(cfg, s, e, s');
    if e.t == t {
      StepKeepsOp(cfg, s, e, s');
      assert !e.Publish?;
      OwnStepKeepsLeft(cfg, s, e, s', since);
      assert since + {} == since;
    } else if e.Publish? {
      PublishKeepsLeft(Program(cfg, s.txns[t].op, s.txns[t].bound), s.db, s.txns[t], since, s.txns[e.t]);
    } else {
      assert since + {} == since;
    }
  }

  /** A transaction that has begun stays in the state. */
  lemma {:induction false} StillThere(cfg: Config, states: seq<State>, events: seq<Event>, b: nat, n: nat, t: nat,
                                      op: Operation)
    requires Run(cfg, states, events) && b < n < |states| && events[b] == Begin(t, op)
    ensures t in states[n].txns
  {
    assert StepAt(cfg, states, events, n - 1);
    StepIsFramed(cfg, states[n - 1], events[n - 1], states[n]);
    if n > b + 1 { StillThere(cfg, states, events, b, n - 1, t, op); }
  }

  // ----- what remains

  lemma FinishedEmptied(prog: seq<Stmt>, db: Db, u: Txn, since: set<RowId>, id: RowId, stmts: seq<Stmt>)
    requires LeftOk(prog, db, u, since) && u.pc == |prog| && id in db && RemovedBy(stmts, id, db[id])
    requires forall stmt | stmt in stmts :: stmt in prog && Thorough(stmt)
    ensures id in u.dels || id in since
  {
    assert prog[..u.pc] == prog;
    var stmt :| stmt in stmts && IsRemoval(stmt) && Matches(stmt.pred, id, db[id]);
    assert Emptied(stmt.pred, db, u.dels, since);
  }

  lemma RevocationHas(cfg: Config, claim: seq<Stmt>, scope: Scope, w: Window, removals: seq<Stmt>)
    ensures forall stmt | stmt in removals :: stmt in claim + Revocation(cfg, scope, w, removals)
  {
    var prog := claim + Revocation(cfg, scope, w, removals);
    forall i | 0 <= i < |removals| ensures removals[i] in prog {
      assert prog[|prog| - |removals| + i] == removals[i];
    }
  }

  lemma NotTheBarrier(db: Db, u: Txn, scope: Scope, w: Window, stmts: seq<Stmt>, id: RowId)
    requires Revokes(db, u, scope, w, stmts) && id in Published(db, u) && !Published(db, u)[id].payload.Barrier?
    ensures id in db && Published(db, u)[id] == db[id] && id !in u.dels
  {
    assert id in u.puts ==> id in Payloads(u.puts);
  }

  /** A row that a finished revocation leaves although its removals select it was written since. */
  lemma Survivor(cfg: Config, s: State, t: nat, since: set<RowId>, claim: seq<Stmt>, scope: Scope, w: Window,
                 removals: seq<Stmt>, id: RowId)
    requires cfg.locking && CommitInv(cfg, s) && LeftAt(cfg, s, t, since) && Finished(cfg, s.txns[t])
    requires Program(cfg, s.txns[t].op, s.txns[t].bound) == claim + Revocation(cfg, scope, w, removals)
    requires (forall stmt | stmt in claim :: IsRemoval(stmt)) && (forall stmt | stmt in removals :: Thorough(stmt))
    requires var db' := Published(s.db, s.txns[t]);
             id in db' && !db'[id].payload.Barrier? && RemovedBy(removals, id, db'[id])
    ensures id in since
  {
    var u := s.txns[t];
    RevocationCommit(cfg, s, t, claim, scope, w, removals);
    NotTheBarrier(s.db, u, scope, w, claim + removals, id);
    RevocationHas(cfg, claim, scope, w, removals);
    FinishedEmptied(Program(cfg, u.op, u.bound), s.db, u, since, id, removals);
  }

  lemma DeletionSurvivor(cfg: Config, s: State, t: nat, since: set<RowId>, c: string, w: Window, id: RowId)
    requires cfg.locking && CommitInv(cfg, s) && LeftAt(cfg, s, t, since) && Finished(cfg, s.txns[t])
    requires s.txns[t].op == DeleteClient(c, w) && ColumnsAgree(Published(s.db, s.txns[t]))
    requires id in Published(s.db, s.txns[t]) && OfClient(Published(s.db, s.txns[t])[id].payload, c)
    ensures id in since
  {
    DeletionProgram(cfg, c, w, s.txns[t].bound);
    RemovedClient(id, Published(s.db, s.txns[t])[id], c);
    ThoroughRemovals(c, "");
    Survivor(cfg, s, t, since, [], ClientScope(c), w, ClientRemovals(c), id);
  }

  lemma WithdrawalSurvivor(cfg: Config, s: State, t: nat, since: set<RowId>, consent: string, w: Window,
                           c: string, sub: string, id: RowId)
    requires cfg.locking && CommitInv(cfg, s) && LeftAt(cfg, s, t, since) && Finished(cfg, s.txns[t])
    requires s.txns[t].op == RevokeConsent(consent, w) && s.txns[t].bound == Some((c, sub))
    requires ColumnsAgree(Published(s.db, s.txns[t]))
    requires id in Published(s.db, s.txns[t]) && OfPair(Published(s.db, s.txns[t])[id].payload, c, sub)
    ensures id in since
  {
    var claim := [Deletion(ByKey(Keyed(Consents, consent)))];
    WithdrawalProgram(cfg, consent, w, c, sub);
    PairSelected(Published(s.db, s.txns[t]), id, c, sub);
    ThoroughRemovals(c, sub);
    Survivor(cfg, s, t, since, claim, ConsentScope(c, sub), w, PairRemovals(c, sub), id);
  }

  lemma PairSelected(db: Db, id: RowId, c: string, sub: string)
    requires ColumnsAgree(db) && id in db && OfPair(db[id].payload, c, sub)
    ensures RemovedBy(PairRemovals(c, sub), id, db[id]) && !db[id].payload.Barrier?
  {
    RemovedPair(id, db[id], c, sub);
  }

  lemma ThoroughRemovals(c: string, s: string)
    ensures forall stmt | stmt in ClientRemovals(c) :: Thorough(stmt)
    ensures forall stmt | stmt in PairRemovals(c, s) :: Thorough(stmt)
  {
  }

  lemma PublishedAgree(cfg: Config, states: seq<State>, events: seq<Event>, n: nat)
    requires cfg.locking && Run(cfg, states, events) && n < |events| && events[n].Publish?
    ensures events[n].t in states[n].txns && states[n + 1].db == Published(states[n].db, states[n].txns[events[n].t])
    ensures ColumnsAgree(states[n + 1].db)
  {
    assert StepAt(cfg, states, events, n);
    RunKeepsInv(cfg, states, events, n + 1);
  }

  /** What remains of a client after its deletion has committed was written by commits that came in while
  the deletion ran. */
  lemma DeletionLeavesOnlyNew(cfg: Config, states: seq<State>, events: seq<Event>, b: nat, n: nat, t: nat,
                              c: string, w: Window, id: RowId)
    requires cfg.locking && Run(cfg, states, events) && b < n < |events|
    requires events[b] == Begin(t, DeleteClient(c, w)) && events[n] == Publish(t)
    requires id in states[n + 1].db && OfClient(states[n + 1].db[id].payload, c)
    ensures id in WrittenBetween(states, events, b, n)
  {
    CommitStep(cfg, states, events, n);
    PublishedAgree(cfg, states, events, n);
    RunKeepsLeft(cfg, states, events, b, n, t, DeleteClient(c, w));
    DeletionSurvivor(cfg, states[n], t, WrittenBetween(states, events, b, n), c, w, id);
  }

  /** Likewise for a withdrawal and the records of the pair it claimed. */
  lemma WithdrawalLeavesOnlyNew(cfg: Config, states: seq<State>, events: seq<Event>, b: nat, n: nat, t: nat,
                                consent: string, w: Window, c: string, s: string, id: RowId)
    requires cfg.locking && Run(cfg, states, events) && b < n < |events|
    requires events[b] == Begin(t, RevokeConsent(consent, w)) && events[n] == Publish(t)
    requires t in states[n].txns && states[n].txns[t].bound == Some((c, s))
    requires id in states[n + 1].db && OfPair(states[n + 1].db[id].payload, c, s)
    ensures id in WrittenBetween(states, events, b, n)
  {
    CommitStep(cfg, states, events, n);
    PublishedAgree(cfg, states, events, n);
    RunKeepsLeft(cfg, states, events, b, n, t, RevokeConsent(consent, w));
    WithdrawalSurvivor(cfg, states[n], t, WrittenBetween(states, events, b, n), consent, w, c, s, id);
  }
}
