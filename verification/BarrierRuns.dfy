/** What a committed barrier holds, over any run: the join of the committed revocations of its scope. */
module BarrierRuns {
  import opened Options
  import opened Records
  import opened Protocol
  import opened Invariant
  import opened NoResurrection
  import opened RowInvariant
  import opened Commit
  import opened SingleUse
  import opened BarrierJoin

  /** The scope and the window a transaction records; a withdrawal learns its scope from its claim. */
  function RecordedBy(u: Txn): (r: Option<(Scope, Window)>) {
    match u.op
    case DeleteClient(c, w) => Some((ClientScope(c), w))
    case RevokeFamily(f, w) => Some((FamilyScope(f), w))
    case RevokeConsent(_, w) =>
      if u.bound.Some? then Some((ConsentScope(u.bound.value.0, u.bound.value.1), w)) else None
    case _ => None
  }

  /** The window the step commits for the scope, if it commits one. */
  function WindowAt(s: State, e: Event, scope: Scope): (ws: seq<Window>) {
    if e.Publish? && e.t in s.txns && RecordedBy(s.txns[e.t]).Some? && RecordedBy(s.txns[e.t]).value.0 == scope
    then [RecordedBy(s.txns[e.t]).value.1] else []
  }

  /** The windows of the revocations of a scope committed between two states of a run, in their order. */
  function Windows(states: seq<State>, events: seq<Event>, i: nat, n: nat, scope: Scope): (ws: seq<Window>)
    requires |states| == |events| + 1 && n < |states|
  {
    if n <= i then [] else Windows(states, events, i, n - 1, scope) + WindowAt(states[n - 1], events[n - 1], scope)
  }

  /** The step commits the removal of the barrier of the scope. */
  predicate Reaps(s: State, e: Event, scope: Scope) {
    e.Publish? && e.t in s.txns && BarrierId(scope) in s.txns[e.t].dels
  }

  // ----- one commit

  lemma RevocationRecords(cfg: Config, claim: seq<Stmt>, scope: Scope, w: Window, removals: seq<Stmt>)
    requires forall stmt | stmt in claim || stmt in removals :: IsRemoval(stmt)
    ensures forall stmt | stmt in claim + Revocation(cfg, scope, w, removals) && stmt.RecordBarrier? ::
              stmt == RecordBarrier(scope, w)
  {
  }

  lemma GuardedRecordsNothing(cfg: Config, g: Guard, rest: seq<Stmt>)
    requires forall stmt | stmt in rest :: !stmt.RecordBarrier?
    ensures forall stmt | stmt in GuardLocks(cfg, g) + [Check(g)] + rest :: !stmt.RecordBarrier?
  {
  }

  /** Only a revocation records a barrier, and only its own. */
  lemma ProgramRecords(cfg: Config, u: Txn)
    requires Valid(u.op)
    ensures forall stmt | stmt in Program(cfg, u.op, u.bound) && stmt.RecordBarrier? ::
              RecordedBy(u) == Some((stmt.scope, stmt.window))
  {
    match u.op
    case PutGuarded(r) =>
      PutProgram(cfg, r, u.bound);
      GuardedRecordsNothing(cfg, GuardOf(r), [Upsert(r)]);
    case Rotate(e, _, _, _) =>
      RotationProgram(cfg, u.op, u.bound);
      GuardedRecordsNothing(cfg, GuardOf(e), RotationRead(u.op) + RotationWrites(u.op));
    case DeleteClient(c, w) =>
      DeletionProgram(cfg, c, w, u.bound);
      RevocationRecords(cfg, [], ClientScope(c), w, ClientRemovals(c));
    case RevokeFamily(f, w) =>
      FamilyProgram(cfg, f, w, u.bound);
      RevocationRecords(cfg, [], FamilyScope(f), w, FamilyRemovals(f));
    case RevokeConsent(id, w) =>
      if u.bound.Some? {
        var (c, s) := u.bound.value;
        WithdrawalProgram(cfg, id, w, c, s);
        RevocationRecords(cfg, [Deletion(ByKey(Keyed(Consents, id)))], ConsentScope(c, s), w, PairRemovals(c, s));
      }
    case _ =>
  }

  lemma RecorderPuts(cfg: Config, s: State, t: nat)
    requires cfg.locking && CommitInv(cfg, s) && t in s.txns && Finished(cfg, s.txns[t]) && RecordedBy(s.txns[t]).Some?
    ensures var (scope, w) := RecordedBy(s.txns[t]).value;
            Payloads(s.txns[t].puts) == map[BarrierId(scope) := Merge(Stored(s.db, BarrierId(scope)), scope, w)]
  {
    var u := s.txns[t];
    match u.op
    case DeleteClient(c, w) =>
      DeletionProgram(cfg, c, w, u.bound);
      RevocationCommit(cfg, s, t, [], ClientScope(c), w, ClientRemovals(c));
    case RevokeFamily(f, w) =>
      FamilyProgram(cfg, f, w, u.bound);
      RevocationCommit(cfg, s, t, [], FamilyScope(f), w, FamilyRemovals(f));
    case RevokeConsent(id, w) =>
      var (c, sub) := u.bound.value;
      WithdrawalProgram(cfg, id, w, c, sub);
      RevocationCommit(cfg, s, t, [Deletion(ByKey(Keyed(Consents, id)))], ConsentScope(c, sub), w,
        PairRemovals(c, sub));
  }

  /** Whoever writes a barrier has recorded it. */
  lemma BarrierPutIsRecorded(cfg: Config, s: State, t: nat, scope: Scope)
    requires CommitInv(cfg, s) && t in s.txns && Finished(cfg, s.txns[t]) && BarrierId(scope) in s.txns[t].puts
    ensures RecordedBy(s.txns[t]).Some? && RecordedBy(s.txns[t]).value.0 == scope
  {
    var u := s.txns[t];
    Ready(cfg, s, t);
    ProgramRecords(cfg, u);
    var w := RecordFound(Program(cfg, u.op, u.bound), s.db, u, scope);
    assert RecordBarrier(scope, w).RecordBarrier?;
  }

  lemma RecordFound(prog: seq<Stmt>, db: Db, u: Txn, scope: Scope) returns (w: Window)
    requires TxnInv(prog, db, u) && u.pc == |prog| && BarrierId(scope) in u.puts
    ensures RecordBarrier(scope, w) in prog
  {
    assert prog[..u.pc] == prog;
    assert PutOk(prog, BarrierId(scope), u.puts[BarrierId(scope)]);
    w :| RecordBarrier(scope, w) in prog;
  }

  lemma PublishedBarrier(db: Db, u: Txn, scope: Scope)
    requires BarrierId(scope) !in u.dels
    ensures Stored(Published(db, u), BarrierId(scope))
         == if BarrierId(scope) in Payloads(u.puts) then Some(Payloads(u.puts)[BarrierId(scope)])
            else Stored(db, BarrierId(scope))
  {
  }

  lemma CommitMerges(cfg: Config, s: State, t: nat, scope: Scope)
    requires cfg.locking && CommitInv(cfg, s) && t in s.txns && Finished(cfg, s.txns[t])
    requires BarrierId(scope) !in s.txns[t].dels
    ensures var before, after := Stored(s.db, BarrierId(scope)), Stored(Published(s.db, s.txns[t]), BarrierId(scope));
            var ws := WindowAt(s, Publish(t), scope);
            after == if ws == [] then before else Some(Merge(before, scope, ws[0]))
  {
    var u := s.txns[t];
    PublishedBarrier(s.db, u, scope);
    if RecordedBy(u).Some? { RecorderPuts(cfg, s, t); }
    if BarrierId(scope) in u.puts { BarrierPutIsRecorded(cfg, s, t, scope); }
  }

  // ----- over a run

  lemma MergeMore(scope: Scope, ws: seq<Window>, last: seq<Window>)
    requires |last| <= 1
    ensures MergeAll(scope, ws + last)
         == if last == [] then MergeAll(scope, ws) else Some(Merge(MergeAll(scope, ws), scope, last[0]))
  {
    if last == [] { assert ws + last == ws; } else { assert (ws + last)[..|ws|] == ws; }
  }

  lemma StepMerges(cfg: Config, states: seq<State>, events: seq<Event>, n: nat, scope: Scope)
    requires cfg.locking && Run(cfg, states, events) && n < |events| && !Reaps(states[n], events[n], scope)
    ensures var before, after := Stored(states[n].db, BarrierId(scope)), Stored(states[n + 1].db, BarrierId(scope));
            var ws := WindowAt(states[n], events[n], scope);
            after == if ws == [] then before else Some(Merge(before, scope, ws[0]))
  {
    assert StepAt(cfg, states, events, n);
    StepIsFramed(cfg, states[n], events[n], states[n + 1]);
    if events[n].Publish? {
      CommitStep(cfg, states, events, n);
      CommitMerges(cfg, states[n], events[n].t, scope);
    }
  }

  ghost predicate Merged(states: seq<State>, events: seq<Event>, i: nat, n: nat, scope: Scope)
    requires |states| == |events| + 1 && n < |states|
  {
    Stored(states[n].db, BarrierId(scope)) == MergeAll(scope, Windows(states, events, i, n, scope))
  }

  lemma MergeKept(cfg: Config, states: seq<State>, events: seq<Event>, i: nat, n: nat, scope: Scope)
    requires cfg.locking && Run(cfg, states, events) && i <= n < |events| && !Reaps(states[n], events[n], scope)
    requires Merged(states, events, i, n, scope)
    ensures Merged(states, events, i, n + 1, scope)
  {
    StepMerges(cfg, states, events, n, scope);
    MergeMore(scope, Windows(states, events, i, n, scope), WindowAt(states[n], events[n], scope));
  }

  /** From a state without the barrier on, and while no sweep removes it, the committed barrier is the merge
  of exactly the windows of the committed revocations of its scope. */
  lemma BarrierIsMerge(cfg: Config, states: seq<State>, events: seq<Event>, i: nat, n: nat, scope: Scope)
    requires cfg.locking && Run(cfg, states, events) && i <= n < |states| && BarrierId(scope) !in states[i].db
    requires forall k | i <= k < n :: !Reaps(states[k], events[k], scope)
    ensures Stored(states[n].db, BarrierId(scope)) == MergeAll(scope, Windows(states, events, i, n, scope))
  {
    RunMerges(cfg, states, events, i, n, scope);
  }

  lemma {:induction false} RunMerges(cfg: Config, states: seq<State>, events: seq<Event>, i: nat, n: nat, scope: Scope)
    requires cfg.locking && Run(cfg, states, events) && i <= n < |states| && BarrierId(scope) !in states[i].db
    requires forall k | i <= k < n :: !Reaps(states[k], events[k], scope)
    ensures Merged(states, events, i, n, scope)
  {
    if i < n {
      RunMerges(cfg, states, events, i, n - 1, scope);
      MergeKept(cfg, states, events, i, n - 1, scope);
    }
  }

  /** So its deadline and its instant are the latest ones given by any of them. */
  lemma BarrierIsMax(cfg: Config, states: seq<State>, events: seq<Event>, i: nat, n: nat, scope: Scope, side: Side)
    requires cfg.locking && Run(cfg, states, events) && i <= n < |states| && BarrierId(scope) !in states[i].db
    requires forall k | i <= k < n :: !Reaps(states[k], events[k], scope)
    ensures BarrierId(scope) in states[n].db <==> Windows(states, events, i, n, scope) != []
    ensures BarrierId(scope) in states[n].db ==>
              && states[n].db[BarrierId(scope)].payload.Barrier?
              && IsMax(ColumnOf(side, states[n].db[BarrierId(scope)].payload), side,
                   Windows(states, events, i, n, scope))
  {
    var ws := Windows(states, events, i, n, scope);
    BarrierIsMerge(cfg, states, events, i, n, scope);
    if ws != [] { MergedIsMax(scope, ws, side); }
  }
}
