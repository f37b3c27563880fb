/** What a revocation guarantees in every run, for every lock hash and every row order.

These are the statements a caller relies on, drawn from the invariants of every reachable state. */
module Guarantees {
  import opened Options
  import opened Time
  import opened Records
  import opened Protocol
  import opened NoResurrection
  import opened RowInvariant
  import opened Atomic
  import opened Commit

  // ----- what stands in a reachable state

  /** No committed token belongs to a family that has a committed barrier. */
  lemma RevokedFamilyIsEmpty(cfg: Config, states: seq<State>, events: seq<Event>, n: nat, id: RowId, f: string)
    requires cfg.locking && Run(cfg, states, events) && n < |states|
    requires id in states[n].db && OfFamily(states[n].db[id].payload, f)
    ensures BarrierId(FamilyScope(f)) !in states[n].db
  {
    RunKeepsInv(cfg, states, events, n);
    assert IsGuarded(states[n].db[id].payload);
  }

  /** Where the barrier of a client stands, every committed token and pushed request of that client was
  granted strictly after the barrier was recorded, and there is none at all while the client is gone. */
  lemma ClientBarrierSeparates(cfg: Config, states: seq<State>, events: seq<Event>, n: nat, id: RowId)
    requires cfg.locking && Run(cfg, states, events) && n < |states|
    requires var db := states[n].db;
             && id in db && IsGuarded(db[id].payload) && BarrierId(ClientScope(GuardOf(db[id].payload).client)) in db
    ensures var db := states[n].db; var g := GuardOf(db[id].payload);
            var barrier := db[BarrierId(ClientScope(g.client))].payload;
            && barrier.Barrier? && FromNanos(barrier.recorded) < g.established
            && Keyed(Clients, g.client) in db
  {
    RunKeepsInv(cfg, states, events, n);
    var db := states[n].db;
    var g := GuardOf(db[id].payload);
    RecordedStrictlyBefore(db, ClientScope(g.client), g.established);
  }

  /** Likewise for the barrier of a withdrawn consent and the tokens of that client and subject. */
  lemma ConsentBarrierSeparates(cfg: Config, states: seq<State>, events: seq<Event>, n: nat, id: RowId, s: string)
    requires cfg.locking && Run(cfg, states, events) && n < |states|
    requires var db := states[n].db;
             && id in db && IsGuarded(db[id].payload) && GuardOf(db[id].payload).subject == Some(s)
             && BarrierId(ConsentScope(GuardOf(db[id].payload).client, s)) in db
    ensures var db := states[n].db; var g := GuardOf(db[id].payload);
            var barrier := db[BarrierId(ConsentScope(g.client, s))].payload;
            barrier.Barrier? && FromNanos(barrier.recorded) < g.established
  {
    RunKeepsInv(cfg, states, events, n);
    var db := states[n].db;
    var g := GuardOf(db[id].payload);
    RecordedStrictlyBefore(db, ConsentScope(g.client, s), g.established);
  }

  lemma RecordedStrictlyBefore(db: Db, scope: Scope, established: Instant)
    requires ColumnsAgree(db) && BarrierId(scope) in db && !RecordedSince(db, scope, established)
    ensures db[BarrierId(scope)].payload.Barrier?
    ensures FromNanos(db[BarrierId(scope)].payload.recorded) < established
  {
    var barrier := db[BarrierId(scope)].payload;
    assert IdOf(barrier) == BarrierId(scope);
    ColumnRoundTrip(barrier.recorded);
    ColumnOrderIsInstantOrder(FromNanos(barrier.recorded), established);
  }

  // ----- how a barrier changes

  /** The committed barrier of a scope is at least as late, in both of its instants. */
  predicate BarrierAtLeast(db: Db, scope: Scope, until: Nanos, recorded: Nanos) {
    var id := BarrierId(scope);
    id in db && db[id].payload.Barrier? && db[id].payload.until >= until && db[id].payload.recorded >= recorded
  }

  /** What a program writes for a scope is the committed barrier merged with one it records. */
  lemma {:induction false} EffectsMergeBarrier(db: Db, before: seq<Stmt>, scope: Scope)
    requires forall stmt | stmt in before && stmt.Upsert? :: !stmt.rec.Barrier?
    requires BarrierId(scope) in Effects(db, before)
    ensures exists w :: Effects(db, before)[BarrierId(scope)] == Merge(Stored(db, BarrierId(scope)), scope, w)
  {
    var last := |before| - 1;
    var stmt := before[last];
    assert stmt in before;
    if !(stmt.RecordBarrier? && stmt.scope == scope) {
      EffectsMergeBarrier(db, before[..last], scope);
    }
  }

  lemma WrittenBarrier(prog: seq<Stmt>, db: Db, u: Txn, scope: Scope)
    requires RowInv(prog, db, u) && u.pc == |prog| && BarrierId(scope) in u.puts
    requires forall stmt | stmt in prog :: IsPlain(stmt) && (stmt.Upsert? ==> !stmt.rec.Barrier?)
    ensures exists w :: u.puts[BarrierId(scope)].payload == Merge(Stored(db, BarrierId(scope)), scope, w)
  {
    assert prog[..u.pc] == prog;
    assert Payloads(u.puts) == Effects(db, prog);
    EffectsMergeBarrier(db, prog, scope);
  }

  lemma RevocationWritesNoRecord(cfg: Config, scope: Scope, w: Window, removals: seq<Stmt>, claim: seq<Stmt>)
    requires forall stmt | stmt in claim || stmt in removals :: IsRemoval(stmt)
    ensures forall stmt | stmt in claim + Revocation(cfg, scope, w, removals) :: IsPlain(stmt) && !stmt.Upsert?
  {
  }

  lemma GuardedWritesNoBarrier(cfg: Config, g: Guard, rest: seq<Stmt>)
    requires forall stmt | stmt in rest :: IsPlain(stmt) && (stmt.Upsert? ==> !stmt.rec.Barrier?)
    ensures forall stmt | stmt in GuardLocks(cfg, g) + [Check(g)] + rest ::
              IsPlain(stmt) && (stmt.Upsert? ==> !stmt.rec.Barrier?)
  {
  }

  lemma NoBarrierIsUpserted(cfg: Config, op: Operation, bound: Option<(string, string)>)
    requires Valid(op) && !op.Swap? && !op.Claim?
    ensures forall stmt | stmt in Program(cfg, op, bound) :: IsPlain(stmt) && (stmt.Upsert? ==> !stmt.rec.Barrier?)
  {
    match op
    case PutGuarded(r) =>
      PutProgram(cfg, r, bound);
      GuardedWritesNoBarrier(cfg, GuardOf(r), [Upsert(r)]);
    case Rotate(e, _, _, _) =>
      RotationProgram(cfg, op, bound);
      GuardedWritesNoBarrier(cfg, GuardOf(e), RotationRead(op) + RotationWrites(op));
    case DeleteClient(c, w) =>
      DeletionProgram(cfg, c, w, bound);
      RevocationWritesNoRecord(cfg, ClientScope(c), w, ClientRemovals(c), []);
    case RevokeFamily(f, w) =>
      FamilyProgram(cfg, f, w, bound);
      RevocationWritesNoRecord(cfg, FamilyScope(f), w, FamilyRemovals(f), []);
    case RevokeConsent(id, w) =>
      if bound.Some? {
        var (c, s) := bound.value;
        WithdrawalProgram(cfg, id, w, c, s);
        RevocationWritesNoRecord(cfg, ConsentScope(c, s), w, PairRemovals(c, s),
          [Deletion(ByKey(Keyed(Consents, id)))]);
      }
    case _ =>
  }

  /** The statement removes no barrier and no replay identifier. */
  predicate Spares(stmt: Stmt) {
    IsRemoval(stmt) ==> TableOf(stmt.pred) != Barriers && TableOf(stmt.pred) != ReplayIds
  }

  lemma RemovalsSpare(c: string, s: string, f: string)
    ensures forall stmt | stmt in ClientRemovals(c) :: Spares(stmt)
    ensures forall stmt | stmt in FamilyRemovals(f) :: Spares(stmt)
    ensures forall stmt | stmt in PairRemovals(c, s) :: Spares(stmt)
  {
  }

  lemma RevocationSpares(cfg: Config, scope: Scope, w: Window, removals: seq<Stmt>, claim: seq<Stmt>)
    requires forall stmt | stmt in claim || stmt in removals :: Spares(stmt)
    ensures forall stmt | stmt in claim + Revocation(cfg, scope, w, removals) :: Spares(stmt)
  {
  }

  lemma RevocationsSpare(cfg: Config, op: Operation, bound: Option<(string, string)>)
    requires op.DeleteClient? || op.RevokeFamily? || op.RevokeConsent?
    ensures forall stmt | stmt in Program(cfg, op, bound) :: Spares(stmt)
  {
    match op
    case DeleteClient(c, w) =>
      DeletionProgram(cfg, c, w, bound);
      RemovalsSpare(c, "", "");
      RevocationSpares(cfg, ClientScope(c), w, ClientRemovals(c), []);
    case RevokeFamily(f, w) =>
      FamilyProgram(cfg, f, w, bound);
      RemovalsSpare("", "", f);
      RevocationSpares(cfg, FamilyScope(f), w, FamilyRemovals(f), []);
    case RevokeConsent(id, w) =>
      if bound.Some? {
        var (c, s) := bound.value;
        WithdrawalProgram(cfg, id, w, c, s);
        RemovalsSpare(c, s, "");
        RevocationSpares(cfg, ConsentScope(c, s), w, PairRemovals(c, s), [Deletion(ByKey(Keyed(Consents, id)))]);
      }
  }

  lemma OthersSpare(cfg: Config, op: Operation, bound: Option<(string, string)>)
    requires Valid(op) && !op.SweepBatch? && !op.DeleteClient? && !op.RevokeFamily? && !op.RevokeConsent?
    ensures forall stmt | stmt in Program(cfg, op, bound) :: Spares(stmt)
  {
    if !op.Take? {
      forall stmt | stmt in Program(cfg, op, bound) ensures !IsRemoval(stmt) {
      }
    }
  }

  lemma NothingSelected(prog: seq<Stmt>, id: RowId, row: Row)
    requires (forall stmt | stmt in prog :: Spares(stmt)) && id.Table() in {Barriers, ReplayIds}
    ensures !RemovedBy(prog, id, row)
  {
    forall stmt | stmt in prog && IsRemoval(stmt) ensures !Matches(stmt.pred, id, row) {
      assert Spares(stmt);
    }
  }

  /** Only a sweep of its own table removes a barrier or a replay identifier, and only once it expired. */
  lemma OnlySweepsRemove(cfg: Config, op: Operation, bound: Option<(string, string)>, id: RowId, row: Row)
    requires Valid(op) && id.Table() in {Barriers, ReplayIds} && RemovedBy(Program(cfg, op, bound), id, row)
    ensures op.SweepBatch? && op.table == id.Table()
    ensures row.cols.expires.Some? && row.cols.expires.value <= op.cutoff
  {
    if op.SweepBatch? {
      SweepSelects(op.table, op.cutoff, id, row);
    } else {
      if op.DeleteClient? || op.RevokeFamily? || op.RevokeConsent? {
        RevocationsSpare(cfg, op, bound);
      } else {
        OthersSpare(cfg, op, bound);
      }
      NothingSelected(Program(cfg, op, bound), id, row);
    }
  }

  lemma SweepSelects(table: Table, cutoff: Nanos, id: RowId, row: Row)
    requires RemovedBy([Scan(Expired(table, cutoff), Remove, true)], id, row)
    ensures table == id.Table() && row.cols.expires.Some? && row.cols.expires.value <= cutoff
  {
  }

  /** One commit can only move a barrier later, unless it is a sweep of the barrier table whose cutoff
  has reached the barrier's deadline. */
  lemma CommitKeepsBarrier(cfg: Config, s: State, t: nat, scope: Scope, until: Nanos, recorded: Nanos)
    requires CommitInv(cfg, s) && t in s.txns && Finished(cfg, s.txns[t])
    requires BarrierAtLeast(s.db, scope, until, recorded)
    ensures || BarrierAtLeast(Published(s.db, s.txns[t]), scope, until, recorded)
            || (s.txns[t].op.SweepBatch? && s.txns[t].op.table == Barriers && until <= s.txns[t].op.cutoff)
  {
    var u := s.txns[t];
    if BarrierId(scope) in u.puts {
      WritesBarrier(cfg, s, t, scope);
      MergedIsLater(s.db, u, scope, until, recorded);
    } else if BarrierId(scope) in u.dels {
      RemovesBarrier(cfg, s, t, scope);
    } else {
      UntouchedStays(s.db, u, scope, until, recorded);
    }
  }

  lemma MergedIsLater(db: Db, u: Txn, scope: Scope, until: Nanos, recorded: Nanos)
    requires BarrierAtLeast(db, scope, until, recorded) && BarrierId(scope) in u.puts
    requires exists w :: u.puts[BarrierId(scope)].payload == Merge(Stored(db, BarrierId(scope)), scope, w)
    ensures BarrierAtLeast(Published(db, u), scope, until, recorded)
  {
  }

  lemma UntouchedStays(db: Db, u: Txn, scope: Scope, until: Nanos, recorded: Nanos)
    requires BarrierAtLeast(db, scope, until, recorded)
    requires BarrierId(scope) !in u.puts && BarrierId(scope) !in u.dels
    ensures BarrierAtLeast(Published(db, u), scope, until, recorded)
  {
  }

  lemma RemovesBarrier(cfg: Config, s: State, t: nat, scope: Scope)
    requires CommitInv(cfg, s) && t in s.txns && Finished(cfg, s.txns[t]) && BarrierId(scope) in s.txns[t].dels
    ensures BarrierId(scope) in s.db && s.txns[t].op.SweepBatch? && s.txns[t].op.table == Barriers
    ensures s.db[BarrierId(scope)].payload.Barrier? && s.db[BarrierId(scope)].payload.until <= s.txns[t].op.cutoff
  {
    var u := s.txns[t];
    var id, prog := BarrierId(scope), Program(cfg, u.op, u.bound);
    assert RowsOk(cfg, s.db, u);
    assert prog[..Reach(u)] == prog;
    assert RemovedBy(prog, id, u.hits[id]);
    OnlySweepsRemove(cfg, u.op, u.bound, id, s.db[id]);
    assert IdOf(s.db[id].payload) == id;
  }

  lemma WritesBarrier(cfg: Config, s: State, t: nat, scope: Scope)
    requires CommitInv(cfg, s) && t in s.txns && Finished(cfg, s.txns[t]) && BarrierId(scope) in s.txns[t].puts
    ensures exists w :: s.txns[t].puts[BarrierId(scope)].payload == Merge(Stored(s.db, BarrierId(scope)), scope, w)
  {
    var u := s.txns[t];
    assert RowsOk(cfg, s.db, u);
    assert !u.op.Swap? && !u.op.Claim?;
    NoBarrierIsUpserted(cfg, u.op, u.bound);
    WrittenBarrier(Program(cfg, u.op, u.bound), s.db, u, scope);
  }

  // ----- over a stretch of a run

  /** The step commits a sweep of the barrier table with a cutoff at or past the given deadline. */
  predicate SweepsBarriers(s: State, e: Event, until: Nanos) {
    && e.Publish? && e.t in s.txns
    && var op := s.txns[e.t].op; op.SweepBatch? && op.table == Barriers && until <= op.cutoff
  }

  lemma StepKeepsBarrier(cfg: Config, s: State, e: Event, s': State, scope: Scope, until: Nanos, recorded: Nanos)
    requires CommitInv(cfg, s) && Step(cfg, s, e, s') && BarrierAtLeast(s.db, scope, until, recorded)
    ensures BarrierAtLeast(s'.db, scope, until, recorded) || SweepsBarriers(s, e, until)
  {
    if e.Publish? { CommitKeepsBarrier(cfg, s, e.t, scope, until, recorded); }
  }

  lemma RunStepKeepsBarrier(cfg: Config, states: seq<State>, events: seq<Event>, n: nat,
                            scope: Scope, until: Nanos, recorded: Nanos)
    requires cfg.locking && Run(cfg, states, events) && n < |events|
    requires BarrierAtLeast(states[n].db, scope, until, recorded)
    ensures BarrierAtLeast(states[n + 1].db, scope, until, recorded) || SweepsBarriers(states[n], events[n], until)
  {
    RunKeepsCommitInv(cfg, states, events, n);
    assert StepAt(cfg, states, events, n);
    StepKeepsBarrier(cfg, states[n], events[n], states[n + 1], scope, until, recorded);
  }

  /** A barrier stays, at least as late as it was, until a sweep has passed its deadline. */
  lemma {:induction false} BarrierStays(cfg: Config, states: seq<State>, events: seq<Event>, i: nat, n: nat,
                                        scope: Scope, until: Nanos, recorded: Nanos)
    requires cfg.locking && Run(cfg, states, events) && i <= n < |states|
    requires BarrierAtLeast(states[i].db, scope, until, recorded)
    requires forall k | i <= k < n :: !SweepsBarriers(states[k], events[k], until)
    ensures BarrierAtLeast(states[n].db, scope, until, recorded)
  {
    if i < n {
      BarrierStays(cfg, states, events, i, n - 1, scope, until, recorded);
      RunStepKeepsBarrier(cfg, states, events, n - 1, scope, until, recorded);
    }
  }

  /** Once the revocation of a family has committed, the family is empty in every later state until a
  sweep reaches the deadline the revocation gave: no write that was in flight, and none that comes
  later, brings a token of the family back. */
  lemma RevokedFamilyStaysEmpty(cfg: Config, states: seq<State>, events: seq<Event>, i: nat, n: nat, t: nat,
                                f: string, w: Window)
    requires cfg.locking && Run(cfg, states, events) && i < n < |states|
    requires events[i] == Publish(t) && t in states[i].txns && states[i].txns[t].op == RevokeFamily(f, w)
    requires forall k | i <= k < n :: !SweepsBarriers(states[k], events[k], ToNanos(w.until))
    ensures forall id | id in states[n].db :: !OfFamily(states[n].db[id].payload, f)
  {
    RunKeepsCommitInv(cfg, states, events, i);
    assert StepAt(cfg, states, events, i);
    FamilyBarrierCommitted(cfg, states[i], t, f, w);
    BarrierStays(cfg, states, events, i + 1, n, FamilyScope(f), ToNanos(w.until), ToNanos(w.recordedAt));
    forall id | id in states[n].db ensures !OfFamily(states[n].db[id].payload, f) {
      if OfFamily(states[n].db[id].payload, f) { RevokedFamilyIsEmpty(cfg, states, events, n, id, f); }
    }
  }

  lemma FamilyBarrierCommitted(cfg: Config, s: State, t: nat, f: string, w: Window)
    requires cfg.locking && CommitInv(cfg, s) && t in s.txns && Finished(cfg, s.txns[t])
    requires s.txns[t].op == RevokeFamily(f, w)
    ensures BarrierAtLeast(Published(s.db, s.txns[t]), FamilyScope(f), ToNanos(w.until), ToNanos(w.recordedAt))
  {
    FamilyProgram(cfg, f, w, s.txns[t].bound);
    RevocationCommit(cfg, s, t, [], FamilyScope(f), w, FamilyRemovals(f));
    var u, id := s.txns[t], BarrierId(FamilyScope(f));
    assert id in Payloads(u.puts);
  }

  /** Between sweeps that reach it, and while the client rows stay, whatever a barrier refuses it goes on
  refusing: the set of refused writes only grows. */
  lemma RefusalsOnlyGrow(cfg: Config, states: seq<State>, events: seq<Event>, i: nat, n: nat, g: Guard)
    requires cfg.locking && Run(cfg, states, events) && i <= n < |states|
    requires Covers(states[i].db, g)
    requires forall k, until | i <= k < n :: !SweepsBarriers(states[k], events[k], until)
    requires Keyed(Clients, g.client) in states[n].db ==> Keyed(Clients, g.client) in states[i].db
    ensures Covers(states[n].db, g)
  {
    RunKeepsInv(cfg, states, events, i);
    var db := states[i].db;
    var client, family, consent :=
      ClientScope(g.client), FamilyScope(g.family.GetOr("")), ConsentScope(g.client, g.subject.GetOr(""));
    forall scope | BarrierId(scope) in db
      ensures db[BarrierId(scope)].payload.Barrier?
      ensures BarrierAtLeast(states[n].db, scope, db[BarrierId(scope)].payload.until,
                db[BarrierId(scope)].payload.recorded)
    {
      var b := db[BarrierId(scope)].payload;
      assert IdOf(b) == BarrierId(scope);
      BarrierStays(cfg, states, events, i, n, scope, b.until, b.recorded);
    }
  }
}
