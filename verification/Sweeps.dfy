/** What a sweep batch leaves.

A batch takes at most so many expired rows, skips the locked ones, and removes the rest. So an expired row
that is still there after a batch that was not full was locked by somebody, or written, while it ran. */
module Sweeps {
  import opened Options
  import opened Time
  import opened Records
  import opened Protocol
  import opened NoResurrection
  import opened Commit
  import opened SingleUse
  import opened Leftovers
  import opened Refusals

  /** Somebody else held the row in some state since the sweep began. */
  ghost predicate LockedSince(states: seq<State>, b: nat, n: nat, t: nat, id: RowId)
    requires n < |states|
  {
    exists k | b < k <= n :: t in states[k].txns && !RowFree(states[k], t, id)
  }

  /** The batch came back full. */
  ghost predicate FullSince(events: seq<Event>, b: nat, n: nat, t: nat)
    requires n <= |events|
  {
    exists k | b < k < n :: events[k].ScanStart? && events[k].t == t && |events[k].snapshot| == SWEEP_BATCH_ROWS
  }

  ghost predicate Excused(states: seq<State>, events: seq<Event>, b: nat, n: nat, t: nat, id: RowId)
    requires |states| == |events| + 1 && n < |states|
  {
    FullSince(events, b, n, t) || id in WrittenBetween(states, events, b, n) || LockedSince(states, b, n, t, id)
  }

  /** Every expired row is removed, excused, or still ahead. */
  ghost predicate SweepOk(states: seq<State>, events: seq<Event>, b: nat, n: nat, t: nat, table: Table, cutoff: Nanos)
    requires |states| == |events| + 1 && n < |states| && t in states[n].txns
  {
    var db, u := states[n].db, states[n].txns[t];
    && u.puts == map[] && (u.pc == 0 && u.scan.None? ==> u.dels == {}) && (u.pc > 0 ==> u.scan.None?)
    && forall id | id in db && Matches(Expired(table, cutoff), id, db[id]) && (u.pc > 0 || u.scan.Some?) ::
         || id in u.dels || Excused(states, events, b, n, t, id)
         || (u.scan.Some? && id in u.scan.value && u.scan.value[id].born == db[id].born)
  }

  lemma ExcusedStill(states: seq<State>, events: seq<Event>, b: nat, n: nat, t: nat, id: RowId)
    requires |states| == |events| + 1 && n + 1 < |states| && Excused(states, events, b, n, t, id)
    ensures Excused(states, events, b, n + 1, t, id)
  {
    if FullSince(events, b, n, t) {
      var k :| b < k < n && events[k].ScanStart? && events[k].t == t && |events[k].snapshot| == SWEEP_BATCH_ROWS;
      assert FullSince(events, b, n + 1, t);
    } else if LockedSince(states, b, n, t, id) {
      var k :| b < k <= n && t in states[k].txns && !RowFree(states[k], t, id);
      assert LockedSince(states, b, n + 1, t, id);
    }
  }

  lemma SweepStatement(cfg: Config, table: Table, cutoff: Nanos, bound: Option<(string, string)>)
    requires Valid(SweepBatch(table, cutoff))
    ensures Program(cfg, SweepBatch(table, cutoff), bound) == [Scan(Expired(table, cutoff), Remove, true)]
  {
  }

  lemma OtherSweepStep(cfg: Config, states: seq<State>, events: seq<Event>, b: nat, n: nat, t: nat, table: Table,
                       cutoff: Nanos)
    requires Run(cfg, states, events) && b < n < |events| && events[n].t != t && t in states[n].txns
    requires SweepOk(states, events, b, n, t, table, cutoff)
    ensures t in states[n + 1].txns && SweepOk(states, events, b, n + 1, t, table, cutoff)
  {
    assert StepAt(cfg, states, events, n);
    StepIsFramed(cfg, states[n], events[n], states[n + 1]);
    var u, db, db' := states[n].txns[t], states[n].db, states[n + 1].db;
    forall id | id in db' && Matches(Expired(table, cutoff), id, db'[id]) && (u.pc > 0 || u.scan.Some?)
      ensures || id in u.dels || Excused(states, events, b, n + 1, t, id)
              || (u.scan.Some? && id in u.scan.value && u.scan.value[id].born == db'[id].born)
    {
      if id !in WrittenBetween(states, events, b, n + 1) {
        assert id in db && db[id] == db'[id];
        if Excused(states, events, b, n, t, id) { ExcusedStill(states, events, b, n, t, id); }
      }
    }
  }

  // ----- its own steps

  lemma BatchTakesFree(s: State, t: nat, p: Pred, snapshot: map<RowId, Row>, u': Txn, id: RowId)
    requires t in s.txns && s.txns[t].puts == map[] && s.txns[t].dels == {}
    requires ScanStartStmt(s, t, Scan(p, Remove, true), snapshot, u') && id in s.db && Matches(p, id, s.db[id])
    ensures |snapshot| == SWEEP_BATCH_ROWS || !RowFree(s, t, id) || (id in snapshot && snapshot[id] == s.db[id])
    ensures u' == s.txns[t].(scan := Some(snapshot))
  {
    assert View(s.db, s.txns[t]) == s.db;
  }

  lemma RowRemovedOrLocked(cfg: Config, s: State, t: nat, p: Pred, id: RowId, u': Txn)
    requires t in s.txns && s.txns[t].puts == map[] && ScanRowStmt(cfg, s, t, Scan(p, Remove, true), id, u')
    requires id !in s.txns[t].dels
    ensures u'.puts == map[] && u'.pc == s.txns[t].pc && u'.scan == Some(s.txns[t].scan.value - {id})
    ensures s.txns[t].dels <= u'.dels
    ensures id in s.db && s.db[id].born == s.txns[t].scan.value[id].born && Matches(p, id, s.db[id]) ==>
              id in u'.dels || !RowFree(s, t, id)
  {
    assert id in s.db ==> id in View(s.db, s.txns[t]) && View(s.db, s.txns[t])[id] == s.db[id];
  }

  lemma StartSweeps(cfg: Config, states: seq<State>, events: seq<Event>, b: nat, n: nat, t: nat, table: Table,
                    cutoff: Nanos, snapshot: map<RowId, Row>)
    requires Run(cfg, states, events) && b < n < |events| && events[n] == ScanStart(t, snapshot) && t in states[n].txns
    requires states[n].txns[t].op == SweepBatch(table, cutoff) && SweepOk(states, events, b, n, t, table, cutoff)
    ensures t in states[n + 1].txns && SweepOk(states, events, b, n + 1, t, table, cutoff)
  {
    var s, u := states[n], states[n].txns[t];
    assert StepAt(cfg, states, events, n);
    SweepStatement(cfg, table, cutoff, u.bound);
    var p := Expired(table, cutoff);
    forall id | id in s.db && Matches(p, id, s.db[id])
      ensures Excused(states, events, b, n + 1, t, id) || (id in snapshot && snapshot[id].born == s.db[id].born)
    {
      BatchTakesFree(s, t, p, snapshot, states[n + 1].txns[t], id);
      if |snapshot| == SWEEP_BATCH_ROWS {
        assert FullSince(events, b, n + 1, t);
      } else if !RowFree(s, t, id) {
        assert LockedSince(states, b, n + 1, t, id);
      }
    }
  }

  lemma RowSweeps(cfg: Config, states: seq<State>, events: seq<Event>, b: nat, n: nat, t: nat, table: Table,
                  cutoff: Nanos, x: RowId)
    requires cfg.locking && Run(cfg, states, events) && b < n < |events| && events[n] == ScanRow(t, x)
    requires t in states[n].txns
    requires states[n].txns[t].op == SweepBatch(table, cutoff) && SweepOk(states, events, b, n, t, table, cutoff)
    ensures t in states[n + 1].txns && SweepOk(states, events, b, n + 1, t, table, cutoff)
  {
    var s, u, p := states[n], states[n].txns[t], Expired(table, cutoff);
    assert StepAt(cfg, states, events, n);
    RunKeepsCommitInv(cfg, states, events, n);
    assert RowsOk(cfg, s.db, u);
    SweepStatement(cfg, table, cutoff, u.bound);
    RowRemovedOrLocked(cfg, s, t, p, x, states[n + 1].txns[t]);
    forall id | id in s.db && Matches(p, id, s.db[id])
      ensures || id in states[n + 1].txns[t].dels || Excused(states, events, b, n + 1, t, id)
              || (id != x && id in u.scan.value && u.scan.value[id].born == s.db[id].born)
    {
      assert !RowFree(s, t, id) ==> LockedSince(states, b, n, t, id);
      if Excused(states, events, b, n, t, id) { ExcusedStill(states, events, b, n, t, id); }
    }
  }

  lemma EndSweeps(cfg: Config, states: seq<State>, events: seq<Event>, b: nat, n: nat, t: nat, table: Table,
                  cutoff: Nanos)
    requires Run(cfg, states, events) && b < n < |events| && events[n] == ScanEnd(t) && t in states[n].txns
    requires states[n].txns[t].op == SweepBatch(table, cutoff) && SweepOk(states, events, b, n, t, table, cutoff)
    ensures t in states[n + 1].txns && SweepOk(states, events, b, n + 1, t, table, cutoff)
  {
    var s := states[n];
    assert StepAt(cfg, states, events, n);
    forall id | id in s.db && Excused(states, events, b, n, t, id) ensures Excused(states, events, b, n + 1, t, id) {
      ExcusedStill(states, events, b, n, t, id);
    }
  }

  lemma OwnSweepStep(cfg: Config, states: seq<State>, events: seq<Event>, b: nat, n: nat, t: nat, table: Table,
                     cutoff: Nanos)
    requires cfg.locking && Run(cfg, states, events) && b < n < |events| && events[n].t == t && t in states[n].txns
    requires states[n].txns[t].op == SweepBatch(table, cutoff) && SweepOk(states, events, b, n, t, table, cutoff)
    requires t in states[n + 1].txns && states[n + 1].txns[t].outcome.Running?
    ensures SweepOk(states, events, b, n + 1, t, table, cutoff)
  {
    assert StepAt(cfg, states, events, n);
    SweepStatement(cfg, table, cutoff, states[n].txns[t].bound);
    match events[n] {
      case ScanStart(_, snapshot) => StartSweeps(cfg, states, events, b, n, t, table, cutoff, snapshot);
      case ScanRow(_, id) => RowSweeps(cfg, states, events, b, n, t, table, cutoff, id);
      case ScanEnd(_) => EndSweeps(cfg, states, events, b, n, t, table, cutoff);
      case _ =>
    }
  }

  lemma {:induction false} RunSweeps(cfg: Config, states: seq<State>, events: seq<Event>, b: nat, n: nat, t: nat,
                                     table: Table, cutoff: Nanos)
    requires cfg.locking && Run(cfg, states, events) && b < n < |states|
    requires events[b] == Begin(t, SweepBatch(table, cutoff))
    requires t in states[n].txns && states[n].txns[t].outcome.Running?
    ensures SweepOk(states, events, b, n, t, table, cutoff)
  {
    assert StepAt(cfg, states, events, n - 1) && StepAt(cfg, states, events, b);
    if n > b + 1 {
      KeepsOp(cfg, states, events, b, n - 1, t, SweepBatch(table, cutoff));
      StepIsFramed(cfg, states[n - 1], events[n - 1], states[n]);
      RunSweeps(cfg, states, events, b, n - 1, t, table, cutoff);
      if events[n - 1].t == t {
        OwnSweepStep(cfg, states, events, b, n - 1, t, table, cutoff);
      } else {
        OtherSweepStep(cfg, states, events, b, n - 1, t, table, cutoff);
      }
    }
  }

  /** An expired record of the table that a committed batch leaves: the batch was full, or somebody else held
  the row or wrote it while the batch ran. */
  lemma SweepLeavesOnly(cfg: Config, states: seq<State>, events: seq<Event>, b: nat, n: nat, t: nat, table: Table,
                        cutoff: Nanos, id: RowId)
    requires cfg.locking && Run(cfg, states, events) && b < n < |events|
    requires events[b] == Begin(t, SweepBatch(table, cutoff)) && events[n] == Publish(t)
    requires id in states[n + 1].db && id.Table() == table && ExpiredBy(states[n + 1].db[id].payload, cutoff)
    ensures FullSince(events, b, n, t) || id in WrittenBetween(states, events, b, n) || LockedSince(states, b, n, t, id)
  {
    CommitStep(cfg, states, events, n);
    KeepsOp(cfg, states, events, b, n, t, SweepBatch(table, cutoff));
    RunSweeps(cfg, states, events, b, n, t, table, cutoff);
    SweepStatement(cfg, table, cutoff, states[n].txns[t].bound);
    assert StepAt(cfg, states, events, n);
    LeftExpired(states[n].db, states[n].txns[t], table, cutoff, id);
  }

  lemma LeftExpired(db: Db, u: Txn, table: Table, cutoff: Nanos, id: RowId)
    requires ColumnsAgree(db) && u.puts == map[] && id in Published(db, u) && id.Table() == table
    requires ExpiredBy(Published(db, u)[id].payload, cutoff)
    ensures id in db && id !in u.dels && Matches(Expired(table, cutoff), id, db[id])
  {
    assert db[id].cols == Project(db[id].payload);
  }
}
