/** An operation that runs while nobody else holds anything always ends, and it commits exactly when the
records admit it. */
module Alone {
  import opened Options
  import opened Records
  import opened Protocol
  import opened NoResurrection
  import opened Commit
  import opened Deadlock

  /** Nobody is in the way of this transaction. */
  ghost predicate Unblocked(cfg: Config, s: State, t: nat) { forall r, t' :: !Blocked(cfg, s, t, r, t') }

  /** Nobody but this transaction holds anything. */
  ghost predicate QuietBut(s: State, t: nat) {
    forall t' | t' in s.txns && t' != t :: s.txns[t'].rows == {} && s.txns[t'].codes == {} && s.txns[t'].keys == map[]
  }

  // ----- there is always a next row and a batch

  lemma {:induction false} EarliestExists(snapshot: map<RowId, Row>, place: RowId -> int) returns (id: RowId)
    requires snapshot != map[]
    ensures id in snapshot && forall other | other in snapshot :: place(id) <= place(other)
    decreases |snapshot|
  {
    var first :| first in snapshot;
    var rest := snapshot - {first};
    id := first;
    if rest != map[] {
      RemovedOne(snapshot, first);
      var best := EarliestExists(rest, place);
      if place(best) < place(first) { id := best; }
    }
    assert forall other | other in snapshot :: other == first || other in rest;
  }

  lemma RemovedOne<K, V>(m: map<K, V>, k: K)
    requires k in m
    ensures |m - {k}| == |m| - 1
  {
    assert (m - {k}).Keys == m.Keys - {k};
    assert |m.Keys| == |m| && |(m - {k}).Keys| == |m - {k}|;
  }

  lemma NextExists(cfg: Config, snapshot: map<RowId, Row>, action: Action) returns (id: RowId)
    requires snapshot != map[]
    ensures IsNext(cfg, snapshot, action, id)
  {
    if action.LockNewest? {
      id := EarliestExists(snapshot, (id: RowId) => if id in snapshot then -(snapshot[id].cols.granted as int) else 0);
    } else {
      id := EarliestExists(snapshot, cfg.order);
    }
  }

  lemma {:induction false} SomeOf(all: map<RowId, Row>, n: nat) returns (some: map<RowId, Row>)
    ensures |some| <= n && (|some| < n ==> some == all)
    ensures forall id | id in some :: id in all && some[id] == all[id]
    decreases |all|
  {
    if |all| <= n {
      some := all;
    } else {
      var id :| id in all;
      RemovedOne(all, id);
      some := SomeOf(all - {id}, n);
    }
  }

  // ----- there is always a next step

  /** How much is left to do. */
  ghost function Left(cfg: Config, u: Txn): (left: (nat, nat, nat, nat))
    requires Valid(u.op) && u.pc <= |Program(cfg, u.op, u.bound)|
  {
    (if u.pc == 0 then 1 else 0, |Program(cfg, u.op, u.bound)| - u.pc, if u.scan.None? then 1 else 0,
     if u.scan.Some? then |u.scan.value| else 0)
  }

  predicate Less(a: (nat, nat, nat, nat), b: (nat, nat, nat, nat)) {
    || a.0 < b.0 || (a.0 == b.0 && a.1 < b.1) || (a.0 == b.0 && a.1 == b.1 && a.2 < b.2)
    || (a.0 == b.0 && a.1 == b.1 && a.2 == b.2 && a.3 < b.3)
  }

  /** The step is one of the transaction, and takes it on or ends it. */
  ghost predicate Onward(cfg: Config, s: State, t: nat, e: Event, s': State) {
    && Step(cfg, s, e, s') && e.t == t && !e.Abort? && !e.Begin? && !e.Release? && t in s.txns && t in s'.txns
    && (e.Publish? <==> s'.txns[t].outcome.Committed?) && s'.txns[t].op == s.txns[t].op
    && (s'.txns[t].outcome.Running? ==>
          && Valid(s.txns[t].op) && s.txns[t].pc <= |Program(cfg, s.txns[t].op, s.txns[t].bound)|
          && s'.txns[t].pc <= |Program(cfg, s'.txns[t].op, s'.txns[t].bound)|
          && Less(Left(cfg, s'.txns[t]), Left(cfg, s.txns[t])))
  }

  lemma CanExec(cfg: Config, s: State, t: nat, stmt: Stmt) returns (u': Txn)
    requires Runs(cfg, s, t) && stmt == Current(cfg, s, t) && Unblocked(cfg, s, t) && !stmt.Scan?
    ensures ExecStmt(cfg, s, t, stmt, u') && u'.op == s.txns[t].op
    ensures u'.outcome.RolledBack? || (u'.outcome.Running? && u'.pc == s.txns[t].pc + 1 && u'.bound == s.txns[t].bound)
  {
    var u := s.txns[t];
    NothingInTheWay(cfg, s, t);
    match stmt {
      case Lock(key, mode) => u' := u.(keys := u.keys[key := mode], pc := u.pc + 1);
      case Check(g) => u' := if Covers(View(s.db, u), g) then u.(outcome := RolledBack) else u.(pc := u.pc + 1);
      case RecordBarrier(scope, w) =>
        var b := Merge(Stored(View(s.db, u), BarrierId(scope)), scope, w);
        u' := if NonEmpty(scope) then Written(s.db, u, b, s.clock).(pc := u.pc + 1) else u.(outcome := RolledBack);
      case Upsert(r) => u' := CanWrite(s, t, r);
      case Hold(id) =>
        u' := u.(rows := u.rows + {id}, codes := u.codes + CodesAt(View(s.db, u), id), pc := u.pc + 1);
      case Update(r) => if IdOf(r) in u.hits { u' := CanWrite(s, t, r); } else { u' := u.(pc := u.pc + 1); }
      case InsertNew(r) =>
        u' := (if IdOf(r) in View(s.db, u) then u else Written(s.db, u, r, s.clock)).(pc := u.pc + 1);
    }
  }

  /** What a transaction asks for next is free. */
  lemma NothingInTheWay(cfg: Config, s: State, t: nat)
    requires Runs(cfg, s, t) && Unblocked(cfg, s, t)
    ensures forall key | Wants(cfg, s, t, KeyRes(key)) :: KeyFree(cfg, s, t, key, Current(cfg, s, t).mode)
    ensures forall id | Wants(cfg, s, t, RowRes(id)) :: RowFree(s, t, id)
    ensures forall code | Wants(cfg, s, t, CodeRes(code)) :: CodeFree(s, t, code)
  {
    forall key | Wants(cfg, s, t, KeyRes(key)) ensures KeyFree(cfg, s, t, key, Current(cfg, s, t).mode) {
      KeyIsFree(cfg, s, t, key);
    }
    forall id | Wants(cfg, s, t, RowRes(id)) ensures RowFree(s, t, id) { RowIsFree(cfg, s, t, id); }
    forall code | Wants(cfg, s, t, CodeRes(code)) ensures CodeFree(s, t, code) { CodeIsFree(cfg, s, t, code); }
  }

  lemma KeyIsFree(cfg: Config, s: State, t: nat, key: string)
    requires Unblocked(cfg, s, t) && Wants(cfg, s, t, KeyRes(key))
    ensures KeyFree(cfg, s, t, key, Current(cfg, s, t).mode)
  {
    forall t', k | t' in s.txns && t' != t && k in s.txns[t'].keys && cfg.hash(k) == cfg.hash(key)
      ensures Current(cfg, s, t).mode.Shared? && s.txns[t'].keys[k].Shared?
    {
      assert !Blocked(cfg, s, t, KeyRes(key), t');
    }
  }

  lemma RowIsFree(cfg: Config, s: State, t: nat, id: RowId)
    requires Unblocked(cfg, s, t) && Wants(cfg, s, t, RowRes(id))
    ensures RowFree(s, t, id)
  {
    forall t' | t' in s.txns && t' != t ensures id !in s.txns[t'].rows {
      assert !Blocked(cfg, s, t, RowRes(id), t');
    }
  }

  lemma CodeIsFree(cfg: Config, s: State, t: nat, code: string)
    requires Unblocked(cfg, s, t) && Wants(cfg, s, t, CodeRes(code))
    ensures CodeFree(s, t, code)
  {
    forall t' | t' in s.txns && t' != t ensures code !in s.txns[t'].codes {
      assert !Blocked(cfg, s, t, CodeRes(code), t');
    }
  }

  lemma CanWrite(s: State, t: nat, r: Record) returns (u': Txn)
    requires t in s.txns && s.txns[t].outcome.Running?
    requires RowFree(s, t, IdOf(r)) && forall code | code in CodesOf(r) :: CodeFree(s, t, code)
    ensures WriteStmt(s, t, r, u') && u'.op == s.txns[t].op
    ensures u'.outcome.RolledBack? || (u'.outcome.Running? && u'.pc == s.txns[t].pc + 1 && u'.bound == s.txns[t].bound)
  {
    var u := s.txns[t];
    if exists code | code in CodesOf(r) :: Taken(View(s.db, u), code, IdOf(r)) {
      u' := u.(outcome := RolledBack);
    } else {
      u' := Written(s.db, u, r, s.clock).(pc := u.pc + 1);
    }
  }

  lemma ExecOnward(cfg: Config, s: State, t: nat) returns (e: Event, s': State)
    requires Runs(cfg, s, t) && Unblocked(cfg, s, t) && !Current(cfg, s, t).Scan?
    ensures Onward(cfg, s, t, e, s')
  {
    var u' := CanExec(cfg, s, t, Current(cfg, s, t));
    e, s' := Exec(t), With(s, t, u').(clock := s.clock + 1);
  }

  lemma ScanStartOnward(cfg: Config, s: State, t: nat) returns (e: Event, s': State)
    requires Runs(cfg, s, t) && Unblocked(cfg, s, t) && Current(cfg, s, t).Scan? && s.txns[t].scan.None?
    ensures Onward(cfg, s, t, e, s')
  {
    var u, stmt := s.txns[t], Current(cfg, s, t);
    var snapshot := CanScanStart(s, t, stmt);
    e, s' := ScanStart(t, snapshot), With(s, t, u.(scan := Some(snapshot)));
  }

  lemma CanScanStart(s: State, t: nat, stmt: Stmt) returns (snapshot: map<RowId, Row>)
    requires t in s.txns && stmt.Scan? && s.txns[t].scan.None?
    ensures ScanStartStmt(s, t, stmt, snapshot, s.txns[t].(scan := Some(snapshot)))
  {
    snapshot := Selected(View(s.db, s.txns[t]), stmt.pred);
    if stmt.skipLocked { snapshot := SomeOf(snapshot, SWEEP_BATCH_ROWS); }
  }

  lemma ScanRowOnward(cfg: Config, s: State, t: nat) returns (e: Event, s': State)
    requires Runs(cfg, s, t) && Unblocked(cfg, s, t) && Current(cfg, s, t).Scan?
    requires s.txns[t].scan.Some? && s.txns[t].scan.value != map[]
    ensures Onward(cfg, s, t, e, s')
  {
    var id := NextExists(cfg, s.txns[t].scan.value, Current(cfg, s, t).action);
    NothingInTheWay(cfg, s, t);
    var u' := CanScanRow(cfg, s, t, Current(cfg, s, t), id);
    e, s' := ScanRow(t, id), With(s, t, u');
  }

  lemma CanScanRow(cfg: Config, s: State, t: nat, stmt: Stmt, id: RowId) returns (u': Txn)
    requires t in s.txns && stmt.Scan? && s.txns[t].scan.Some? && IsNext(cfg, s.txns[t].scan.value, stmt.action, id)
    requires !stmt.skipLocked ==> RowFree(s, t, id)
    ensures ScanRowStmt(cfg, s, t, stmt, id, u')
    ensures var u := s.txns[t];
            && u'.op == u.op && u'.pc == u.pc && u'.bound == u.bound && u'.outcome == u.outcome
            && u'.scan.Some? && |u'.scan.value| < |u.scan.value|
  {
    var u := s.txns[t];
    RemovedOne(u.scan.value, id);
    u' := if StillMatches(View(s.db, u), stmt.pred, u.scan.value, id) && RowFree(s, t, id)
          then Hit(s.db, u, stmt.action, u.scan.value, id) else u.(scan := Some(u.scan.value - {id}));
  }

  lemma ScanEndOnward(cfg: Config, s: State, t: nat) returns (e: Event, s': State)
    requires Runs(cfg, s, t) && Unblocked(cfg, s, t) && Current(cfg, s, t).Scan? && s.txns[t].scan == Some(map[])
    ensures Onward(cfg, s, t, e, s')
  {
    var u := s.txns[t];
    ProgramAfter(cfg, u);
    var u' := if Proceeds(u.op, u.hits) then u.(pc := u.pc + 1, scan := None, bound := Claimed(u))
              else u.(outcome := RolledBack);
    e, s' := ScanEnd(t), With(s, t, u');
  }

  /** After its claim a withdrawal has more to do; nothing else changes its program. */
  lemma ProgramAfter(cfg: Config, u: Txn)
    requires Valid(u.op) && u.pc < |Program(cfg, u.op, u.bound)|
    ensures u.pc + 1 <= |Program(cfg, u.op, Claimed(u))| && (u.pc > 0 ==> Claimed(u) == u.bound)
  {
  }

  /** Whoever is not blocked can go on. */
  lemma NextStep(cfg: Config, s: State, t: nat) returns (e: Event, s': State)
    requires CommitInv(cfg, s) && t in s.txns && s.txns[t].outcome.Running? && Unblocked(cfg, s, t)
    ensures Onward(cfg, s, t, e, s')
  {
    var u := s.txns[t];
    assert RowsOk(cfg, s.db, u);
    if u.pc == |Program(cfg, u.op, u.bound)| {
      e, s' := Publish(t), With(s, t, u.(outcome := Committed)).(db := Published(s.db, u));
    } else if u.scan.Some? {
      if u.scan.value == map[] { e, s' := ScanEndOnward(cfg, s, t); } else { e, s' := ScanRowOnward(cfg, s, t); }
    } else if Current(cfg, s, t).Scan? {
      e, s' := ScanStartOnward(cfg, s, t);
    } else {
      e, s' := ExecOnward(cfg, s, t);
    }
  }

  // ----- so it ends

  /** The run goes on with steps of this transaction only, none of which publishes before the last one. */
  ghost predicate Continues(cfg: Config, states: seq<State>, events: seq<Event>, states': seq<State>,
                            events': seq<Event>,
                            t: nat) {
    && Run(cfg, states', events') && states <= states' && events <= events'
    && (forall k | |events| <= k < |events'| ::
          events'[k].t == t && !events'[k].Abort? && !events'[k].Begin? && !events'[k].Release?)
    && (forall k | |events| <= k < |events'| - 1 :: !events'[k].Publish?)
  }

  lemma RunOneMore(cfg: Config, states: seq<State>, events: seq<Event>, e: Event, s': State)
    requires Run(cfg, states, events) && Step(cfg, states[|events|], e, s')
    ensures Run(cfg, states + [s'], events + [e])
  {
    var states', events' := states + [s'], events + [e];
    forall i | 0 <= i < |events'| ensures StepAt(cfg, states', events', i) {
      if i < |events| { assert StepAt(cfg, states, events, i); }
    }
  }

  /** The transaction at the end of a run. */
  ghost function Last(states: seq<State>, t: nat): Txn
    requires states != [] && t in states[|states| - 1].txns
  {
    states[|states| - 1].txns[t]
  }

  lemma ContinuesOn(cfg: Config, states: seq<State>, events: seq<Event>, states1: seq<State>, events1: seq<Event>,
                    states2: seq<State>, events2: seq<Event>, t: nat)
    requires Continues(cfg, states, events, states1, events1, t)
    requires Continues(cfg, states1, events1, states2, events2, t)
    requires |events1| == |events| + 1 && !events1[|events|].Publish?
    ensures Continues(cfg, states, events, states2, events2, t)
  {
    assert events2[|events|] == events1[|events|];
  }

  /** The transaction is running, and nobody else holds anything. */
  ghost predicate AtWork(cfg: Config, states: seq<State>, t: nat) {
    && states != [] && t in states[|states| - 1].txns && QuietBut(states[|states| - 1], t)
    && Last(states, t).outcome.Running? && Valid(Last(states, t).op)
    && Last(states, t).pc <= |Program(cfg, Last(states, t).op, Last(states, t).bound)|
  }

  ghost predicate Ended(states: seq<State>, events: seq<Event>, t: nat) {
    && states != [] && events != [] && t in states[|states| - 1].txns && QuietBut(states[|states| - 1], t)
    && !Last(states, t).outcome.Running?
    && (events[|events| - 1].Publish? <==> Last(states, t).outcome.Committed?)
  }

  lemma QuietIsUnblocked(cfg: Config, s: State, t: nat)
    requires QuietBut(s, t)
    ensures Unblocked(cfg, s, t)
  {
  }

  lemma OneMore(cfg: Config, states: seq<State>, events: seq<Event>, t: nat)
      returns (states': seq<State>, events': seq<Event>)
    requires cfg.locking && Run(cfg, states, events) && AtWork(cfg, states, t)
    ensures Continues(cfg, states, events, states', events', t) && |events'| == |events| + 1
    ensures Ended(states', events', t)
            || (&& AtWork(cfg, states', t) && !events'[|events|].Publish?
                && Less(Left(cfg, Last(states', t)), Left(cfg, Last(states, t))))
  {
    RunKeepsCommitInv(cfg, states, events, |events|);
    var e, s' := NextQuietStep(cfg, states[|events|], t);
    Appended(cfg, states, events, e, s', t);
    states', events' := states + [s'], events + [e];
  }

  lemma NextQuietStep(cfg: Config, s: State, t: nat) returns (e: Event, s': State)
    requires CommitInv(cfg, s) && t in s.txns && s.txns[t].outcome.Running? && QuietBut(s, t)
    ensures Onward(cfg, s, t, e, s') && QuietBut(s', t)
  {
    QuietIsUnblocked(cfg, s, t);
    e, s' := NextStep(cfg, s, t);
    StaysQuiet(cfg, s, t, e, s');
  }

  lemma Appended(cfg: Config, states: seq<State>, events: seq<Event>, e: Event, s': State, t: nat)
    requires Run(cfg, states, events) && Onward(cfg, states[|events|], t, e, s')
    ensures Continues(cfg, states, events, states + [s'], events + [e], t)
  {
    RunOneMore(cfg, states, events, e, s');
    assert states <= states + [s'] && events <= events + [e];
  }

  lemma StaysQuiet(cfg: Config, s: State, t: nat, e: Event, s': State)
    requires QuietBut(s, t) && Step(cfg, s, e, s') && e.t == t
    ensures QuietBut(s', t)
  {
    StepIsFramed(cfg, s, e, s');
  }

  /** A transaction beside which nobody holds anything comes to its end. */
  lemma {:induction false} ComesToItsEnd(cfg: Config, states: seq<State>, events: seq<Event>, t: nat)
      returns (states': seq<State>, events': seq<Event>)
    requires cfg.locking && Run(cfg, states, events) && AtWork(cfg, states, t)
    ensures Continues(cfg, states, events, states', events', t) && |events'| > |events| && Ended(states', events', t)
    decreases Left(cfg, Last(states, t)).0, Left(cfg, Last(states, t)).1, Left(cfg, Last(states, t)).2,
              Left(cfg, Last(states, t)).3
  {
    var states1, events1 := OneMore(cfg, states, events, t);
    if Ended(states1, events1, t) {
      states', events' := states1, events1;
    } else {
      states', events' := ComesToItsEnd(cfg, states1, events1, t);
      ContinuesOn(cfg, states, events, states1, events1, states', events', t);
    }
  }
}
