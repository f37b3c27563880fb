/** No reachable state has a circle of waiting transactions, except between revocations that remove rows of
one table in different orders.

Along a chain of waiting transactions the rank of what is waited for never goes down. In a circle it
therefore stays the same, which leaves two ways to wait: behind another waiter for the same key, where the
queue goes up, or for a row that the row order does not tell from one that is held. */
module Cycles {
  import opened Options
  import opened Records
  import opened Protocol
  import opened Invariant
  import opened NoResurrection
  import opened Commit
  import opened SingleUse
  import opened BarrierRuns
  import opened Deadlock

  /** A transaction waits for a key behind another waiter, which came first, whatever their modes. There is
  a queue only where somebody else holds the lock. */
  ghost predicate Behind(cfg: Config, s: State, queue: nat -> int, t: nat, r: Resource, t': nat) {
    && Wants(cfg, s, t, r) && r.KeyRes? && t' != t && queue(t') < queue(t)
    && (exists key :: Wants(cfg, s, t', KeyRes(key)) && cfg.hash(key) == cfg.hash(r.key))
    && exists holder, k | holder in s.txns && holder != t && holder != t' && k in s.txns[holder].keys ::
         cfg.hash(k) == cfg.hash(r.key)
  }

  ghost predicate Waits(cfg: Config, s: State, queue: nat -> int, t: nat, r: Resource, t': nat) {
    Blocked(cfg, s, t, r, t') || Behind(cfg, s, queue, t, r, t')
  }

  ghost predicate Linked(cfg: Config, s: State, queue: nat -> int, t: nat, t': nat) {
    exists r :: Waits(cfg, s, queue, t, r, t')
  }

  function Next(n: nat, i: nat): (j: nat)
    requires i < n
    ensures j < n
  {
    if i + 1 < n then i + 1 else 0
  }

  /** Every transaction of the list waits for the next one, for something it holds or behind it in a queue,
  and the last one for the first. */
  ghost predicate Circle(cfg: Config, s: State, queue: nat -> int, ts: seq<nat>) {
    && ts != []
    && forall i | 0 <= i < |ts| :: Linked(cfg, s, queue, ts[i], ts[Next(|ts|, i)])
  }

  lemma CycleIsCircle(cfg: Config, s: State, queue: nat -> int, ts: seq<nat>)
    requires Cycle(cfg, s, ts)
    ensures Circle(cfg, s, queue, ts)
  {
    forall i | 0 <= i < |ts| ensures Linked(cfg, s, queue, ts[i], ts[Next(|ts|, i)]) {
      assert WaitsFor(cfg, s, ts[i], ts[Next(|ts|, i)]);
      var r :| Blocked(cfg, s, ts[i], r, ts[Next(|ts|, i)]);
      assert Waits(cfg, s, queue, ts[i], r, ts[Next(|ts|, i)]);
    }
  }

  // ----- one edge after another

  /** What makes the rank a rank in a state. */
  ghost predicate Ranked(cfg: Config, s: State) {
    cfg.locking && cfg.keyOrder.ClientBeforeConsent() && HashesApart(cfg, s) && LockingInv(cfg, s)
  }

  predicate AtMost(cfg: Config, a: Resource, b: Resource) {
    var rank := RankOf(cfg.keyOrder);
    Class(rank, a) < Class(rank, b) || (Class(rank, a) == Class(rank, b) && Place(cfg, a) <= Place(cfg, b))
  }

  lemma WaiterIsPlain(cfg: Config, s: State, queue: nat -> int, t: nat, r: Resource, t': nat)
    requires LockingInv(cfg, s) && Waits(cfg, s, queue, t, r, t')
    ensures Wants(cfg, s, t, r) && !r.CodeRes? && t' != t
    ensures !s.txns[t].op.SweepBatch? && Waitable(s.txns[t].op, Current(cfg, s, t))
  {
    if Blocked(cfg, s, t, r, t') { BlockedWaits(cfg, s, t, r, t'); }
  }

  lemma HeldByBlocker(cfg: Config, s: State, t: nat, r: Resource, t': nat)
    requires HashesApart(cfg, s) && Blocked(cfg, s, t, r, t')
    ensures Holds(s.txns[t'], r)
  {
  }

  /** Two waiters in one queue wait for one key. */
  lemma SameQueue(cfg: Config, s: State, queue: nat -> int, t: nat, r: Resource, t': nat, r': Resource)
    requires HashesApart(cfg, s) && Behind(cfg, s, queue, t, r, t') && Wants(cfg, s, t', r')
    ensures r' == r
  {
    var key :| Wants(cfg, s, t', KeyRes(key)) && cfg.hash(key) == cfg.hash(r.key);
    var holder, k :| holder in s.txns && holder != t && holder != t' && k in s.txns[holder].keys
                     && cfg.hash(k) == cfg.hash(r.key);
    KeysApart(cfg, s, t, r.key, holder, k);
    KeysApart(cfg, s, t', key, holder, k);
    OneKeyAtATime(cfg, s, t', key, r');
  }

  lemma KeysApart(cfg: Config, s: State, t: nat, key: string, holder: nat, k: string)
    requires HashesApart(cfg, s) && Wants(cfg, s, t, KeyRes(key)) && holder in s.txns && holder != t
    requires k in s.txns[holder].keys && cfg.hash(k) == cfg.hash(key)
    ensures k == key
  {
  }

  lemma OneKeyAtATime(cfg: Config, s: State, t: nat, key: string, r: Resource)
    requires Wants(cfg, s, t, KeyRes(key)) && Wants(cfg, s, t, r)
    ensures r == KeyRes(key)
  {
  }

  /** From one wait to the next the rank goes up, or a row is tied with another, or the queue goes up. */
  lemma StepUp(cfg: Config, s: State, queue: nat -> int, t: nat, r: Resource, t': nat, r': Resource, t'': nat)
    requires Ranked(cfg, s) && Waits(cfg, s, queue, t, r, t') && Waits(cfg, s, queue, t', r', t'')
    ensures || Below(cfg, RankOf(cfg.keyOrder), r, r')
            || Tied(cfg, Current(cfg, s, t'), s.txns[t'], r, r')
            || (r == r' && r.KeyRes? && queue(t') < queue(t))
    ensures !r.CodeRes? && Wants(cfg, s, t', r')
  {
    WaiterIsPlain(cfg, s, queue, t, r, t');
    WaiterIsPlain(cfg, s, queue, t', r', t'');
    if Blocked(cfg, s, t, r, t') {
      KeyClassRanks(cfg.keyOrder);
      HeldByBlocker(cfg, s, t, r, t');
      WaiterHoldsBelow(cfg, RankOf(cfg.keyOrder), s, t', r', r);
    } else {
      SameQueue(cfg, s, queue, t, r, t', r');
    }
  }

  // ----- around the circle

  ghost function Wanted(cfg: Config, s: State, queue: nat -> int, ts: seq<nat>, i: nat): (r: Resource)
    requires Circle(cfg, s, queue, ts) && i < |ts|
    ensures Waits(cfg, s, queue, ts[i], r, ts[Next(|ts|, i)])
  {
    assert Linked(cfg, s, queue, ts[i], ts[Next(|ts|, i)]);
    var r :| Waits(cfg, s, queue, ts[i], r, ts[Next(|ts|, i)]);
    r
  }

  lemma {:induction false} ClimbsAlong(cfg: Config, rs: seq<Resource>, i: nat, j: nat)
    requires i <= j < |rs| && forall k | 0 <= k < |rs| :: AtMost(cfg, rs[k], rs[Next(|rs|, k)])
    ensures AtMost(cfg, rs[i], rs[j])
  {
    if i < j {
      ClimbsAlong(cfg, rs, i, j - 1);
      assert AtMost(cfg, rs[j - 1], rs[Next(|rs|, j - 1)]);
    }
  }

  /** What never goes down around a circle stays the same. */
  lemma StaysLevel(cfg: Config, rs: seq<Resource>, i: nat)
    requires i < |rs| && forall k | 0 <= k < |rs| :: AtMost(cfg, rs[k], rs[Next(|rs|, k)])
    ensures AtMost(cfg, rs[i], rs[0]) && AtMost(cfg, rs[0], rs[i])
  {
    ClimbsAlong(cfg, rs, 0, i);
    ClimbsAlong(cfg, rs, i, |rs| - 1);
    assert AtMost(cfg, rs[|rs| - 1], rs[Next(|rs|, |rs| - 1)]);
  }

  lemma {:induction false} GoesUpAlong(queue: nat -> int, ts: seq<nat>, j: nat)
    requires j < |ts| && forall i | 0 <= i < |ts| :: queue(ts[Next(|ts|, i)]) < queue(ts[i])
    ensures queue(ts[j]) <= queue(ts[0])
  {
    if j > 0 {
      GoesUpAlong(queue, ts, j - 1);
      assert queue(ts[Next(|ts|, j - 1)]) < queue(ts[j - 1]);
    }
  }

  /** A queue has no circle. */
  lemma QueueEnds(queue: nat -> int, ts: seq<nat>)
    requires ts != []
    ensures exists i | 0 <= i < |ts| :: queue(ts[Next(|ts|, i)]) >= queue(ts[i])
  {
    var last := |ts| - 1;
    if forall i | 0 <= i < |ts| :: queue(ts[Next(|ts|, i)]) < queue(ts[i]) {
      assert queue(ts[Next(|ts|, last)]) < queue(ts[last]);
      GoesUpAlong(queue, ts, last);
    }
  }

  ghost function Wanteds(cfg: Config, s: State, queue: nat -> int, ts: seq<nat>): (rs: seq<Resource>)
    requires Circle(cfg, s, queue, ts)
    ensures |rs| == |ts|
    ensures forall i | 0 <= i < |ts| :: Waits(cfg, s, queue, ts[i], rs[i], ts[Next(|ts|, i)])
  {
    seq(|ts|, i requires 0 <= i < |ts| => Wanted(cfg, s, queue, ts, i))
  }

  /** The wait of one member and the wait of the next one. */
  lemma StepUpAt(cfg: Config, s: State, queue: nat -> int, ts: seq<nat>, rs: seq<Resource>, i: nat)
    requires Ranked(cfg, s) && i < |ts| == |rs|
    requires forall i | 0 <= i < |ts| :: Waits(cfg, s, queue, ts[i], rs[i], ts[Next(|ts|, i)])
    ensures var j := Next(|ts|, i);
            && Wants(cfg, s, ts[j], rs[j]) && !rs[i].CodeRes? && AtMost(cfg, rs[i], rs[j])
            && (|| Below(cfg, RankOf(cfg.keyOrder), rs[i], rs[j])
                || Tied(cfg, Current(cfg, s, ts[j]), s.txns[ts[j]], rs[i], rs[j])
                || (rs[i].KeyRes? && queue(ts[j]) < queue(ts[i])))
  {
    var j := Next(|ts|, i);
    assert Waits(cfg, s, queue, ts[j], rs[j], ts[Next(|ts|, j)]);
    StepUp(cfg, s, queue, ts[i], rs[i], ts[j], rs[j], ts[Next(|ts|, j)]);
  }

  lemma KeysAndRowsDiffer(cfg: Config, a: Resource, b: Resource)
    requires AtMost(cfg, a, b) && AtMost(cfg, b, a) && !a.CodeRes? && !b.CodeRes?
    ensures a.KeyRes? <==> b.KeyRes?
    ensures !Below(cfg, RankOf(cfg.keyOrder), a, b)
  {
  }

  /** Every member of a circle holds the row the one before it waits for, and waits for another row of the
  same table that the row order does not tell from it. */
  lemma EveryoneIsTied(cfg: Config, s: State, queue: nat -> int, ts: seq<nat>, rs: seq<Resource>, i: nat)
    requires Ranked(cfg, s) && i < |ts| == |rs|
    requires forall i | 0 <= i < |ts| :: Waits(cfg, s, queue, ts[i], rs[i], ts[Next(|ts|, i)])
    ensures var j := Next(|ts|, i);
            Wants(cfg, s, ts[j], rs[j]) && Tied(cfg, Current(cfg, s, ts[j]), s.txns[ts[j]], rs[i], rs[j])
  {
    forall k | 0 <= k < |ts| ensures AtMost(cfg, rs[k], rs[Next(|rs|, k)]) && !rs[k].CodeRes? {
      StepUpAt(cfg, s, queue, ts, rs, k);
    }
    forall k | 0 <= k < |ts|
      ensures rs[k].KeyRes? == rs[0].KeyRes? && !Below(cfg, RankOf(cfg.keyOrder), rs[k], rs[Next(|rs|, k)])
    {
      AllLevel(cfg, rs, k);
    }
    QueueEnds(queue, ts);
    var q :| 0 <= q < |ts| && queue(ts[Next(|ts|, q)]) >= queue(ts[q]);
    StepUpAt(cfg, s, queue, ts, rs, q);
    StepUpAt(cfg, s, queue, ts, rs, i);
  }

  lemma AllLevel(cfg: Config, rs: seq<Resource>, k: nat)
    requires k < |rs| && forall k | 0 <= k < |rs| :: AtMost(cfg, rs[k], rs[Next(|rs|, k)]) && !rs[k].CodeRes?
    ensures rs[k].KeyRes? == rs[0].KeyRes? && !Below(cfg, RankOf(cfg.keyOrder), rs[k], rs[Next(|rs|, k)])
  {
    StaysLevel(cfg, rs, k);
    StaysLevel(cfg, rs, Next(|rs|, k));
    KeysAndRowsDiffer(cfg, rs[k], rs[0]);
    KeysAndRowsDiffer(cfg, rs[k], rs[Next(|rs|, k)]);
  }

  // ----- what a circle is made of

  /** A revocation in the middle of a table: it holds a row of the table and waits for another one that the
  row order does not tell from it. */
  ghost predicate MidTable(cfg: Config, s: State, t: nat, table: Table) {
    && Runs(cfg, s, t) && Revoking(s.txns[t].op) && RemovesMany(Current(cfg, s, t))
    && exists held, id | held in s.txns[t].rows && Wants(cfg, s, t, RowRes(id)) ::
         held != id && held.Table() == id.Table() == table && cfg.order(held) == cfg.order(id)
  }

  lemma ManyRemover(cfg: Config, op: Operation, bound: Option<(string, string)>)
    requires Valid(op) && !Revoking(op)
    ensures forall stmt | stmt in Program(cfg, op, bound) :: !RemovesMany(stmt)
  {
    if !Removes(op) { WritersRemoveNothing(cfg, op, bound); }
  }

  lemma TiedIsMidTable(cfg: Config, s: State, t: nat, held: Resource, r: Resource)
    requires Wants(cfg, s, t, r) && Tied(cfg, Current(cfg, s, t), s.txns[t], held, r)
    ensures MidTable(cfg, s, t, r.id.Table()) && held.id.Table() == r.id.Table()
  {
    var u := s.txns[t];
    if !Revoking(u.op) { ManyRemover(cfg, u.op, u.bound); }
    assert held.id in u.rows && Wants(cfg, s, t, RowRes(r.id));
  }

  /** One revocation waits for a row of the table that another one holds. */
  ghost predicate WaitsInTable(cfg: Config, s: State, t: nat, t': nat, table: Table) {
    && t' in s.txns && t' != t && MidTable(cfg, s, t, table)
    && exists id | id in s.txns[t'].rows :: id.Table() == table && Wants(cfg, s, t, RowRes(id))
  }

  ghost predicate Crossing(cfg: Config, s: State, ts: seq<nat>, table: Table) {
    ts != [] && forall i | 0 <= i < |ts| :: WaitsInTable(cfg, s, ts[i], ts[Next(|ts|, i)], table)
  }

  /** The circles of a state are exactly the circles of revocations in the middle of one table. */
  lemma CircleIff(cfg: Config, states: seq<State>, events: seq<Event>, n: nat, queue: nat -> int, ts: seq<nat>)
    requires cfg.locking && cfg.keyOrder.ClientBeforeConsent() && Run(cfg, states, events) && FreshRun(states, events)
    requires n < |states| && HashesApart(cfg, states[n])
    ensures Circle(cfg, states[n], queue, ts) <==> exists table :: Crossing(cfg, states[n], ts, table)
  {
    RunKeepsLockingInv(cfg, states, events, n);
    if Circle(cfg, states[n], queue, ts) { CircleCrosses(cfg, states[n], queue, ts); }
    forall table | Crossing(cfg, states[n], ts, table) ensures Circle(cfg, states[n], queue, ts) {
      CrossingIsCycle(cfg, states[n], ts, table);
      CycleIsCircle(cfg, states[n], queue, ts);
    }
  }

  lemma CrossingIsCycle(cfg: Config, s: State, ts: seq<nat>, table: Table)
    requires Crossing(cfg, s, ts, table)
    ensures Cycle(cfg, s, ts)
  {
    forall i | 0 <= i < |ts| ensures WaitsFor(cfg, s, ts[i], ts[if i + 1 < |ts| then i + 1 else 0]) {
      var t' := ts[Next(|ts|, i)];
      assert WaitsInTable(cfg, s, ts[i], t', table);
      var id :| id in s.txns[t'].rows && Wants(cfg, s, ts[i], RowRes(id));
      assert Blocked(cfg, s, ts[i], RowRes(id), t');
    }
  }

  lemma LinkInTable(cfg: Config, s: State, queue: nat -> int, ts: seq<nat>, rs: seq<Resource>, i: nat)
    requires Ranked(cfg, s) && i < |ts| == |rs|
    requires forall i | 0 <= i < |ts| :: Waits(cfg, s, queue, ts[i], rs[i], ts[Next(|ts|, i)])
    ensures rs[Next(|ts|, i)].RowRes? && rs[i].RowRes? && rs[i].id.Table() == rs[Next(|ts|, i)].id.Table()
    ensures MidTable(cfg, s, ts[Next(|ts|, i)], rs[i].id.Table()) && rs[i].id in s.txns[ts[Next(|ts|, i)]].rows
    ensures Wants(cfg, s, ts[i], rs[i]) && ts[i] != ts[Next(|ts|, i)]
  {
    WaiterIsPlain(cfg, s, queue, ts[i], rs[i], ts[Next(|ts|, i)]);
    EveryoneIsTied(cfg, s, queue, ts, rs, i);
    TiedIsMidTable(cfg, s, ts[Next(|ts|, i)], rs[i], rs[Next(|ts|, i)]);
  }

  lemma MemberWaits(cfg: Config, s: State, queue: nat -> int, ts: seq<nat>, rs: seq<Resource>, i: nat, table: Table)
    requires Ranked(cfg, s) && i < |ts| == |rs|
    requires forall i | 0 <= i < |ts| :: Waits(cfg, s, queue, ts[i], rs[i], ts[Next(|ts|, i)])
    requires forall k | 0 <= k < |rs| :: rs[k].RowRes? && rs[k].id.Table() == table
    ensures WaitsInTable(cfg, s, ts[i], ts[Next(|ts|, i)], table)
  {
    var before := if i == 0 then |ts| - 1 else i - 1;
    assert Next(|ts|, before) == i;
    LinkInTable(cfg, s, queue, ts, rs, before);
    LinkInTable(cfg, s, queue, ts, rs, i);
    assert rs[i].id in s.txns[ts[Next(|ts|, i)]].rows && Wants(cfg, s, ts[i], RowRes(rs[i].id));
  }

  lemma CircleCrosses(cfg: Config, s: State, queue: nat -> int, ts: seq<nat>)
    requires Ranked(cfg, s) && Circle(cfg, s, queue, ts)
    ensures exists table :: Crossing(cfg, s, ts, table)
  {
    var rs := Wanteds(cfg, s, queue, ts);
    forall i | 0 <= i < |ts|
      ensures rs[Next(|ts|, i)].RowRes? && rs[i].RowRes? && rs[i].id.Table() == rs[Next(|ts|, i)].id.Table()
    {
      LinkInTable(cfg, s, queue, ts, rs, i);
    }
    var table := rs[0].id.Table();
    forall i | 0 <= i < |rs| ensures rs[i].id.Table() == table { OneTable(rs, i); }
    forall i | 0 <= i < |ts| ensures WaitsInTable(cfg, s, ts[i], ts[Next(|ts|, i)], table) {
      MemberWaits(cfg, s, queue, ts, rs, i, table);
    }
    assert Crossing(cfg, s, ts, table);
  }

  lemma {:induction false} OneTable(rs: seq<Resource>, i: nat)
    requires i < |rs| && forall k | 0 <= k < |rs| :: rs[k].RowRes?
    requires forall k | 0 <= k < |rs| :: rs[k].id.Table() == rs[Next(|rs|, k)].id.Table()
    ensures rs[i].id.Table() == rs[0].id.Table()
  {
    if i > 0 {
      OneTable(rs, i - 1);
      assert rs[i - 1].id.Table() == rs[Next(|rs|, i - 1)].id.Table();
    }
  }

  // ----- when there is none

  /** No two transactions each hold a row of one table and wait for another one of it, out of any order. */
  ghost predicate NoCrossing(cfg: Config, s: State) {
    forall t, t', table | MidTable(cfg, s, t, table) && MidTable(cfg, s, t', table) :: t == t'
  }

  lemma CrossingHasTwo(cfg: Config, s: State, ts: seq<nat>, table: Table)
    requires Crossing(cfg, s, ts, table)
    ensures exists t, t' | MidTable(cfg, s, t, table) && MidTable(cfg, s, t', table) :: t != t'
  {
    assert WaitsInTable(cfg, s, ts[0], ts[Next(|ts|, 0)], table);
    assert |ts| > 1;
    assert WaitsInTable(cfg, s, ts[1], ts[Next(|ts|, 1)], table);
  }

  /** However many transactions run, and in whatever order statements reach their rows, nobody waits in a
  circle, be it for what is held or behind another waiter, in any state where no two revocations cross in a
  table and no held key collides with a different key that is waited for, provided every operation starts
  with fresh new keys and a user code of its own. The family key may stand anywhere in the order of keys. */
  lemma NoDeadlock(cfg: Config, states: seq<State>, events: seq<Event>, n: nat, queue: nat -> int, ts: seq<nat>)
    requires cfg.locking && cfg.keyOrder.ClientBeforeConsent() && Run(cfg, states, events) && FreshRun(states, events)
    requires n < |states| && HashesApart(cfg, states[n]) && NoCrossing(cfg, states[n])
    ensures !Circle(cfg, states[n], queue, ts) && !Cycle(cfg, states[n], ts)
  {
    CircleIff(cfg, states, events, n, queue, ts);
    forall table ensures !Crossing(cfg, states[n], ts, table) {
      if Crossing(cfg, states[n], ts, table) { CrossingHasTwo(cfg, states[n], ts, table); }
    }
    if Cycle(cfg, states[n], ts) { CycleIsCircle(cfg, states[n], queue, ts); }
  }

  /** In particular when at most one revocation is running. */
  lemma OneRevocationAtATime(cfg: Config, states: seq<State>, events: seq<Event>, n: nat, queue: nat -> int,
                             ts: seq<nat>)
    requires cfg.locking && cfg.keyOrder.ClientBeforeConsent() && Run(cfg, states, events) && FreshRun(states, events)
    requires n < |states| && HashesApart(cfg, states[n])
    requires forall t, t' | t in states[n].txns && t' in states[n].txns
                            && states[n].txns[t].outcome.Running? && states[n].txns[t'].outcome.Running?
                            && Revoking(states[n].txns[t].op) && Revoking(states[n].txns[t'].op) :: t == t'
    ensures !Circle(cfg, states[n], queue, ts) && !Cycle(cfg, states[n], ts)
  {
    NoDeadlock(cfg, states, events, n, queue, ts);
  }

  /** And whenever all statements reach the rows of a table in one order. */
  lemma OrderedRows(cfg: Config, states: seq<State>, events: seq<Event>, n: nat, queue: nat -> int, ts: seq<nat>)
    requires cfg.locking && cfg.keyOrder.ClientBeforeConsent() && Run(cfg, states, events) && FreshRun(states, events)
    requires n < |states| && HashesApart(cfg, states[n])
    requires forall a: RowId, b: RowId | a.Table() == b.Table() && cfg.order(a) == cfg.order(b) :: a == b
    ensures !Circle(cfg, states[n], queue, ts) && !Cycle(cfg, states[n], ts)
  {
    NoDeadlock(cfg, states, events, n, queue, ts);
  }

  lemma RemovesUnderLock(cfg: Config, u: Txn)
    requires cfg.locking && Revoking(u.op) && u.pc < |Program(cfg, u.op, u.bound)|
    requires RemovesMany(Program(cfg, u.op, u.bound)[u.pc])
    ensures RecordedBy(u).Some? && Lock(KeyOf(RecordedBy(u).value.0), Exclusive) in Program(cfg, u.op, u.bound)[..u.pc]
  {
    var prog := Program(cfg, u.op, u.bound);
    var i := if u.op.RevokeConsent? then 1 else 0;
    assert RecordedBy(u).Some? && i < |prog| && prog[i] == Lock(KeyOf(RecordedBy(u).value.0), Exclusive);
    assert i < u.pc;
    assert prog[..u.pc][i] == prog[i];
  }

  /** Two revocations that cross in a table remove different scopes: their keys have different hashes. */
  lemma CrossersDiffer(cfg: Config, states: seq<State>, events: seq<Event>, n: nat, t: nat, t': nat, table: Table)
    requires cfg.locking && Run(cfg, states, events) && n < |states| && t != t'
    requires MidTable(cfg, states[n], t, table) && MidTable(cfg, states[n], t', table)
    ensures var a, b := RecordedBy(states[n].txns[t]), RecordedBy(states[n].txns[t']);
            a.Some? && b.Some? && cfg.hash(KeyOf(a.value.0)) != cfg.hash(KeyOf(b.value.0))
  {
    RunKeepsInv(cfg, states, events, n);
    HoldsScope(cfg, states[n], t, table);
    HoldsScope(cfg, states[n], t', table);
    assert KeysCompatible(cfg, states[n].txns[t].keys, states[n].txns[t'].keys);
  }

  lemma HoldsScope(cfg: Config, s: State, t: nat, table: Table)
    requires cfg.locking && Inv(cfg, s) && MidTable(cfg, s, t, table)
    ensures var u := s.txns[t];
            && RecordedBy(u).Some? && KeyOf(RecordedBy(u).value.0) in u.keys
            && u.keys[KeyOf(RecordedBy(u).value.0)] == Exclusive
  {
    var u := s.txns[t];
    assert RunningOk(cfg, s.db, u);
    RemovesUnderLock(cfg, u);
    assert Done(s.db, u.keys, u.dels, Lock(KeyOf(RecordedBy(u).value.0), Exclusive));
  }
}
