/** Refresh-token rotation has one winner, and a family has one active record. */
module Rotation {
  import opened Options
  import opened Records
  import opened Protocol
  import opened Atomic
  import opened Commit
  import opened SingleUse
  import opened Swaps

  /** The step commits a rotation that presented this record. */
  predicate Rotates(s: State, ev: Event, presented: Record) {
    ev.Publish? && ev.t in s.txns && s.txns[ev.t].op.Rotate? && s.txns[ev.t].op.presented == presented
  }

  function RotationAt(s: State, ev: Event): (op: Operation)
    requires ev.Publish? && ev.t in s.txns
  {
    s.txns[ev.t].op
  }

  lemma RotationCommit(cfg: Config, states: seq<State>, events: seq<Event>, i: nat, presented: Record)
    requires cfg.locking && Run(cfg, states, events) && i < |events| && Rotates(states[i], events[i], presented)
    ensures var op := RotationAt(states[i], events[i]);
            && Valid(op) && Stored(states[i].db, IdOf(presented)) == Some(presented)
            && Abs(states[i + 1].db) == Rotated(Abs(states[i].db), op.spent, op.access, op.next)
  {
    CommitStep(cfg, states, events, i);
    assert StepAt(cfg, states, events, i);
    CommitRotate(cfg, states[i], events[i].t, RotationAt(states[i], events[i]));
  }

  /** Of two committed rotations of one presented value, somebody has written that very value back in
  between: rotations computed from one read cannot both succeed. */
  lemma OneWinner(cfg: Config, states: seq<State>, events: seq<Event>, i: nat, j: nat, presented: Record)
      returns (k: nat)
    requires cfg.locking && Run(cfg, states, events) && i < j < |events|
    requires Rotates(states[i], events[i], presented) && Rotates(states[j], events[j], presented)
    requires var op := RotationAt(states[i], events[i]); op.spent != presented && op.next != Some(presented)
    ensures i < k < j && Writes(states[k], events[k], presented)
  {
    var id := IdOf(presented);
    RotationCommit(cfg, states, events, j, presented);
    RotationCommit(cfg, states, events, i, presented);
    k := LastWriter(cfg, states, events, j, id);
    RotatedAway(cfg, states, events, i, presented);
    assert k != i;
  }

  /** The rotation's own commit replaces the presented value. */
  lemma RotatedAway(cfg: Config, states: seq<State>, events: seq<Event>, i: nat, presented: Record)
    requires cfg.locking && Run(cfg, states, events) && i < |events| && Rotates(states[i], events[i], presented)
    requires var op := RotationAt(states[i], events[i]); op.spent != presented && op.next != Some(presented)
    ensures Changes(states[i], events[i], IdOf(presented)) && !Writes(states[i], events[i], presented)
  {
    var id := IdOf(presented);
    RotationCommit(cfg, states, events, i, presented);
    assert StepAt(cfg, states, events, i);
    assert Abs(states[i + 1].db)[id] != presented;
    if !Changes(states[i], events[i], id) { UnchangedStep(cfg, states[i], events[i], states[i + 1], id); }
  }

  // ----- a family has one active record

  predicate ActiveIn(r: Record, f: string) { r.RefreshToken? && r.familyId == f && r.state.Active? }

  ghost predicate OneActive(store: Store, f: string) {
    forall a, b | a in store && b in store && ActiveIn(store[a], f) && ActiveIn(store[b], f) :: a == b
  }

  /** An active record of the family is only written by a rotation that presents an active record and
  spends it. */
  predicate Advances(s: State, ev: Event, f: string) {
    ev.Publish? && ev.t in s.txns ==>
      var u := s.txns[ev.t];
      (exists id :: id in u.puts && ActiveIn(u.puts[id].payload, f)) ==>
        u.op.Rotate? && ActiveIn(u.op.presented, f) && u.op.spent.RefreshToken? && u.op.spent.state.Spent?
  }

  lemma RotatedOneActive(store: Store, op: Operation, f: string)
    requires op.Rotate? && Valid(op) && ActiveIn(op.presented, f) && op.spent.state.Spent?
    requires IdOf(op.presented) in store && store[IdOf(op.presented)] == op.presented && OneActive(store, f)
    ensures OneActive(Rotated(store, op.spent, op.access, op.next), f)
  {
    var after := Rotated(store, op.spent, op.access, op.next);
    forall a | a in after && ActiveIn(after[a], f) ensures op.next.Some? && a == IdOf(op.next.value) {
    }
  }

  lemma QuietOneActive(db: Db, u: Txn, f: string)
    requires OneActive(Abs(db), f) && forall id | id in u.puts :: !ActiveIn(u.puts[id].payload, f)
    ensures OneActive(Abs(Published(db, u)), f)
  {
    AbsPublished(db, u);
    var after := Abs(Published(db, u));
    forall a | a in after && ActiveIn(after[a], f) ensures a in Abs(db) && Abs(db)[a] == after[a] {
    }
  }

  lemma StepOneActive(cfg: Config, states: seq<State>, events: seq<Event>, k: nat, f: string)
    requires cfg.locking && Run(cfg, states, events) && k < |events| && Advances(states[k], events[k], f)
    requires OneActive(Abs(states[k].db), f)
    ensures OneActive(Abs(states[k + 1].db), f)
  {
    assert StepAt(cfg, states, events, k);
    if events[k].Publish? {
      var u := states[k].txns[events[k].t];
      if exists id :: id in u.puts && ActiveIn(u.puts[id].payload, f) {
        RotationCommit(cfg, states, events, k, u.op.presented);
        RotatedOneActive(Abs(states[k].db), u.op, f);
      } else {
        QuietOneActive(states[k].db, u, f);
      }
    }
  }

  /** A family that starts with at most one active record and advances by rotations never has two. */
  lemma {:induction false} FamilyHasOneActive(cfg: Config, states: seq<State>, events: seq<Event>, i: nat, n: nat,
                                              f: string)
    requires cfg.locking && Run(cfg, states, events) && i <= n < |states|
    requires OneActive(Abs(states[i].db), f)
    requires forall k | i <= k < n :: Advances(states[k], events[k], f)
    ensures OneActive(Abs(states[n].db), f)
  {
    if i < n {
      FamilyHasOneActive(cfg, states, events, i, n - 1, f);
      StepOneActive(cfg, states, events, n - 1, f);
    }
  }
}
