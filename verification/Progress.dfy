/** What the absence of circles is good for: as long as anything is running, somebody can go on. */
module Progress {
  import opened Protocol
  import opened Commit
  import opened Deadlock
  import opened Cycles
  import opened Alone

  /** The transaction can take a step of its own. */
  ghost predicate CanMove(cfg: Config, s: State, t: nat) {
    exists e, s' :: Onward(cfg, s, t, e, s')
  }

  /** The transaction has ended and somebody still waits for what it holds. */
  ghost predicate HoldsUp(cfg: Config, s: State, t: nat) {
    t in s.txns && !s.txns[t].outcome.Running? && exists t' :: WaitsFor(cfg, s, t', t)
  }

  function Running(s: State): (ts: set<nat>) { set t | t in s.txns && s.txns[t].outcome.Running? }

  // ----- a chain that does not end runs into itself

  lemma {:induction false} Repeats(p: seq<nat>, ts: set<nat>)
    requires |p| > |ts| && forall i | 0 <= i < |p| :: p[i] in ts
    ensures exists i, j | 0 <= i < j < |p| :: p[i] == p[j]
  {
    var first, rest := p[0], p[1..];
    if first in rest {
      var j :| 0 <= j < |rest| && rest[j] == first;
      assert p[0] == p[j + 1];
    } else {
      Repeats(rest, ts - {first});
      var i, j :| 0 <= i < j < |rest| && rest[i] == rest[j];
      assert p[i + 1] == p[j + 1];
    }
  }

  ghost predicate Stuck(ts: set<nat>, waits: (nat, nat) -> bool, t: nat) { exists t' | t' in ts :: waits(t, t') }

  ghost predicate AllStuck(ts: set<nat>, waits: (nat, nat) -> bool) {
    forall t {:trigger Stuck(ts, waits, t)} | t in ts :: Stuck(ts, waits, t)
  }

  lemma {:induction false} Chain(ts: set<nat>, waits: (nat, nat) -> bool, t: nat, k: nat) returns (p: seq<nat>)
    requires t in ts && AllStuck(ts, waits)
    ensures |p| == k + 1 && p[0] == t && forall i | 0 <= i <= k :: p[i] in ts
    ensures forall i | 0 <= i < k :: waits(p[i], p[i + 1])
    decreases k
  {
    if k == 0 {
      p := [t];
    } else {
      assert Stuck(ts, waits, t);
      var t' :| t' in ts && waits(t, t');
      var rest := Chain(ts, waits, t', k - 1);
      p := [t] + rest;
      assert forall i | 0 < i < k :: p[i] == rest[i - 1] && p[i + 1] == rest[i];
    }
  }

  /** If every member of a finite set waits for a member, some of them wait in a circle. */
  lemma CircleFound(ts: set<nat>, waits: (nat, nat) -> bool, t: nat) returns (c: seq<nat>)
    requires t in ts && AllStuck(ts, waits)
    ensures c != [] && forall k | 0 <= k < |c| :: waits(c[k], c[if k + 1 < |c| then k + 1 else 0])
  {
    var p := Chain(ts, waits, t, |ts|);
    Repeats(p, ts);
    var i, j :| 0 <= i < j < |p| && p[i] == p[j];
    c := p[i..j];
    forall k | 0 <= k < |c| ensures waits(c[k], c[if k + 1 < |c| then k + 1 else 0]) {
      assert waits(p[i + k], p[i + k + 1]);
    }
  }

  /** Whoever waits for no running transaction can go on, or waits for one that has ended. */
  lemma FreeMoves(cfg: Config, s: State, free: nat)
    requires CommitInv(cfg, s) && free in Running(s) && forall t' | t' in Running(s) :: !WaitsFor(cfg, s, free, t')
    ensures CanMove(cfg, s, free) || exists t' :: HoldsUp(cfg, s, t')
  {
    if Unblocked(cfg, s, free) {
      var e, s' := NextStep(cfg, s, free);
    } else {
      var r, t' :| Blocked(cfg, s, free, r, t');
      assert WaitsFor(cfg, s, free, t');
      assert HoldsUp(cfg, s, t');
    }
  }

  lemma NotEverybodyWaits(cfg: Config, s: State, t: nat) returns (free: nat)
    requires t in Running(s) && forall ts :: !Cycle(cfg, s, ts)
    ensures free in Running(s) && forall t' | t' in Running(s) :: !WaitsFor(cfg, s, free, t')
  {
    var waits := (a: nat, b: nat) => WaitsFor(cfg, s, a, b);
    if AllStuck(Running(s), waits) {
      var c := CircleFound(Running(s), waits, t);
      CircleIsCycle(cfg, s, waits, c);
    }
    free :| free in Running(s) && !Stuck(Running(s), waits, free);
    forall t' | t' in Running(s) ensures !WaitsFor(cfg, s, free, t') { assert !waits(free, t'); }
  }

  lemma CircleIsCycle(cfg: Config, s: State, waits: (nat, nat) -> bool, c: seq<nat>)
    requires c != [] && forall k | 0 <= k < |c| :: waits(c[k], c[if k + 1 < |c| then k + 1 else 0])
    requires forall a, b :: waits(a, b) ==> WaitsFor(cfg, s, a, b)
    ensures Cycle(cfg, s, c)
  {
    forall k | 0 <= k < |c| ensures WaitsFor(cfg, s, c[k], c[if k + 1 < |c| then k + 1 else 0]) {
      assert waits(c[k], c[if k + 1 < |c| then k + 1 else 0]);
    }
  }

  /** As long as a transaction is running, some running transaction can go on, or one that has ended is about
  to let go of what somebody waits for. */
  lemma SomebodyMoves(cfg: Config, states: seq<State>, events: seq<Event>, n: nat, t: nat)
    requires cfg.locking && cfg.keyOrder.ClientBeforeConsent() && Run(cfg, states, events) && FreshRun(states, events)
    requires n < |states| && HashesApart(cfg, states[n]) && NoCrossing(cfg, states[n]) && t in Running(states[n])
    ensures exists t :: (t in Running(states[n]) && CanMove(cfg, states[n], t)) || HoldsUp(cfg, states[n], t)
  {
    forall ts ensures !Cycle(cfg, states[n], ts) { NoDeadlock(cfg, states, events, n, (t: nat) => 0, ts); }
    var free := NotEverybodyWaits(cfg, states[n], t);
    RunKeepsCommitInv(cfg, states, events, n);
    FreeMoves(cfg, states[n], free);
  }
}
