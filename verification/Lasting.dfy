/** What a committed deletion or withdrawal guarantees from its commit on. */
module Lasting {
  import opened Options
  import opened Time
  import opened Records
  import opened Protocol
  import opened RowInvariant
  import opened Commit
  import opened Guarantees
  import opened SingleUse
  import opened BarrierRuns

  lemma BarrierCommitted(cfg: Config, s: State, t: nat)
    requires cfg.locking && CommitInv(cfg, s) && t in s.txns && Finished(cfg, s.txns[t]) && RecordedBy(s.txns[t]).Some?
    ensures var (scope, w) := RecordedBy(s.txns[t]).value;
            BarrierAtLeast(Published(s.db, s.txns[t]), scope, ToNanos(w.until), ToNanos(w.recordedAt))
  {
    RecorderPuts(cfg, s, t);
    MergedAtLeast(s.db, s.txns[t], RecordedBy(s.txns[t]).value.0, RecordedBy(s.txns[t]).value.1);
  }

  lemma MergedAtLeast(db: Db, u: Txn, scope: Scope, w: Window)
    requires Payloads(u.puts) == map[BarrierId(scope) := Merge(Stored(db, BarrierId(scope)), scope, w)]
    ensures BarrierAtLeast(Published(db, u), scope, ToNanos(w.until), ToNanos(w.recordedAt))
  {
    assert BarrierId(scope) in Payloads(u.puts);
  }

  lemma CommitStands(cfg: Config, states: seq<State>, events: seq<Event>, i: nat, t: nat, scope: Scope, w: Window)
    requires cfg.locking && Run(cfg, states, events) && i < |events| && events[i] == Publish(t)
    requires t in states[i].txns && RecordedBy(states[i].txns[t]) == Some((scope, w))
    ensures BarrierAtLeast(states[i + 1].db, scope, ToNanos(w.until), ToNanos(w.recordedAt))
  {
    assert StepAt(cfg, states, events, i);
    CommitStep(cfg, states, events, i);
    BarrierCommitted(cfg, states[i], t);
  }

  /** The barrier of a committed revocation stands until a committed sweep has passed its deadline. */
  lemma BarrierLasts(cfg: Config, states: seq<State>, events: seq<Event>, i: nat, n: nat, t: nat, scope: Scope,
                     w: Window)
    requires cfg.locking && Run(cfg, states, events) && i < n < |states| && events[i] == Publish(t)
    requires t in states[i].txns && RecordedBy(states[i].txns[t]) == Some((scope, w))
    requires forall k | i <= k < n :: !SweepsBarriers(states[k], events[k], ToNanos(w.until))
    ensures BarrierAtLeast(states[n].db, scope, ToNanos(w.until), ToNanos(w.recordedAt))
  {
    CommitStands(cfg, states, events, i, t, scope, w);
    BarrierStays(cfg, states, events, i + 1, n, scope, ToNanos(w.until), ToNanos(w.recordedAt));
  }

  /** A grant later than a column is later than the instant the column stands for, unless that one lies
  beyond the end of the range. */
  predicate GrantedAfter(g: Guard, w: Window) {
    FromNanos(ToNanos(w.recordedAt)) < g.established && (w.recordedAt <= I64_MAX ==> w.recordedAt < g.established)
  }

  /** Once the deletion of a client has committed, and until its barrier is swept, every token and pushed
  request of the client was granted later than the deletion, and there is one only if the client has been
  registered again. */
  lemma DeletedClientStays(cfg: Config, states: seq<State>, events: seq<Event>, i: nat, n: nat, t: nat,
                           c: string, w: Window, id: RowId)
    requires cfg.locking && Run(cfg, states, events) && i < n < |states|
    requires events[i] == Publish(t) && t in states[i].txns && states[i].txns[t].op == DeleteClient(c, w)
    requires forall k | i <= k < n :: !SweepsBarriers(states[k], events[k], ToNanos(w.until))
    requires id in states[n].db && IsGuarded(states[n].db[id].payload) && GuardOf(states[n].db[id].payload).client == c
    ensures GrantedAfter(GuardOf(states[n].db[id].payload), w) && Keyed(Clients, c) in states[n].db
  {
    BarrierLasts(cfg, states, events, i, n, t, ClientScope(c), w);
    ClientBarrierSeparates(cfg, states, events, n, id);
  }

  /** Once the withdrawal of a consent has committed, and until its barrier is swept, every token of the pair
  was granted later than the withdrawal. */
  lemma WithdrawnPairStays(cfg: Config, states: seq<State>, events: seq<Event>, i: nat, n: nat, t: nat,
                           consent: string, w: Window, c: string, s: string, id: RowId)
    requires cfg.locking && Run(cfg, states, events) && i < n < |states|
    requires events[i] == Publish(t) && t in states[i].txns && states[i].txns[t].op == RevokeConsent(consent, w)
    requires states[i].txns[t].bound == Some((c, s))
    requires forall k | i <= k < n :: !SweepsBarriers(states[k], events[k], ToNanos(w.until))
    requires id in states[n].db && IsGuarded(states[n].db[id].payload)
    requires GuardOf(states[n].db[id].payload).client == c && GuardOf(states[n].db[id].payload).subject == Some(s)
    ensures GrantedAfter(GuardOf(states[n].db[id].payload), w)
  {
    BarrierLasts(cfg, states, events, i, n, t, ConsentScope(c, s), w);
    ConsentBarrierSeparates(cfg, states, events, n, id, s);
  }
}
