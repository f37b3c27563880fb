/** What the creation of a consent finds in any run, also one in which consents are written without the lock
of their pair: no consent of the pair but those written while it ran. */
module Creations {
  import opened Options
  import opened Records
  import opened Protocol
  import opened NoResurrection
  import opened Commit
  import opened SingleUse
  import opened ConsentPairs
  import opened Leftovers

  ghost predicate CreatesAt(cfg: Config, s: State, t: nat, since: set<RowId>) {
    && t in s.txns && s.txns[t].outcome.Running? && Valid(s.txns[t].op) && s.txns[t].op.SwapConsent?
    && CreateOk(cfg, s.db, s.txns[t], since)
  }

  lemma PublishKeepsCreate(cfg: Config, db: Db, u: Txn, since: set<RowId>, v: Txn)
    requires Valid(u.op) && u.op.SwapConsent? && CreateOk(cfg, db, u, since)
    ensures CreateOk(cfg, Published(db, v), u, since + v.puts.Keys)
  {
    var db' := Published(db, v);
    assert forall id | id in db' && id !in v.puts :: id in db && db'[id] == db[id];
  }

  lemma OwnCreateStep(cfg: Config, s: State, e: Event, s': State, since: set<RowId>)
    requires CommitInv(cfg, s) && Step(cfg, s, e, s') && !e.Begin? && CreatesAt(cfg, s, e.t, since)
    requires e.t in s'.txns && s'.txns[e.t].outcome.Running?
    ensures !e.Publish? && s'.txns[e.t].op == s.txns[e.t].op && CreatesAt(cfg, s', e.t, since)
  {
    StepKeepsOp(cfg, s, e, s');
    StepIsFramed(cfg, s, e, s');
    assert RowsOk(cfg, s.db, s.txns[e.t]);
    OwnStepKeepsCreate(cfg, s, e, s', since);
  }

  lemma CreateStep(cfg: Config, s: State, e: Event, s': State, t: nat, since: set<RowId>)
    requires CommitInv(cfg, s) && Step(cfg, s, e, s') && CreatesAt(cfg, s, t, since)
    requires t in s'.txns && s'.txns[t].outcome.Running?
    ensures s'.txns[t].op == s.txns[t].op
    ensures CreatesAt(cfg, s', t, since + if e.Publish? && e.t in s.txns then s.txns[e.t].puts.Keys else {})
  {
    StepIsFramed(cfg, s, e, s');
    if e.t == t {
      OwnCreateStep(cfg, s, e, s', since);
      assert since + {} == since;
    } else {
      OtherCreateStep(cfg, s, e, s', t, since);
    }
  }

  lemma OtherCreateStep(cfg: Config, s: State, e: Event, s': State, t: nat, since: set<RowId>)
    requires Framed(s, e, s') && e.t != t && CreatesAt(cfg, s, t, since)
    ensures s'.txns[t] == s.txns[t]
    ensures CreatesAt(cfg, s', t, since + if e.Publish? && e.t in s.txns then s.txns[e.t].puts.Keys else {})
  {
    if e.Publish? && e.t in s.txns {
      PublishKeepsCreate(cfg, s.db, s.txns[t], since, s.txns[e.t]);
    } else {
      assert since + {} == since;
    }
  }

  lemma {:induction false} RunKeepsCreate(cfg: Config, states: seq<State>, events: seq<Event>, b: nat, n: nat, t: nat,
                                          op: Operation)
    requires cfg.locking && Run(cfg, states, events) && b < n < |states| && events[b] == Begin(t, op) && op.SwapConsent?
    requires t in states[n].txns && states[n].txns[t].outcome.Running?
    ensures states[n].txns[t].op == op && CreatesAt(cfg, states[n], t, WrittenBetween(states, events, b, n))
  {
    assert StepAt(cfg, states, events, n - 1) && StepAt(cfg, states, events, b);
    if n > b + 1 {
      StillThere(cfg, states, events, b, n - 1, t, op);
      StepIsFramed(cfg, states[n - 1], events[n - 1], states[n]);
      RunKeepsCreate(cfg, states, events, b, n - 1, t, op);
      RunKeepsCommitInv(cfg, states, events, n - 1);
      CreateStep(cfg, states[n - 1], events[n - 1], states[n], t, WrittenBetween(states, events, b, n - 1));
    }
  }

  /** Every consent of the pair that stands when a creation commits was written by a commit between the
  start of the creation and its own commit. */
  lemma CreationMissesOnlyNew(cfg: Config, states: seq<State>, events: seq<Event>, b: nat, n: nat, t: nat, r: Record,
                              id: RowId)
    requires cfg.locking && Run(cfg, states, events) && b < n < |events|
    requires events[b] == Begin(t, SwapConsent(None, r)) && events[n] == Publish(t)
    requires r.Consent? && id in states[n].db && IsConsentOf(states[n].db[id].payload, r.client, r.subjectId)
    ensures id in WrittenBetween(states, events, b, n)
  {
    CommitStep(cfg, states, events, n);
    RunKeepsCreate(cfg, states, events, b, n, t, SwapConsent(None, r));
    ConsentLength(cfg, SwapConsent(None, r), states[n].txns[t].bound);
    PairMatches(states[n].db, id, r);
  }
}
