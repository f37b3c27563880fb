/** A widening is refused for a reason, and goes over the newest consent of its pair.

The read takes the newest consent of the pair. Between the snapshot and the lock the consent may change, and
plain writes may add others; what is said here holds in any run. */
module Widenings {
  import opened Options
  import opened Time
  import opened Records
  import opened Protocol
  import opened NoResurrection
  import opened RowInvariant
  import opened Commit
  import opened SingleUse
  import opened ConsentPairs
  import opened Leftovers
  import opened Creations
  import opened Misses

  /** The consent is stored exactly so, belongs to the pair, and is the only newest one of it. */
  predicate SoleNewest(db: Db, e: Record, c: string, s: string)
    requires e.Consent?
  {
    && IdOf(e) in db && db[IdOf(e)].payload == e && e.client == c && e.subjectId == s
    && forall id | id in db && id != IdOf(e) && IsConsentOf(db[id].payload, c, s) ::
         ToNanos(db[id].payload.grantedAt) < ToNanos(e.grantedAt)
  }

  ghost predicate UnsureSince(states: seq<State>, b: nat, n: nat, e: Record, r: Record)
    requires e.Consent? && r.Consent? && n < |states|
  {
    exists k | b < k <= n :: !SoleNewest(states[k].db, e, r.client, r.subjectId)
  }

  /** A row of a snapshot that is newer than all others of it. */
  predicate Leads(snapshot: map<RowId, Row>, id: RowId) {
    id in snapshot && forall other | other in snapshot && other != id ::
      snapshot[other].cols.granted < snapshot[id].cols.granted
  }

  ghost predicate WidenOk(read: nat, states: seq<State>, b: nat, n: nat, e: Record, r: Record, u: Txn)
    requires e.Consent? && r.Consent? && n < |states|
  {
    || IdOf(e) in u.hits || UnsureSince(states, b, n, e, r)
    || (&& u.pc <= read && u.puts == map[] && u.dels == {} && (u.pc < read ==> u.scan.None?)
        && (u.scan.Some? ==> Leads(u.scan.value, IdOf(e)) && StoodSince(states, b, n, IdOf(e), u.scan.value[IdOf(e)])))
  }

  lemma WidenGrows(read: nat, states: seq<State>, b: nat, n: nat, e: Record, r: Record, u: Txn)
    requires e.Consent? && r.Consent? && n + 1 < |states| && WidenOk(read, states, b, n, e, r, u)
    ensures WidenOk(read, states, b, n + 1, e, r, u)
  {
    if UnsureSince(states, b, n, e, r) {
      var k :| b < k <= n && !SoleNewest(states[k].db, e, r.client, r.subjectId);
      assert UnsureSince(states, b, n + 1, e, r);
    } else if IdOf(e) !in u.hits && u.scan.Some? {
      var id := IdOf(e);
      var k :| b < k <= n && id in states[k].db && states[k].db[id].born == u.scan.value[id].born;
      assert StoodSince(states, b, n + 1, id, u.scan.value[id]);
    }
  }

  // ----- the steps of the read

  lemma SnapshotLeads(db: Db, e: Record, r: Record)
    requires e.Consent? && r.Consent? && ColumnsAgree(db) && SoleNewest(db, e, r.client, r.subjectId)
    ensures Leads(Selected(db, PairPred(r)), IdOf(e)) && Selected(db, PairPred(r))[IdOf(e)] == db[IdOf(e)]
  {
    forall id | id in db && Matches(PairPred(r), id, db[id])
      ensures IsConsentOf(db[id].payload, r.client, r.subjectId)
    {
      assert IdOf(db[id].payload) == id;
    }
  }

  lemma SelectsPair(s: State, t: nat, r: Record, snapshot: map<RowId, Row>, u': Txn)
    requires t in s.txns && s.txns[t].puts == map[] && s.txns[t].dels == {} && r.Consent?
    requires ScanStartStmt(s, t, Scan(PairPred(r), LockNewest, false), snapshot, u')
    ensures snapshot == Selected(s.db, PairPred(r)) && u' == s.txns[t].(scan := Some(snapshot))
  {
    assert View(s.db, s.txns[t]) == s.db;
  }

  lemma StartWidens(cfg: Config, states: seq<State>, events: seq<Event>, b: nat, n: nat, t: nat, e: Record, r: Record,
                    snapshot: map<RowId, Row>)
    requires cfg.locking && Run(cfg, states, events) && b < n < |events| && events[n] == ScanStart(t, snapshot)
    requires t in states[n].txns && Valid(states[n].txns[t].op) && states[n].txns[t].op == SwapConsent(Some(e), r)
    requires states[n].txns[t].pc == ReadIndex(cfg, states[n].txns[t].op)
    requires states[n].txns[t].puts == map[] && states[n].txns[t].dels == {} && t in states[n + 1].txns
    ensures WidenOk(ReadIndex(cfg, states[n].txns[t].op), states, b, n + 1, e, r, states[n + 1].txns[t])
  {
    var s, u := states[n], states[n].txns[t];
    assert StepAt(cfg, states, events, n);
    SwapStatement(cfg, u.op, u.bound, u.pc);
    SelectsPair(s, t, r, snapshot, states[n + 1].txns[t]);
    if SoleNewest(s.db, e, r.client, r.subjectId) {
      RunKeepsInv(cfg, states, events, n);
      SnapshotLeads(s.db, e, r);
      assert StoodSince(states, b, n + 1, IdOf(e), snapshot[IdOf(e)]);
    } else {
      assert UnsureSince(states, b, n + 1, e, r);
    }
  }

  /** The only newest row is the one that comes next. */
  lemma LeaderIsNext(cfg: Config, snapshot: map<RowId, Row>, id: RowId, next: RowId)
    requires Leads(snapshot, id) && IsNext(cfg, snapshot, LockNewest, next)
    ensures next == id
  {
  }

  lemma DroppedRow(cfg: Config, s: State, t: nat, r: Record, id: RowId, u': Txn)
    requires t in s.txns && s.txns[t].puts == map[] && s.txns[t].dels == {} && r.Consent?
    requires ScanRowStmt(cfg, s, t, Scan(PairPred(r), LockNewest, false), id, u') && id !in u'.hits
    ensures id !in s.db || s.db[id].born != s.txns[t].scan.value[id].born || !Matches(PairPred(r), id, s.db[id])
  {
    assert View(s.db, s.txns[t]) == s.db;
  }

  lemma NotSole(db: Db, e: Record, r: Record)
    requires e.Consent? && r.Consent? && ColumnsAgree(db)
    requires IdOf(e) !in db || !Matches(PairPred(r), IdOf(e), db[IdOf(e)])
    ensures !SoleNewest(db, e, r.client, r.subjectId)
  {
  }

  lemma RowWidens(cfg: Config, states: seq<State>, events: seq<Event>, b: nat, n: nat, t: nat, e: Record, r: Record,
                  id: RowId)
    requires cfg.locking && Run(cfg, states, events) && b < n < |events| && events[n] == ScanRow(t, id)
    requires t in states[n].txns && Valid(states[n].txns[t].op) && states[n].txns[t].op == SwapConsent(Some(e), r)
    requires states[n].txns[t].pc == ReadIndex(cfg, states[n].txns[t].op)
    requires states[n].txns[t].puts == map[] && states[n].txns[t].dels == {} && states[n].txns[t].scan.Some?
    requires Leads(states[n].txns[t].scan.value, IdOf(e)) && t in states[n + 1].txns
    requires StoodSince(states, b, n, IdOf(e), states[n].txns[t].scan.value[IdOf(e)])
    ensures IdOf(e) in states[n + 1].txns[t].hits || UnsureSince(states, b, n + 1, e, r)
  {
    var s, u, u' := states[n], states[n].txns[t], states[n + 1].txns[t];
    assert StepAt(cfg, states, events, n);
    SwapStatement(cfg, u.op, u.bound, u.pc);
    LeaderIsNext(cfg, u.scan.value, IdOf(e), id);
    if id !in u'.hits {
      RunKeepsCommitInv(cfg, states, events, n);
      DroppedRow(cfg, s, t, r, id, u');
      if id in s.db && Matches(PairPred(r), id, s.db[id]) {
        ReplacedWasMissing(cfg, states, events, b, n, ByKey(id), u.scan.value[id]);
        var k :| b < k <= n && Misses.Misses(states[k].db, ByKey(id));
        assert !SoleNewest(states[k].db, e, r.client, r.subjectId);
      } else {
        NotSole(s.db, e, r);
      }
    }
  }

  lemma LockBeforeRead(cfg: Config, s: State, t: nat, stmt: Stmt, u': Txn)
    requires t in s.txns && ExecStmt(cfg, s, t, stmt, u') && stmt.Lock?
    ensures u'.pc == s.txns[t].pc + 1 && u'.puts == s.txns[t].puts && u'.dels == s.txns[t].dels
    ensures u'.scan == s.txns[t].scan
  {
  }

  lemma OwnWidens(cfg: Config, states: seq<State>, events: seq<Event>, b: nat, n: nat, t: nat, e: Record, r: Record)
    requires cfg.locking && Run(cfg, states, events) && b < n < |events| && events[n].t == t && t in states[n].txns
    requires Valid(states[n].txns[t].op) && states[n].txns[t].op == SwapConsent(Some(e), r)
    requires states[n].txns[t].outcome.Running? && t in states[n + 1].txns && states[n + 1].txns[t].outcome.Running?
    requires WidenOk(ReadIndex(cfg, states[n].txns[t].op), states, b, n, e, r, states[n].txns[t])
    ensures WidenOk(ReadIndex(cfg, states[n].txns[t].op), states, b, n + 1, e, r, states[n + 1].txns[t])
  {
    assert StepAt(cfg, states, events, n);
    StepIsFramed(cfg, states[n], events[n], states[n + 1]);
    if IdOf(e) in states[n].txns[t].hits {
      HitsGrow(cfg, states[n], events[n], states[n + 1], IdOf(e));
    } else if UnsureSince(states, b, n, e, r) {
      var k :| b < k <= n && !SoleNewest(states[k].db, e, r.client, r.subjectId);
      assert UnsureSince(states, b, n + 1, e, r);
    } else {
      ReadWidens(cfg, states, events, b, n, t, e, r);
    }
  }

  lemma ReadWidens(cfg: Config, states: seq<State>, events: seq<Event>, b: nat, n: nat, t: nat, e: Record, r: Record)
    requires cfg.locking && Run(cfg, states, events) && b < n < |events| && events[n].t == t && t in states[n].txns
    requires Valid(states[n].txns[t].op) && states[n].txns[t].op == SwapConsent(Some(e), r)
    requires states[n].txns[t].outcome.Running? && t in states[n + 1].txns && states[n + 1].txns[t].outcome.Running?
    requires !events[n].Begin?
    requires var u, read := states[n].txns[t], ReadIndex(cfg, states[n].txns[t].op);
             && u.pc <= read && u.puts == map[] && u.dels == {} && (u.pc < read ==> u.scan.None?)
             && (u.scan.Some? ==>
                   Leads(u.scan.value, IdOf(e)) && StoodSince(states, b, n, IdOf(e), u.scan.value[IdOf(e)]))
    ensures WidenOk(ReadIndex(cfg, states[n].txns[t].op), states, b, n + 1, e, r, states[n + 1].txns[t])
  {
    var s, u := states[n], states[n].txns[t];
    assert StepAt(cfg, states, events, n);
    ConsentLength(cfg, u.op, u.bound);
    SwapStatement(cfg, u.op, u.bound, u.pc);
    match events[n] {
      case Exec(_) => LockBeforeRead(cfg, s, t, Current(cfg, s, t), states[n + 1].txns[t]);
      case ScanStart(_, snapshot) => StartWidens(cfg, states, events, b, n, t, e, r, snapshot);
      case ScanRow(_, id) => RowWidens(cfg, states, events, b, n, t, e, r, id);
      case _ =>
    }
  }

  lemma {:induction false} RunWidens(cfg: Config, states: seq<State>, events: seq<Event>, b: nat, n: nat, t: nat,
                                     e: Record, r: Record)
    requires cfg.locking && Run(cfg, states, events) && b < n < |states|
    requires events[b] == Begin(t, SwapConsent(Some(e), r))
    requires t in states[n].txns && states[n].txns[t].outcome.Running?
    ensures states[n].txns[t].op == SwapConsent(Some(e), r) && Valid(states[n].txns[t].op)
    ensures WidenOk(ReadIndex(cfg, states[n].txns[t].op), states, b, n, e, r, states[n].txns[t])
  {
    assert StepAt(cfg, states, events, n - 1) && StepAt(cfg, states, events, b);
    if n > b + 1 {
      StillThere(cfg, states, events, b, n - 1, t, SwapConsent(Some(e), r));
      StepIsFramed(cfg, states[n - 1], events[n - 1], states[n]);
      RunWidens(cfg, states, events, b, n - 1, t, e, r);
      if events[n - 1].t == t {
        StepKeepsOp(cfg, states[n - 1], events[n - 1], states[n]);
        OwnWidens(cfg, states, events, b, n - 1, t, e, r);
      } else {
        WidenGrows(ReadIndex(cfg, SwapConsent(Some(e), r)), states, b, n - 1, e, r, states[n].txns[t]);
      }
    }
  }

  /** A widening that is refused at its read: in some state since its start the consent it was computed from
  was not stored so, or not in the pair, or not the only newest one of the pair. */
  lemma WideningRefusalWasReal(cfg: Config, states: seq<State>, events: seq<Event>, b: nat, n: nat, t: nat,
                               e: Record, r: Record)
    requires cfg.locking && Run(cfg, states, events) && b < n < |events| && e.Consent? && r.Consent?
    requires events[b] == Begin(t, SwapConsent(Some(e), r)) && events[n].t == t
    requires RefusesRead(states[n], events[n], states[n + 1])
    ensures exists k | b < k <= n :: !SoleNewest(states[k].db, e, r.client, r.subjectId)
  {
    var u := states[n].txns[t];
    assert StepAt(cfg, states, events, n);
    RunWidens(cfg, states, events, b, n, t, e, r);
    RunKeepsCommitInv(cfg, states, events, n);
    assert RowsOk(cfg, states[n].db, u);
    if IdOf(e) in u.hits {
      assert states[n].db[IdOf(e)] == u.hits[IdOf(e)];
      assert !SoleNewest(states[n].db, e, r.client, r.subjectId);
    } else {
      assert UnsureSince(states, b, n, e, r);
    }
  }

  /** A creation that is refused at its read: the pair has a consent at that moment. */
  lemma CreationRefusalWasReal(cfg: Config, states: seq<State>, events: seq<Event>, b: nat, n: nat, t: nat, r: Record)
    requires cfg.locking && Run(cfg, states, events) && b < n < |events| && r.Consent?
    requires events[b] == Begin(t, SwapConsent(None, r)) && events[n].t == t
    requires RefusesRead(states[n], events[n], states[n + 1])
    ensures exists id | id in states[n].db :: IsConsentOf(states[n].db[id].payload, r.client, r.subjectId)
  {
    var s, u := states[n], states[n].txns[t];
    assert StepAt(cfg, states, events, n);
    RunKeepsCreate(cfg, states, events, b, n, t, SwapConsent(None, r));
    RunKeepsCommitInv(cfg, states, events, n);
    assert RowsOk(cfg, s.db, u);
    var id :| id in u.hits;
    FoundConsent(s.db, u, r, id);
  }

  lemma FoundConsent(db: Db, u: Txn, r: Record, id: RowId)
    requires ColumnsAgree(db) && HitsCurrent(db, u.hits) && r.Consent? && id in u.hits
    requires Matches(PairPred(r), id, u.hits[id])
    ensures id in db && IsConsentOf(db[id].payload, r.client, r.subjectId)
  {
    assert IdOf(db[id].payload) == id;
  }

  /** A widening that commits found exactly the consent it was computed from, and in its own pair. */
  lemma WidensItsPair(cfg: Config, states: seq<State>, events: seq<Event>, b: nat, n: nat, t: nat, e: Record, r: Record)
    requires cfg.locking && Run(cfg, states, events) && b < n < |events| && e.Consent? && r.Consent?
    requires events[b] == Begin(t, SwapConsent(Some(e), r)) && events[n] == Publish(t)
    ensures IdOf(e) in states[n].db && states[n].db[IdOf(e)].payload == e
    ensures e.client == r.client && e.subjectId == r.subjectId
  {
    CommitStep(cfg, states, events, n);
    RunKeepsCreate(cfg, states, events, b, n, t, SwapConsent(Some(e), r));
    ReadFound(cfg, states[n], t, e, r);
    FoundConsent(states[n].db, states[n].txns[t], r, IdOf(e));
  }

  /** And it was the newest of the pair: a newer one that stands at the commit was written while the widening
  ran, or the consent itself was. */
  lemma WidensNewest(cfg: Config, states: seq<State>, events: seq<Event>, b: nat, n: nat, t: nat, e: Record, r: Record,
                     id: RowId)
    requires cfg.locking && Run(cfg, states, events) && b < n < |events| && e.Consent? && r.Consent?
    requires events[b] == Begin(t, SwapConsent(Some(e), r)) && events[n] == Publish(t)
    requires id in states[n].db && IsConsentOf(states[n].db[id].payload, r.client, r.subjectId)
    requires ToNanos(e.grantedAt) < ToNanos(states[n].db[id].payload.grantedAt)
    ensures id in WrittenBetween(states, events, b, n) || IdOf(e) in WrittenBetween(states, events, b, n)
  {
    CommitStep(cfg, states, events, n);
    RunKeepsCreate(cfg, states, events, b, n, t, SwapConsent(Some(e), r));
    ReadFound(cfg, states[n], t, e, r);
    NewestFound(cfg, states[n], t, WrittenBetween(states, events, b, n), e, r, id);
  }

  lemma NewestFound(cfg: Config, s: State, t: nat, since: set<RowId>, e: Record, r: Record, id: RowId)
    requires CreatesAt(cfg, s, t, since) && ColumnsAgree(s.db) && s.txns[t].op == SwapConsent(Some(e), r)
    requires HitsCurrent(s.db, s.txns[t].hits) && IdOf(e) in s.txns[t].hits && s.txns[t].hits[IdOf(e)].payload == e
    requires id in s.db && IsConsentOf(s.db[id].payload, r.client, r.subjectId)
    requires ToNanos(e.grantedAt) < ToNanos(s.db[id].payload.grantedAt)
    ensures id in since || IdOf(e) in since
  {
    PairMatches(s.db, id, r);
    assert IdOf(s.db[id].payload) == id && s.db[IdOf(e)] == s.txns[t].hits[IdOf(e)];
  }

  lemma ReadFound(cfg: Config, s: State, t: nat, e: Record, r: Record)
    requires CommitInv(cfg, s) && t in s.txns && Finished(cfg, s.txns[t]) && s.txns[t].op == SwapConsent(Some(e), r)
    ensures var u := s.txns[t];
            && HitsCurrent(s.db, u.hits) && IdOf(e) in u.hits && u.hits[IdOf(e)].payload == e
  {
    assert RowsOk(cfg, s.db, s.txns[t]);
    ConsentLength(cfg, s.txns[t].op, s.txns[t].bound);
  }
}
