/** What an operation comes to when nobody else holds anything: it commits if and only if the records admit it. */
module Served {
  import opened Options
  import opened Time
  import opened Records
  import opened Protocol
  import opened NoResurrection
  import opened Atomic
  import opened Commit
  import opened SingleUse
  import opened StoreSpec
  import opened CodeIndex
  import opened Serial
  import opened BarrierRuns
  import opened ByFields
  import opened ConsentPairs
  import opened Leftovers
  import opened Creations
  import opened Misses
  import opened Widenings
  import opened Witnesses
  import opened Refusals
  import opened Alone

  /** The run goes on with this operation alone, from its start to its commit. */
  ghost predicate CommitsAlone(cfg: Config, states: seq<State>, events: seq<Event>, states': seq<State>,
                               events': seq<Event>, t: nat, op: Operation) {
    && Run(cfg, states', events') && states <= states' && events <= events' && |events| + 1 < |events'|
    && |states| == |events| + 1
    && events'[|events|] == Begin(t, op) && events'[|events'| - 1] == Publish(t)
    && forall k | |events| < k < |events'| - 1 :: events'[k].t == t && !events'[k].Publish?
  }

  /** Until the commit the committed rows stay as they are. */
  lemma {:induction false} RowsStay(cfg: Config, states: seq<State>, events: seq<Event>, b: nat, n: nat, k: nat)
    requires Run(cfg, states, events) && b <= k <= n < |states|
    requires forall k | b <= k < n :: !events[k].Publish?
    ensures states[k].db == states[b].db && WrittenBetween(states, events, b, k) == {}
  {
    if b < k {
      RowsStay(cfg, states, events, b, n, k - 1);
      assert StepAt(cfg, states, events, k - 1);
      StepIsFramed(cfg, states[k - 1], events[k - 1], states[k]);
    }
  }

  // ----- what the records admit is served

  lemma BeginsAlone(cfg: Config, states: seq<State>, events: seq<Event>, t: nat, op: Operation)
      returns (states': seq<State>, events': seq<Event>)
    requires Run(cfg, states, events) && Quiet(states[|events|]) && t !in states[|events|].txns && Valid(op)
    ensures Run(cfg, states', events') && states' == states + [With(states[|events|], t, Started(op))]
    ensures events' == events + [Begin(t, op)] && AtWork(cfg, states', t)
  {
    var s' := With(states[|events|], t, Started(op));
    RunOneMore(cfg, states, events, Begin(t, op), s');
    states', events' := states + [s'], events + [Begin(t, op)];
  }

  /** The last step of a transaction that has ended refused it or published it. */
  lemma EndedBy(cfg: Config, states: seq<State>, events: seq<Event>, t: nat)
    requires Run(cfg, states, events) && Ended(states, events, t)
    requires var e := events[|events| - 1]; e.t == t && !e.Abort? && !e.Begin? && !e.Release?
    ensures events[|events| - 1] == Publish(t) || Refuses(states[|events| - 1], events[|events| - 1], states[|events|])
  {
    assert StepAt(cfg, states, events, |events| - 1);
  }

  lemma AdmittedIsServed(cfg: Config, states: seq<State>, events: seq<Event>, t: nat, op: Operation)
      returns (states': seq<State>, events': seq<Event>)
    requires cfg.locking && Run(cfg, states, events) && Quiet(states[|events|]) && t !in states[|events|].txns
    requires Valid(op) && Admits(op, Abs(states[|events|].db), true)
    ensures CommitsAlone(cfg, states, events, states', events', t, op)
  {
    var states1, events1 := BeginsAlone(cfg, states, events, t, op);
    states', events' := ComesToItsEnd(cfg, states1, events1, t);
    assert events'[|events|] == events1[|events|] && states'[|events|] == states[|events|];
    EndsCommitted(cfg, states', events', |events|, t, op);
  }

  lemma EndsCommitted(cfg: Config, states: seq<State>, events: seq<Event>, b: nat, t: nat, op: Operation)
    requires cfg.locking && Run(cfg, states, events) && b + 1 < |events| && events[b] == Begin(t, op)
    requires Ended(states, events, t) && Valid(op) && Admits(op, Abs(states[b].db), true)
    requires forall k | b < k < |events| ::
               events[k].t == t && !events[k].Abort? && !events[k].Begin? && !events[k].Release?
    requires forall k | b < k < |events| - 1 :: !events[k].Publish?
    ensures events[|events| - 1] == Publish(t)
  {
    var n := |events| - 1;
    EndedBy(cfg, states, events, t);
    if events[n] != Publish(t) {
      RefusalHasReason(cfg, states, events, b, n, t, op);
      var k :| b < k <= n && !Admits(op, Abs(states[k].db), true);
      RowsStay(cfg, states, events, b, n, k);
    }
  }

  // ----- what is served was admitted

  /** From its start to its commit nobody else commits. */
  ghost predicate Undisturbed(cfg: Config, states: seq<State>, events: seq<Event>, b: nat, n: nat, t: nat,
                              op: Operation) {
    && Run(cfg, states, events) && b < n < |events| && events[b] == Begin(t, op) && events[n] == Publish(t)
    && forall k | b <= k < n :: !events[k].Publish?
  }

  lemma TokenWasAdmitted(cfg: Config, s: State, t: nat)
    requires cfg.locking && CommitInv(cfg, s) && t in s.txns && Finished(cfg, s.txns[t])
    requires s.txns[t].op.PutGuarded? || s.txns[t].op.Rotate?
    ensures Admits(s.txns[t].op, Abs(s.db), false)
  {
    var op := s.txns[t].op;
    if op.PutGuarded? { CommitPut(cfg, s, t, op.rec); } else { CommitRotate(cfg, s, t, op); }
    UnrevokedIsAdmitted(op, Abs(s.db));
  }

  lemma UnrevokedIsAdmitted(op: Operation, store: Store)
    requires Valid(op)
    ensures op.PutGuarded? && !IsRevoked(store, GuardOf(op.rec)) ==> Admits(op, store, false)
    ensures (&& op.Rotate? && IdOf(op.presented) in store && store[IdOf(op.presented)] == op.presented
             && !IsRevoked(store, GuardOf(op.presented))) ==> Admits(op, store, false)
  {
    if op.PutGuarded? { BarredIsRevoked(store, op.rec); }
    if op.Rotate? { BarredIsRevoked(store, op.presented); }
  }

  lemma RevocationWasNamed(cfg: Config, s: State, t: nat)
    requires cfg.locking && CommitInv(cfg, s) && t in s.txns && Finished(cfg, s.txns[t])
    requires RecordedBy(s.txns[t]).Some?
    ensures NonEmpty(RecordedBy(s.txns[t]).value.0)
  {
    var u := s.txns[t];
    match u.op
    case DeleteClient(c, w) =>
      DeletionProgram(cfg, c, w, u.bound);
      RevocationCommit(cfg, s, t, [], ClientScope(c), w, ClientRemovals(c));
    case RevokeFamily(f, w) =>
      FamilyProgram(cfg, f, w, u.bound);
      RevocationCommit(cfg, s, t, [], FamilyScope(f), w, FamilyRemovals(f));
    case RevokeConsent(id, w) =>
      var (c, sub) := u.bound.value;
      WithdrawalProgram(cfg, id, w, c, sub);
      RevocationCommit(cfg, s, t, [Deletion(ByKey(Keyed(Consents, id)))], ConsentScope(c, sub), w,
        PairRemovals(c, sub));
  }

  lemma WithdrawalWasAdmitted(cfg: Config, states: seq<State>, events: seq<Event>, b: nat, n: nat, t: nat,
                              op: Operation)
    requires cfg.locking && Undisturbed(cfg, states, events, b, n, t, op) && op.RevokeConsent?
    ensures Admits(op, Abs(states[n].db), false)
  {
    var key, s := Keyed(Consents, op.consentId), states[n];
    CommitStep(cfg, states, events, n);
    KeepsOp(cfg, states, events, b, n, t, op);
    if s.txns[t].bound.Some? {
      RevocationWasNamed(cfg, s, t);
      PairOfConsent(cfg, s, t, op.consentId, op.window);
    } else {
      assert RowsOk(cfg, s.db, s.txns[t]);
      MissedAllAlong(cfg, states, events, b, n, t, op, ByKey(key));
    }
  }

  /** What an operation misses undisturbed is not there. */
  lemma MissedAllAlong(cfg: Config, states: seq<State>, events: seq<Event>, b: nat, n: nat, t: nat, op: Operation,
                       p: Pred)
    requires cfg.locking && Undisturbed(cfg, states, events, b, n, t, op) && Looked(op) == Some(p)
    requires t in states[n].txns && p.id !in states[n].txns[t].hits
    ensures Misses.Misses(states[n].db, p)
  {
    MissWasReal(cfg, states, events, b, n, t, op, p);
    var k :| b < k <= n && Misses.Misses(states[k].db, p);
    RowsStay(cfg, states, events, b, n, k);
    RowsStay(cfg, states, events, b, n, n);
  }

  lemma DeviceWasAdmitted(cfg: Config, states: seq<State>, events: seq<Event>, b: nat, n: nat, t: nat, op: Operation)
    requires cfg.locking && Undisturbed(cfg, states, events, b, n, t, op) && (op.Put? || op.Swap?)
    ensures Valid(op) && Admits(op, Abs(states[n].db), false)
  {
    var s := states[n];
    CommitStep(cfg, states, events, n);
    RunKeepsIndex(cfg, states, events, n);
    KeepsOp(cfg, states, events, b, n, t, op);
    if op.Put? {
      CommitPlain(cfg, s, t, op.rec);
      if op.rec.DeviceGrant? { NoClashNotTaken(Abs(s.db), op.rec); }
    } else if s.txns[t].hits != map[] {
      SwapSerial(cfg, s, t, op.expected, op.updated);
      if op.updated.DeviceGrant? { NoClashNotTaken(Abs(s.db), op.updated); }
    } else {
      MissedAllAlong(cfg, states, events, b, n, t, op, ByState(IdOf(op.updated), op.expected));
    }
  }

  lemma NoClashNotTaken(store: Store, r: Record)
    requires r.DeviceGrant? && !Clashes(store, r)
    ensures !CodeTaken(store, r)
  {
    ClashIff(store, r);
  }

  lemma ConsentWasAdmitted(cfg: Config, states: seq<State>, events: seq<Event>, b: nat, n: nat, t: nat, op: Operation)
    requires cfg.locking && Undisturbed(cfg, states, events, b, n, t, op) && op.SwapConsent? && Valid(op)
    ensures Admits(op, Abs(states[n].db), false)
  {
    var store, db, r := Abs(states[n].db), states[n].db, op.updatedConsent;
    RowsStay(cfg, states, events, b, n, n);
    if op.expectedConsent.None? {
      forall id | id in store && store[id].Consent?
        ensures store[id].client != r.client || store[id].subjectId != r.subjectId
      {
        if IsConsentOf(db[id].payload, r.client, r.subjectId) {
          CreationMissesOnlyNew(cfg, states, events, b, n, t, r, id);
        }
      }
    } else {
      var e := op.expectedConsent.value;
      WidensItsPair(cfg, states, events, b, n, t, e, r);
      forall id | id in store && IsConsentOf(store[id], r.client, r.subjectId)
        ensures ToNanos(store[id].grantedAt) <= ToNanos(e.grantedAt)
      {
        if ToNanos(e.grantedAt) < ToNanos(db[id].payload.grantedAt) {
          WidensNewest(cfg, states, events, b, n, t, e, r, id);
        }
      }
    }
  }

  lemma ServedWasAdmitted(cfg: Config, states: seq<State>, events: seq<Event>, b: nat, n: nat, t: nat, op: Operation)
    requires cfg.locking && Undisturbed(cfg, states, events, b, n, t, op)
    ensures Valid(op) && Admits(op, Abs(states[n].db), false)
  {
    CommitStep(cfg, states, events, n);
    KeepsOp(cfg, states, events, b, n, t, op);
    match op {
      case PutGuarded(_) => TokenWasAdmitted(cfg, states[n], t);
      case Rotate(_, _, _, _) => TokenWasAdmitted(cfg, states[n], t);
      case DeleteClient(_, _) => RevocationWasNamed(cfg, states[n], t);
      case RevokeFamily(_, _) => RevocationWasNamed(cfg, states[n], t);
      case RevokeConsent(_, _) => WithdrawalWasAdmitted(cfg, states, events, b, n, t, op);
      case Put(_) => DeviceWasAdmitted(cfg, states, events, b, n, t, op);
      case Swap(_, _) => DeviceWasAdmitted(cfg, states, events, b, n, t, op);
      case SwapConsent(_, _) => ConsentWasAdmitted(cfg, states, events, b, n, t, op);
      case _ =>
    }
  }

  // ----- both together

  ghost predicate CanCommit(cfg: Config, states: seq<State>, events: seq<Event>, t: nat, op: Operation) {
    exists states', events' :: CommitsAlone(cfg, states, events, states', events', t, op)
  }

  /** From every reachable state in which nobody holds anything, an operation can commit alone if the records
  admit it, and only then. The two sides differ only for a widening among equally new consents. */
  lemma CanCommitIff(cfg: Config, states: seq<State>, events: seq<Event>, t: nat, op: Operation)
    requires cfg.locking && Run(cfg, states, events) && Quiet(states[|events|]) && t !in states[|events|].txns
    requires Valid(op)
    ensures Admits(op, Abs(states[|events|].db), true) ==> CanCommit(cfg, states, events, t, op)
    ensures CanCommit(cfg, states, events, t, op) ==> Admits(op, Abs(states[|events|].db), false)
    ensures !(op.SwapConsent? && op.expectedConsent.Some?) ==>
              (CanCommit(cfg, states, events, t, op) <==> Admits(op, Abs(states[|events|].db), true))
  {
    if Admits(op, Abs(states[|events|].db), true) {
      var states', events' := AdmittedIsServed(cfg, states, events, t, op);
    }
    forall states', events' | CommitsAlone(cfg, states, events, states', events', t, op)
      ensures Admits(op, Abs(states[|events|].db), false)
    {
      var b, n := |events|, |events'| - 1;
      assert Undisturbed(cfg, states', events', b, n, t, op);
      ServedWasAdmitted(cfg, states', events', b, n, t, op);
      RowsStay(cfg, states', events', b, n, n);
    }
  }

  // ----- what it leaves

  lemma {:induction false} OthersStay(cfg: Config, states: seq<State>, events: seq<Event>, b: nat, k: nat, t: nat)
    requires Run(cfg, states, events) && b < k < |states| && forall i | b <= i < k :: events[i].t == t
    ensures states[k].txns.Keys == states[b].txns.Keys + {t}
    ensures forall t' | t' in states[b].txns && t' != t :: states[k].txns[t'] == states[b].txns[t']
  {
    assert StepAt(cfg, states, events, k - 1);
    StepIsFramed(cfg, states[k - 1], events[k - 1], states[k]);
    if b + 1 < k { OthersStay(cfg, states, events, b, k - 1, t); }
  }

  lemma ServedEffect(cfg: Config, states: seq<State>, events: seq<Event>, states': seq<State>, events': seq<Event>,
                     t: nat, op: Operation)
    requires cfg.locking && CommitsAlone(cfg, states, events, states', events', t, op) && t !in states[|events|].txns
    ensures var s, s' := states[|events|], states'[|events'|];
            && t in s'.txns && s'.txns[t].op == op && s'.txns[t].outcome.Committed?
            && s'.txns.Keys == s.txns.Keys + {t} && (forall t' | t' in s.txns :: s'.txns[t'] == s.txns[t'])
            && SerialStep(op, Abs(s.db), Abs(s'.db))
  {
    var b, n := |events|, |events'| - 1;
    assert states'[b] == states[b];
    OthersStay(cfg, states', events', b, n + 1, t);
    KeepsOp(cfg, states', events', b, n, t, op);
    RowsStay(cfg, states', events', b, n, n);
    RunIsSerial(cfg, states', events', n);
    assert StepAt(cfg, states', events', n);
  }

  /** An operation that the records admit, from its start to the release of its locks. */
  lemma Does(cfg: Config, s: State, t: nat, op: Operation) returns (s': State)
    requires cfg.locking && Reaches(cfg, s) && Quiet(s) && t !in s.txns && Valid(op) && Admits(op, Abs(s.db), true)
    ensures Reaches(cfg, s') && Quiet(s') && s'.txns.Keys == s.txns.Keys + {t}
    ensures s'.txns[t].op == op && s'.txns[t].outcome.Committed?
    ensures forall t' | t' in s.txns :: s'.txns[t'] == s.txns[t']
    ensures SerialStep(op, Abs(s.db), Abs(s'.db))
  {
    var last := CommitsIt(cfg, s, t, op);
    s' := With(last, t, last.txns[t].(keys := map[], rows := {}, codes := {}));
    ReachStep(cfg, last, Release(t), s');
  }

  lemma CommitsIt(cfg: Config, s: State, t: nat, op: Operation) returns (s': State)
    requires cfg.locking && Reaches(cfg, s) && Quiet(s) && t !in s.txns && Valid(op) && Admits(op, Abs(s.db), true)
    ensures Reaches(cfg, s') && s'.txns.Keys == s.txns.Keys + {t}
    ensures s'.txns[t].op == op && s'.txns[t].outcome.Committed?
    ensures forall t' | t' in s.txns :: s'.txns[t'] == s.txns[t']
    ensures SerialStep(op, Abs(s.db), Abs(s'.db))
  {
    var states: seq<State>, events: seq<Event> :| Run(cfg, states, events) && states[|events|] == s;
    var states', events' := AdmittedIsServed(cfg, states, events, t, op);
    ServedEffect(cfg, states, events, states', events', t, op);
    s' := states'[|events'|];
  }

  /** A guarded write that no barrier refuses. */
  lemma WritesToken(cfg: Config, s: State, t: nat, r: Record) returns (s': State)
    requires cfg.locking && Reaches(cfg, s) && Quiet(s) && t !in s.txns && IsGuarded(r) && !Barred(Abs(s.db), r)
    ensures Reaches(cfg, s') && Quiet(s') && s'.txns.Keys == s.txns.Keys + {t}
    ensures s'.txns[t].op == PutGuarded(r) && s'.txns[t].outcome.Committed?
    ensures forall t' | t' in s.txns :: s'.txns[t'] == s.txns[t']
    ensures Abs(s'.db) == Abs(s.db)[IdOf(r) := r]
  {
    s' := Does(cfg, s, t, PutGuarded(r));
  }
}
