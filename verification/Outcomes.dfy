/** What single operations come to, in the terms of their callers. */
module Outcomes {
  import opened Options
  import opened Time
  import opened Records
  import opened Protocol
  import opened Atomic
  import opened Commit
  import opened SingleUse
  import opened ByFields
  import opened Misses
  import opened Witnesses
  import opened Refusals
  import opened Served

  // ----- answers

  /** Undisturbed, a take receives the record exactly if there is one. */
  lemma TakeAnswers(cfg: Config, states: seq<State>, events: seq<Event>, b: nat, n: nat, t: nat, id: RowId)
    requires cfg.locking && Undisturbed(cfg, states, events, b, n, t, Take(id)) && t in states[n].txns
    ensures id in states[n].txns[t].hits <==> id in states[n].db
  {
    CommitStep(cfg, states, events, n);
    assert RowsOk(cfg, states[n].db, states[n].txns[t]);
    if id !in states[n].txns[t].hits { MissedAllAlong(cfg, states, events, b, n, t, Take(id), ByKey(id)); }
  }

  /** Undisturbed, a swap is applied exactly if its record is there in the expected state. */
  lemma SwapAnswers(cfg: Config, states: seq<State>, events: seq<Event>, b: nat, n: nat, t: nat, e: Expected, r: Record)
    requires cfg.locking && Undisturbed(cfg, states, events, b, n, t, Swap(e, r)) && t in states[n].txns
    ensures states[n].txns[t].hits != map[] <==> InState(Abs(states[n].db), IdOf(r), e)
  {
    CommitStep(cfg, states, events, n);
    KeepsOp(cfg, states, events, b, n, t, Swap(e, r));
    if states[n].txns[t].hits != map[] {
      FoundState(cfg, states[n], t);
    } else {
      MissedAllAlong(cfg, states, events, b, n, t, Swap(e, r), ByState(IdOf(r), e));
    }
  }

  /** In any run, a swap that is not applied: in some state since its start its record was not there in the
  expected state. */
  lemma SwapRefusalWasReal(cfg: Config, states: seq<State>, events: seq<Event>, b: nat, n: nat, t: nat,
                           e: Expected, r: Record)
    requires cfg.locking && Run(cfg, states, events) && b < n < |events|
    requires events[b] == Begin(t, Swap(e, r)) && events[n] == Publish(t)
    requires t in states[n].txns && states[n].txns[t].hits == map[]
    ensures exists k | b < k <= n :: !InState(Abs(states[k].db), IdOf(r), e)
  {
    MissWasReal(cfg, states, events, b, n, t, Swap(e, r), ByState(IdOf(r), e));
    var k :| b < k <= n && Misses.Misses(states[k].db, ByState(IdOf(r), e));
    assert !InState(Abs(states[k].db), IdOf(r), e);
  }

  /** Undisturbed, a claim is granted exactly if the identifier is new. */
  lemma ClaimAnswers(cfg: Config, states: seq<State>, events: seq<Event>, b: nat, n: nat, t: nat, r: Record)
    requires cfg.locking && Undisturbed(cfg, states, events, b, n, t, Claim(r)) && t in states[n].txns
    ensures states[n].txns[t].puts != map[] <==> IdOf(r) !in states[n].db
  {
    CommitStep(cfg, states, events, n);
    KeepsOp(cfg, states, events, b, n, t, Claim(r));
    if states[n].txns[t].puts != map[] {
      CommitClaim(cfg, states[n], t, r);
    } else {
      RefusalWasReal(cfg, states, events, b, n, t, r);
      var k :| b < k <= n && IdOf(r) in states[k].db;
      RowsStay(cfg, states, events, b, n, k);
      RowsStay(cfg, states, events, b, n, n);
    }
  }

  /** What can be asked for: every kind of record the source writes, swaps, takes, claims and sweeps. */
  lemma EveryKindIsValid(r: Record, x: Record, d: DeviceState, c: CodeState, key: string, cutoff: Nanos)
    ensures r.AccessToken? || r.RefreshToken? || r.PushedRequest? ==> Valid(PutGuarded(r))
    ensures r.Client? || r.Consent? || r.Code? || r.DeviceGrant? ==> Valid(Put(r))
    ensures r.Client? ==> Valid(Swap(Whole(x), r))
    ensures r.DeviceGrant? ==> Valid(Swap(OfDevice(d), r))
    ensures r.Code? ==> Valid(Swap(OfCode(c), r))
    ensures r.Consent? ==> Valid(SwapConsent(None, r)) && (x.Consent? ==> Valid(SwapConsent(Some(x), r)))
    ensures r.ReplayId? ==> Valid(Claim(r))
    ensures Valid(Take(Keyed(AccessTokens, key))) && Valid(Take(Keyed(RefreshTokens, key)))
    ensures Valid(Take(Keyed(Codes, key)))
    ensures Valid(Take(Keyed(DeviceGrants, key))) && Valid(Take(Keyed(PushedRequests, key)))
    ensures forall t | t in {AccessTokens, RefreshTokens, Codes, DeviceGrants, PushedRequests, ReplayIds, Barriers} ::
              Valid(SweepBatch(t, cutoff))
  {
  }

  // ----- rotations

  /** What the records of a rotation have in common. */
  predicate OneGrant(e: Record, s: Record, a: Record, n: Option<Record>) {
    && e.RefreshToken? && s.RefreshToken? && a.AccessToken? && s.token == e.token
    && (s.client, s.familyId, s.subject, s.established) == (e.client, e.familyId, e.subject, e.established)
    && (a.client, a.family, a.subject, a.established) == (e.client, Some(e.familyId), e.subject, e.established)
    && (n.Some? ==>
          && n.value.RefreshToken?
          && (n.value.client, n.value.familyId, n.value.subject, n.value.established)
             == (e.client, e.familyId, e.subject, e.established))
  }

  /** A rotation of the stored record that no barrier refuses, whatever state it is in, commits, and its
  records are then in the table. */
  lemma RotationSucceeds(cfg: Config, s: State, t: nat, e: Record, spent: Record, a: Record, next: Option<Record>)
      returns (s': State)
    requires cfg.locking && Reaches(cfg, s) && Quiet(s) && t !in s.txns && OneGrant(e, spent, a, next)
    requires Keyed(RefreshTokens, e.token) in s.db && s.db[Keyed(RefreshTokens, e.token)].payload == e
    requires !Barred(Abs(s.db), e)
    ensures Reaches(cfg, s') && t in s'.txns && s'.txns[t].outcome.Committed?
    ensures s'.txns[t].op == Rotate(e, spent, a, next)
    ensures var store' := Abs(s'.db);
            && Keyed(AccessTokens, a.token) in store' && store'[Keyed(AccessTokens, a.token)] == a
            && (next.Some? ==>
                  && Keyed(RefreshTokens, next.value.token) in store'
                  && store'[Keyed(RefreshTokens, next.value.token)] == next.value)
            && (next.None? || next.value.token != e.token ==>
                  Keyed(RefreshTokens, e.token) in store' && store'[Keyed(RefreshTokens, e.token)] == spent)
  {
    s' := Does(cfg, s, t, Rotate(e, spent, a, next));
    RotatedHas(Abs(s.db), e, spent, a, next);
  }

  lemma RotatedHas(store: Store, e: Record, spent: Record, a: Record, next: Option<Record>)
    requires OneGrant(e, spent, a, next)
    ensures var store' := Rotated(store, spent, a, next);
            && IdOf(a) in store' && store'[IdOf(a)] == a
            && (next.Some? ==> IdOf(next.value) in store' && store'[IdOf(next.value)] == next.value)
            && (next.None? || next.value.token != e.token ==> IdOf(e) in store' && store'[IdOf(e)] == spent)
  {
  }

  /** So every rotation of every record happens in some run. */
  lemma EveryRotationHappens(cfg: Config, e: Record, spent: Record, a: Record, next: Option<Record>)
    requires cfg.locking && OneGrant(e, spent, a, next) && (next.Some? ==> next.value.token != e.token)
    ensures exists s | Reaches(cfg, s) ::
              && Keyed(RefreshTokens, e.token) in s.db && s.db[Keyed(RefreshTokens, e.token)].payload == spent
              && Keyed(AccessTokens, a.token) in s.db && s.db[Keyed(AccessTokens, a.token)].payload == a
              && (next.Some? ==>
                    && Keyed(RefreshTokens, next.value.token) in s.db
                    && s.db[Keyed(RefreshTokens, next.value.token)].payload == next.value)
  {
    ReachInit(cfg);
    assert Abs(Init().db) == map[];
    var s1 := WritesToken(cfg, Init(), 1, e);
    assert Keyed(RefreshTokens, e.token) in Abs(s1.db);
    var s2 := RotationSucceeds(cfg, s1, 2, e, spent, a, next);
  }

  // ----- consents

  /** A consent is created in a pair that has none. */
  lemma CreationSucceeds(cfg: Config, s: State, t: nat, r: Record) returns (s': State)
    requires cfg.locking && Reaches(cfg, s) && Quiet(s) && t !in s.txns && r.Consent?
    requires forall id | id in s.db && s.db[id].payload.Consent? ::
               s.db[id].payload.client != r.client || s.db[id].payload.subjectId != r.subjectId
    ensures Reaches(cfg, s') && Quiet(s') && s'.txns.Keys == s.txns.Keys + {t} && s'.txns[t].outcome.Committed?
    ensures Abs(s'.db) == Abs(s.db)[Keyed(Consents, r.consentId) := r]
  {
    s' := Does(cfg, s, t, SwapConsent(None, r));
  }

  /** The only newest consent of a pair is widened to whatever the caller computed from it. */
  lemma WideningSucceeds(cfg: Config, s: State, t: nat, e: Record, r: Record) returns (s': State)
    requires cfg.locking && Reaches(cfg, s) && Quiet(s) && t !in s.txns && e.Consent? && r.Consent?
    requires Newest(Abs(s.db), e, r.client, r.subjectId, true)
    ensures Reaches(cfg, s') && Quiet(s') && s'.txns.Keys == s.txns.Keys + {t} && s'.txns[t].outcome.Committed?
    ensures Abs(s'.db) == Abs(s.db)[Keyed(Consents, r.consentId) := r]
  {
    s' := Does(cfg, s, t, SwapConsent(Some(e), r));
  }

  /** So every widening within a pair happens in some run. */
  lemma EveryWideningHappens(cfg: Config, e: Record, r: Record)
    requires cfg.locking && e.Consent? && r.Consent? && e.client == r.client && e.subjectId == r.subjectId
    ensures exists s | Reaches(cfg, s) ::
              Keyed(Consents, r.consentId) in s.db && s.db[Keyed(Consents, r.consentId)].payload == r
              && exists t | t in s.txns :: s.txns[t].op == SwapConsent(Some(e), r) && s.txns[t].outcome.Committed?
  {
    ReachInit(cfg);
    var s1 := CreationSucceeds(cfg, Init(), 1, e);
    assert Abs(s1.db) == map[Keyed(Consents, e.consentId) := e];
    var s2 := Does(cfg, s1, 2, SwapConsent(Some(e), r));
    assert Keyed(Consents, r.consentId) in Abs(s2.db);
  }
}
