/** The revocations once more, in terms of nothing but the fields of the records.

Everywhere else a record belongs to a client, a pair or a family through one function each. Here every
statement names the kinds of records and their fields itself. */
module ByFields {
  import opened Options
  import opened Time
  import opened Records
  import opened Protocol
  import opened RowInvariant
  import opened Atomic
  import opened Commit
  import opened SingleUse
  import opened StoreSpec
  import opened Guarantees
  import opened Leftovers
  import opened Lasting

  // ----- on the plain store

  /** A withdrawal removes the tokens and the codes of its client and subject, and the device grants of the
  client which that subject has approved. A pending or denied grant stays, and so does everything else. */
  lemma WithdrawalByFields(store: Store, consent: string, w: Window, c: string, s: string, id: RowId)
    requires Keyed(Consents, consent) in store && c != "" && s != ""
    requires store[Keyed(Consents, consent)].Consent?
    requires store[Keyed(Consents, consent)].client == c && store[Keyed(Consents, consent)].subjectId == s
    requires id in store && id != Keyed(Consents, consent) && id != BarrierId(ConsentScope(c, s))
    ensures var after, r := AfterRevokeConsent(store, consent, w), store[id];
            && (id !in after <==>
                  || (r.AccessToken? && r.client == c && r.subject == Some(s))
                  || (r.RefreshToken? && r.client == c && r.subject == Some(s))
                  || (r.Code? && r.client == c && r.subjectId == s)
                  || (r.DeviceGrant? && r.client == c && r.deviceState == Approved(s)))
            && (id in after ==> after[id] == r)
    ensures var after := AfterRevokeConsent(store, consent, w);
            && Keyed(Consents, consent) !in after && BarrierId(ConsentScope(c, s)) in after
            && after.Keys <= store.Keys + {BarrierId(ConsentScope(c, s))}
  {
  }

  /** And it answers their number. */
  lemma WithdrawalCount(store: Store, consent: string, c: string, s: string)
    requires Keyed(Consents, consent) in store && c != "" && s != ""
    requires store[Keyed(Consents, consent)].Consent?
    requires store[Keyed(Consents, consent)].client == c && store[Keyed(Consents, consent)].subjectId == s
    ensures WithdrawalAnswer(store, consent)
         == Ok(|set id | id in store && (var r := store[id];
                  || (r.AccessToken? && r.client == c && r.subject == Some(s))
                  || (r.RefreshToken? && r.client == c && r.subject == Some(s))
                  || (r.Code? && r.client == c && r.subjectId == s)
                  || (r.DeviceGrant? && r.client == c && r.deviceState == Approved(s)))|)
  {
    assert (set id | id in store && OfPair(store[id], c, s))
        == set id | id in store && (var r := store[id];
             || (r.AccessToken? && r.client == c && r.subject == Some(s))
             || (r.RefreshToken? && r.client == c && r.subject == Some(s))
             || (r.Code? && r.client == c && r.subjectId == s)
             || (r.DeviceGrant? && r.client == c && r.deviceState == Approved(s)));
  }

  /** A deletion removes the client and every record that names it. */
  lemma DeletionByFields(store: Store, c: string, w: Window, id: RowId)
    requires c != "" && id in store && id != BarrierId(ClientScope(c))
    ensures var after, r := AfterDeleteClient(store, c, w), store[id];
            && (id !in after <==>
                  || (r.Client? && r.clientId == c) || (r.Consent? && r.client == c)
                  || (r.AccessToken? && r.client == c) || (r.RefreshToken? && r.client == c)
                  || (r.Code? && r.client == c) || (r.DeviceGrant? && r.client == c)
                  || (r.PushedRequest? && r.client == c))
            && (id in after ==> after[id] == r)
    ensures var after := AfterDeleteClient(store, c, w);
            BarrierId(ClientScope(c)) in after && after.Keys <= store.Keys + {BarrierId(ClientScope(c))}
  {
  }

  /** The revocation of a family removes its access and its refresh tokens. */
  lemma FamilyByFields(store: Store, f: string, w: Window, id: RowId)
    requires f != "" && id in store && id != BarrierId(FamilyScope(f))
    ensures var after, r := AfterRevokeFamily(store, f, w), store[id];
            && (id !in after <==>
                  (r.AccessToken? && r.family == Some(f)) || (r.RefreshToken? && r.familyId == f))
            && (id in after ==> after[id] == r)
    ensures var after := AfterRevokeFamily(store, f, w);
            BarrierId(FamilyScope(f)) in after && after.Keys <= store.Keys + {BarrierId(FamilyScope(f))}
  {
  }

  /** A sweep removes the unlocked records whose expiry is not after its cutoff; clients, consents and refresh
  tokens without a lifetime have none. */
  lemma SweepByFields(store: Store, n: Nanos, locked: set<RowId>, id: RowId)
    requires id in store && id !in locked
    ensures var after, r := Swept(store, n, locked), store[id];
            && (id !in after <==>
                  || (r.AccessToken? && ToNanos(r.expiresAt) <= n) || (r.Code? && ToNanos(r.expiresAt) <= n)
                  || (r.RefreshToken? && r.lifetime.Some? && ToNanos(r.lifetime.value) <= n)
                  || (r.DeviceGrant? && ToNanos(r.expiresAt) <= n) || (r.PushedRequest? && ToNanos(r.expiresAt) <= n)
                  || (r.ReplayId? && ToNanos(r.expiresAt) <= n) || (r.Barrier? && r.until <= n))
            && (id in after ==> after[id] == r)
  {
  }

  /** A guarded write is refused by a barrier of its client that is not older than the grant, or by any while
  the client is gone; by any barrier of its family; and by a barrier of its client and subject that is not
  older than the grant. Otherwise it adds its record. */
  lemma WriteByFields(store: Store, r: Record)
    requires r.AccessToken? || r.RefreshToken? || r.PushedRequest?
    ensures var at := if r.PushedRequest? then r.pushedAt else r.established;
            var client := BarrierId(ClientScope(r.client));
            AfterPut(store, r) ==
              if || (client in store && Keyed(Clients, r.client) !in store)
                 || (client in store && store[client].Barrier? && ToNanos(at) <= store[client].recorded)
                 || (r.AccessToken? && r.family.Some? && BarrierId(FamilyScope(r.family.value)) in store)
                 || (r.RefreshToken? && BarrierId(FamilyScope(r.familyId)) in store)
                 || (!r.PushedRequest? && r.subject.Some?
                     && (var pair := BarrierId(ConsentScope(r.client, r.subject.value));
                         pair in store && store[pair].Barrier? && ToNanos(at) <= store[pair].recorded))
              then store
              else store[IdOf(r) := r]
  {
  }

  /** The barriers that refuse a guarded write, by the fields of its record. */
  predicate Barred(store: Store, r: Record)
    requires r.AccessToken? || r.RefreshToken? || r.PushedRequest?
  {
    var at := if r.PushedRequest? then r.pushedAt else r.established;
    var client := BarrierId(ClientScope(r.client));
    || (client in store && Keyed(Clients, r.client) !in store)
    || (client in store && store[client].Barrier? && ToNanos(at) <= store[client].recorded)
    || (r.AccessToken? && r.family.Some? && BarrierId(FamilyScope(r.family.value)) in store)
    || (r.RefreshToken? && BarrierId(FamilyScope(r.familyId)) in store)
    || (!r.PushedRequest? && r.subject.Some?
        && (var pair := BarrierId(ConsentScope(r.client, r.subject.value));
            pair in store && store[pair].Barrier? && ToNanos(at) <= store[pair].recorded))
  }

  lemma BarredIsRevoked(store: Store, r: Record)
    requires r.AccessToken? || r.RefreshToken? || r.PushedRequest?
    ensures Barred(store, r) <==> IsRevoked(store, GuardOf(r))
  {
  }

  lemma NoBarriersNoRefusal(store: Store, r: Record)
    requires r.AccessToken? || r.RefreshToken? || r.PushedRequest?
    requires forall id | id in store :: !id.BarrierId?
    ensures !Barred(store, r)
  {
  }

  // ----- over runs

  /** The pair a withdrawal works on is the one its consent names. */
  lemma PairOfConsent(cfg: Config, s: State, t: nat, consent: string, w: Window)
    requires CommitInv(cfg, s) && t in s.txns && s.txns[t].outcome.Running? && s.txns[t].op == RevokeConsent(consent, w)
    requires s.txns[t].bound.Some?
    ensures var key := Keyed(Consents, consent);
            && key in s.db && s.db[key].payload.Consent?
            && s.txns[t].bound == Some((s.db[key].payload.client, s.db[key].payload.subjectId))
  {
    assert RowsOk(cfg, s.db, s.txns[t]);
    ClaimedPair(s.db, s.txns[t], Keyed(Consents, consent));
  }

  lemma ClaimedPair(db: Db, u: Txn, key: RowId)
    requires ColumnsAgree(db) && HitsCurrent(db, u.hits) && key in u.hits && key.Keyed? && key.name == Consents
    ensures db[key].payload.Consent? && PairOf(u.hits[key]) == (db[key].payload.client, db[key].payload.subjectId)
  {
    assert IdOf(db[key].payload) == key;
  }

  /** Whatever a committed withdrawal leaves of its client and subject, by the fields of the records, was
  written while it ran. */
  lemma WithdrawnByFields(cfg: Config, states: seq<State>, events: seq<Event>, b: nat, n: nat, t: nat,
                          consent: string, w: Window, c: string, s: string, id: RowId)
    requires cfg.locking && Run(cfg, states, events) && b < n < |events|
    requires events[b] == Begin(t, RevokeConsent(consent, w)) && events[n] == Publish(t)
    requires t in states[n].txns && states[n].txns[t].bound == Some((c, s)) && id in states[n + 1].db
    requires var r := states[n + 1].db[id].payload;
             || (r.AccessToken? && r.client == c && r.subject == Some(s))
             || (r.RefreshToken? && r.client == c && r.subject == Some(s))
             || (r.Code? && r.client == c && r.subjectId == s)
             || (r.DeviceGrant? && r.client == c && r.deviceState == Approved(s))
    ensures id in WrittenBetween(states, events, b, n)
  {
    WithdrawalLeavesOnlyNew(cfg, states, events, b, n, t, consent, w, c, s, id);
  }

  /** Its commit leaves every other record as it was, a pending or denied grant of the client among them. */
  lemma WithdrawalSpares(cfg: Config, states: seq<State>, events: seq<Event>, n: nat, t: nat,
                         consent: string, w: Window, c: string, s: string, id: RowId)
    requires cfg.locking && Run(cfg, states, events) && n < |events| && events[n] == Publish(t)
    requires t in states[n].txns && states[n].txns[t].op == RevokeConsent(consent, w)
    requires states[n].txns[t].bound == Some((c, s))
    requires id in states[n].db && id != Keyed(Consents, consent) && id != BarrierId(ConsentScope(c, s))
    requires var r := states[n].db[id].payload;
             && !(r.AccessToken? && r.client == c && r.subject == Some(s))
             && !(r.RefreshToken? && r.client == c && r.subject == Some(s))
             && !(r.Code? && r.client == c && r.subjectId == s)
             && !(r.DeviceGrant? && r.client == c && r.deviceState == Approved(s))
    ensures id in states[n + 1].db && states[n + 1].db[id].payload == states[n].db[id].payload
  {
    CommitStep(cfg, states, events, n);
    assert StepAt(cfg, states, events, n);
    PairOfConsent(cfg, states[n], t, consent, w);
    CommitRevokeConsent(cfg, states[n], t, consent, w);
    SparedByPair(Abs(states[n].db), consent, w, c, s, id);
    assert id in Abs(states[n + 1].db);
  }

  lemma SparedByPair(store: Store, consent: string, w: Window, c: string, s: string, id: RowId)
    requires Keyed(Consents, consent) in store && store[Keyed(Consents, consent)].Consent?
    requires store[Keyed(Consents, consent)].client == c && store[Keyed(Consents, consent)].subjectId == s
    requires id in store && id != Keyed(Consents, consent) && id != BarrierId(ConsentScope(c, s))
    requires !OfPair(store[id], c, s)
    ensures var after := AfterRevokeConsent(store, consent, w); id in after && after[id] == store[id]
  {
  }

  /** Whatever a committed deletion leaves of its client was written while it ran. */
  lemma DeletedByFields(cfg: Config, states: seq<State>, events: seq<Event>, b: nat, n: nat, t: nat,
                        c: string, w: Window, id: RowId)
    requires cfg.locking && Run(cfg, states, events) && b < n < |events|
    requires events[b] == Begin(t, DeleteClient(c, w)) && events[n] == Publish(t) && id in states[n + 1].db
    requires var r := states[n + 1].db[id].payload;
             || (r.Client? && r.clientId == c) || (r.Consent? && r.client == c)
             || (r.AccessToken? && r.client == c) || (r.RefreshToken? && r.client == c)
             || (r.Code? && r.client == c) || (r.DeviceGrant? && r.client == c)
             || (r.PushedRequest? && r.client == c)
    ensures id in WrittenBetween(states, events, b, n)
  {
    DeletionLeavesOnlyNew(cfg, states, events, b, n, t, c, w, id);
  }

  /** From the commit of a deletion until its barrier is swept, every token and pushed request of the client
  carries a later grant. */
  lemma LaterGrantsOnly(cfg: Config, states: seq<State>, events: seq<Event>, i: nat, n: nat, t: nat,
                        c: string, w: Window, id: RowId)
    requires cfg.locking && Run(cfg, states, events) && i < n < |states|
    requires events[i] == Publish(t) && t in states[i].txns && states[i].txns[t].op == DeleteClient(c, w)
    requires forall k | i <= k < n :: !SweepsBarriers(states[k], events[k], ToNanos(w.until))
    requires id in states[n].db
    ensures var r := states[n].db[id].payload;
            && (r.AccessToken? && r.client == c ==> FromNanos(ToNanos(w.recordedAt)) < r.established)
            && (r.RefreshToken? && r.client == c ==> FromNanos(ToNanos(w.recordedAt)) < r.established)
            && (r.PushedRequest? && r.client == c ==> FromNanos(ToNanos(w.recordedAt)) < r.pushedAt)
  {
    var r := states[n].db[id].payload;
    if IsGuarded(r) && GuardOf(r).client == c { DeletedClientStays(cfg, states, events, i, n, t, c, w, id); }
  }

  /** Likewise for a withdrawal and the tokens of its client and subject. */
  lemma LaterConsentOnly(cfg: Config, states: seq<State>, events: seq<Event>, i: nat, n: nat, t: nat,
                         consent: string, w: Window, c: string, s: string, id: RowId)
    requires cfg.locking && Run(cfg, states, events) && i < n < |states|
    requires events[i] == Publish(t) && t in states[i].txns && states[i].txns[t].op == RevokeConsent(consent, w)
    requires states[i].txns[t].bound == Some((c, s))
    requires forall k | i <= k < n :: !SweepsBarriers(states[k], events[k], ToNanos(w.until))
    requires id in states[n].db
    ensures var r := states[n].db[id].payload;
            && (r.AccessToken? && r.client == c && r.subject == Some(s) ==>
                  FromNanos(ToNanos(w.recordedAt)) < r.established)
            && (r.RefreshToken? && r.client == c && r.subject == Some(s) ==>
                  FromNanos(ToNanos(w.recordedAt)) < r.established)
  {
    var r := states[n].db[id].payload;
    if IsGuarded(r) && GuardOf(r).client == c && GuardOf(r).subject == Some(s) {
      WithdrawnPairStays(cfg, states, events, i, n, t, consent, w, c, s, id);
    }
  }

  /** Likewise for a family, of which nothing is left at all. */
  lemma FamilyStaysRevoked(cfg: Config, states: seq<State>, events: seq<Event>, i: nat, n: nat, t: nat,
                           f: string, w: Window, id: RowId)
    requires cfg.locking && Run(cfg, states, events) && i < n < |states|
    requires events[i] == Publish(t) && t in states[i].txns && states[i].txns[t].op == RevokeFamily(f, w)
    requires forall k | i <= k < n :: !SweepsBarriers(states[k], events[k], ToNanos(w.until))
    requires id in states[n].db
    ensures var r := states[n].db[id].payload;
            (r.AccessToken? ==> r.family != Some(f)) && (r.RefreshToken? ==> r.familyId != f)
  {
    RevokedFamilyStaysEmpty(cfg, states, events, i, n, t, f, w);
  }
}
