/** What each operation does when nothing runs beside it: the store as a plain map of records.

This is the meaning of the operations. The in-memory store computes it under one mutex, the table
store computes it statement by statement when it runs alone, and a transaction of the step system
commits it. Everything here reads payloads; no column, no lock and no snapshot appears. */
module Atomic {
  import opened Options
  import opened Time
  import opened Records
  import opened Protocol

  type Store = map<RowId, Record>

  function Abs(db: Db): (store: Store) { map id | id in db :: db[id].payload }

  // ----- what a record belongs to

  function FamilyOf(r: Record): (f: Option<string>) {
    match r
    case AccessToken(_, _, _, f, _, _, _) => f
    case RefreshToken(_, _, _, f, _, _, _, _) => Some(f)
    case _ => None
  }

  predicate OfClient(r: Record, c: string) {
    match r
    case Client(id, _) => id == c
    case Consent(_, x, _, _, _) => x == c
    case AccessToken(_, x, _, _, _, _, _) => x == c
    case RefreshToken(_, x, _, _, _, _, _, _) => x == c
    case Code(_, x, _, _, _, _) => x == c
    case DeviceGrant(_, _, x, _, _, _) => x == c
    case PushedRequest(_, x, _, _, _) => x == c
    case _ => false
  }

  /** The resource owner whose withdrawal reaches the record; a pending device grant has none. */
  function OwnerOf(r: Record): (s: Option<string>) {
    match r
    case AccessToken(_, _, s, _, _, _, _) => s
    case RefreshToken(_, _, s, _, _, _, _, _) => s
    case Code(_, _, s, _, _, _) => Some(s)
    case DeviceGrant(_, _, _, _, Approved(s), _) => Some(s)
    case _ => None
  }

  predicate OfPair(r: Record, c: string, s: string) { OfClient(r, c) && OwnerOf(r) == Some(s) }

  predicate OfFamily(r: Record, f: string) { FamilyOf(r) == Some(f) }

  // ----- the resurrection predicate on records

  predicate BarrierSince(store: Store, scope: Scope, established: Instant) {
    var id := BarrierId(scope);
    id in store && store[id].Barrier? && store[id].recorded >= ToNanos(established)
  }

  /** A client barrier refuses what it is not older than, and everything while the client is gone; a
  family barrier refuses always; a consent barrier refuses what it is not older than. */
  predicate IsRevoked(store: Store, g: Guard) {
    || (BarrierId(ClientScope(g.client)) in store
        && (BarrierSince(store, ClientScope(g.client), g.established) || Keyed(Clients, g.client) !in store))
    || (g.family.Some? && BarrierId(FamilyScope(g.family.value)) in store)
    || (g.subject.Some? && BarrierSince(store, ConsentScope(g.client, g.subject.value), g.established))
  }

  // ----- the operations

  function Recorded(store: Store, scope: Scope, w: Window): (store': Store) {
    var id := BarrierId(scope);
    store[id := Merge(if id in store then Some(store[id]) else None, scope, w)]
  }

  function WithoutFamily(store: Store, f: string): (store': Store) {
    map id | id in store && !OfFamily(store[id], f) :: store[id]
  }

  function WithoutClient(store: Store, c: string): (store': Store) {
    map id | id in store && !OfClient(store[id], c) :: store[id]
  }

  function WithoutPair(store: Store, c: string, s: string): (store': Store) {
    map id | id in store && !OfPair(store[id], c, s) :: store[id]
  }

  function Rotated(store: Store, spent: Record, access: Record, next: Option<Record>): (store': Store) {
    var two := store[IdOf(spent) := spent][IdOf(access) := access];
    match next
    case None => two
    case Some(n) => two[IdOf(n) := n]
  }

  function AfterPut(store: Store, r: Record): (store': Store)
    requires IsGuarded(r)
  {
    if IsRevoked(store, GuardOf(r)) then store else store[IdOf(r) := r]
  }

  function AfterRotate(store: Store, e: Record, s: Record, a: Record, n: Option<Record>): (store': Store)
    requires e.RefreshToken?
  {
    if IdOf(e) in store && store[IdOf(e)] == e && !IsRevoked(store, GuardOf(e))
    then Rotated(store, s, a, n) else store
  }

  function AfterRevokeFamily(store: Store, f: string, w: Window): (store': Store) {
    if NonEmpty(FamilyScope(f)) then WithoutFamily(Recorded(store, FamilyScope(f), w), f) else store
  }

  function AfterDeleteClient(store: Store, c: string, w: Window): (store': Store) {
    if NonEmpty(ClientScope(c)) then WithoutClient(Recorded(store, ClientScope(c), w), c) else store
  }

  function AfterRevokeConsent(store: Store, id: string, w: Window): (store': Store) {
    var key := Keyed(Consents, id);
    if key !in store || !store[key].Consent? then store
    else
      var Consent(_, c, s, _, _) := store[key];
      if !NonEmpty(ConsentScope(c, s)) then store
      else WithoutPair(Recorded(store - {key}, ConsentScope(c, s), w), c, s)
  }

  function AfterSwap(store: Store, e: Expected, u: Record): (store': Store) {
    if IdOf(u) in store && HasExpected(store[IdOf(u)], e) then store[IdOf(u) := u] else store
  }

  function AfterClaim(store: Store, r: Record): (store': Store) {
    if IdOf(r) in store then store else store[IdOf(r) := r]
  }

  // ----- the two refusal predicates agree

  /** The one query over columns with empty-string sentinels decides what the record predicate says. */
  lemma CoversIsRevoked(db: Db, g: Guard)
    requires BarriersNamed(db)
    ensures Covers(db, g) <==> IsRevoked(Abs(db), g)
  {
    var store := Abs(db);
    assert forall id :: id in store <==> id in db;
    assert g.family.None? ==> BarrierId(FamilyScope("")) !in db;
    assert g.subject.None? ==> BarrierId(ConsentScope(g.client, "")) !in db;
  }
}
