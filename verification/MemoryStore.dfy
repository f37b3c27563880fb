/** The in-memory store: one map for each kind of record, a second map that finds a device grant by its
user code, and the barriers grouped under the identifier they name. Every method is one step, as the
store's mutex makes it. */
module MemoryStores {
  import opened Options
  import opened Time
  import opened UserCodes
  import opened Records
  import opened Protocol
  import opened Atomic
  import opened StoreSpec

  datatype Times = Times(recordedAt: Instant, until: Instant)

  datatype ScopeBarriers = ScopeBarriers(client: Option<Times>, family: Option<Times>, consents: map<string, Times>)

  const NO_BARRIERS: ScopeBarriers := ScopeBarriers(None, None, map[])

  function Later(a: Instant, b: Instant): Instant { if a > b then a else b }

  /** Folding a repeat revocation into the recorded one: both instants move forward only. */
  function MergeTimes(slot: Option<Times>, w: Window): (t: Times) {
    match slot
    case None => Times(w.recordedAt, w.until)
    case Some(t) => Times(Later(w.recordedAt, t.recordedAt), Later(w.until, t.until))
  }

  function BarrierRecord(scope: Scope, t: Times): Record { Barrier(scope, ToNanos(t.until), ToNanos(t.recordedAt)) }

  function BarrierRecordOf(scope: Scope, slot: Option<Times>): (r: Option<Record>) {
    if slot.Some? then Some(BarrierRecord(scope, slot.value)) else None
  }

  /** Merging instants and merging their columns is the same. */
  lemma MergeAgrees(scope: Scope, slot: Option<Times>, w: Window)
    ensures Merge(BarrierRecordOf(scope, slot), scope, w) == BarrierRecord(scope, MergeTimes(slot, w))
  {
    if slot.Some? {
      LaterNanos(w.recordedAt, slot.value.recordedAt);
      LaterNanos(w.until, slot.value.until);
    }
  }

  lemma LaterNanos(a: Instant, b: Instant)
    ensures ToNanos(Later(a, b)) == if ToNanos(b) > ToNanos(a) then ToNanos(b) else ToNanos(a)
  {
    if a > b { ToNanosMonotone(b, a); } else { ToNanosMonotone(a, b); }
  }

  function Retain(m: map<string, Record>, keep: Record -> bool): (kept: map<string, Record>) {
    map k | k in m && keep(m[k]) :: m[k]
  }

  /** The index holds exactly one entry for each grant, under its normalized code. */
  ghost predicate IndexOk(devices: map<string, Record>, index: map<string, string>) {
    && (forall d | d in devices :: devices[d].DeviceGrant?)
    && (forall code | code in index :: index[code] in devices && AnswersTo(devices[index[code]], code))
    && (forall d | d in devices ::
         Normalize(devices[d].userCode) in index && index[Normalize(devices[d].userCode)] == d)
  }

  /** What the index looks like when some grants have gone and it has not been pruned yet. */
  ghost predicate IndexCovers(devices: map<string, Record>, index: map<string, string>) {
    && (forall d | d in devices :: devices[d].DeviceGrant?)
    && (forall code | code in index && index[code] in devices :: AnswersTo(devices[index[code]], code))
    && (forall d | d in devices ::
         Normalize(devices[d].userCode) in index && index[Normalize(devices[d].userCode)] == d)
  }

  /** The maps of the store, as one value. */
  datatype Maps = Maps(
    clients: map<string, Record>, tokens: map<string, Record>, refresh: map<string, Record>,
    codes: map<string, Record>, pushed: map<string, Record>, devices: map<string, Record>,
    consents: map<string, Record>, replayIds: map<string, Instant>, barriers: map<string, ScopeBarriers>)

  function BarriersOf(m: Maps, key: string): (b: ScopeBarriers) {
    if key in m.barriers then m.barriers[key] else NO_BARRIERS
  }

  function Slot(m: Maps, scope: Scope): (t: Option<Times>) {
    match scope
    case ClientScope(c) => BarriersOf(m, c).client
    case FamilyScope(f) => BarriersOf(m, f).family
    case ConsentScope(c, s) =>
      if s in BarriersOf(m, c).consents then Some(BarriersOf(m, c).consents[s]) else None
  }

  function At(m: map<string, Record>, k: string): (r: Option<Record>) { if k in m then Some(m[k]) else None }

  function Lookup(m: Maps, id: RowId): (r: Option<Record>) {
    match id
    case BarrierId(scope) => BarrierRecordOf(scope, Slot(m, scope))
    case Keyed(Clients, k) => At(m.clients, k)
    case Keyed(AccessTokens, k) => At(m.tokens, k)
    case Keyed(RefreshTokens, k) => At(m.refresh, k)
    case Keyed(Codes, k) => At(m.codes, k)
    case Keyed(PushedRequests, k) => At(m.pushed, k)
    case Keyed(DeviceGrants, k) => At(m.devices, k)
    case Keyed(Consents, k) => At(m.consents, k)
    case Keyed(ReplayIds, k) => if k in m.replayIds then Some(ReplayId(k, m.replayIds[k])) else None
    case Keyed(Barriers, _) => None
  }

  function In(store: Store, id: RowId): (r: Option<Record>) { if id in store then Some(store[id]) else None }

  /** The plain map of records is exactly what the maps hold. */
  ghost predicate Holds(m: Maps, store: Store) {
    KeysAgree(store) && forall id :: Lookup(m, id) == In(store, id)
  }

  // ----- what one change of the maps does to the records

  /** Storing a barrier under its identifier sets the slot of its scope and no other. */
  lemma SlotStored(m: Maps, scope: Scope, t: Times, m': Maps)
    requires m'.barriers == match scope
      case ClientScope(c) => m.barriers[c := BarriersOf(m, c).(client := Some(t))]
      case FamilyScope(f) => m.barriers[f := BarriersOf(m, f).(family := Some(t))]
      case ConsentScope(c, s) => m.barriers[c := BarriersOf(m, c).(consents := BarriersOf(m, c).consents[s := t])]
    ensures Slot(m', scope) == Some(t)
    ensures forall other | other != scope :: Slot(m', other) == Slot(m, other)
  {
  }

  lemma SlotSet(m: Maps, store: Store, scope: Scope, w: Window, m': Maps)
    requires Holds(m, store) && m' == m.(barriers := m'.barriers)
    requires Slot(m', scope) == Some(MergeTimes(Slot(m, scope), w))
    requires forall other | other != scope :: Slot(m', other) == Slot(m, other)
    ensures Holds(m', Recorded(store, scope, w))
  {
    var store' := Recorded(store, scope, w);
    MergeAgrees(scope, Slot(m, scope), w);
    assert Lookup(m, BarrierId(scope)) == In(store, BarrierId(scope));
    forall id ensures Lookup(m', id) == In(store', id) {
      if id != BarrierId(scope) { assert Lookup(m', id) == Lookup(m, id) && In(store', id) == In(store, id); }
    }
  }

  lemma DevicePut(m: Maps, store: Store, r: Record)
    requires Holds(m, store) && r.DeviceGrant?
    ensures Holds(m.(devices := m.devices[r.deviceCode := r]), store[IdOf(r) := r])
  {
    var m', store' := m.(devices := m.devices[r.deviceCode := r]), store[IdOf(r) := r];
    forall id ensures Lookup(m', id) == In(store', id) {
      if id != IdOf(r) { assert Lookup(m', id) == Lookup(m, id) && In(store', id) == In(store, id); }
    }
  }

  lemma DeviceGone(m: Maps, store: Store, code: string)
    requires Holds(m, store)
    ensures Holds(m.(devices := m.devices - {code}), store - {Keyed(DeviceGrants, code)})
  {
    var m', store' := m.(devices := m.devices - {code}), store - {Keyed(DeviceGrants, code)};
    forall id ensures Lookup(m', id) == In(store', id) {
      if id != Keyed(DeviceGrants, code) { assert Lookup(m', id) == Lookup(m, id) && In(store', id) == In(store, id); }
    }
  }

  /** The index after writing a grant: a changed code is retired before the new one is entered. */
  function Reindexed(index: map<string, string>, previous: Option<Record>, r: Record): (index': map<string, string>)
    requires r.DeviceGrant? && (previous.Some? ==> previous.value.DeviceGrant?)
  {
    var code := Normalize(r.userCode);
    (if previous.Some? && Normalize(previous.value.userCode) != code
     then index - {Normalize(previous.value.userCode)} else index)[code := r.deviceCode]
  }

  function Unindexed(index: map<string, string>, taken: Option<Record>): (index': map<string, string>)
    requires taken.Some? ==> taken.value.DeviceGrant?
  {
    if taken.Some? then index - {Normalize(taken.value.userCode)} else index
  }

  lemma IndexPut(devices: map<string, Record>, index: map<string, string>, r: Record)
    requires IndexOk(devices, index) && r.DeviceGrant? && !OwnedIn(index, r)
    ensures IndexOk(devices[r.deviceCode := r], Reindexed(index, At(devices, r.deviceCode), r))
  {
  }

  lemma IndexGone(devices: map<string, Record>, index: map<string, string>, code: string)
    requires IndexOk(devices, index)
    ensures IndexOk(devices - {code}, Unindexed(index, At(devices, code)))
  {
  }

  lemma GrantStored(m: Maps, index: map<string, string>, store: Store, r: Record)
    requires Holds(m, store) && IndexOk(m.devices, index) && r.DeviceGrant? && !OwnedIn(index, r)
    ensures At(m.devices, r.deviceCode).Some? ==> m.devices[r.deviceCode].DeviceGrant?
    ensures Holds(m.(devices := m.devices[r.deviceCode := r]), store[IdOf(r) := r])
    ensures IndexOk(m.devices[r.deviceCode := r], Reindexed(index, At(m.devices, r.deviceCode), r))
  {
    DevicePut(m, store, r);
    IndexPut(m.devices, index, r);
  }

  lemma GrantTaken(m: Maps, index: map<string, string>, store: Store, code: string)
    requires Holds(m, store) && IndexOk(m.devices, index)
    ensures At(m.devices, code) == In(store, Keyed(DeviceGrants, code))
    ensures At(m.devices, code).Some? ==> m.devices[code].DeviceGrant?
    ensures Holds(m.(devices := m.devices - {code}), store - {Keyed(DeviceGrants, code)})
    ensures IndexOk(m.devices - {code}, Unindexed(index, At(m.devices, code)))
  {
    assert Lookup(m, Keyed(DeviceGrants, code)) == In(store, Keyed(DeviceGrants, code));
    DeviceGone(m, store, code);
    IndexGone(m.devices, index, code);
  }

  lemma IndexThinned(devices: map<string, Record>, index: map<string, string>, keep: Record -> bool)
    requires IndexOk(devices, index)
    ensures IndexCovers(Retain(devices, keep), index)
  {
  }

  lemma CodesAreUnique(m: Maps, index: map<string, string>, store: Store)
    requires Holds(m, store) && IndexOk(m.devices, index)
    ensures CodesUnique(store)
  {
    forall a, b, code | a in store && b in store && AnswersTo(store[a], code) && AnswersTo(store[b], code)
      ensures a == b
    {
      assert IdOf(store[a]) == a && IdOf(store[b]) == b;
      assert Lookup(m, a) == In(store, a) && Lookup(m, b) == In(store, b);
    }
  }

  predicate OwnedIn(index: map<string, string>, r: Record)
    requires r.DeviceGrant?
  {
    Normalize(r.userCode) in index && index[Normalize(r.userCode)] != r.deviceCode
  }

  /** The index knows of a clash exactly when there is one. */
  lemma OwnedIsClash(m: Maps, index: map<string, string>, store: Store, r: Record)
    requires Holds(m, store) && IndexOk(m.devices, index) && r.DeviceGrant?
    ensures OwnedIn(index, r) <==> Clashes(store, r)
  {
    var code := Normalize(r.userCode);
    if OwnedIn(index, r) {
      var id := Keyed(DeviceGrants, index[code]);
      assert Lookup(m, id) == In(store, id);
      assert AnswersTo(store[id], code);
    }
    forall id | id in store && id != IdOf(r) && AnswersTo(store[id], code) ensures OwnedIn(index, r) {
      assert IdOf(store[id]) == id && Lookup(m, id) == In(store, id);
    }
  }

  lemma FoundByIndex(m: Maps, index: map<string, string>, store: Store, code: string)
    requires Holds(m, store) && IndexOk(m.devices, index)
    ensures FoundBy(store, code, if code in index then At(m.devices, index[code]) else None)
  {
    if code in index {
      var id := Keyed(DeviceGrants, index[code]);
      assert Lookup(m, id) == In(store, id) && IdOf(store[id]) == id;
    } else {
      forall id | id in store ensures !AnswersTo(store[id], code) {
        assert IdOf(store[id]) == id && Lookup(m, id) == In(store, id);
      }
    }
  }

  // ----- cascades

  lemma FamilyRetained(m: Maps, store: Store, f: string, keep: Record -> bool)
    requires Holds(m, store) && forall r :: keep(r) <==> !OfFamily(r, f)
    ensures Holds(m.(tokens := Retain(m.tokens, keep), refresh := Retain(m.refresh, keep)), WithoutFamily(store, f))
  {
    var m', store' := m.(tokens := Retain(m.tokens, keep), refresh := Retain(m.refresh, keep)), WithoutFamily(store, f);
    forall id ensures Lookup(m', id) == In(store', id) {
      assert Lookup(m, id) == In(store, id);
      assert id in store ==> IdOf(store[id]) == id;
    }
  }

  function WithoutPairMaps(m: Maps, keep: Record -> bool): Maps {
    m.(tokens := Retain(m.tokens, keep), refresh := Retain(m.refresh, keep), codes := Retain(m.codes, keep),
       devices := Retain(m.devices, keep))
  }

  lemma PairRetainedAt(m: Maps, r: Option<Record>, c: string, s: string, keep: Record -> bool, id: RowId)
    requires Lookup(m, id) == r && (r.Some? ==> IdOf(r.value) == id) && forall x :: keep(x) <==> !OfPair(x, c, s)
    ensures Lookup(WithoutPairMaps(m, keep), id) == if r.Some? && OfPair(r.value, c, s) then None else r
  {
  }

  lemma PairRetained(m: Maps, store: Store, c: string, s: string, keep: Record -> bool)
    requires Holds(m, store) && forall r :: keep(r) <==> !OfPair(r, c, s)
    ensures Holds(WithoutPairMaps(m, keep), WithoutPair(store, c, s))
  {
    forall id ensures Lookup(WithoutPairMaps(m, keep), id) == In(WithoutPair(store, c, s), id) {
      PairRetainedAt(m, In(store, id), c, s, keep, id);
    }
  }

  function WithoutClientMaps(m: Maps, c: string, keep: Record -> bool): Maps {
    m.(clients := m.clients - {c}, tokens := Retain(m.tokens, keep), refresh := Retain(m.refresh, keep),
       codes := Retain(m.codes, keep), pushed := Retain(m.pushed, keep), devices := Retain(m.devices, keep),
       consents := Retain(m.consents, keep))
  }

  lemma ClientRetainedAt(m: Maps, r: Option<Record>, c: string, keep: Record -> bool, id: RowId)
    requires Lookup(m, id) == r && (r.Some? ==> IdOf(r.value) == id) && forall x :: keep(x) <==> !OfClient(x, c)
    ensures Lookup(WithoutClientMaps(m, c, keep), id) == if r.Some? && OfClient(r.value, c) then None else r
  {
  }

  lemma ClientRetained(m: Maps, store: Store, c: string, keep: Record -> bool)
    requires Holds(m, store) && forall r :: keep(r) <==> !OfClient(r, c)
    ensures Holds(WithoutClientMaps(m, c, keep), WithoutClient(store, c))
  {
    forall id ensures Lookup(WithoutClientMaps(m, c, keep), id) == In(WithoutClient(store, c), id) {
      ClientRetainedAt(m, In(store, id), c, keep, id);
    }
  }

  lemma ConsentRemoved(m: Maps, store: Store, id: string)
    requires Holds(m, store)
    ensures Holds(m.(consents := m.consents - {id}), store - {Keyed(Consents, id)})
  {
    var m', store' := m.(consents := m.consents - {id}), store - {Keyed(Consents, id)};
    forall i ensures Lookup(m', i) == In(store', i) {
      if i != Keyed(Consents, id) { assert Lookup(m', i) == Lookup(m, i) && In(store', i) == In(store, i); }
    }
  }

  // ----- counting

  /** The keys of one map, as keys of the whole store. */
  function Tagged(t: Table, keys: set<string>): (ids: set<RowId>) { set k | k in keys :: Keyed(t, k) }

  lemma {:induction false} TaggedSize(t: Table, keys: set<string>)
    ensures |Tagged(t, keys)| == |keys|
    decreases |keys|
  {
    if keys != {} {
      var k :| k in keys;
      TaggedSize(t, keys - {k});
      assert Tagged(t, keys) == Tagged(t, keys - {k}) + {Keyed(t, k)};
    }
  }

  function Dropped(m: map<string, Record>, keep: Record -> bool): (keys: set<string>) { set k | k in m && !keep(m[k]) }

  lemma RetainedSize(t: Table, m: map<string, Record>, keep: Record -> bool)
    ensures |m| - |Retain(m, keep)| == |Tagged(t, Dropped(m, keep))|
  {
    assert Retain(m, keep) == m - Dropped(m, keep);
    RemovedSize(m, Dropped(m, keep));
    TaggedSize(t, Dropped(m, keep));
  }

  lemma DisjointSum<T>(a: set<T>, b: set<T>)
    requires a !! b
    ensures |a + b| == |a| + |b|
  {
  }

  lemma FamilyDropped(m: Maps, store: Store, f: string, keep: Record -> bool)
    requires Holds(m, store) && forall r :: keep(r) <==> !OfFamily(r, f)
    ensures |m.tokens| + |m.refresh| - (|Retain(m.tokens, keep)| + |Retain(m.refresh, keep)|) == FamilyCount(store, f)
  {
    var a, b := Tagged(AccessTokens, Dropped(m.tokens, keep)), Tagged(RefreshTokens, Dropped(m.refresh, keep));
    forall id ensures id in store && OfFamily(store[id], f) <==> id in a + b {
      assert Lookup(m, id) == In(store, id);
      assert id in store ==> IdOf(store[id]) == id;
    }
    assert (set id | id in store && OfFamily(store[id], f)) == a + b;
    DisjointSum(a, b);
    RetainedSize(AccessTokens, m.tokens, keep);
    RetainedSize(RefreshTokens, m.refresh, keep);
  }

  lemma PairDroppedIds(m: Maps, store: Store, c: string, s: string, keep: Record -> bool)
    requires Holds(m, store) && forall r :: keep(r) <==> !OfPair(r, c, s)
    ensures (set id | id in store && OfPair(store[id], c, s))
         == Tagged(AccessTokens, Dropped(m.tokens, keep)) + Tagged(RefreshTokens, Dropped(m.refresh, keep))
            + (Tagged(Codes, Dropped(m.codes, keep)) + Tagged(DeviceGrants, Dropped(m.devices, keep)))
  {
    var a, b := Tagged(AccessTokens, Dropped(m.tokens, keep)), Tagged(RefreshTokens, Dropped(m.refresh, keep));
    var d, e := Tagged(Codes, Dropped(m.codes, keep)), Tagged(DeviceGrants, Dropped(m.devices, keep));
    forall id ensures id in store && OfPair(store[id], c, s) <==> id in a + b + (d + e) {
      assert Lookup(m, id) == In(store, id);
      assert id in store ==> IdOf(store[id]) == id;
    }
  }

  /** What the four maps shrink by is the number of records of the pair. */
  lemma PairDropped(m: Maps, store: Store, c: string, s: string, keep: Record -> bool)
    requires Holds(m, store) && forall r :: keep(r) <==> !OfPair(r, c, s)
    ensures |m.tokens| + |m.refresh| + |m.codes| + |m.devices|
            - (|Retain(m.tokens, keep)| + |Retain(m.refresh, keep)| + |Retain(m.codes, keep)|
              + |Retain(m.devices, keep)|)
         == PairCount(store, c, s)
  {
    PairDroppedIds(m, store, c, s, keep);
    FourTables(Dropped(m.tokens, keep), Dropped(m.refresh, keep), Dropped(m.codes, keep), Dropped(m.devices, keep));
    RetainedSize(AccessTokens, m.tokens, keep);
    RetainedSize(RefreshTokens, m.refresh, keep);
    RetainedSize(Codes, m.codes, keep);
    RetainedSize(DeviceGrants, m.devices, keep);
  }

  lemma FourTables(tokens: set<string>, refresh: set<string>, codes: set<string>, devices: set<string>)
    ensures var a, b, c, d := Tagged(AccessTokens, tokens), Tagged(RefreshTokens, refresh), Tagged(Codes, codes),
                              Tagged(DeviceGrants, devices);
            |a + b + (c + d)| == |a| + |b| + |c| + |d|
  {
    DisjointSum(Tagged(AccessTokens, tokens), Tagged(RefreshTokens, refresh));
    DisjointSum(Tagged(Codes, codes), Tagged(DeviceGrants, devices));
    DisjointSum(Tagged(AccessTokens, tokens) + Tagged(RefreshTokens, refresh),
                Tagged(Codes, codes) + Tagged(DeviceGrants, devices));
  }

  // ----- the refusal predicate

  predicate CoversAt(slot: Option<Times>, established: Instant) { slot.Some? && established <= slot.value.recordedAt }

  /** The resurrection predicate, on the maps and in instants. */
  predicate RevokedAt(m: Maps, g: Guard) {
    || (Slot(m, ClientScope(g.client)).Some?
        && (CoversAt(Slot(m, ClientScope(g.client)), g.established) || g.client !in m.clients))
    || (g.subject.Some? && CoversAt(Slot(m, ConsentScope(g.client, g.subject.value)), g.established))
    || (g.family.Some? && Slot(m, FamilyScope(g.family.value)).Some?)
  }

  lemma SlotSince(m: Maps, store: Store, scope: Scope, established: Instant)
    requires Holds(m, store)
    ensures Slot(m, scope).Some? <==> BarrierId(scope) in store
    ensures CoversAt(Slot(m, scope), established) ==> BarrierSince(store, scope, established)
    ensures Distinguished(established) && BarrierSince(store, scope, established) ==>
              CoversAt(Slot(m, scope), established)
  {
    assert Lookup(m, BarrierId(scope)) == In(store, BarrierId(scope));
    BeforeExactIff(established);
    if Slot(m, scope).Some? {
      var recorded := Slot(m, scope).value.recordedAt;
      assert ToNanos(established) <= ToNanos(recorded) <== established <= recorded by {
        if established <= recorded { ToNanosMonotone(established, recorded); }
      }
    }
  }

  /** Comparing instants never refuses more than comparing columns, and refuses the same for every grant
  instant the columns distinguish. */
  lemma RevokedAgrees(m: Maps, store: Store, g: Guard)
    requires Holds(m, store)
    ensures RevokedAt(m, g) ==> IsRevoked(store, g)
    ensures Distinguished(g.established) ==> (RevokedAt(m, g) <==> IsRevoked(store, g))
  {
    SlotSince(m, store, ClientScope(g.client), g.established);
    assert Lookup(m, Keyed(Clients, g.client)) == In(store, Keyed(Clients, g.client));
    if g.subject.Some? { SlotSince(m, store, ConsentScope(g.client, g.subject.value), g.established); }
    if g.family.Some? { SlotSince(m, store, FamilyScope(g.family.value), g.established); }
  }

  /** A store with one registered client and one barrier of that client. */
  function OneBarrier(c: string, recorded: Instant): Maps {
    Maps(map[c := Client(c, "")], map[], map[], map[], map[], map[], map[], map[],
         map[c := ScopeBarriers(Some(Times(recorded, 0)), None, map[])])
  }

  function OneBarrierStore(c: string, recorded: Instant): Store {
    map[Keyed(Clients, c) := Client(c, ""),
        BarrierId(ClientScope(c)) := BarrierRecord(ClientScope(c), Times(recorded, 0))]
  }

  lemma OneBarrierHolds(c: string, recorded: Instant)
    ensures Holds(OneBarrier(c, recorded), OneBarrierStore(c, recorded))
  {
    var m, store := OneBarrier(c, recorded), OneBarrierStore(c, recorded);
    forall id ensures Lookup(m, id) == In(store, id) {
      if id.BarrierId? && id.scope != ClientScope(c) { assert Slot(m, id.scope).None?; }
    }
  }

  /** The last instant before the grant whose column is not before the column of the grant. */
  function Confused(established: Instant): (recorded: Instant)
    requires !Distinguished(established)
    ensures recorded < established && ToNanos(recorded) == ToNanos(established)
  {
    established - 1
  }

  lemma ConfusedWrite(g: Guard)
    requires !Distinguished(g.established)
    ensures !RevokedAt(OneBarrier(g.client, Confused(g.established)), g)
    ensures IsRevoked(OneBarrierStore(g.client, Confused(g.established)), g)
  {
    var m := OneBarrier(g.client, Confused(g.established));
    assert g.family.Some? ==> Slot(m, FamilyScope(g.family.value)).None?;
    assert g.subject.Some? ==> Slot(m, ConsentScope(g.client, g.subject.value)).None?;
  }

  /** The two stores refuse the same writes of a grant, whatever they hold, exactly when the columns
  distinguish its instant. */
  lemma RevokedAgreesIff(g: Guard)
    ensures (forall m, store | Holds(m, store) :: RevokedAt(m, g) <==> IsRevoked(store, g)) <==>
              Distinguished(g.established)
  {
    if Distinguished(g.established) {
      forall m, store | Holds(m, store) ensures RevokedAt(m, g) <==> IsRevoked(store, g) { RevokedAgrees(m, store, g); }
    } else {
      OneBarrierHolds(g.client, Confused(g.established));
      ConfusedWrite(g);
    }
  }

  function WithGuarded(m: Maps, r: Record): Maps
    requires IsGuarded(r)
  {
    match r
    case AccessToken(k, _, _, _, _, _, _) => m.(tokens := m.tokens[k := r])
    case RefreshToken(k, _, _, _, _, _, _, _) => m.(refresh := m.refresh[k := r])
    case PushedRequest(k, _, _, _, _) => m.(pushed := m.pushed[k := r])
  }

  lemma GuardedPut(m: Maps, store: Store, r: Record)
    requires Holds(m, store) && IsGuarded(r)
    ensures Holds(WithGuarded(m, r), store[IdOf(r) := r])
  {
    var m', store' := WithGuarded(m, r), store[IdOf(r) := r];
    forall id ensures Lookup(m', id) == In(store', id) {
      if id != IdOf(r) { assert Lookup(m', id) == Lookup(m, id) && In(store', id) == In(store, id); }
    }
  }

  class MemoryStore {
    var clients: map<string, Record>
    var tokens: map<string, Record>
    var refresh: map<string, Record>
    var codes: map<string, Record>
    var pushed: map<string, Record>
    var deviceByCode: map<string, Record>
    var userCodeIndex: map<string, string>
    var consents: map<string, Record>
    var replayIds: map<string, Instant>
    var barriers: map<string, ScopeBarriers>
    ghost var contents: Store

    function Now(): (m: Maps)
      reads this
    {
      Maps(clients, tokens, refresh, codes, pushed, deviceByCode, consents, replayIds, barriers)
    }

    ghost predicate Valid()
      reads this
    {
      Holds(Now(), contents) && IndexOk(deviceByCode, userCodeIndex)
    }

    constructor ()
      ensures Valid() && contents == map[] && forall scope :: Slot(Now(), scope).None?
    {
      clients, tokens, refresh, codes, pushed := map[], map[], map[], map[], map[];
      deviceByCode, userCodeIndex, consents, replayIds, barriers := map[], map[], map[], map[], map[];
      contents := map[];
    }

    // ----- barriers and guarded writes

    /** Records a barrier under the identifier it names. */
    method RecordBarrier(scope: Scope, w: Window)
      requires Valid()
      modifies this`barriers, this`contents
      ensures Valid() && contents == Recorded(old(contents), scope, w)
      ensures Slot(Now(), scope) == Some(MergeTimes(old(Slot(Now(), scope)), w))
      ensures forall other | other != scope :: Slot(Now(), other) == old(Slot(Now(), other))
    {
      ghost var before := Now();
      var t := MergeTimes(Slot(Now(), scope), w);
      match scope {
        case ClientScope(c) => barriers := barriers[c := BarriersOf(Now(), c).(client := Some(t))];
        case FamilyScope(f) => barriers := barriers[f := BarriersOf(Now(), f).(family := Some(t))];
        case ConsentScope(c, s) =>
          barriers := barriers[c := BarriersOf(Now(), c).(consents := BarriersOf(Now(), c).consents[s := t])];
      }
      SlotStored(before, scope, t, Now());
      SlotSet(before, contents, scope, w, Now());
      contents := Recorded(contents, scope, w);
    }

    /** A guarded write. */
    method PutGuarded(r: Record) returns (applied: bool)
      requires Valid() && IsGuarded(r)
      modifies this
      ensures Valid()
      ensures applied <==> !RevokedAt(old(Now()), GuardOf(r))
      ensures !IsRevoked(old(contents), GuardOf(r)) ==> applied
      ensures Distinguished(GuardOf(r).established) ==> (applied <==> !IsRevoked(old(contents), GuardOf(r)))
      ensures contents == if applied then old(contents)[IdOf(r) := r] else old(contents)
    {
      RevokedAgrees(Now(), contents, GuardOf(r));
      if RevokedAt(Now(), GuardOf(r)) {
        return false;
      }
      Insert(r);
      return true;
    }

    method Insert(r: Record)
      requires Valid() && IsGuarded(r)
      modifies this`tokens, this`refresh, this`pushed, this`contents
      ensures Valid() && contents == old(contents)[IdOf(r) := r]
    {
      ghost var m := Now();
      GuardedPut(m, contents, r);
      match r {
        case AccessToken(k, _, _, _, _, _, _) => tokens := tokens[k := r];
        case RefreshToken(k, _, _, _, _, _, _, _) => refresh := refresh[k := r];
        case PushedRequest(k, _, _, _, _) => pushed := pushed[k := r];
      }
      contents := contents[IdOf(r) := r];
      assert Now() == WithGuarded(m, r);
    }

    // ----- device grants

    /** Writing a device grant: a clash is refused before anything is written. */
    method PutDeviceGrant(r: Record) returns (answer: Result<()>)
      requires Valid() && r.DeviceGrant?
      modifies this`deviceByCode, this`userCodeIndex, this`contents
      ensures Valid()
      ensures answer.Err? <==> Clashes(old(contents), r)
      ensures contents == AfterPutDevice(old(contents), r)
    {
      OwnedIsClash(Now(), userCodeIndex, contents, r);
      if OwnedIn(userCodeIndex, r) {
        return Err;
      }
      StoreGrant(r);
      return Ok(());
    }

    /** Both maps together: a changed code retires its old entry. */
    method StoreGrant(r: Record)
      requires Valid() && r.DeviceGrant? && !OwnedIn(userCodeIndex, r)
      modifies this`deviceByCode, this`userCodeIndex, this`contents
      ensures Valid() && contents == old(contents)[IdOf(r) := r]
    {
      GrantStored(Now(), userCodeIndex, contents, r);
      Reindex(r);
      deviceByCode := deviceByCode[r.deviceCode := r];
      contents := contents[IdOf(r) := r];
    }

    /** A changed code retires its old entry. */
    method Reindex(r: Record)
      requires r.DeviceGrant? && (r.deviceCode in deviceByCode ==> deviceByCode[r.deviceCode].DeviceGrant?)
      modifies this`userCodeIndex
      ensures userCodeIndex == Reindexed(old(userCodeIndex), At(deviceByCode, r.deviceCode), r)
    {
      var code := Normalize(r.userCode);
      if r.deviceCode in deviceByCode {
        var previous := Normalize(deviceByCode[r.deviceCode].userCode);
        if previous != code {
          userCodeIndex := userCodeIndex - {previous};
        }
      }
      userCodeIndex := userCodeIndex[code := r.deviceCode];
    }

    /** Swapping a device grant: the state is compared before the code. */
    method SwapDeviceGrant(expected: DeviceState, r: Record) returns (answer: Result<bool>)
      requires Valid() && r.DeviceGrant?
      modifies this`deviceByCode, this`userCodeIndex, this`contents
      ensures Valid()
      ensures var found := IdOf(r) in old(contents) && HasExpected(old(contents)[IdOf(r)], OfDevice(expected));
              && answer == (if !found then Ok(false) else if Clashes(old(contents), r) then Err else Ok(true))
              && contents == AfterSwapDevice(old(contents), expected, r)
    {
      assert Lookup(Now(), IdOf(r)) == In(contents, IdOf(r));
      if r.deviceCode !in deviceByCode || deviceByCode[r.deviceCode].deviceState != expected {
        return Ok(false);
      }
      OwnedIsClash(Now(), userCodeIndex, contents, r);
      if OwnedIn(userCodeIndex, r) {
        return Err;
      }
      StoreGrant(r);
      return Ok(true);
    }

    /** Taking a device grant removes it from both maps. */
    method TakeDeviceGrant(code: string) returns (taken: Option<Record>)
      requires Valid()
      modifies this`deviceByCode, this`userCodeIndex, this`contents
      ensures Valid()
      ensures contents == old(contents) - {Keyed(DeviceGrants, code)}
      ensures taken == In(old(contents), Keyed(DeviceGrants, code))
    {
      GrantTaken(Now(), userCodeIndex, contents, code);
      taken := At(deviceByCode, code);
      deviceByCode := deviceByCode - {code};
      if taken.Some? {
        userCodeIndex := userCodeIndex - {Normalize(taken.value.userCode)};
      }
      contents := contents - {Keyed(DeviceGrants, code)};
    }

    /** Looking a grant up by its normalized user code: the index, then the grant. */
    method FindByUserCode(code: string) returns (found: Option<Record>)
      requires Valid()
      ensures FoundBy(contents, code, found)
    {
      FoundByIndex(Now(), userCodeIndex, contents, code);
      found := if code in userCodeIndex then At(deviceByCode, userCodeIndex[code]) else None;
    }

    /** Drops the index entries whose grant is gone. */
    method PruneIndex()
      requires IndexCovers(deviceByCode, userCodeIndex)
      modifies this`userCodeIndex
      ensures IndexOk(deviceByCode, userCodeIndex)
    {
      var stale := set code | code in userCodeIndex && userCodeIndex[code] !in deviceByCode;
      while stale != {}
        invariant IndexCovers(deviceByCode, userCodeIndex)
        invariant forall code | code in userCodeIndex && userCodeIndex[code] !in deviceByCode :: code in stale
        invariant forall code | code in stale && code in userCodeIndex :: userCodeIndex[code] !in deviceByCode
        decreases |stale|
      {
        var code :| code in stale;
        userCodeIndex := userCodeIndex - {code};
        stale := stale - {code};
      }
    }

    // ----- revocations

    /** Revoking a token family, answering how many tokens it removed. */
    method RevokeFamily(f: string, w: Window) returns (answer: Result<nat>)
      requires Valid()
      modifies this
      ensures Valid()
      ensures contents == AfterRevokeFamily(old(contents), f, w)
      ensures answer == if NonEmpty(FamilyScope(f)) then Ok(FamilyCount(old(contents), f)) else Err
    {
      if f == "" {
        return Err;
      }
      ghost var store := contents;
      RecordBarrier(FamilyScope(f), w);
      FamilyBarrierNotCounted(store, f, w);
      var removed := RemoveFamily(f);
      return Ok(removed);
    }

    method RemoveFamily(f: string) returns (removed: nat)
      requires Valid()
      modifies this`tokens, this`refresh, this`contents
      ensures Valid() && contents == WithoutFamily(old(contents), f) && removed == FamilyCount(old(contents), f)
    {
      var keep := (r: Record) => !OfFamily(r, f);
      FamilyDropped(Now(), contents, f, keep);
      FamilyRetained(Now(), contents, f, keep);
      removed := RetainTokens(keep);
      contents := WithoutFamily(contents, f);
    }

    /** Thins the two maps of tokens, answering what they shrank by. */
    method RetainTokens(keep: Record -> bool) returns (removed: nat)
      modifies this`tokens, this`refresh
      ensures var m := old(Now());
              && Now() == m.(tokens := Retain(m.tokens, keep), refresh := Retain(m.refresh, keep))
              && removed == |m.tokens| + |m.refresh| - (|Retain(m.tokens, keep)| + |Retain(m.refresh, keep)|)
    {
      var before := |tokens| + |refresh|;
      RetainedSize(AccessTokens, tokens, keep);
      RetainedSize(RefreshTokens, refresh, keep);
      tokens := Retain(tokens, keep);
      refresh := Retain(refresh, keep);
      removed := before - (|tokens| + |refresh|);
    }

    /** Withdrawing a consent: nothing is touched before the scope has been checked. */
    method RevokeConsent(id: string, w: Window) returns (answer: Result<nat>)
      requires Valid()
      modifies this
      ensures Valid()
      ensures contents == AfterRevokeConsent(old(contents), id, w)
      ensures answer == WithdrawalAnswer(old(contents), id)
    {
      var key := Keyed(Consents, id);
      assert Lookup(Now(), key) == In(contents, key);
      if id !in consents {
        return Ok(0);
      }
      assert IdOf(contents[key]) == key;
      var c, s := consents[id].client, consents[id].subjectId;
      if c == "" || s == "" {
        return Err;
      }
      ConsentRemoved(Now(), contents, id);
      consents := consents - {id};
      contents := contents - {key};
      answer := RevokePair(c, s, w);
      ConsentNotCounted(old(contents), key, c, s);
    }

    /** The barrier of a pair, its removals from four maps, and the index that goes with them. */
    method RevokePair(c: string, s: string, w: Window) returns (answer: Result<nat>)
      requires Valid()
      modifies this
      ensures Valid()
      ensures contents == WithoutPair(Recorded(old(contents), ConsentScope(c, s), w), c, s)
      ensures answer == Ok(PairCount(old(contents), c, s))
    {
      ghost var store := contents;
      RecordBarrier(ConsentScope(c, s), w);
      BarrierNotCounted(store, c, s, w);
      var removed := RemovePair(c, s);
      return Ok(removed);
    }

    method RemovePair(c: string, s: string) returns (removed: nat)
      requires Valid()
      modifies this
      ensures Valid() && contents == WithoutPair(old(contents), c, s) && removed == PairCount(old(contents), c, s)
    {
      var keep := (r: Record) => !OfPair(r, c, s);
      PairDropped(Now(), contents, c, s, keep);
      PairRetained(Now(), contents, c, s, keep);
      removed := RetainCredentials(keep);
      contents := WithoutPair(contents, c, s);
    }

    /** Thins the four maps of credentials and the index, answering what the maps shrank by. */
    method RetainCredentials(keep: Record -> bool) returns (removed: nat)
      requires IndexOk(deviceByCode, userCodeIndex)
      modifies this`tokens, this`refresh, this`codes, this`deviceByCode, this`userCodeIndex
      ensures IndexOk(deviceByCode, userCodeIndex)
      ensures var m := old(Now());
              && Now() == WithoutPairMaps(m, keep)
              && removed == |m.tokens| + |m.refresh| + |m.codes| + |m.devices|
                            - (|Retain(m.tokens, keep)| + |Retain(m.refresh, keep)| + |Retain(m.codes, keep)|
                              + |Retain(m.devices, keep)|)
    {
      IndexThinned(deviceByCode, userCodeIndex, keep);
      removed := RetainMaps(keep);
      PruneIndex();
    }

    method RetainMaps(keep: Record -> bool) returns (removed: nat)
      modifies this`tokens, this`refresh, this`codes, this`deviceByCode
      ensures var m := old(Now());
              && Now() == WithoutPairMaps(m, keep)
              && removed == |m.tokens| + |m.refresh| + |m.codes| + |m.devices|
                            - (|Retain(m.tokens, keep)| + |Retain(m.refresh, keep)| + |Retain(m.codes, keep)|
                              + |Retain(m.devices, keep)|)
    {
      var before := |tokens| + |refresh| + |codes| + |deviceByCode|;
      RetainedSize(AccessTokens, tokens, keep);
      RetainedSize(RefreshTokens, refresh, keep);
      RetainedSize(Codes, codes, keep);
      RetainedSize(DeviceGrants, deviceByCode, keep);
      tokens := Retain(tokens, keep);
      refresh := Retain(refresh, keep);
      codes := Retain(codes, keep);
      deviceByCode := Retain(deviceByCode, keep);
      var after := |tokens| + |refresh| + |codes| + |deviceByCode|;
      removed := before - after;
    }

    /** Deleting a client, answering whether it was registered. */
    method DeleteClient(c: string, w: Window) returns (answer: Result<bool>)
      requires Valid()
      modifies this
      ensures Valid()
      ensures contents == AfterDeleteClient(old(contents), c, w)
      ensures answer == if NonEmpty(ClientScope(c)) then Ok(Keyed(Clients, c) in old(contents)) else Err
    {
      if c == "" {
        return Err;
      }
      assert Lookup(Now(), Keyed(Clients, c)) == In(contents, Keyed(Clients, c));
      var existed := c in clients;
      var keep := (r: Record) => !OfClient(r, c);
      RecordBarrier(ClientScope(c), w);
      ClientRetained(Now(), contents, c, keep);
      IndexThinned(deviceByCode, userCodeIndex, keep);
      contents := WithoutClient(contents, c);
      RetainClient(c, keep);
      PruneIndex();
      return Ok(existed);
    }

    /** Everything the registration holds goes with it. */
    method RetainClient(c: string, keep: Record -> bool)
      modifies this`clients, this`tokens, this`refresh, this`codes, this`pushed, this`deviceByCode, this`consents
      ensures Now() == WithoutClientMaps(old(Now()), c, keep)
    {
      clients := clients - {c};
      tokens := Retain(tokens, keep);
      refresh := Retain(refresh, keep);
      codes := Retain(codes, keep);
      pushed := Retain(pushed, keep);
      deviceByCode := Retain(deviceByCode, keep);
      consents := Retain(consents, keep);
    }
  }
}
