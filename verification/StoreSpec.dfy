/** What the store answers, stated on the plain map of records: user codes, counts, sweeping.

These are the functions both stores are proved against, beside the operations of `Atomic`. */
module StoreSpec {
  import opened Options
  import opened Time
  import opened UserCodes
  import opened Records
  import opened Protocol
  import opened Atomic
  import opened Commit

  datatype Result<T> = Ok(value: T) | Err

  /** Every record stands under its own key. */
  ghost predicate KeysAgree(store: Store) { forall id | id in store :: IdOf(store[id]) == id }

  // ----- user codes

  predicate AnswersTo(r: Record, code: string) { r.DeviceGrant? && Normalize(r.userCode) == code }

  /** No two grants answer to one code. */
  ghost predicate CodesUnique(store: Store) {
    forall a, b, code | a in store && b in store && AnswersTo(store[a], code) && AnswersTo(store[b], code) :: a == b
  }

  /** Another grant already answers to this grant's code. */
  ghost predicate Clashes(store: Store, r: Record)
    requires r.DeviceGrant?
  {
    exists id | id in store :: id != IdOf(r) && AnswersTo(store[id], Normalize(r.userCode))
  }

  ghost function AfterPutDevice(store: Store, r: Record): (store': Store)
    requires r.DeviceGrant?
  {
    if Clashes(store, r) then store else store[IdOf(r) := r]
  }

  ghost function AfterSwapDevice(store: Store, s: DeviceState, r: Record): (store': Store)
    requires r.DeviceGrant?
  {
    if Clashes(store, r) then store else AfterSwap(store, OfDevice(s), r)
  }

  /** Found by its user code: exactly the grant that answers to it. */
  ghost predicate FoundBy(store: Store, code: string, found: Option<Record>) {
    match found
    case Some(r) => r.DeviceGrant? && IdOf(r) in store && store[IdOf(r)] == r && AnswersTo(r, code)
    case None => forall id | id in store :: !AnswersTo(store[id], code)
  }

  /** Two lookups in one store give one answer. */
  lemma FoundIsUnique(store: Store, code: string, a: Option<Record>, b: Option<Record>)
    requires CodesUnique(store) && FoundBy(store, code, a) && FoundBy(store, code, b)
    ensures a == b
  {
    if a.Some? && b.Some? {
      assert AnswersTo(store[IdOf(a.value)], code) && AnswersTo(store[IdOf(b.value)], code);
    }
  }

  /** Writing a grant that does not clash keeps the codes unique, and retires the code it had before. */
  lemma PutKeepsCodes(store: Store, r: Record, before: string)
    requires r.DeviceGrant? && CodesUnique(store) && !Clashes(store, r)
    requires IdOf(r) in store && AnswersTo(store[IdOf(r)], before) && before != Normalize(r.userCode)
    ensures CodesUnique(store[IdOf(r) := r])
    ensures FoundBy(store[IdOf(r) := r], before, None)
    ensures FoundBy(store[IdOf(r) := r], Normalize(r.userCode), Some(r))
  {
    PutKeepsUnique(store, r);
    var after := store[IdOf(r) := r];
    forall id | id in after ensures !AnswersTo(after[id], before) {
      assert id in store && AnswersTo(store[id], before) ==> id == IdOf(r);
    }
  }

  lemma PutKeepsUnique(store: Store, r: Record)
    requires r.DeviceGrant? && CodesUnique(store) && !Clashes(store, r)
    ensures CodesUnique(store[IdOf(r) := r])
  {
    var after := store[IdOf(r) := r];
    forall a, b, code | a in after && b in after && AnswersTo(after[a], code) && AnswersTo(after[b], code)
      ensures a == b
    {
      if a != IdOf(r) && b != IdOf(r) {
        assert AnswersTo(store[a], code) && AnswersTo(store[b], code);
      }
    }
  }

  lemma FewerKeepsUnique(large: Store, small: Store)
    requires CodesUnique(large)
    requires forall id | id in small && small[id].DeviceGrant? :: id in large && large[id] == small[id]
    ensures CodesUnique(small)
  {
    forall a, b, code | a in small && b in small && AnswersTo(small[a], code) && AnswersTo(small[b], code)
      ensures a == b
    {
      assert AnswersTo(large[a], code) && AnswersTo(large[b], code);
    }
  }

  /** A grant clashes exactly when another grant has a code that differs from its own in separators and in
  the case of letters at most. */
  lemma ClashIff(store: Store, r: Record)
    requires r.DeviceGrant?
    ensures Clashes(store, r) <==>
              exists id | id in store && id != IdOf(r) ::
                store[id].DeviceGrant? && SameEntry(store[id].userCode, r.userCode)
  {
    forall id | id in store && store[id].DeviceGrant?
      ensures AnswersTo(store[id], Normalize(r.userCode)) <==> SameEntry(store[id].userCode, r.userCode)
    {
      SameCodeIff(store[id].userCode, r.userCode);
    }
  }

  /** What a person enters finds a grant exactly when it differs from its code in that at most. */
  lemma EntryFindsIff(store: Store, r: Record, entered: string)
    requires r.DeviceGrant? && IdOf(r) in store && store[IdOf(r)] == r
    ensures FoundBy(store, Normalize(entered), Some(r)) <==> SameEntry(r.userCode, entered)
  {
    SameCodeIff(r.userCode, entered);
  }

  // ----- counts

  ghost function PairCount(store: Store, c: string, s: string): nat {
    |set id | id in store && OfPair(store[id], c, s)|
  }

  ghost function FamilyCount(store: Store, f: string): nat {
    |set id | id in store && OfFamily(store[id], f)|
  }

  /** What a withdrawal answers: how many credentials of the pair it removed, the consent not counted. */
  ghost function WithdrawalAnswer(store: Store, id: string): (answer: Result<nat>) {
    var key := Keyed(Consents, id);
    if key !in store || !store[key].Consent? then Ok(0)
    else
      var Consent(_, c, s, _, _) := store[key];
      if NonEmpty(ConsentScope(c, s)) then Ok(PairCount(store, c, s)) else Err
  }

  lemma BarrierNotCounted(store: Store, c: string, s: string, w: Window)
    requires KeysAgree(store)
    ensures PairCount(Recorded(store, ConsentScope(c, s), w), c, s) == PairCount(store, c, s)
  {
    var base := Recorded(store, ConsentScope(c, s), w);
    assert (set id | id in base && OfPair(base[id], c, s)) == set id | id in store && OfPair(store[id], c, s);
  }

  lemma FamilyBarrierNotCounted(store: Store, f: string, w: Window)
    requires KeysAgree(store)
    ensures FamilyCount(Recorded(store, FamilyScope(f), w), f) == FamilyCount(store, f)
  {
    var base := Recorded(store, FamilyScope(f), w);
    assert (set id | id in base && OfFamily(base[id], f)) == set id | id in store && OfFamily(store[id], f);
  }

  lemma ConsentNotCounted(store: Store, key: RowId, c: string, s: string)
    requires key in store && store[key].Consent?
    ensures PairCount(store - {key}, c, s) == PairCount(store, c, s)
  {
    assert (set id | id in store - {key} && OfPair((store - {key})[id], c, s))
        == set id | id in store && OfPair(store[id], c, s);
  }

  // ----- sweeping

  function Swept(store: Store, n: Nanos, skipped: set<RowId>): (store': Store) {
    map id | id in store && (id in skipped || !ExpiredBy(store[id], n)) :: store[id]
  }

  ghost function DeadCount(store: Store, n: Nanos, skipped: set<RowId>): nat {
    |set id | id in store && id !in skipped && ExpiredBy(store[id], n)|
  }

  /** The instant at which a record expires; a barrier keeps only its column. */
  function ExpiryOf(r: Record): (at: Option<Instant>) {
    match r
    case AccessToken(_, _, _, _, _, at, _) => Some(at)
    case RefreshToken(_, _, _, _, _, at, _, _) => at
    case Code(_, _, _, at, _, _) => Some(at)
    case DeviceGrant(_, _, _, at, _, _) => Some(at)
    case PushedRequest(_, _, _, at, _) => Some(at)
    case ReplayId(_, at) => Some(at)
    case _ => None
  }

  /** The columns tell whether the record has expired by then. */
  predicate ExpiryTold(r: Record, now: Instant) {
    ExpiryOf(r).Some? && (ExpiryOf(r).value <= now || (now < I64_MAX && ExpiryOf(r).value > I64_MIN))
  }

  /** A sweep keeps exactly the unlocked records that expire after it, by the instants they state, wherever
  the columns tell the two instants apart; a record that never expires it keeps always. */
  lemma SweptByInstants(store: Store, now: Instant, locked: set<RowId>, id: RowId)
    requires id in store && id !in locked && !store[id].Barrier?
    ensures ExpiryOf(store[id]).None? ==> id in Swept(store, ToNanos(now), locked)
    ensures ExpiryOf(store[id]).Some? ==>
              ((id in Swept(store, ToNanos(now), locked) <==> now < ExpiryOf(store[id]).value) <==>
                ExpiryTold(store[id], now))
  {
    if ExpiryOf(store[id]).Some? { ComparisonExactIff(ExpiryOf(store[id]).value, now); }
  }

  // ----- sizes

  lemma RemovedSize<K, V>(m: map<K, V>, gone: set<K>)
    requires gone <= m.Keys
    ensures |m - gone| == |m| - |gone|
  {
    assert (m - gone).Keys == m.Keys - gone;
    assert |m.Keys| == |m| && |(m - gone).Keys| == |m - gone|;
    assert |m.Keys - gone| + |m.Keys * gone| == |m.Keys|;
    assert m.Keys * gone == gone;
  }
}
