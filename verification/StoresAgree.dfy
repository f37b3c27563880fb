/** The two stores give one answer: run on equal contents they leave equal contents. */
module StoresAgree {
  import opened Options
  import opened Time
  import opened Records
  import opened Protocol
  import opened Atomic
  import opened StoreSpec
  import opened MemoryStores
  import opened TableStores

  ghost predicate Same(m: MemoryStore, t: TableStore)
    reads m, t
  {
    m.Valid() && t.Valid() && m.contents == t.Contents()
  }

  /** A withdrawal leaves the same records and answers the same count. */
  method RevokeConsent(m: MemoryStore, t: TableStore, id: string, w: Window) returns (a: Result<nat>, b: Result<nat>)
    requires Same(m, t)
    modifies m, t
    ensures Same(m, t) && a == b
  {
    a := m.RevokeConsent(id, w);
    b := t.RevokeConsent(id, w);
  }

  method RevokeFamily(m: MemoryStore, t: TableStore, f: string, w: Window) returns (a: Result<nat>, b: Result<nat>)
    requires Same(m, t)
    modifies m, t
    ensures Same(m, t) && a == b
  {
    a := m.RevokeFamily(f, w);
    b := t.RevokeFamily(f, w);
  }

  method DeleteClient(m: MemoryStore, t: TableStore, c: string, w: Window) returns (a: Result<bool>, b: Result<bool>)
    requires Same(m, t)
    modifies m, t
    ensures Same(m, t) && a == b
  {
    a := m.DeleteClient(c, w);
    b := t.DeleteClient(c, w);
  }

  method SwapDeviceGrant(m: MemoryStore, t: TableStore, expected: DeviceState, r: Record)
    returns (a: Result<bool>, b: Result<bool>)
    requires Same(m, t) && r.DeviceGrant?
    modifies m, t
    ensures Same(m, t) && a == b
  {
    a := m.SwapDeviceGrant(expected, r);
    b := t.SwapDeviceGrant(expected, r);
  }

  /** A guarded write is refused by both or by neither if the columns distinguish its grant instant;
  otherwise the table store, whose columns saturate, may refuse more. */
  method PutGuarded(m: MemoryStore, t: TableStore, r: Record) returns (a: bool, b: bool)
    requires Same(m, t) && IsGuarded(r)
    modifies m, t
    ensures m.Valid() && t.Valid() && (b ==> a)
    ensures Distinguished(GuardOf(r).established) ==> Same(m, t) && a == b
  {
    a := m.PutGuarded(r);
    b := t.PutGuarded(r);
  }

  /** For every other grant instant there is a revocation after which the two stores differ: one admits the
  write, the other refuses it. */
  method Disagree(r: Record) returns (a: bool, b: bool)
    requires r.AccessToken? && r.client != "" && r.subject.Some? && r.subject.value != ""
    requires !Distinguished(r.established)
    ensures a && !b
  {
    var m := new MemoryStore();
    var t := new TableStore();
    var scope, w := ConsentScope(r.client, r.subject.value), Window(Confused(r.established), 0);
    m.RecordBarrier(scope, w);
    var _ := t.RecordBarrier(scope, w);
    AdmittedByInstants(m.Now(), r, w);
    RefusedByColumns(t.Contents(), r, w);
    a := m.PutGuarded(r);
    b := t.PutGuarded(r);
  }

  lemma AdmittedByInstants(m: Maps, r: Record, w: Window)
    requires r.AccessToken? && r.subject.Some? && w.recordedAt < r.established
    requires Slot(m, ConsentScope(r.client, r.subject.value)) == Some(Times(w.recordedAt, w.until))
    requires forall other | other != ConsentScope(r.client, r.subject.value) :: Slot(m, other).None?
    ensures !RevokedAt(m, GuardOf(r))
  {
  }

  lemma RefusedByColumns(store: Store, r: Record, w: Window)
    requires r.AccessToken? && r.subject.Some? && ToNanos(w.recordedAt) == ToNanos(r.established)
    requires var scope := ConsentScope(r.client, r.subject.value);
             BarrierId(scope) in store && store[BarrierId(scope)] == Merge(None, scope, w)
    ensures IsRevoked(store, GuardOf(r))
  {
  }

  /** Both lookups find the same grant, by code and by device. */
  method FindByUserCode(m: MemoryStore, t: TableStore, code: string) returns (a: Option<Record>, b: Option<Record>)
    requires Same(m, t)
    ensures a == b && FoundBy(m.contents, code, a)
  {
    a := m.FindByUserCode(code);
    b := t.FindByUserCode(code);
    FoundIsUnique(m.contents, code, a, b);
  }
}
