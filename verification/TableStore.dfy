/** The table store as one client sees it: operations that run statement by statement on rows whose key
columns are a projection of the record they carry, and the batched sweep. */
module TableStores {
  import opened Options
  import opened Time
  import opened UserCodes
  import opened Records
  import opened Protocol
  import opened RowInvariant
  import opened Atomic
  import opened Commit
  import opened StoreSpec

  ghost predicate AllRemovals(stmts: seq<Stmt>) { forall i | 0 <= i < |stmts| :: IsRemoval(stmts[i]) }

  /** The rows left after a list of removals. */
  function RemoveAll(db: Db, stmts: seq<Stmt>): (db': Db)
    requires AllRemovals(stmts)
  {
    if stmts == [] then db
    else
      var before := RemoveAll(db, stmts[..|stmts| - 1]);
      before - Selected(before, stmts[|stmts| - 1].pred).Keys
  }

  lemma RemovedBySnoc(stmts: seq<Stmt>, id: RowId, row: Row)
    requires AllRemovals(stmts) && stmts != []
    ensures var n := |stmts| - 1;
            RemovedBy(stmts, id, row) <==> RemovedBy(stmts[..n], id, row) || Matches(stmts[n].pred, id, row)
  {
    var n := |stmts| - 1;
    assert stmts == stmts[..n] + [stmts[n]] && stmts[n] in stmts;
  }

  /** What is left is exactly what none of the removals selects. */
  ghost predicate Cascaded(db: Db, db': Db, stmts: seq<Stmt>) {
    && (forall id :: id in db' <==> id in db && !RemovedBy(stmts, id, db[id]))
    && (forall id | id in db' :: db'[id] == db[id])
  }

  /** A list of removals takes away exactly the rows that one of them selects. */
  lemma {:induction false} RemoveAllExact(db: Db, stmts: seq<Stmt>)
    requires AllRemovals(stmts)
    ensures Cascaded(db, RemoveAll(db, stmts), stmts)
  {
    if stmts != [] {
      RemoveAllExact(db, stmts[..|stmts| - 1]);
      forall id | id in db { RemovedBySnoc(stmts, id, db[id]); }
    }
  }

  /** The records a list of removals leaves. */
  ghost function Spared(store: Store, stmts: seq<Stmt>): (store': Store) {
    map id | id in store && !RemovedBy(stmts, id, RowOf(store[id], 0)) :: store[id]
  }

  lemma CascadeSpares(db: Db, db': Db, stmts: seq<Stmt>)
    requires ColumnsAgree(db) && Cascaded(db, db', stmts)
    ensures Abs(db') == Spared(Abs(db), stmts) && |db| - |db'| == |Abs(db)| - |Spared(Abs(db), stmts)|
  {
    forall id | id in db ensures RemovedBy(stmts, id, db[id]) <==> RemovedBy(stmts, id, RowOf(db[id].payload, 0)) {
      BornIsNotSelected(stmts, id, db[id]);
    }
    AbsCount(db);
    AbsCount(db');
  }

  lemma BornIsNotSelected(stmts: seq<Stmt>, id: RowId, row: Row)
    requires row.cols == Project(row.payload)
    ensures RemovedBy(stmts, id, row) <==> RemovedBy(stmts, id, RowOf(row.payload, 0))
  {
    forall stmt | stmt in stmts && IsRemoval(stmt)
      ensures Matches(stmt.pred, id, row) <==> Matches(stmt.pred, id, RowOf(row.payload, 0))
    {
    }
  }

  /** Cascading over columns removes exactly the records whose own fields match. */
  lemma PairCascadeExact(store: Store, c: string, s: string)
    requires KeysAgree(store)
    ensures Spared(store, PairRemovals(c, s)) == WithoutPair(store, c, s)
  {
    forall id | id in store { RemovedPair(id, RowOf(store[id], 0), c, s); }
  }

  lemma FamilyCascadeExact(store: Store, f: string)
    requires KeysAgree(store)
    ensures Spared(store, FamilyRemovals(f)) == WithoutFamily(store, f)
  {
    forall id | id in store { RemovedFamily(id, RowOf(store[id], 0), f); }
  }

  lemma ClientCascadeExact(store: Store, c: string)
    requires KeysAgree(store)
    ensures Spared(store, ClientRemovals(c)) == WithoutClient(store, c)
  {
    forall id | id in store { RemovedClient(id, RowOf(store[id], 0), c); }
  }

  lemma AbsCount(db: Db)
    ensures |Abs(db)| == |db|
  {
    assert Abs(db).Keys == db.Keys;
    assert |Abs(db).Keys| == |Abs(db)| && |db.Keys| == |db|;
  }

  class TableStore {
    var rows: Db
    var inserted: nat

    ghost predicate Valid()
      reads this
    {
      ColumnsAgree(rows) && BarriersNamed(rows) && CodesUnique(Contents())
    }

    ghost function Contents(): (store: Store)
      reads this
    {
      Abs(rows)
    }

    constructor ()
      ensures Valid() && Contents() == map[]
    {
      rows := map[];
      inserted := 0;
    }

    // ----- statements

    /** `DELETE ... WHERE`, answering the number of rows affected. */
    method DeleteWhere(p: Pred) returns (affected: nat)
      modifies this
      ensures rows == old(rows) - Selected(old(rows), p).Keys && affected == |old(rows)| - |rows|
      ensures inserted == old(inserted)
    {
      var selected := Selected(rows, p).Keys;
      affected := |selected|;
      RemovedSize(rows, selected);
      rows := rows - selected;
    }

    /** A list of deletions, adding up the rows affected. */
    method DeleteEach(stmts: seq<Stmt>) returns (removed: nat)
      requires AllRemovals(stmts)
      modifies this
      ensures rows == RemoveAll(old(rows), stmts) && removed == |old(rows)| - |rows|
      ensures inserted == old(inserted)
    {
      removed := 0;
      assert stmts[..0] == [];
      for i := 0 to |stmts|
        invariant rows == RemoveAll(old(rows), stmts[..i]) && removed == |old(rows)| - |rows|
        invariant inserted == old(inserted)
      {
        var affected := DeleteWhere(stmts[i].pred);
        removed := removed + affected;
        assert stmts[..i + 1][..i] == stmts[..i];
      }
      assert stmts[..|stmts|] == stmts;
    }

    /** `INSERT ... ON CONFLICT DO UPDATE`: an existing row keeps its identity. */
    method Upsert(r: Record)
      modifies this
      ensures Contents() == old(Contents())[IdOf(r) := r]
      ensures old(ColumnsAgree(rows)) ==> ColumnsAgree(rows)
      ensures forall id | id != IdOf(r) :: id in rows <==> id in old(rows)
    {
      var born := if IdOf(r) in rows then rows[IdOf(r)].born else inserted;
      rows := rows[IdOf(r) := RowOf(r, born)];
      inserted := inserted + 1;
    }

    /** Recording a barrier: the schema refuses a scope that names no identity. */
    method RecordBarrier(scope: Scope, w: Window) returns (ok: bool)
      requires Valid()
      modifies this
      ensures ok <==> NonEmpty(scope)
      ensures Valid()
      ensures Contents() == if ok then Recorded(old(Contents()), scope, w) else old(Contents())
      ensures !ok ==> rows == old(rows)
    {
      ok := NonEmpty(scope);
      if ok {
        var b := Merge(Stored(rows, BarrierId(scope)), scope, w);
        ghost var before := Contents();
        Upsert(b);
        FewerKeepsUnique(before, Contents());
      }
    }

    // ----- revocations

    /** The barrier of a scope and a list of removals. */
    method RevokeScope(scope: Scope, w: Window, stmts: seq<Stmt>) returns (ok: bool, removed: nat)
      requires Valid() && AllRemovals(stmts)
      modifies this
      ensures Valid() && (ok <==> NonEmpty(scope))
      ensures !ok ==> rows == old(rows)
      ensures ok ==> var base := Recorded(old(Contents()), scope, w);
                     KeysAgree(base) && Contents() == Spared(base, stmts) && removed == |base| - |Contents()|
    {
      ok := RecordBarrier(scope, w);
      removed := 0;
      if ok {
        ghost var base := rows;
        KeysOfRows(base);
        removed := DeleteEach(stmts);
        RemoveAllExact(base, stmts);
        CascadeKeeps(base, rows, stmts);
        CascadeSpares(base, rows, stmts);
      }
    }

    /** The barrier of a pair and the removal of everything the pair holds. */
    method RevokePair(c: string, s: string, w: Window) returns (answer: Result<nat>)
      requires Valid()
      modifies this
      ensures Valid()
      ensures Contents() == if NonEmpty(ConsentScope(c, s))
                            then WithoutPair(Recorded(old(Contents()), ConsentScope(c, s), w), c, s)
                            else old(Contents())
      ensures answer == if NonEmpty(ConsentScope(c, s)) then Ok(PairCount(old(Contents()), c, s)) else Err
    {
      ghost var start := Contents();
      KeysOfRows(rows);
      var ok, removed := RevokeScope(ConsentScope(c, s), w, PairRemovals(c, s));
      if !ok {
        return Err;
      }
      PairRevoked(start, Contents(), removed, c, s, w);
      return Ok(removed);
    }

    /** Withdrawing a consent: the consent is claimed first, and a refusal puts it back. */
    method RevokeConsent(id: string, w: Window) returns (answer: Result<nat>)
      requires Valid()
      modifies this
      ensures Valid()
      ensures Contents() == AfterRevokeConsent(old(Contents()), id, w)
      ensures answer == WithdrawalAnswer(old(Contents()), id)
    {
      var saved, key := rows, Keyed(Consents, id);
      var n := DeleteWhere(ByKey(key));
      if key !in saved {
        assert rows == saved;
        return Ok(0);
      }
      var c, s := saved[key].cols.client, saved[key].cols.subject.GetOr("");
      ConsentClaimed(saved, id, c, s, w);
      assert rows == saved - {key};
      answer := RevokePair(c, s, w);
      if answer.Err? {
        rows := saved;
      }
    }

    /** Deleting a client, answering whether it was registered. */
    method DeleteClient(c: string, w: Window) returns (answer: Result<bool>)
      requires Valid()
      modifies this
      ensures Valid()
      ensures Contents() == AfterDeleteClient(old(Contents()), c, w)
      ensures answer == if NonEmpty(ClientScope(c)) then Ok(Keyed(Clients, c) in old(Contents())) else Err
    {
      var registered := Keyed(Clients, c) in rows;
      ghost var start := Contents();
      var ok, _ := RevokeScope(ClientScope(c), w, ClientRemovals(c));
      if !ok {
        return Err;
      }
      ClientCascadeExact(Recorded(start, ClientScope(c), w), c);
      return Ok(registered);
    }

    /** Revoking a token family, answering how many tokens it removed. */
    method RevokeFamily(f: string, w: Window) returns (answer: Result<nat>)
      requires Valid()
      modifies this
      ensures Valid()
      ensures Contents() == AfterRevokeFamily(old(Contents()), f, w)
      ensures answer == if NonEmpty(FamilyScope(f)) then Ok(FamilyCount(old(Contents()), f)) else Err
    {
      ghost var start := Contents();
      KeysOfRows(rows);
      var ok, removed := RevokeScope(FamilyScope(f), w, FamilyRemovals(f));
      if !ok {
        return Err;
      }
      FamilyCascadeExact(Recorded(start, FamilyScope(f), w), f);
      FamilyRemovedCount(start, f, w);
      return Ok(removed);
    }

    // ----- guarded writes

    /** A guarded write: refused exactly when its grant is revoked. */
    method PutGuarded(r: Record) returns (applied: bool)
      requires Valid() && IsGuarded(r)
      modifies this
      ensures Valid()
      ensures applied <==> !IsRevoked(old(Contents()), GuardOf(r))
      ensures Contents() == AfterPut(old(Contents()), r)
    {
      CoversIsRevoked(rows, GuardOf(r));
      applied := !Covers(rows, GuardOf(r));
      if applied {
        ghost var before := Contents();
        Upsert(r);
        FewerKeepsUnique(before, Contents());
      }
    }

    // ----- device grants

    /** The unique index on the normalized code, as a query on the column. */
    predicate Taken(code: string, except: RowId)
      reads this
    {
      exists id | id in rows :: id != except && rows[id].cols.userCode == Some(code)
    }

    lemma TakenIsClash(r: Record)
      requires Valid() && r.DeviceGrant?
      ensures Taken(Normalize(r.userCode), IdOf(r)) <==> Clashes(Contents(), r)
    {
      forall id | id in rows
        ensures rows[id].cols.userCode == Some(Normalize(r.userCode)) <==>
                  AnswersTo(Contents()[id], Normalize(r.userCode))
      {
      }
      if Taken(Normalize(r.userCode), IdOf(r)) {
        var id :| id in rows && id != IdOf(r) && rows[id].cols.userCode == Some(Normalize(r.userCode));
        assert AnswersTo(Contents()[id], Normalize(r.userCode));
      }
    }

    /** Writing a device grant: a clash on the user code is an error and changes nothing. */
    method PutDeviceGrant(r: Record) returns (answer: Result<()>)
      requires Valid() && r.DeviceGrant?
      modifies this
      ensures Valid()
      ensures answer.Err? <==> Clashes(old(Contents()), r)
      ensures Contents() == AfterPutDevice(old(Contents()), r)
    {
      TakenIsClash(r);
      if Taken(Normalize(r.userCode), IdOf(r)) {
        return Err;
      }
      PutKeepsUnique(Contents(), r);
      Upsert(r);
      return Ok(());
    }

    /** Swapping a device grant: no row in the expected state is `false`; a clash is an error. */
    method SwapDeviceGrant(expected: DeviceState, r: Record) returns (answer: Result<bool>)
      requires Valid() && r.DeviceGrant?
      modifies this
      ensures Valid()
      ensures var found := IdOf(r) in old(Contents()) && HasExpected(old(Contents())[IdOf(r)], OfDevice(expected));
              && answer == (if !found then Ok(false) else if Clashes(old(Contents()), r) then Err else Ok(true))
              && Contents() == AfterSwapDevice(old(Contents()), expected, r)
    {
      var id := IdOf(r);
      if id !in rows || !Matches(ByState(id, OfDevice(expected)), id, rows[id]) {
        return Ok(false);
      }
      TakenIsClash(r);
      if Taken(Normalize(r.userCode), id) {
        return Err;
      }
      PutKeepsUnique(Contents(), r);
      Upsert(r);
      return Ok(true);
    }

    /** Taking a device grant removes it and, with the row, its user code. */
    method TakeDeviceGrant(code: string) returns (taken: Option<Record>)
      requires Valid()
      modifies this
      ensures Valid()
      ensures Contents() == old(Contents()) - {Keyed(DeviceGrants, code)}
      ensures taken == if Keyed(DeviceGrants, code) in old(Contents())
                       then Some(old(Contents())[Keyed(DeviceGrants, code)]) else None
    {
      var id := Keyed(DeviceGrants, code);
      taken := Stored(rows, id);
      OneRowRemoved(rows, id);
      var n := DeleteWhere(ByKey(id));
    }

    /** Looking a grant up by its normalized user code. */
    method FindByUserCode(code: string) returns (found: Option<Record>)
      requires Valid()
      ensures FoundBy(Contents(), code, found)
    {
      forall id | id in rows ensures rows[id].cols.userCode == Some(code) <==> AnswersTo(Contents()[id], code) {
        assert IdOf(rows[id].payload) == id && rows[id].cols == Project(rows[id].payload);
      }
      if exists id | id in rows :: rows[id].cols.userCode == Some(code) {
        var id :| id in rows && rows[id].cols.userCode == Some(code);
        return Some(rows[id].payload);
      }
      return None;
    }

    // ----- sweeping

    /** One statement of the sweep: up to a batch of dead rows, the locked ones skipped. */
    method DeleteBatch(table: Table, n: Nanos, locked: set<RowId>) returns (affected: nat, ghost batch: set<RowId>)
      modifies this
      ensures batch <= Dead(old(rows), table, n, locked) && rows == old(rows) - batch && affected == |batch|
      ensures affected <= SWEEP_BATCH_ROWS
      ensures affected < SWEEP_BATCH_ROWS ==> batch == Dead(old(rows), table, n, locked)
    {
      var chosen, rest := {}, Dead(rows, table, n, locked);
      while rest != {} && |chosen| < SWEEP_BATCH_ROWS
        invariant chosen + rest == Dead(rows, table, n, locked) && chosen !! rest && |chosen| <= SWEEP_BATCH_ROWS
        decreases |rest|
      {
        var id :| id in rest;
        chosen, rest := chosen + {id}, rest - {id};
      }
      rows := rows - chosen;
      affected, batch := |chosen|, chosen;
    }

    /** Batches until one comes back short. */
    method SweepTable(table: Table, n: Nanos, locked: set<RowId>) returns (removed: nat)
      modifies this
      ensures rows == old(rows) - Dead(old(rows), table, n, locked)
      ensures removed == |old(rows)| - |rows|
    {
      removed := 0;
      ghost var start := rows;
      ghost var gone: set<RowId> := {};
      while true
        invariant gone <= Dead(start, table, n, locked) && rows == start - gone && removed == |start| - |rows|
        decreases |rows|
      {
        BatchStep(start, gone, table, n, locked);
        var affected, batch := DeleteBatch(table, n, locked);
        RemovedSize(start - gone, batch);
        removed := removed + affected;
        gone := gone + batch;
        assert rows == start - gone;
        if affected < SWEEP_BATCH_ROWS {
          break;
        }
      }
    }

    /** The whole sweep equals one unbounded filter of every table, and counts what it removed. */
    method SweepExpired(now: Instant, locked: set<RowId>) returns (removed: nat)
      requires Valid()
      modifies this
      ensures Valid()
      ensures Contents() == Swept(old(Contents()), ToNanos(now), locked)
      ensures removed == DeadCount(old(Contents()), ToNanos(now), locked)
    {
      var cutoff := ToNanos(now);
      removed := 0;
      for i := 0 to |SWEPT_TABLES|
        invariant removed == |old(rows)| - |rows| && SweptSoFar(old(rows), rows, SWEPT_TABLES[..i], cutoff, locked)
      {
        SweepOneMore(old(rows), rows, SWEPT_TABLES[..i], SWEPT_TABLES[i], cutoff, locked);
        var batch := SweepTable(SWEPT_TABLES[i], cutoff, locked);
        removed := removed + batch;
        assert SWEPT_TABLES[..i + 1] == SWEPT_TABLES[..i] + [SWEPT_TABLES[i]];
      }
      assert SWEPT_TABLES[..|SWEPT_TABLES|] == SWEPT_TABLES;
      SweptIsFilter(old(rows), rows, cutoff, locked);
    }
  }

  // ----- sweeping

  /** The rows of a table that are dead at the cutoff and that nobody else holds. */
  function Dead(db: Db, table: Table, n: Nanos, locked: set<RowId>): (ids: set<RowId>) {
    set id | id in db && id !in locked && Matches(Expired(table, n), id, db[id])
  }

  /** The tables in the order they are swept. */
  const SWEPT_TABLES: seq<Table> :=
    [DeviceGrants, Codes, AccessTokens, RefreshTokens, PushedRequests, ReplayIds, Barriers]

  ghost predicate DeadIn(tables: seq<Table>, id: RowId, row: Row, n: Nanos, locked: set<RowId>) {
    id !in locked && id.Table() in tables && Matches(Expired(id.Table(), n), id, row)
  }

  /** The column a sweep compares is the expiry the record states, for every kind of record that has one. */
  lemma DeadIsExpired(id: RowId, row: Row, n: Nanos, locked: set<RowId>)
    requires IdOf(row.payload) == id && row.cols == Project(row.payload)
    ensures DeadIn(SWEPT_TABLES, id, row, n, locked) <==> id !in locked && ExpiredBy(row.payload, n)
  {
  }

  /** What is left once these tables have been swept. */
  ghost predicate SweptSoFar(start: Db, db: Db, tables: seq<Table>, n: Nanos, locked: set<RowId>) {
    && (forall id :: id in db <==> id in start && !DeadIn(tables, id, start[id], n, locked))
    && (forall id | id in db :: db[id] == start[id])
  }

  lemma SweepOneMore(start: Db, db: Db, tables: seq<Table>, table: Table, n: Nanos, locked: set<RowId>)
    requires SweptSoFar(start, db, tables, n, locked)
    ensures SweptSoFar(start, db - Dead(db, table, n, locked), tables + [table], n, locked)
  {
    forall id | id in start
      ensures DeadIn(tables + [table], id, start[id], n, locked)
         <==> DeadIn(tables, id, start[id], n, locked) || (id !in locked && Matches(Expired(table, n), id, start[id]))
    {
    }
  }

  lemma SweptIsFilter(db: Db, db': Db, n: Nanos, locked: set<RowId>)
    requires ColumnsAgree(db) && BarriersNamed(db) && CodesUnique(Abs(db))
    requires SweptSoFar(db, db', SWEPT_TABLES, n, locked)
    ensures Abs(db') == Swept(Abs(db), n, locked) && |db| - |db'| == DeadCount(Abs(db), n, locked)
    ensures ColumnsAgree(db') && BarriersNamed(db') && CodesUnique(Abs(db'))
  {
    SweptAbs(db, db', n, locked);
    FewerKeepsUnique(Abs(db), Abs(db'));
    SweptSize(Abs(db), n, locked);
    AbsCount(db);
    AbsCount(db');
  }

  lemma SweptAbs(db: Db, db': Db, n: Nanos, locked: set<RowId>)
    requires ColumnsAgree(db) && SweptSoFar(db, db', SWEPT_TABLES, n, locked)
    ensures Abs(db') == Swept(Abs(db), n, locked)
  {
    forall id | id in db
      ensures DeadIn(SWEPT_TABLES, id, db[id], n, locked) <==> id !in locked && ExpiredBy(db[id].payload, n)
    {
      DeadIsExpired(id, db[id], n, locked);
    }
  }

  lemma SweptSize(store: Store, n: Nanos, locked: set<RowId>)
    ensures |store| - |Swept(store, n, locked)| == DeadCount(store, n, locked)
  {
    var gone := set id | id in store && id !in locked && ExpiredBy(store[id], n);
    assert Swept(store, n, locked) == store - gone;
    RemovedSize(store, gone);
  }

  /** What is still dead after some dead rows have gone. */
  lemma BatchStep(start: Db, gone: set<RowId>, table: Table, n: Nanos, locked: set<RowId>)
    requires gone <= Dead(start, table, n, locked)
    ensures Dead(start - gone, table, n, locked) == Dead(start, table, n, locked) - gone
  {
  }

  lemma KeysOfRows(db: Db)
    requires ColumnsAgree(db)
    ensures KeysAgree(Abs(db))
  {
  }

  lemma OneRowRemoved(db: Db, id: RowId)
    requires ColumnsAgree(db) && BarriersNamed(db) && CodesUnique(Abs(db))
    ensures var db' := db - Selected(db, ByKey(id)).Keys;
            Abs(db') == Abs(db) - {id} && ColumnsAgree(db') && BarriersNamed(db') && CodesUnique(Abs(db'))
  {
    FewerKeepsUnique(Abs(db), Abs(db - Selected(db, ByKey(id)).Keys));
  }

  /** What a cascade leaves is still well formed. */
  lemma CascadeKeeps(db: Db, db': Db, stmts: seq<Stmt>)
    requires Cascaded(db, db', stmts) && ColumnsAgree(db) && BarriersNamed(db) && CodesUnique(Abs(db))
    ensures ColumnsAgree(db') && BarriersNamed(db') && CodesUnique(Abs(db'))
  {
    FewerKeepsUnique(Abs(db), Abs(db'));
  }

  lemma PairRevoked(start: Store, after: Store, removed: nat, c: string, s: string, w: Window)
    requires KeysAgree(start) && KeysAgree(Recorded(start, ConsentScope(c, s), w))
    requires after == Spared(Recorded(start, ConsentScope(c, s), w), PairRemovals(c, s))
    requires removed == |Recorded(start, ConsentScope(c, s), w)| - |after|
    ensures after == WithoutPair(Recorded(start, ConsentScope(c, s), w), c, s) && removed == PairCount(start, c, s)
  {
    PairCascadeExact(Recorded(start, ConsentScope(c, s), w), c, s);
    PairRemovedCount(start, c, s, w);
  }

  /** The claimed consent names the pair, and without it the store is as it was. */
  lemma ConsentClaimed(db: Db, id: string, c: string, s: string, w: Window)
    requires ColumnsAgree(db) && BarriersNamed(db) && CodesUnique(Abs(db)) && Keyed(Consents, id) in db
    requires db[Keyed(Consents, id)].cols.client == c && db[Keyed(Consents, id)].cols.subject.GetOr("") == s
    ensures var key := Keyed(Consents, id);
            && Selected(db, ByKey(key)).Keys == {key}
            && ColumnsAgree(db - {key}) && BarriersNamed(db - {key}) && Abs(db - {key}) == Abs(db) - {key}
            && CodesUnique(Abs(db - {key}))
            && AfterRevokeConsent(Abs(db), id, w)
               == (if NonEmpty(ConsentScope(c, s))
                   then WithoutPair(Recorded(Abs(db) - {key}, ConsentScope(c, s), w), c, s)
                   else Abs(db))
            && WithdrawalAnswer(Abs(db), id)
               == if NonEmpty(ConsentScope(c, s)) then Ok(PairCount(Abs(db) - {key}, c, s)) else Err
  {
    var key := Keyed(Consents, id);
    assert IdOf(db[key].payload) == key && db[key].cols == Project(db[key].payload);
    FewerKeepsUnique(Abs(db), Abs(db - {key}));
    ConsentNotCounted(Abs(db), key, c, s);
  }

  lemma PairRemovedCount(store: Store, c: string, s: string, w: Window)
    requires KeysAgree(store)
    ensures var base := Recorded(store, ConsentScope(c, s), w);
            |base| - |WithoutPair(base, c, s)| == PairCount(store, c, s)
  {
    var base := Recorded(store, ConsentScope(c, s), w);
    var gone := set id | id in base && OfPair(base[id], c, s);
    assert gone == set id | id in store && OfPair(store[id], c, s);
    assert WithoutPair(base, c, s) == base - gone;
    RemovedSize(base, gone);
  }

  lemma FamilyRemovedCount(store: Store, f: string, w: Window)
    requires KeysAgree(store)
    ensures var base := Recorded(store, FamilyScope(f), w);
            |base| - |WithoutFamily(base, f)| == FamilyCount(store, f)
  {
    var base := Recorded(store, FamilyScope(f), w);
    var gone := set id | id in base && OfFamily(base[id], f);
    assert gone == set id | id in store && OfFamily(store[id], f);
    assert WithoutFamily(base, f) == base - gone;
    RemovedSize(base, gone);
  }
}
