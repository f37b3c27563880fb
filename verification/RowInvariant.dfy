/** What a running transaction knows about the rows it has touched.

A row a scan has hit is locked, so its committed version does not change until the transaction ends.
The uncommitted writes are at every point exactly what the statements executed so far write. */
module RowInvariant {
  import opened Options
  import opened Records
  import opened Protocol

  // ----- the tables a program touches

  function TableOf(p: Pred): (t: Table) {
    match p
    case ByKey(id) => id.Table()
    case ByState(id, _) => id.Table()
    case ByClient(t, _) => t
    case ByFamily(t, _) => t
    case ByPair(t, _, _) => t
    case Expired(t, _) => t
  }

  function Touches(stmt: Stmt): (t: Option<Table>) {
    match stmt
    case Lock(_, _) => None
    case Check(_) => None
    case RecordBarrier(_, _) => Some(Barriers)
    case Upsert(r) => Some(IdOf(r).Table())
    case InsertNew(r) => Some(IdOf(r).Table())
    case Hold(id) => Some(id.Table())
    case Update(r) => Some(IdOf(r).Table())
    case Scan(p, _, _) => Some(TableOf(p))
  }

  ghost predicate Untouched(before: seq<Stmt>, t: Table) {
    forall stmt | stmt in before :: Touches(stmt) != Some(t)
  }

  /** No program scans a table it has already worked on, and none records two barriers. */
  ghost predicate Separate(prog: seq<Stmt>) {
    forall j | 0 <= j < |prog| && (prog[j].Scan? || prog[j].RecordBarrier?) ::
      Untouched(prog[..j], Touches(prog[j]).value)
  }

  ghost predicate Apart(a: seq<Stmt>, b: seq<Stmt>) {
    forall stmt | stmt in b && (stmt.Scan? || stmt.RecordBarrier?) :: Untouched(a, Touches(stmt).value)
  }

  lemma SeparateConcat(a: seq<Stmt>, b: seq<Stmt>)
    requires Separate(a) && Separate(b) && Apart(a, b)
    ensures Separate(a + b)
  {
    var prog := a + b;
    forall j | 0 <= j < |prog| && (prog[j].Scan? || prog[j].RecordBarrier?)
      ensures Untouched(prog[..j], Touches(prog[j]).value)
    {
      if j < |a| {
        assert prog[..j] == a[..j];
      } else {
        assert prog[..j] == a + b[..j - |a|];
        assert prog[j] == b[j - |a|] && prog[j] in b;
      }
    }
  }

  lemma RevocationSeparate(cfg: Config, scope: Scope, w: Window, removals: seq<Stmt>)
    requires Separate(removals)
    requires forall stmt | stmt in removals :: stmt.Scan? && TableOf(stmt.pred) != Barriers
    ensures Separate(Revocation(cfg, scope, w, removals))
  {
    var head := ExclusiveLock(cfg, KeyOf(scope)) + [RecordBarrier(scope, w)];
    assert forall i | 0 <= i < |head| - 1 :: Touches(head[i]).None?;
    assert forall stmt | stmt in head :: Touches(stmt).None? || Touches(stmt) == Some(Barriers);
    assert Separate(head) && Apart(head, removals);
    SeparateConcat(head, removals);
  }

  lemma QuietSeparate(a: seq<Stmt>)
    requires forall stmt | stmt in a :: !stmt.Scan? && !stmt.RecordBarrier?
    ensures Separate(a)
  {
    forall j | 0 <= j < |a| ensures !a[j].Scan? && !a[j].RecordBarrier? { assert a[j] in a; }
  }

  lemma WriterSeparate(cfg: Config, g: Guard, scan: seq<Stmt>, writes: seq<Stmt>)
    requires forall stmt | stmt in writes :: stmt.Upsert?
    requires |scan| <= 1
    ensures Separate(GuardLocks(cfg, g) + [Check(g)] + scan + writes)
  {
    var head := GuardLocks(cfg, g) + [Check(g)];
    QuietSeparate(head);
    assert Separate(scan);
    SeparateConcat(head, scan);
    QuietSeparate(writes);
    SeparateConcat(head + scan, writes);
  }

  lemma PutSeparate(cfg: Config, r: Record)
    requires IsGuarded(r)
    ensures Separate(Program(cfg, PutGuarded(r), None))
  {
    WriterSeparate(cfg, GuardOf(r), [], [Upsert(r)]);
    assert Program(cfg, PutGuarded(r), None)
        == GuardLocks(cfg, GuardOf(r)) + [Check(GuardOf(r))] + [] + [Upsert(r)];
  }

  lemma RotateSeparate(cfg: Config, op: Operation)
    requires Valid(op) && op.Rotate?
    ensures Separate(Program(cfg, op, None))
  {
    var g := GuardOf(op.presented);
    var scan := [Scan(ByKey(IdOf(op.presented)), LockRow, false)];
    var writes := [Upsert(op.spent), Upsert(op.access)]
                  + (if op.next.Some? then [Upsert(op.next.value)] else []);
    WriterSeparate(cfg, g, scan, writes);
    assert Program(cfg, op, None) == GuardLocks(cfg, g) + [Check(g)] + scan + writes;
  }

  lemma ClientRemovalsSeparate(c: string)
    ensures Separate(ClientRemovals(c))
    ensures forall stmt | stmt in ClientRemovals(c) :: stmt.Scan? && TableOf(stmt.pred) != Barriers
  {
    var rs := ClientRemovals(c);
    ClientRemovalTables(c);
    DistinctSeparate(rs, CLIENT_TABLES);
  }

  const CLIENT_TABLES: seq<Table> :=
    [Consents, AccessTokens, RefreshTokens, Codes, DeviceGrants, PushedRequests, Clients]

  lemma ClientRemovalTables(c: string)
    ensures var rs := ClientRemovals(c);
            |rs| == 7 && forall i | 0 <= i < 7 :: rs[i].Scan? && TableOf(rs[i].pred) == CLIENT_TABLES[i]
  {
  }

  /** Scans of different tables. */
  lemma DistinctSeparate(rs: seq<Stmt>, tables: seq<Table>)
    requires |tables| == |rs| && forall i | 0 <= i < |rs| :: rs[i].Scan? && TableOf(rs[i].pred) == tables[i]
    requires forall i, j | 0 <= i < j < |rs| :: tables[i] != tables[j]
    ensures Separate(rs)
  {
  }

  lemma FamilyRemovalsSeparate(f: string)
    ensures Separate(FamilyRemovals(f))
    ensures forall stmt | stmt in FamilyRemovals(f) :: stmt.Scan? && TableOf(stmt.pred) != Barriers
  {
  }

  lemma PairRemovalsSeparate(c: string, s: string)
    ensures Separate(PairRemovals(c, s))
    ensures forall stmt | stmt in PairRemovals(c, s) ::
              stmt.Scan? && TableOf(stmt.pred) != Barriers && TableOf(stmt.pred) != Consents
  {
  }

  lemma WithdrawalSeparate(cfg: Config, id: string, w: Window, bound: Option<(string, string)>)
    ensures Separate(Program(cfg, RevokeConsent(id, w), bound))
  {
    var claim := [Deletion(ByKey(Keyed(Consents, id)))];
    if bound.Some? {
      var (c, s) := bound.value;
      PairRemovalsSeparate(c, s);
      var tail := Revocation(cfg, ConsentScope(c, s), w, PairRemovals(c, s));
      RevocationSeparate(cfg, ConsentScope(c, s), w, PairRemovals(c, s));
      forall stmt | stmt in tail && (stmt.Scan? || stmt.RecordBarrier?)
        ensures Untouched(claim, Touches(stmt).value)
      {
        assert stmt.Scan? ==> stmt in PairRemovals(c, s);
      }
      SeparateConcat(claim, tail);
    }
  }

  lemma ShortSeparate(cfg: Config, op: Operation)
    requires Valid(op) && (op.Put? || op.SwapConsent? || op.Swap? || op.Take? || op.Claim? || op.SweepBatch?)
    ensures Separate(Program(cfg, op, None))
  {
  }

  lemma ProgramSeparate(cfg: Config, op: Operation, bound: Option<(string, string)>)
    requires Valid(op)
    ensures Separate(Program(cfg, op, bound))
  {
    if op.RevokeConsent? {
      WithdrawalSeparate(cfg, op.consentId, op.window, bound);
    } else {
      assert Program(cfg, op, bound) == Program(cfg, op, None);
      if op.PutGuarded? {
        PutSeparate(cfg, op.rec);
      } else if op.Rotate? {
        RotateSeparate(cfg, op);
      } else if op.DeleteClient? {
        ClientRemovalsSeparate(op.client);
        RevocationSeparate(cfg, ClientScope(op.client), op.window, ClientRemovals(op.client));
      } else if op.RevokeFamily? {
        FamilyRemovalsSeparate(op.family);
        RevocationSeparate(cfg, FamilyScope(op.family), op.window, FamilyRemovals(op.family));
      } else {
        ShortSeparate(cfg, op);
      }
    }
  }

  // ----- the invariant

  function Reach(u: Txn): nat { if u.scan.Some? then u.pc + 1 else u.pc }

  function Payloads(rows: map<RowId, Row>): (store: map<RowId, Record>) {
    map id | id in rows :: rows[id].payload
  }

  /** What the statements executed so far write, given the committed barriers. */
  function Effects(db: Db, before: seq<Stmt>): (store: map<RowId, Record>) {
    if before == [] then map[]
    else Effect(db, Effects(db, before[..|before| - 1]), before[|before| - 1])
  }

  predicate IsPlain(stmt: Stmt) { !stmt.InsertNew? && !stmt.Update? }

  /** Some executed removal selected the row. */
  ghost predicate RemovedBy(before: seq<Stmt>, id: RowId, row: Row) {
    exists stmt | stmt in before :: stmt.Scan? && stmt.action.Remove? && Matches(stmt.pred, id, row)
  }

  ghost predicate AllTouched(before: seq<Stmt>, ids: set<RowId>) {
    forall id | id in ids :: !Untouched(before, id.Table())
  }

  ghost predicate SnapshotOk(stmt: Stmt, u: Txn) {
    && stmt.Scan? && u.scan.Some?
    && forall id | id in u.scan.value ::
         id.Table() == TableOf(stmt.pred) && id !in u.puts && id !in u.dels && id !in u.hits
  }

  ghost predicate HitsCurrent(db: Db, hits: map<RowId, Row>) {
    forall id | id in hits :: id in db && db[id] == hits[id]
  }

  ghost predicate DelsMatched(before: seq<Stmt>, dels: set<RowId>, hits: map<RowId, Row>) {
    forall id | id in dels :: id in hits && RemovedBy(before, id, hits[id])
  }

  ghost predicate WritesAre(prog: seq<Stmt>, db: Db, u: Txn)
    requires u.pc <= |prog|
  {
    (forall stmt | stmt in prog :: IsPlain(stmt)) ==> Payloads(u.puts) == Effects(db, prog[..u.pc])
  }

  ghost predicate RowInv(prog: seq<Stmt>, db: Db, u: Txn) {
    && Reach(u) <= |prog|
    && (u.scan.Some? ==> SnapshotOk(prog[u.pc], u))
    && AllTouched(prog[..Reach(u)], u.puts.Keys + u.dels + u.hits.Keys)
    && u.puts.Keys <= u.rows && u.hits.Keys <= u.rows
    && HitsCurrent(db, u.hits)
    && DelsMatched(prog[..Reach(u)], u.dels, u.hits)
    && WritesAre(prog, db, u)
  }

  // ----- preservation

  lemma TouchedGrows(before: seq<Stmt>, after: seq<Stmt>, ids: set<RowId>)
    requires AllTouched(before, ids) && forall stmt | stmt in before :: stmt in after
    ensures AllTouched(after, ids)
  {
  }

  function Effect(db: Db, m: map<RowId, Record>, stmt: Stmt): (m': map<RowId, Record>) {
    match stmt
    case Upsert(r) => m[IdOf(r) := r]
    case RecordBarrier(scope, w) => m[BarrierId(scope) := Merge(Stored(db, BarrierId(scope)), scope, w)]
    case _ => m
  }

  lemma EffectsSnoc(db: Db, prog: seq<Stmt>, pc: nat)
    requires pc < |prog|
    ensures Effects(db, prog[..pc + 1]) == Effect(db, Effects(db, prog[..pc]), prog[pc])
  {
    assert prog[..pc + 1][..pc] == prog[..pc];
  }

  /** Locks, checks, and statements that leave the rows alone. */
  lemma QuietStepKeeps(prog: seq<Stmt>, db: Db, u: Txn, keys: map<string, Mode>, rows: set<RowId>, codes: set<string>)
    requires RowInv(prog, db, u) && u.pc < |prog| && u.scan.None? && u.rows <= rows
    requires !prog[u.pc].Scan? && !prog[u.pc].Upsert? && !prog[u.pc].RecordBarrier?
    ensures RowInv(prog, db, u.(keys := keys, rows := rows, codes := codes, pc := u.pc + 1))
  {
    PrefixKeeps(prog, u.pc, u.puts.Keys + u.dels + u.hits.Keys, u.dels, u.hits);
    EffectsSnoc(db, prog, u.pc);
  }

  lemma WriteKeepsEffects(prog: seq<Stmt>, db: Db, u: Txn, r: Record, row: Row)
    requires u.pc < |prog| && WritesAre(prog, db, u) && row.payload == r
    requires
      || prog[u.pc] == Upsert(r) || prog[u.pc] == InsertNew(r) || prog[u.pc] == Update(r)
      || (prog[u.pc].RecordBarrier?
           && r == Merge(Stored(db, BarrierId(prog[u.pc].scope)), prog[u.pc].scope, prog[u.pc].window))
    ensures WritesAre(prog, db, u.(puts := u.puts[IdOf(r) := row], pc := u.pc + 1))
  {
    EffectsSnoc(db, prog, u.pc);
    assert Payloads(u.puts[IdOf(r) := row]) == Payloads(u.puts)[IdOf(r) := r];
    assert prog[u.pc] in prog;
  }

  lemma PrefixKeeps(prog: seq<Stmt>, pc: nat, ids: set<RowId>, dels: set<RowId>, hits: map<RowId, Row>)
    requires pc < |prog| && AllTouched(prog[..pc], ids) && DelsMatched(prog[..pc], dels, hits)
    ensures AllTouched(prog[..pc + 1], ids) && DelsMatched(prog[..pc + 1], dels, hits)
    ensures prog[pc] in prog[..pc + 1]
  {
    assert prog[..pc + 1] == prog[..pc] + [prog[pc]];
    TouchedGrows(prog[..pc], prog[..pc + 1], ids);
    forall id | id in dels ensures RemovedBy(prog[..pc + 1], id, hits[id]) {
      assert RemovedBy(prog[..pc], id, hits[id]);
    }
  }

  lemma WriteStepKeeps(prog: seq<Stmt>, db: Db, u: Txn, r: Record, clock: nat)
    requires RowInv(prog, db, u) && u.pc < |prog| && u.scan.None? && IdOf(r) !in u.dels
    requires
      || prog[u.pc] == Upsert(r) || prog[u.pc] == InsertNew(r) || prog[u.pc] == Update(r)
      || (prog[u.pc].RecordBarrier?
           && r == Merge(Stored(db, BarrierId(prog[u.pc].scope)), prog[u.pc].scope, prog[u.pc].window))
    ensures RowInv(prog, db, Written(db, u, r, clock).(pc := u.pc + 1))
  {
    var u' := Written(db, u, r, clock).(pc := u.pc + 1);
    PrefixKeeps(prog, u.pc, u.puts.Keys + u.dels + u.hits.Keys, u.dels, u.hits);
    WriteKeepsEffects(prog, db, u, r, u'.puts[IdOf(r)]);
    assert u'.dels == u.dels;
    assert AllTouched(prog[..u'.pc], {IdOf(r)}) by {
      assert Touches(prog[u.pc]) == Some(IdOf(r).Table());
    }
    assert u'.puts.Keys == u.puts.Keys + {IdOf(r)};
  }

  lemma ScanStartKeepsRows(s: State, t: nat, prog: seq<Stmt>, snapshot: map<RowId, Row>, u': Txn)
    requires t in s.txns && s.txns[t].pc < |prog| && Separate(prog)
    requires ScanStartStmt(s, t, prog[s.txns[t].pc], snapshot, u')
    requires RowInv(prog, s.db, s.txns[t])
    ensures RowInv(prog, s.db, u')
  {
    var u := s.txns[t];
    PrefixKeeps(prog, u.pc, u.puts.Keys + u.dels + u.hits.Keys, u.dels, u.hits);
    TableUntouched(prog, s.db, u);
    forall id | id in snapshot
      ensures id.Table() == TableOf(prog[u.pc].pred) && id !in u.puts && id !in u.dels && id !in u.hits
    {
      assert Matches(prog[u.pc].pred, id, View(s.db, u)[id]);
    }
  }

  /** A program has nothing to do with the rows of a table before it scans it. */
  lemma TableUntouched(prog: seq<Stmt>, db: Db, u: Txn)
    requires Separate(prog) && RowInv(prog, db, u) && u.scan.None? && u.pc < |prog| && prog[u.pc].Scan?
    ensures forall id: RowId | id.Table() == TableOf(prog[u.pc].pred) :: id !in u.puts && id !in u.dels && id !in u.hits
  {
    assert Untouched(prog[..u.pc], TableOf(prog[u.pc].pred));
    assert forall id | id in u.puts.Keys + u.dels + u.hits.Keys :: !Untouched(prog[..u.pc], id.Table());
  }

  lemma DropKeepsRows(prog: seq<Stmt>, db: Db, u: Txn, id: RowId)
    requires RowInv(prog, db, u) && u.scan.Some?
    ensures RowInv(prog, db, u.(scan := Some(u.scan.value - {id})))
  {
  }

  /** The bookkeeping every hit does, whatever the action is. */
  lemma HitKeepsTouched(prog: seq<Stmt>, db: Db, u: Txn, id: RowId)
    requires RowInv(prog, db, u) && u.scan.Some? && id in u.scan.value
    requires id in View(db, u) && Matches(prog[u.pc].pred, id, View(db, u)[id])
    ensures View(db, u)[id] == db[id]
    ensures AllTouched(prog[..Reach(u)], u.puts.Keys + u.dels + u.hits.Keys + {id})
    ensures HitsCurrent(db, u.hits[id := db[id]])
    ensures DelsMatched(prog[..Reach(u)], u.dels, u.hits[id := db[id]])
    ensures prog[u.pc].action.Remove? ==> RemovedBy(prog[..Reach(u)], id, db[id])
  {
    var before := prog[..Reach(u)];
    assert prog[u.pc] in before;
    assert !Untouched(before, id.Table());
    forall i | i in u.dels ensures i in u.hits[id := db[id]] && RemovedBy(before, i, u.hits[id := db[id]][i]) {
      assert RemovedBy(before, i, u.hits[i]);
    }
  }

  lemma RemoveKeepsRows(prog: seq<Stmt>, db: Db, u: Txn, id: RowId)
    requires RowInv(prog, db, u) && u.scan.Some? && id in u.scan.value && prog[u.pc].action.Remove?
    requires id in View(db, u) && Matches(prog[u.pc].pred, id, View(db, u)[id])
    ensures RowInv(prog, db, Hit(db, u, Remove, u.scan.value, id))
  {
    var u' := Hit(db, u, Remove, u.scan.value, id);
    HitKeepsTouched(prog, db, u, id);
    assert u'.puts == u.puts && u'.hits == u.hits[id := db[id]] && u'.dels == u.dels + {id};
    assert u'.puts.Keys + u'.dels + u'.hits.Keys == u.puts.Keys + u.dels + u.hits.Keys + {id};
  }

  lemma LockKeepsRows(prog: seq<Stmt>, db: Db, u: Txn, id: RowId, action: Action)
    requires RowInv(prog, db, u) && u.scan.Some? && id in u.scan.value
    requires action == prog[u.pc].action && (action.LockRow? || action.LockNewest?)
    requires id in View(db, u) && Matches(prog[u.pc].pred, id, View(db, u)[id])
    ensures RowInv(prog, db, Hit(db, u, action, u.scan.value, id))
  {
    var u' := Hit(db, u, action, u.scan.value, id);
    HitKeepsTouched(prog, db, u, id);
    assert u'.puts == u.puts && u'.hits == u.hits[id := db[id]] && u'.dels == u.dels;
    assert u'.puts.Keys + u'.dels + u'.hits.Keys == u.puts.Keys + u.dels + u.hits.Keys + {id};
  }

  lemma ScanRowKeepsRows(cfg: Config, s: State, t: nat, prog: seq<Stmt>, id: RowId, u': Txn)
    requires t in s.txns && s.txns[t].pc < |prog|
    requires ScanRowStmt(cfg, s, t, prog[s.txns[t].pc], id, u')
    requires RowInv(prog, s.db, s.txns[t])
    ensures RowInv(prog, s.db, u')
  {
    var u := s.txns[t];
    if u' == u.(scan := Some(u.scan.value - {id})) {
      DropKeepsRows(prog, s.db, u, id);
    } else if prog[u.pc].action.Remove? {
      RemoveKeepsRows(prog, s.db, u, id);
    } else {
      LockKeepsRows(prog, s.db, u, id, prog[u.pc].action);
    }
  }

  lemma ScanEndKeepsRows(prog: seq<Stmt>, prog': seq<Stmt>, db: Db, u: Txn, bound: Option<(string, string)>)
    requires RowInv(prog, db, u) && u.scan.Some? && prog <= prog'
    requires (forall stmt | stmt in prog' :: IsPlain(stmt)) ==> forall stmt | stmt in prog :: IsPlain(stmt)
    ensures RowInv(prog', db, u.(pc := u.pc + 1, scan := None, bound := bound))
  {
    assert prog'[..u.pc + 1] == prog[..u.pc + 1] && prog'[..u.pc] == prog[..u.pc];
    EffectsSnoc(db, prog, u.pc);
  }

  // ----- another transaction commits

  lemma {:induction false} EffectsStable(db: Db, db': Db, before: seq<Stmt>)
    requires forall stmt | stmt in before && stmt.RecordBarrier? ::
               Stored(db, BarrierId(stmt.scope)) == Stored(db', BarrierId(stmt.scope))
    ensures Effects(db, before) == Effects(db', before)
  {
    if before != [] {
      assert before[|before| - 1] in before;
      EffectsStable(db, db', before[..|before| - 1]);
    }
  }

  lemma {:induction false} EffectsHaveBarrier(db: Db, before: seq<Stmt>, scope: Scope, w: Window)
    requires RecordBarrier(scope, w) in before
    ensures BarrierId(scope) in Effects(db, before)
  {
    var n := |before| - 1;
    if before[n] != RecordBarrier(scope, w) {
      assert before == before[..n] + [before[n]];
      EffectsHaveBarrier(db, before[..n], scope, w);
    }
  }

  /** Rows a transaction holds do not change when somebody else commits. */
  lemma PublishKeepsRows(prog: seq<Stmt>, db: Db, u: Txn, v: Txn)
    requires RowInv(prog, db, u) && u.rows !! v.rows && v.puts.Keys + v.dels <= v.rows
    ensures RowInv(prog, Published(db, v), u)
  {
    var db' := Published(db, v);
    if forall stmt | stmt in prog :: IsPlain(stmt) {
      forall stmt | stmt in prog[..u.pc] && stmt.RecordBarrier?
        ensures Stored(db, BarrierId(stmt.scope)) == Stored(db', BarrierId(stmt.scope))
      {
        EffectsHaveBarrier(db, prog[..u.pc], stmt.scope, stmt.window);
        assert BarrierId(stmt.scope) in Payloads(u.puts);
      }
      EffectsStable(db, db', prog[..u.pc]);
    }
  }
}
