/** The invariant behind the no-resurrection theorem, and its preservation by every step. */
module Invariant {
  import opened Options
  import opened Records
  import opened Protocol
  import opened Discipline

  /** No committed access, refresh or pushed row is covered by a committed barrier. */
  ghost predicate Safe(db: Db) {
    forall id | id in db && IsGuarded(db[id].payload) :: !Covers(db, GuardOf(db[id].payload))
  }

  ghost predicate DbOk(db: Db) {
    ColumnsAgree(db) && BarriersNamed(db) && Safe(db)
  }

  /** Every committed row a removal selects is among the transaction's own removals. */
  ghost predicate Removed(db: Db, dels: set<RowId>, p: Pred) {
    forall id | id in db && Matches(p, id, db[id]) :: id in dels
  }

  /** What remains true after a statement has been executed, until the transaction ends. */
  ghost predicate Done(db: Db, keys: map<string, Mode>, dels: set<RowId>, stmt: Stmt) {
    match stmt
    case Lock(key, mode) => key in keys && keys[key] == mode
    case Check(g) => !Covers(db, g)
    case Scan(p, _, _) => IsCascade(stmt) ==> Removed(db, dels, p)
    case _ => true
  }

  ghost predicate AllDone(before: seq<Stmt>, db: Db, keys: map<string, Mode>, dels: set<RowId>) {
    forall stmt | stmt in before :: Done(db, keys, dels, stmt)
  }

  /** A written row is well formed, and what it needs was executed before it. */
  ghost predicate PutOk(before: seq<Stmt>, id: RowId, row: Row) {
    var r := row.payload;
    && IdOf(r) == id && row.cols == Project(r)
    && (IsGuarded(r) ==> Check(GuardOf(r)) in before)
    && (r.Barrier? ==> NonEmpty(r.scope) && exists w :: RecordBarrier(r.scope, w) in before)
  }

  ghost predicate PutsOk(before: seq<Stmt>, puts: map<RowId, Row>) {
    forall id | id in puts :: PutOk(before, id, puts[id])
  }

  /** A client row is only removed after the barrier of that client has been recorded. */
  ghost predicate DelsOk(before: seq<Stmt>, dels: set<RowId>) {
    forall id | id in dels && id.Table() == Clients ::
      id.Keyed? && exists w :: RecordBarrier(ClientScope(id.key), w) in before
  }

  /** The removal scan in progress has every selected row behind it or still in its snapshot. */
  ghost predicate ScanOk(stmt: Stmt, db: Db, dels: set<RowId>, snapshot: map<RowId, Row>) {
    && stmt.Scan?
    && (IsCascade(stmt) ==>
          forall id | id in db && Matches(stmt.pred, id, db[id]) ::
            id in dels || (id in snapshot && snapshot[id].born == db[id].born))
  }

  predicate OnlyLocks(before: seq<Stmt>) { forall stmt | stmt in before :: stmt.Lock? }

  ghost predicate TxnInv(prog: seq<Stmt>, db: Db, u: Txn) {
    && u.pc <= |prog| && (u.pc == 0 ==> u.bound.None?)
    && AllDone(prog[..u.pc], db, u.keys, u.dels)
    && (u.scan.Some? ==> u.pc < |prog| && ScanOk(prog[u.pc], db, u.dels, u.scan.value))
    && PutsOk(prog[..u.pc], u.puts)
    && DelsOk(prog[..u.pc], u.dels)
    && u.puts.Keys + u.dels <= u.rows
    && (OnlyLocks(prog[..u.pc]) && u.scan.None? ==> u.puts == map[] && u.dels == {})
  }

  /** Keys with equal hashes are held together only in shared mode. */
  ghost predicate KeysCompatible(cfg: Config, a: map<string, Mode>, b: map<string, Mode>) {
    forall k1, k2 | k1 in a && k2 in b && cfg.hash(k1) == cfg.hash(k2) :: a[k1].Shared? && b[k2].Shared?
  }

  ghost predicate LocksCompatible(cfg: Config, s: State) {
    forall t1, t2 | t1 in s.txns && t2 in s.txns && t1 != t2 ::
      KeysCompatible(cfg, s.txns[t1].keys, s.txns[t2].keys)
  }

  ghost predicate RowsDisjoint(s: State) {
    forall t1, t2 | t1 in s.txns && t2 in s.txns && t1 != t2 :: s.txns[t1].rows !! s.txns[t2].rows
  }

  ghost predicate RunningOk(cfg: Config, db: Db, u: Txn) {
    u.outcome.Running? ==> Valid(u.op) && TxnInv(Program(cfg, u.op, u.bound), db, u)
  }

  ghost predicate Inv(cfg: Config, s: State) {
    && DbOk(s.db)
    && LocksCompatible(cfg, s)
    && RowsDisjoint(s)
    && forall t | t in s.txns :: RunningOk(cfg, s.db, s.txns[t])
  }

  // ----- a single transaction executes a statement

  lemma PrefixGrows(prog: seq<Stmt>, pc: nat)
    requires pc < |prog|
    ensures prog[..pc + 1] == prog[..pc] + [prog[pc]]
    ensures prog[pc] in prog[..pc + 1]
  {
  }

  /** More statements executed, more rows removed: what was done stays done. */
  lemma DoneGrows(before: seq<Stmt>, after: seq<Stmt>, db: Db, keys: map<string, Mode>,
                  dels: set<RowId>, dels': set<RowId>)
    requires AllDone(before, db, keys, dels) && dels <= dels'
    requires forall stmt | stmt in after :: stmt in before || Done(db, keys, dels', stmt)
    ensures AllDone(after, db, keys, dels')
  {
    forall stmt | stmt in after ensures Done(db, keys, dels', stmt) {
      if stmt in before { assert Done(db, keys, dels, stmt); }
    }
  }

  lemma JustificationsGrow(before: seq<Stmt>, after: seq<Stmt>, puts: map<RowId, Row>, dels: set<RowId>)
    requires PutsOk(before, puts) && DelsOk(before, dels)
    requires forall stmt | stmt in before :: stmt in after
    ensures PutsOk(after, puts) && DelsOk(after, dels)
  {
    forall id | id in puts ensures PutOk(after, id, puts[id]) { assert PutOk(before, id, puts[id]); }
  }

  /** A program that has written a guarded record has no cascade. */
  lemma WritersDoNotCascade(prog: seq<Stmt>, n: nat, id: RowId, row: Row)
    requires Disciplined(prog) && n <= |prog| && PutOk(prog[..n], id, row) && IsGuarded(row.payload)
    ensures forall stmt | stmt in prog :: !IsCascade(stmt)
  {
    assert Check(GuardOf(row.payload)) in prog;
  }

  /** The rows a cascade selects lie in a guarded table. */
  lemma CascadeRowsGuarded(stmt: Stmt, id: RowId, selected: Row, r: Record)
    requires IsCascade(stmt) && Matches(stmt.pred, id, selected) && IdOf(r) == id
    ensures IsGuarded(r)
  {
  }

  lemma WrittenKeepsRemoved(prog: seq<Stmt>, n: nat, db: Db, keys: map<string, Mode>,
                            dels: set<RowId>, r: Record)
    requires Disciplined(prog) && n <= |prog| && AllDone(prog[..n], db, keys, dels)
    requires IsGuarded(r) ==> Check(GuardOf(r)) in prog[..n]
    ensures AllDone(prog[..n], db, keys, dels - {IdOf(r)})
  {
    forall stmt | stmt in prog[..n] ensures Done(db, keys, dels - {IdOf(r)}, stmt) {
      assert Done(db, keys, dels, stmt);
      if IsCascade(stmt) {
        forall id | id in db && Matches(stmt.pred, id, db[id]) ensures id in dels - {IdOf(r)} {
          if id == IdOf(r) {
            CascadeRowsGuarded(stmt, id, db[id], r);
            WritersDoNotCascade(prog, n, id, RowOf(r, 0));
          }
        }
      }
    }
  }

  lemma WriteJustified(before: seq<Stmt>, after: seq<Stmt>, puts: map<RowId, Row>, dels: set<RowId>,
                       r: Record, born: nat)
    requires PutsOk(before, puts) && DelsOk(before, dels)
    requires forall stmt | stmt in before :: stmt in after
    requires PutOk(after, IdOf(r), RowOf(r, born))
    ensures PutsOk(after, puts[IdOf(r) := RowOf(r, born)]) && DelsOk(after, dels - {IdOf(r)})
  {
    JustificationsGrow(before, after, puts, dels);
  }

  /** A write keeps the invariant of the writing transaction. */
  lemma WrittenKeeps(prog: seq<Stmt>, db: Db, u: Txn, r: Record, clock: nat)
    requires TxnInv(prog, db, u) && u.pc < |prog|
    requires prog[u.pc].Upsert? || prog[u.pc].InsertNew? || prog[u.pc].Update? || prog[u.pc].RecordBarrier?
    requires AllDone(prog[..u.pc], db, u.keys, u.dels - {IdOf(r)})
    requires PutOk(prog[..u.pc + 1], IdOf(r), RowOf(r, 0))
    ensures TxnInv(prog, db, Written(db, u, r, clock).(pc := u.pc + 1))
  {
    var u' := Written(db, u, r, clock).(pc := u.pc + 1);
    PrefixGrows(prog, u.pc);
    DoneGrows(prog[..u.pc], prog[..u'.pc], db, u.keys, u'.dels, u'.dels);
    WriteJustified(prog[..u.pc], prog[..u'.pc], u.puts, u.dels, r, u'.puts[IdOf(r)].born);
  }

  lemma ViewBeforeWrites(prog: seq<Stmt>, db: Db, u: Txn)
    requires Disciplined(prog) && TxnInv(prog, db, u) && u.pc < |prog| && prog[u.pc].Check?
    ensures View(db, u) == db
  {
    assert Prepared(prog[..u.pc], prog[u.pc]);
    assert u.scan.None?;
  }

  lemma LockKeepsTxn(prog: seq<Stmt>, db: Db, u: Txn, key: string, mode: Mode)
    requires Disciplined(prog)
    requires TxnInv(prog, db, u) && u.pc < |prog| && prog[u.pc] == Lock(key, mode)
    ensures TxnInv(prog, db, u.(keys := u.keys[key := mode], pc := u.pc + 1))
  {
    PrefixGrows(prog, u.pc);
    var keys := u.keys[key := mode];
    forall stmt | stmt in prog[..u.pc + 1] ensures Done(db, keys, u.dels, stmt) {
      assert prog[u.pc] in prog && stmt in prog;
      if stmt in prog[..u.pc] { assert Done(db, u.keys, u.dels, stmt); }
    }
    JustificationsGrow(prog[..u.pc], prog[..u.pc + 1], u.puts, u.dels);
  }

  lemma SkipKeepsTxn(prog: seq<Stmt>, db: Db, u: Txn)
    requires TxnInv(prog, db, u) && u.pc < |prog| && !prog[u.pc].Scan? && !prog[u.pc].Lock?
    requires Done(db, u.keys, u.dels, prog[u.pc])
    ensures TxnInv(prog, db, u.(pc := u.pc + 1))
  {
    PrefixGrows(prog, u.pc);
    DoneGrows(prog[..u.pc], prog[..u.pc + 1], db, u.keys, u.dels, u.dels);
    JustificationsGrow(prog[..u.pc], prog[..u.pc + 1], u.puts, u.dels);
  }

  lemma HoldKeepsTxn(prog: seq<Stmt>, db: Db, u: Txn, rows: set<RowId>, codes: set<string>)
    requires TxnInv(prog, db, u) && u.pc < |prog| && prog[u.pc].Hold? && u.rows <= rows
    ensures TxnInv(prog, db, u.(pc := u.pc + 1, rows := rows, codes := codes))
  {
    SkipKeepsTxn(prog, db, u);
  }

  lemma CheckKeepsTxn(prog: seq<Stmt>, db: Db, u: Txn, g: Guard)
    requires Disciplined(prog) && TxnInv(prog, db, u) && u.pc < |prog| && prog[u.pc] == Check(g)
    requires !Covers(View(db, u), g)
    ensures TxnInv(prog, db, u.(pc := u.pc + 1))
  {
    ViewBeforeWrites(prog, db, u);
    SkipKeepsTxn(prog, db, u);
  }

  lemma RecordKeepsTxn(prog: seq<Stmt>, db: Db, u: Txn, scope: Scope, w: Window, clock: nat, u': Txn)
    requires Disciplined(prog) && TxnInv(prog, db, u) && u.pc < |prog|
    requires prog[u.pc] == RecordBarrier(scope, w) && NonEmpty(scope)
    requires u' == Written(db, u, Merge(Stored(View(db, u), BarrierId(scope)), scope, w), clock).(pc := u.pc + 1)
    ensures TxnInv(prog, db, u')
  {
    var b := Merge(Stored(View(db, u), BarrierId(scope)), scope, w);
    WrittenKeepsRemoved(prog, u.pc, db, u.keys, u.dels, b);
    PrefixGrows(prog, u.pc);
    WrittenKeeps(prog, db, u, b, clock);
  }

  lemma WriteKeepsTxn(prog: seq<Stmt>, db: Db, u: Txn, r: Record, clock: nat)
    requires Disciplined(prog) && TxnInv(prog, db, u) && u.pc < |prog|
    requires prog[u.pc] == Upsert(r) || prog[u.pc] == InsertNew(r) || prog[u.pc] == Update(r)
    ensures TxnInv(prog, db, Written(db, u, r, clock).(pc := u.pc + 1))
  {
    assert Prepared(prog[..u.pc], prog[u.pc]);
    WrittenKeepsRemoved(prog, u.pc, db, u.keys, u.dels, r);
    PrefixGrows(prog, u.pc);
    WrittenKeeps(prog, db, u, r, clock);
  }

  lemma WriteStmtKeepsTxn(s: State, t: nat, prog: seq<Stmt>, r: Record, u': Txn)
    requires t in s.txns && s.txns[t].pc < |prog| && WriteStmt(s, t, r, u')
    requires Disciplined(prog) && TxnInv(prog, s.db, s.txns[t])
    requires prog[s.txns[t].pc] == Upsert(r) || prog[s.txns[t].pc] == Update(r)
    ensures u'.outcome == RolledBack || TxnInv(prog, s.db, u')
  {
    WriteKeepsTxn(prog, s.db, s.txns[t], r, s.clock);
  }

  /** Statements that touch a row without reading the barriers. */
  lemma RowStmtKeepsTxn(cfg: Config, s: State, t: nat, prog: seq<Stmt>, u': Txn)
    requires t in s.txns && s.txns[t].pc < |prog| && ExecStmt(cfg, s, t, prog[s.txns[t].pc], u')
    requires Disciplined(prog) && TxnInv(prog, s.db, s.txns[t])
    requires var stmt := prog[s.txns[t].pc]; stmt.Upsert? || stmt.Update? || stmt.InsertNew? || stmt.Hold?
    ensures u'.outcome == RolledBack || TxnInv(prog, s.db, u')
  {
    var u := s.txns[t];
    match prog[u.pc] {
      case Upsert(r) => WriteStmtKeepsTxn(s, t, prog, r, u');
      case Update(r) =>
        if IdOf(r) in u.hits { WriteStmtKeepsTxn(s, t, prog, r, u'); }
        else { SkipKeepsTxn(prog, s.db, u); }
      case Hold(_) => HoldKeepsTxn(prog, s.db, u, u'.rows, u'.codes);
      case InsertNew(r) =>
        if IdOf(r) in View(s.db, u) { SkipKeepsTxn(prog, s.db, u); }
        else { WriteKeepsTxn(prog, s.db, u, r, s.clock); }
    }
  }

  lemma QuietStmtKeepsTxn(cfg: Config, s: State, t: nat, prog: seq<Stmt>, u': Txn)
    requires t in s.txns && s.txns[t].pc < |prog| && ExecStmt(cfg, s, t, prog[s.txns[t].pc], u')
    requires Disciplined(prog) && TxnInv(prog, s.db, s.txns[t])
    requires var stmt := prog[s.txns[t].pc]; stmt.Lock? || stmt.Check?
    ensures u'.outcome == RolledBack || TxnInv(prog, s.db, u')
  {
    var u := s.txns[t];
    match prog[u.pc] {
      case Lock(key, mode) => LockKeepsTxn(prog, s.db, u, key, mode);
      case Check(g) => if !Covers(View(s.db, u), g) { CheckKeepsTxn(prog, s.db, u, g); }
    }
  }

  lemma RecordStmtKeepsTxn(cfg: Config, s: State, t: nat, prog: seq<Stmt>, u': Txn)
    requires t in s.txns && s.txns[t].pc < |prog| && ExecStmt(cfg, s, t, prog[s.txns[t].pc], u')
    requires Disciplined(prog) && TxnInv(prog, s.db, s.txns[t]) && prog[s.txns[t].pc].RecordBarrier?
    ensures u'.outcome == RolledBack || TxnInv(prog, s.db, u')
  {
    var scope, w := prog[s.txns[t].pc].scope, prog[s.txns[t].pc].window;
    RecordStmt(cfg, s, t, scope, w, u');
    if NonEmpty(scope) { RecordKeepsTxn(prog, s.db, s.txns[t], scope, w, s.clock, u'); }
  }

  lemma RecordStmt(cfg: Config, s: State, t: nat, scope: Scope, w: Window, u': Txn)
    requires t in s.txns && ExecStmt(cfg, s, t, RecordBarrier(scope, w), u')
    ensures var u := s.txns[t];
            if !NonEmpty(scope) then u'.outcome == RolledBack
            else u' == Written(s.db, u, Merge(Stored(View(s.db, u), BarrierId(scope)), scope, w),
                               s.clock).(pc := u.pc + 1)
  {
  }

  lemma ExecKeepsTxn(cfg: Config, s: State, t: nat, prog: seq<Stmt>, u': Txn)
    requires t in s.txns && s.txns[t].pc < |prog| && ExecStmt(cfg, s, t, prog[s.txns[t].pc], u')
    requires Disciplined(prog) && TxnInv(prog, s.db, s.txns[t])
    ensures u'.outcome == RolledBack || TxnInv(prog, s.db, u')
  {
    var stmt := prog[s.txns[t].pc];
    if stmt.Lock? || stmt.Check? {
      QuietStmtKeepsTxn(cfg, s, t, prog, u');
    } else if stmt.RecordBarrier? {
      RecordStmtKeepsTxn(cfg, s, t, prog, u');
    } else if !stmt.Scan? {
      RowStmtKeepsTxn(cfg, s, t, prog, u');
    }
  }

  // ----- a scan

  /** A row a cascade selects is one the transaction has not written itself. */
  lemma CascadeSeesCommitted(prog: seq<Stmt>, db: Db, u: Txn, id: RowId)
    requires Disciplined(prog) && TxnInv(prog, db, u) && u.pc < |prog| && IsCascade(prog[u.pc])
    requires id in db && Matches(prog[u.pc].pred, id, db[id]) && id !in u.dels
    ensures id in View(db, u) && View(db, u)[id] == db[id]
  {
    if id in u.puts {
      CascadeRowsGuarded(prog[u.pc], id, db[id], u.puts[id].payload);
      WritersDoNotCascade(prog, u.pc, id, u.puts[id]);
    }
  }

  lemma ScanStartKeepsTxn(s: State, t: nat, prog: seq<Stmt>, snapshot: map<RowId, Row>, u': Txn)
    requires t in s.txns && s.txns[t].pc < |prog|
    requires ScanStartStmt(s, t, prog[s.txns[t].pc], snapshot, u')
    requires Disciplined(prog) && TxnInv(prog, s.db, s.txns[t])
    ensures TxnInv(prog, s.db, u')
  {
    var u := s.txns[t];
    if IsCascade(prog[u.pc]) {
      forall id | id in s.db && Matches(prog[u.pc].pred, id, s.db[id])
        ensures id in u.dels || (id in snapshot && snapshot[id].born == s.db[id].born)
      {
        if id !in u.dels { CascadeSeesCommitted(prog, s.db, u, id); }
      }
    }
  }

  /** Dropping a row that no longer matches, or that a sweep found locked. */
  lemma DropKeepsTxn(prog: seq<Stmt>, db: Db, u: Txn, id: RowId)
    requires Disciplined(prog) && TxnInv(prog, db, u) && u.pc < |prog| && u.scan.Some?
    requires prog[u.pc].Scan?
    requires prog[u.pc].skipLocked || !StillMatches(View(db, u), prog[u.pc].pred, u.scan.value, id)
    ensures TxnInv(prog, db, u.(scan := Some(u.scan.value - {id})))
  {
    if IsCascade(prog[u.pc]) && id in db && Matches(prog[u.pc].pred, id, db[id]) && id !in u.dels {
      CascadeSeesCommitted(prog, db, u, id);
    }
  }

  lemma HitKeepsTxn(prog: seq<Stmt>, db: Db, u: Txn, id: RowId)
    requires Disciplined(prog) && TxnInv(prog, db, u) && u.pc < |prog| && u.scan.Some?
    requires prog[u.pc].Scan? && StillMatches(View(db, u), prog[u.pc].pred, u.scan.value, id)
    ensures TxnInv(prog, db, Hit(db, u, prog[u.pc].action, u.scan.value, id))
  {
    var u' := Hit(db, u, prog[u.pc].action, u.scan.value, id);
    assert Prepared(prog[..u.pc], prog[u.pc]);
    DoneGrows(prog[..u.pc], prog[..u.pc], db, u.keys, u.dels, u'.dels);
    forall i | i in u'.puts ensures PutOk(prog[..u.pc], i, u'.puts[i]) {
      if i in u.puts { assert PutOk(prog[..u.pc], i, u.puts[i]); }
    }
  }

  lemma ScanRowKeepsTxn(cfg: Config, s: State, t: nat, prog: seq<Stmt>, id: RowId, u': Txn)
    requires t in s.txns && s.txns[t].pc < |prog|
    requires ScanRowStmt(cfg, s, t, prog[s.txns[t].pc], id, u')
    requires Disciplined(prog) && TxnInv(prog, s.db, s.txns[t])
    ensures TxnInv(prog, s.db, u')
  {
    var u := s.txns[t];
    if StillMatches(View(s.db, u), prog[u.pc].pred, u.scan.value, id) && RowFree(s, t, id) {
      HitKeepsTxn(prog, s.db, u, id);
    } else {
      DropKeepsTxn(prog, s.db, u, id);
    }
  }

  /** Finishing a scan; the program may have grown by what the claim learned. */
  lemma ScanEndKeepsTxn(prog: seq<Stmt>, prog': seq<Stmt>, db: Db, u: Txn, bound: Option<(string, string)>)
    requires TxnInv(prog, db, u) && u.pc < |prog| && u.scan == Some(map[])
    requires prog <= prog'
    ensures TxnInv(prog', db, u.(pc := u.pc + 1, scan := None, bound := bound))
  {
    PrefixGrows(prog, u.pc);
    assert prog'[..u.pc + 1] == prog[..u.pc + 1];
    DoneGrows(prog[..u.pc], prog'[..u.pc + 1], db, u.keys, u.dels, u.dels);
    JustificationsGrow(prog[..u.pc], prog'[..u.pc + 1], u.puts, u.dels);
  }
}
