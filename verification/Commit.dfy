/** Commits are atomic.

Whatever runs beside it, a transaction that commits changes the committed tables as its operation
would have changed them at that instant with nothing running beside it: the statements it executed
over time add up to one step of the plain store. */
module Commit {
  import opened Options
  import opened Time
  import opened Records
  import opened Protocol
  import opened Discipline
  import opened Invariant
  import opened NoResurrection
  import opened RowInvariant
  import opened Atomic

  // ----- facts that depend on the operation

  /** Where the comparing read of a rotation or of a consent swap stands in its program. */
  function ReadIndex(cfg: Config, op: Operation): (i: nat)
    requires Valid(op) && (op.Rotate? || op.SwapConsent?)
  {
    if op.Rotate? then |GuardLocks(cfg, GuardOf(op.presented))| + 1
    else |ExclusiveLock(cfg, CasKey(op.updatedConsent.client, op.updatedConsent.subjectId))|
  }

  /** A swap has found at most its own record, in the expected state, and writes over exactly that. */
  ghost predicate SwapOk(op: Operation, u: Txn)
    requires op.Swap?
  {
    && u.dels == {}
    && (forall id | id in u.hits :: id == IdOf(op.updated) && HasExpected(u.hits[id].payload, op.expected))
    && (u.pc <= 1 || u.hits == map[] ==> u.puts == map[])
    && (u.pc > 1 ==> forall id | id in u.hits :: u.puts == map[id := RowOf(op.updated, u.hits[id].born)])
  }

  ghost predicate ClaimOk(db: Db, op: Operation, u: Txn)
    requires op.Claim?
  {
    && u.dels == {} && u.hits == map[]
    && (u.puts == map[]
        || (u.puts.Keys == {IdOf(op.rec)} && u.puts[IdOf(op.rec)].payload == op.rec && IdOf(op.rec) !in db))
  }

  /** The operations that only remove; for them every hit is a removal. */
  predicate Removes(op: Operation) {
    Revoking(op) || op.Take? || op.SweepBatch?
  }

  /** The operations that remove everything in a scope. */
  predicate Revoking(op: Operation) { op.DeleteClient? || op.RevokeFamily? || op.RevokeConsent? }

  function PairOf(row: Row): (string, string) { (row.cols.client, row.cols.subject.GetOr("")) }

  /** A withdrawal works on the pair of the row it claimed, or on nothing. */
  ghost predicate WithdrawalOk(u: Txn)
    requires u.op.RevokeConsent?
  {
    var key := Keyed(Consents, u.op.consentId);
    && (u.bound.Some? ==> key in u.hits && u.bound == Some(PairOf(u.hits[key])))
    && (u.pc > 0 && u.bound.None? ==> key !in u.hits)
  }

  ghost predicate OpOk(cfg: Config, db: Db, u: Txn)
    requires Valid(u.op)
  {
    match u.op
    case Swap(_, _) => SwapOk(u.op, u)
    case Claim(_) => ClaimOk(db, u.op, u)
    case Rotate(_, _, _, _) => u.pc > ReadIndex(cfg, u.op) ==> Proceeds(u.op, u.hits)
    case SwapConsent(_, _) => u.pc > ReadIndex(cfg, u.op) ==> Proceeds(u.op, u.hits)
    case RevokeConsent(_, _) => u.dels == u.hits.Keys && WithdrawalOk(u)
    case _ => Removes(u.op) ==> u.dels == u.hits.Keys
  }

  ghost predicate RowsOk(cfg: Config, db: Db, u: Txn) {
    u.outcome.Running? ==> Valid(u.op) && RowInv(Program(cfg, u.op, u.bound), db, u) && OpOk(cfg, db, u)
  }

  /** The invariant behind the commit theorems: the safety invariant, and every running transaction knows
  the rows it has touched. */
  ghost predicate CommitInv(cfg: Config, s: State) {
    && Inv(cfg, s)
    && forall t | t in s.txns :: RowsOk(cfg, s.db, s.txns[t])
  }

  // ----- the shapes of the programs that read before they write

  lemma ReadIsTheOnlyScan(cfg: Config, op: Operation, bound: Option<(string, string)>, i: nat)
    requires Valid(op) && (op.Rotate? || op.SwapConsent?) && i < |Program(cfg, op, bound)|
    ensures Program(cfg, op, bound)[i].Scan? <==> i == ReadIndex(cfg, op)
    ensures !Program(cfg, op, bound)[i].InsertNew? && !Program(cfg, op, bound)[i].RecordBarrier?
    ensures !Program(cfg, op, bound)[i].Update? && !Program(cfg, op, bound)[i].Hold?
  {
    if op.Rotate? {
      var locks := GuardLocks(cfg, GuardOf(op.presented));
      if i < |locks| { assert Program(cfg, op, bound)[i] == locks[i]; }
    }
  }

  predicate IsRemoval(stmt: Stmt) { stmt.Scan? && stmt.action.Remove? }

  predicate IsWrite(stmt: Stmt) { stmt.Upsert? || stmt.InsertNew? || stmt.Update? }

  /** A program either writes records or removes rows. */
  ghost predicate OneKind(prog: seq<Stmt>) {
    (forall stmt | stmt in prog :: !IsRemoval(stmt)) || (forall stmt | stmt in prog :: !IsWrite(stmt))
  }

  lemma RevocationDoesNotWrite(cfg: Config, scope: Scope, w: Window, removals: seq<Stmt>, claim: seq<Stmt>)
    requires forall stmt | stmt in claim || stmt in removals :: IsRemoval(stmt)
    ensures forall stmt | stmt in claim + Revocation(cfg, scope, w, removals) :: !IsWrite(stmt)
  {
  }

  lemma GuardedDoesNotRemove(cfg: Config, g: Guard, rest: seq<Stmt>)
    requires forall stmt | stmt in rest :: !IsRemoval(stmt)
    ensures forall stmt | stmt in GuardLocks(cfg, g) + [Check(g)] + rest :: !IsRemoval(stmt)
  {
  }

  lemma ProgramOneKind(cfg: Config, op: Operation, bound: Option<(string, string)>)
    requires Valid(op)
    ensures OneKind(Program(cfg, op, bound))
  {
    match op
    case PutGuarded(r) =>
      PutProgram(cfg, r, bound);
      GuardedDoesNotRemove(cfg, GuardOf(r), [Upsert(r)]);
    case Rotate(e, _, _, _) =>
      RotationProgram(cfg, op, bound);
      GuardedDoesNotRemove(cfg, GuardOf(e), RotationRead(op) + RotationWrites(op));
    case DeleteClient(c, w) =>
      DeletionProgram(cfg, c, w, bound);
      RevocationDoesNotWrite(cfg, ClientScope(c), w, ClientRemovals(c), []);
    case RevokeFamily(f, w) =>
      FamilyProgram(cfg, f, w, bound);
      RevocationDoesNotWrite(cfg, FamilyScope(f), w, FamilyRemovals(f), []);
    case RevokeConsent(id, w) =>
      if bound.Some? {
        var (c, s) := bound.value;
        WithdrawalProgram(cfg, id, w, c, s);
        RevocationDoesNotWrite(cfg, ConsentScope(c, s), w, PairRemovals(c, s), [Deletion(ByKey(Keyed(Consents, id)))]);
      }
    case _ =>
  }

  lemma NothingRemoved(prog: seq<Stmt>, db: Db, u: Txn)
    requires RowInv(prog, db, u) && forall stmt | stmt in prog :: !IsRemoval(stmt)
    ensures u.dels == {}
  {
    assert forall stmt | stmt in prog[..Reach(u)] :: stmt in prog && !IsRemoval(stmt);
    assert forall id | id in u.dels :: RemovedBy(prog[..Reach(u)], id, u.hits[id]);
  }

  // ----- preservation

  lemma ExecKeepsRead(cfg: Config, s: State, t: nat, u': Txn)
    requires Runs(cfg, s, t) && ExecStmt(cfg, s, t, Current(cfg, s, t), u')
    requires s.txns[t].op.Rotate? || s.txns[t].op.SwapConsent?
    requires OpOk(cfg, s.db, s.txns[t])
    ensures u'.op == s.txns[t].op && OpOk(cfg, s.db, u')
  {
    var u := s.txns[t];
    ExecKeepsOp(cfg, s, t, Current(cfg, s, t), u');
    ReadIsTheOnlyScan(cfg, u.op, u.bound, u.pc);
    ExecKeepsHits(cfg, s, t, Current(cfg, s, t), u');
  }

  lemma ExecKeepsClaim(cfg: Config, s: State, t: nat, u': Txn)
    requires t in s.txns && s.txns[t].op.Claim? && ClaimOk(s.db, s.txns[t].op, s.txns[t])
    requires ExecStmt(cfg, s, t, InsertNew(s.txns[t].op.rec), u')
    ensures u'.op == s.txns[t].op && ClaimOk(s.db, u'.op, u')
  {
  }

  lemma ExecKeepsSwap(cfg: Config, s: State, t: nat, u': Txn)
    requires Runs(cfg, s, t) && s.txns[t].op.Swap? && RowsOk(cfg, s.db, s.txns[t])
    requires ExecStmt(cfg, s, t, Current(cfg, s, t), u')
    ensures u'.op == s.txns[t].op && SwapOk(u'.op, u')
  {
    var u := s.txns[t];
    SwapProgram(cfg, u.op, u.bound);
    SwapWrites(s, t, u.op.updated, u');
  }

  lemma SwapWrites(s: State, t: nat, r: Record, u': Txn)
    requires t in s.txns && s.txns[t].op.Swap? && s.txns[t].op.updated == r && SwapOk(s.txns[t].op, s.txns[t])
    requires HitsCurrent(s.db, s.txns[t].hits) && s.txns[t].pc == 1
    requires if IdOf(r) in s.txns[t].hits then WriteStmt(s, t, r, u') else u' == s.txns[t].(pc := 2)
    ensures u'.op == s.txns[t].op && SwapOk(u'.op, u')
  {
    var u := s.txns[t];
    if IdOf(r) in u.hits { assert View(s.db, u)[IdOf(r)] == u.hits[IdOf(r)]; }
  }

  predicate RemoverStmt(stmt: Stmt) { stmt.Lock? || stmt.RecordBarrier? || IsRemoval(stmt) }

  lemma RevocationStmts(cfg: Config, scope: Scope, w: Window, removals: seq<Stmt>)
    requires forall stmt | stmt in removals :: IsRemoval(stmt)
    ensures forall stmt | stmt in Revocation(cfg, scope, w, removals) :: RemoverStmt(stmt)
  {
  }

  lemma RemoverProgram(cfg: Config, op: Operation, bound: Option<(string, string)>)
    requires Valid(op) && Removes(op)
    ensures forall stmt | stmt in Program(cfg, op, bound) :: RemoverStmt(stmt)
  {
    match op
    case DeleteClient(c, w) => RevocationStmts(cfg, ClientScope(c), w, ClientRemovals(c));
    case RevokeFamily(f, w) => RevocationStmts(cfg, FamilyScope(f), w, FamilyRemovals(f));
    case RevokeConsent(_, w) =>
      if bound.Some? {
        RevocationStmts(cfg, ConsentScope(bound.value.0, bound.value.1), w, PairRemovals(bound.value.0, bound.value.1));
      }
    case _ =>
  }

  lemma RemoversDoNotWrite(cfg: Config, op: Operation, bound: Option<(string, string)>, i: nat)
    requires Valid(op) && Removes(op) && i < |Program(cfg, op, bound)|
    ensures RemoverStmt(Program(cfg, op, bound)[i])
    ensures op.RevokeConsent? && bound.None? ==> Program(cfg, op, bound)[i].Scan?
  {
    RemoverProgram(cfg, op, bound);
  }

  lemma ExecKeepsRemovals(cfg: Config, s: State, t: nat, prog: seq<Stmt>, u': Txn)
    requires t in s.txns && s.txns[t].pc < |prog| && RowInv(prog, s.db, s.txns[t]) && Separate(prog)
    requires ExecStmt(cfg, s, t, prog[s.txns[t].pc], u') && !IsWrite(prog[s.txns[t].pc])
    ensures u'.dels == s.txns[t].dels
  {
    var u := s.txns[t];
    if prog[u.pc].RecordBarrier? { BarrierUntouched(prog, s.db, u); }
    ExecDels(cfg, s, t, prog[u.pc], u');
  }

  lemma BarrierUntouched(prog: seq<Stmt>, db: Db, u: Txn)
    requires RowInv(prog, db, u) && Separate(prog) && u.pc < |prog| && prog[u.pc].RecordBarrier?
    ensures BarrierId(prog[u.pc].scope) !in u.puts.Keys + u.dels + u.hits.Keys
  {
    assert u.scan.None?;
    assert Untouched(prog[..u.pc], Barriers);
    assert forall id | id in u.puts.Keys + u.dels + u.hits.Keys :: !Untouched(prog[..u.pc], id.Table());
  }

  lemma ExecDels(cfg: Config, s: State, t: nat, stmt: Stmt, u': Txn)
    requires t in s.txns && ExecStmt(cfg, s, t, stmt, u') && !IsWrite(stmt)
    requires stmt.RecordBarrier? ==> BarrierId(stmt.scope) !in s.txns[t].dels
    ensures u'.dels == s.txns[t].dels
  {
  }

  lemma ExecKeepsRemovers(cfg: Config, s: State, t: nat, u': Txn)
    requires Runs(cfg, s, t) && ExecStmt(cfg, s, t, Current(cfg, s, t), u')
    requires RowsOk(cfg, s.db, s.txns[t]) && Removes(s.txns[t].op)
    ensures u'.op == s.txns[t].op && OpOk(cfg, s.db, u')
  {
    var u := s.txns[t];
    ExecKeepsOp(cfg, s, t, Current(cfg, s, t), u');
    ExecKeepsHits(cfg, s, t, Current(cfg, s, t), u');
    RemoversDoNotWrite(cfg, u.op, u.bound, u.pc);
    ProgramSeparate(cfg, u.op, u.bound);
    ExecKeepsRemovals(cfg, s, t, Program(cfg, u.op, u.bound), u');
  }

  lemma ExecKeepsOpOk(cfg: Config, s: State, t: nat, u': Txn)
    requires Runs(cfg, s, t) && ExecStmt(cfg, s, t, Current(cfg, s, t), u')
    requires RowsOk(cfg, s.db, s.txns[t])
    ensures u'.op == s.txns[t].op && OpOk(cfg, s.db, u')
  {
    var u := s.txns[t];
    ExecKeepsOp(cfg, s, t, Current(cfg, s, t), u');
    if u.op.Rotate? || u.op.SwapConsent? {
      ExecKeepsRead(cfg, s, t, u');
    } else if u.op.Claim? {
      ExecKeepsClaim(cfg, s, t, u');
    } else if u.op.Swap? {
      ExecKeepsSwap(cfg, s, t, u');
    } else if Removes(u.op) {
      ExecKeepsRemovers(cfg, s, t, u');
    }
  }

  lemma ExecKeepsHits(cfg: Config, s: State, t: nat, stmt: Stmt, u': Txn)
    requires t in s.txns && ExecStmt(cfg, s, t, stmt, u')
    ensures u'.hits == s.txns[t].hits && u'.pc <= s.txns[t].pc + 1
  {
  }

  lemma RecordKeepsRows(prog: seq<Stmt>, db: Db, u: Txn, scope: Scope, w: Window, clock: nat)
    requires RowInv(prog, db, u) && u.scan.None? && BarrierId(scope) !in u.puts && BarrierId(scope) !in u.dels
    requires u.pc < |prog| && prog[u.pc] == RecordBarrier(scope, w)
    ensures var b := Merge(Stored(View(db, u), BarrierId(scope)), scope, w);
            RowInv(prog, db, Written(db, u, b, clock).(pc := u.pc + 1))
  {
    StoredUntouched(db, u, BarrierId(scope));
    WriteStepKeeps(prog, db, u, Merge(Stored(db, BarrierId(scope)), scope, w), clock);
  }

  lemma StoredUntouched(db: Db, u: Txn, id: RowId)
    requires id !in u.puts && id !in u.dels
    ensures Stored(View(db, u), id) == Stored(db, id)
  {
  }

  lemma InsertKeepsRows(prog: seq<Stmt>, db: Db, u: Txn, r: Record, clock: nat)
    requires RowInv(prog, db, u) && OneKind(prog) && u.scan.None?
    requires u.pc < |prog| && (prog[u.pc] == Upsert(r) || prog[u.pc] == InsertNew(r) || prog[u.pc] == Update(r))
    ensures RowInv(prog, db, Written(db, u, r, clock).(pc := u.pc + 1))
  {
    assert prog[u.pc] in prog && IsWrite(prog[u.pc]);
    NothingRemoved(prog, db, u);
    WriteStepKeeps(prog, db, u, r, clock);
  }

  lemma ExecKeepsRowInv(cfg: Config, s: State, t: nat, prog: seq<Stmt>, u': Txn)
    requires t in s.txns && s.txns[t].pc < |prog| && ExecStmt(cfg, s, t, prog[s.txns[t].pc], u')
    requires RowInv(prog, s.db, s.txns[t]) && Separate(prog) && OneKind(prog)
    ensures u'.outcome.RolledBack? || RowInv(prog, s.db, u')
  {
    var u := s.txns[t];
    assert u.scan.None?;
    match prog[u.pc] {
      case Lock(key, mode) => QuietStepKeeps(prog, s.db, u, u.keys[key := mode], u.rows, u.codes);
      case Check(_) => QuietStepKeeps(prog, s.db, u, u.keys, u.rows, u.codes);
      case RecordBarrier(_, _) => RecordKeepsRowInv(cfg, s, t, prog, u');
      case Hold(_) => QuietStepKeeps(prog, s.db, u, u.keys, u'.rows, u'.codes);
      case Scan(_, _, _) =>
      case _ => WriteKeepsRowInv(cfg, s, t, prog, u');
    }
  }

  lemma RecordKeepsRowInv(cfg: Config, s: State, t: nat, prog: seq<Stmt>, u': Txn)
    requires t in s.txns && s.txns[t].pc < |prog| && ExecStmt(cfg, s, t, prog[s.txns[t].pc], u')
    requires RowInv(prog, s.db, s.txns[t]) && Separate(prog) && OneKind(prog) && s.txns[t].scan.None?
    requires prog[s.txns[t].pc].RecordBarrier?
    ensures u'.outcome.RolledBack? || RowInv(prog, s.db, u')
  {
    var u := s.txns[t];
    var scope, w := prog[u.pc].scope, prog[u.pc].window;
    BarrierUntouched(prog, s.db, u);
    RecordStmt(cfg, s, t, scope, w, u');
    if NonEmpty(scope) { RecordKeepsRows(prog, s.db, u, scope, w, s.clock); }
  }

  lemma WriteKeepsRowInv(cfg: Config, s: State, t: nat, prog: seq<Stmt>, u': Txn)
    requires t in s.txns && s.txns[t].pc < |prog| && ExecStmt(cfg, s, t, prog[s.txns[t].pc], u')
    requires RowInv(prog, s.db, s.txns[t]) && OneKind(prog) && IsWrite(prog[s.txns[t].pc]) && s.txns[t].scan.None?
    ensures u'.outcome.RolledBack? || RowInv(prog, s.db, u')
  {
    var u := s.txns[t];
    match prog[u.pc] {
      case Upsert(r) => InsertKeepsRows(prog, s.db, u, r, s.clock);
      case Update(r) =>
        if IdOf(r) in u.hits { InsertKeepsRows(prog, s.db, u, r, s.clock); }
        else { QuietStepKeeps(prog, s.db, u, u.keys, u.rows, u.codes); }
      case InsertNew(r) =>
        if IdOf(r) in View(s.db, u) { QuietStepKeeps(prog, s.db, u, u.keys, u.rows, u.codes); }
        else { InsertKeepsRows(prog, s.db, u, r, s.clock); }
    }
  }

  lemma ExecKeepsRowsOk(cfg: Config, s: State, t: nat, u': Txn)
    requires Runs(cfg, s, t) && ExecStmt(cfg, s, t, Current(cfg, s, t), u') && RowsOk(cfg, s.db, s.txns[t])
    ensures RowsOk(cfg, s.db, u')
  {
    var u := s.txns[t];
    ProgramSeparate(cfg, u.op, u.bound);
    ProgramOneKind(cfg, u.op, u.bound);
    ExecKeepsRowInv(cfg, s, t, Program(cfg, u.op, u.bound), u');
    ExecKeepsOp(cfg, s, t, Current(cfg, s, t), u');
    ExecKeepsOpOk(cfg, s, t, u');
  }

  lemma ScanStartKeepsRowsOk(cfg: Config, s: State, t: nat, snapshot: map<RowId, Row>, u': Txn)
    requires Runs(cfg, s, t) && ScanStartStmt(s, t, Current(cfg, s, t), snapshot, u')
    requires RowsOk(cfg, s.db, s.txns[t])
    ensures RowsOk(cfg, s.db, u')
  {
    var u := s.txns[t];
    ProgramSeparate(cfg, u.op, u.bound);
    ScanStartKeepsRows(s, t, Program(cfg, u.op, u.bound), snapshot, u');
  }

  lemma RemovalHit(cfg: Config, s: State, t: nat, stmt: Stmt, id: RowId, u': Txn)
    requires t in s.txns && s.txns[t].dels == s.txns[t].hits.Keys
    requires ScanRowStmt(cfg, s, t, stmt, id, u') && stmt.action.Remove?
    ensures u'.dels == u'.hits.Keys && u'.op == s.txns[t].op && u'.pc == s.txns[t].pc && u'.bound == s.txns[t].bound
    ensures u'.hits == s.txns[t].hits || u'.hits.Keys == s.txns[t].hits.Keys + {id}
    ensures forall i | i in s.txns[t].hits && i != id :: u'.hits[i] == s.txns[t].hits[i]
  {
  }

  lemma ScanRowKeepsRemovers(cfg: Config, s: State, t: nat, id: RowId, u': Txn)
    requires Runs(cfg, s, t) && ScanRowStmt(cfg, s, t, Current(cfg, s, t), id, u')
    requires RowsOk(cfg, s.db, s.txns[t]) && Removes(s.txns[t].op) && Valid(u'.op)
    ensures OpOk(cfg, s.db, u')
  {
    var u := s.txns[t];
    RemoversDoNotWrite(cfg, u.op, u.bound, u.pc);
    RemovalHit(cfg, s, t, Current(cfg, s, t), id, u');
    assert id !in u.hits;
    if u.op.RevokeConsent? && u.pc > 0 {
      ClaimIsFirst(cfg, u.op, u.bound, u.pc);
    }
  }

  /** After its claim a withdrawal never looks at the consent table again. */
  lemma ClaimIsFirst(cfg: Config, op: Operation, bound: Option<(string, string)>, i: nat)
    requires op.RevokeConsent? && 0 < i < |Program(cfg, op, bound)|
    ensures Program(cfg, op, bound)[i].Scan? ==> TableOf(Program(cfg, op, bound)[i].pred) != Consents
  {
  }

  lemma ScanRowKeepsRead(cfg: Config, s: State, t: nat, id: RowId, u': Txn)
    requires Runs(cfg, s, t) && ScanRowStmt(cfg, s, t, Current(cfg, s, t), id, u')
    requires s.txns[t].op.Rotate? || s.txns[t].op.SwapConsent?
    ensures u'.op == s.txns[t].op && u'.pc == ReadIndex(cfg, u'.op)
  {
    ReadIsTheOnlyScan(cfg, s.txns[t].op, s.txns[t].bound, s.txns[t].pc);
    ScanRowKeepsPlace(cfg, s, t, Current(cfg, s, t), id, u');
  }

  lemma ScanRowKeepsPlace(cfg: Config, s: State, t: nat, stmt: Stmt, id: RowId, u': Txn)
    requires t in s.txns && ScanRowStmt(cfg, s, t, stmt, id, u')
    ensures u'.op == s.txns[t].op && u'.pc == s.txns[t].pc && u'.bound == s.txns[t].bound
    ensures stmt.Scan? && id in s.txns[t].scan.value
  {
  }

  lemma ScanRowKeepsSwap(cfg: Config, s: State, t: nat, id: RowId, u': Txn)
    requires Runs(cfg, s, t) && ScanRowStmt(cfg, s, t, Current(cfg, s, t), id, u')
    requires s.txns[t].op.Swap? && RowsOk(cfg, s.db, s.txns[t])
    ensures u'.op == s.txns[t].op && SwapOk(u'.op, u')
  {
    var u := s.txns[t];
    SwapProgram(cfg, u.op, u.bound);
    ScanRowKeepsPlace(cfg, s, t, Current(cfg, s, t), id, u');
    SwapHitOk(cfg, s, t, id, u');
  }

  /** The operations that scan at all. */
  lemma ScanningOps(cfg: Config, op: Operation, bound: Option<(string, string)>, i: nat)
    requires Valid(op) && i < |Program(cfg, op, bound)| && Program(cfg, op, bound)[i].Scan?
    ensures !op.Put? && !op.Claim? && !op.PutGuarded?
  {
  }

  lemma ScanRowKeepsOpOk(cfg: Config, s: State, t: nat, id: RowId, u': Txn)
    requires Runs(cfg, s, t) && ScanRowStmt(cfg, s, t, Current(cfg, s, t), id, u')
    requires RowsOk(cfg, s.db, s.txns[t])
    ensures u'.op == s.txns[t].op && OpOk(cfg, s.db, u')
  {
    var op := s.txns[t].op;
    ScanRowKeepsPlace(cfg, s, t, Current(cfg, s, t), id, u');
    if op.Rotate? || op.SwapConsent? {
      ScanRowKeepsRead(cfg, s, t, id, u');
    } else if op.Swap? {
      ScanRowKeepsSwap(cfg, s, t, id, u');
    } else if Removes(op) {
      ScanRowKeepsRemovers(cfg, s, t, id, u');
    } else {
      ScanningOps(cfg, op, s.txns[t].bound, s.txns[t].pc);
    }
  }

  lemma SwapProgram(cfg: Config, op: Operation, bound: Option<(string, string)>)
    requires op.Swap? && Valid(op)
    ensures Program(cfg, op, bound)
              == [Scan(ByState(IdOf(op.updated), op.expected), LockRow, false), Update(op.updated)]
  {
  }

  lemma SwapHitOk(cfg: Config, s: State, t: nat, id: RowId, u': Txn)
    requires t in s.txns && s.txns[t].op.Swap? && Valid(s.txns[t].op) && SwapOk(s.txns[t].op, s.txns[t])
    requires var op := s.txns[t].op;
             ScanRowStmt(cfg, s, t, Scan(ByState(IdOf(op.updated), op.expected), LockRow, false), id, u')
    requires id !in s.txns[t].puts && id !in s.txns[t].hits && s.txns[t].pc == 0
    ensures SwapOk(u'.op, u')
  {
  }

  lemma ScanRowKeepsRowsOk(cfg: Config, s: State, t: nat, id: RowId, u': Txn)
    requires Runs(cfg, s, t) && ScanRowStmt(cfg, s, t, Current(cfg, s, t), id, u')
    requires RowsOk(cfg, s.db, s.txns[t])
    ensures RowsOk(cfg, s.db, u')
  {
    var u := s.txns[t];
    ScanRowKeepsRows(cfg, s, t, Program(cfg, u.op, u.bound), id, u');
    ScanRowKeepsPlace(cfg, s, t, Current(cfg, s, t), id, u');
    ScanRowKeepsOpOk(cfg, s, t, id, u');
  }

  lemma ScanEndKeepsOpOk(cfg: Config, s: State, t: nat, u': Txn)
    requires Runs(cfg, s, t) && ScanEndStmt(s.txns[t], u') && OpOk(cfg, s.db, s.txns[t]) && Current(cfg, s, t).Scan?
    requires s.txns[t].pc == 0 ==> s.txns[t].bound.None?
    ensures u'.outcome.Running? ==> OpOk(cfg, s.db, u')
  {
    if s.txns[t].op.Swap? { SwapProgram(cfg, s.txns[t].op, s.txns[t].bound); }
  }

  lemma ScanEndKeepsRowsOk(cfg: Config, s: State, t: nat, u': Txn)
    requires Runs(cfg, s, t) && ScanEndStmt(s.txns[t], u') && RowsOk(cfg, s.db, s.txns[t]) && Current(cfg, s, t).Scan?
    requires RunningOk(cfg, s.db, s.txns[t])
    ensures RowsOk(cfg, s.db, u')
  {
    var u := s.txns[t];
    if Proceeds(u.op, u.hits) {
      ProgramGrows(cfg, u);
      var prog, prog' := Program(cfg, u.op, u.bound), Program(cfg, u.op, Claimed(u));
      assert forall stmt | stmt in prog :: stmt in prog';
      ScanEndKeepsRows(prog, prog', s.db, u, Claimed(u));
    }
    ScanEndKeepsOpOk(cfg, s, t, u');
  }

  lemma PublishKeepsRowsOk(cfg: Config, db: Db, u: Txn, v: Txn)
    requires RowsOk(cfg, db, u) && u.rows !! v.rows && v.puts.Keys + v.dels <= v.rows
    ensures RowsOk(cfg, Published(db, v), u)
  {
    if u.outcome.Running? {
      PublishKeepsRows(Program(cfg, u.op, u.bound), db, u, v);
    }
  }

  lemma StepKeepsCommitInv(cfg: Config, s: State, e: Event, s': State)
    requires cfg.locking && CommitInv(cfg, s) && Step(cfg, s, e, s')
    ensures CommitInv(cfg, s')
  {
    StepKeepsInv(cfg, s, e, s');
    forall t | t in s'.txns ensures RowsOk(cfg, s'.db, s'.txns[t]) {
      if t == e.t {
        OwnStepKeepsRows(cfg, s, e, s');
      } else {
        assert RowsOk(cfg, s.db, s.txns[t]);
        if e.Publish? {
          assert RunningOk(cfg, s.db, s.txns[e.t]);
          PublishKeepsRowsOk(cfg, s.db, s.txns[t], s.txns[e.t]);
        }
      }
    }
  }

  lemma OwnStepKeepsRows(cfg: Config, s: State, e: Event, s': State)
    requires CommitInv(cfg, s) && Step(cfg, s, e, s')
    ensures RowsOk(cfg, s'.db, s'.txns[e.t])
  {
    if !e.Begin? { assert RowsOk(cfg, s.db, s.txns[e.t]) && RunningOk(cfg, s.db, s.txns[e.t]); }
    match e {
      case Begin(_, op) => StartedRowsOk(cfg, s.db, op);
      case Exec(t) => ExecKeepsRowsOk(cfg, s, t, s'.txns[t]);
      case ScanStart(t, snapshot) => ScanStartKeepsRowsOk(cfg, s, t, snapshot, s'.txns[t]);
      case ScanRow(t, id) => ScanRowKeepsRowsOk(cfg, s, t, id, s'.txns[t]);
      case ScanEnd(t) => ScanEndKeepsRowsOk(cfg, s, t, s'.txns[t]);
      case _ =>
    }
  }

  lemma StartedRowsOk(cfg: Config, db: Db, op: Operation)
    requires Valid(op)
    ensures RowsOk(cfg, db, Started(op))
  {
    assert Payloads(Started(op).puts) == map[];
  }

  lemma {:induction false} RunKeepsCommitInv(cfg: Config, states: seq<State>, events: seq<Event>, n: nat)
    requires cfg.locking && Run(cfg, states, events) && n < |states|
    ensures CommitInv(cfg, states[n])
  {
    if n == 0 {
      InitInv(cfg);
    } else {
      RunKeepsCommitInv(cfg, states, events, n - 1);
      assert StepAt(cfg, states, events, n - 1);
      StepKeepsCommitInv(cfg, states[n - 1], events[n - 1], states[n]);
    }
  }

  // ----- what a commit does to the committed records

  lemma AbsPublished(db: Db, u: Txn)
    ensures Abs(Published(db, u)) == (Abs(db) - u.dels) + Payloads(u.puts)
  {
  }

  predicate IsQuiet(stmt: Stmt) { !stmt.Upsert? && !stmt.RecordBarrier? }

  lemma {:induction false} EffectsAfterQuiet(db: Db, quiet: seq<Stmt>, rest: seq<Stmt>)
    requires forall stmt | stmt in quiet :: IsQuiet(stmt)
    ensures Effects(db, quiet + rest) == Effects(db, rest)
  {
    var all := quiet + rest;
    if rest != [] {
      var n := |rest| - 1;
      assert all[..|all| - 1] == quiet + rest[..n];
      EffectsAfterQuiet(db, quiet, rest[..n]);
    } else if quiet != [] {
      var n := |quiet| - 1;
      assert all[..n] == quiet[..n] + rest && all[n] in quiet;
      EffectsAfterQuiet(db, quiet[..n], rest);
    }
  }

  lemma {:induction false} EffectsBeforeQuiet(db: Db, first: seq<Stmt>, quiet: seq<Stmt>)
    requires forall stmt | stmt in quiet :: IsQuiet(stmt)
    ensures Effects(db, first + quiet) == Effects(db, first)
  {
    var all := first + quiet;
    if quiet == [] {
      assert all == first;
    } else {
      var n := |quiet| - 1;
      assert all[..|all| - 1] == first + quiet[..n] && all[|all| - 1] == quiet[n] && quiet[n] in quiet;
      EffectsBeforeQuiet(db, first, quiet[..n]);
    }
  }

  lemma EffectsOne(db: Db, stmt: Stmt)
    ensures Effects(db, [stmt]) == Effect(db, map[], stmt)
  {
    assert [stmt][..0] == [];
  }

  lemma GuardEffects(cfg: Config, db: Db, g: Guard, rest: seq<Stmt>)
    ensures Effects(db, GuardLocks(cfg, g) + [Check(g)] + rest) == Effects(db, rest)
  {
    EffectsAfterQuiet(db, GuardLocks(cfg, g) + [Check(g)], rest);
  }

  /** The committed records after a commit, for programs whose writes do not depend on what they hit. */
  lemma FinishedEffects(prog: seq<Stmt>, db: Db, u: Txn)
    requires RowInv(prog, db, u) && u.pc == |prog|
    requires forall stmt | stmt in prog :: IsPlain(stmt)
    ensures Abs(Published(db, u)) == (Abs(db) - u.dels) + Effects(db, prog)
    ensures (forall stmt | stmt in prog :: !IsRemoval(stmt)) ==> u.dels == {}
  {
    assert prog[..u.pc] == prog;
    AbsPublished(db, u);
    if forall stmt | stmt in prog :: !IsRemoval(stmt) { NothingRemoved(prog, db, u); }
  }

  /** What is known of a transaction that is ready to commit. */
  lemma Ready(cfg: Config, s: State, t: nat)
    requires CommitInv(cfg, s) && t in s.txns && Finished(cfg, s.txns[t])
    ensures var u := s.txns[t];
            && RowInv(Program(cfg, u.op, u.bound), s.db, u) && TxnInv(Program(cfg, u.op, u.bound), s.db, u)
            && OpOk(cfg, s.db, u) && ColumnsAgree(s.db)
  {
    assert RowsOk(cfg, s.db, s.txns[t]) && RunningOk(cfg, s.db, s.txns[t]);
  }

  /** A refusal check that has been passed still holds when the transaction commits. */
  lemma CheckStillHolds(cfg: Config, s: State, t: nat, g: Guard)
    requires Inv(cfg, s) && t in s.txns && Finished(cfg, s.txns[t])
    requires Check(g) in Program(cfg, s.txns[t].op, s.txns[t].bound)
    ensures !IsRevoked(Abs(s.db), g)
  {
    var u := s.txns[t];
    var prog := Program(cfg, u.op, u.bound);
    assert RunningOk(cfg, s.db, u);
    assert prog[..u.pc] == prog;
    assert Done(s.db, u.keys, u.dels, Check(g));
    CoversIsRevoked(s.db, g);
  }

  lemma GuardedProgramPlain(cfg: Config, g: Guard, rest: seq<Stmt>)
    requires forall stmt | stmt in rest :: IsPlain(stmt) && !IsRemoval(stmt)
    ensures forall stmt | stmt in GuardLocks(cfg, g) + [Check(g)] + rest :: IsPlain(stmt) && !IsRemoval(stmt)
    ensures Check(g) in GuardLocks(cfg, g) + [Check(g)] + rest
  {
    assert (GuardLocks(cfg, g) + [Check(g)] + rest)[|GuardLocks(cfg, g)|] == Check(g);
  }

  lemma GuardedCommit(cfg: Config, s: State, t: nat, g: Guard, rest: seq<Stmt>)
    requires CommitInv(cfg, s) && t in s.txns && Finished(cfg, s.txns[t])
    requires Program(cfg, s.txns[t].op, s.txns[t].bound) == GuardLocks(cfg, g) + [Check(g)] + rest
    requires forall stmt | stmt in rest :: IsPlain(stmt) && !IsRemoval(stmt)
    ensures !IsRevoked(Abs(s.db), g)
    ensures Abs(Published(s.db, s.txns[t])) == Abs(s.db) + Effects(s.db, rest)
  {
    GuardedProgramPlain(cfg, g, rest);
    CheckStillHolds(cfg, s, t, g);
    Ready(cfg, s, t);
    GuardedAbs(cfg, s.db, s.txns[t], g, rest);
  }

  lemma GuardedAbs(cfg: Config, db: Db, u: Txn, g: Guard, rest: seq<Stmt>)
    requires var prog := GuardLocks(cfg, g) + [Check(g)] + rest; RowInv(prog, db, u) && u.pc == |prog|
    requires forall stmt | stmt in rest :: IsPlain(stmt) && !IsRemoval(stmt)
    ensures Abs(Published(db, u)) == Abs(db) + Effects(db, rest)
  {
    GuardedProgramPlain(cfg, g, rest);
    FinishedEffects(GuardLocks(cfg, g) + [Check(g)] + rest, db, u);
    GuardEffects(cfg, db, g, rest);
    assert Abs(db) - {} == Abs(db);
  }

  lemma PutProgram(cfg: Config, r: Record, bound: Option<(string, string)>)
    requires IsGuarded(r)
    ensures Program(cfg, PutGuarded(r), bound) == GuardLocks(cfg, GuardOf(r)) + [Check(GuardOf(r))] + [Upsert(r)]
  {
  }

  function RotationWrites(op: Operation): (writes: seq<Stmt>)
    requires op.Rotate?
  {
    [Upsert(op.spent), Upsert(op.access)] + (if op.next.Some? then [Upsert(op.next.value)] else [])
  }

  function RotationRead(op: Operation): (scan: seq<Stmt>)
    requires op.Rotate?
  {
    [Scan(ByKey(IdOf(op.presented)), LockRow, false)]
  }

  lemma RotationProgram(cfg: Config, op: Operation, bound: Option<(string, string)>)
    requires op.Rotate? && Valid(op)
    ensures var g := GuardOf(op.presented);
            Program(cfg, op, bound) == GuardLocks(cfg, g) + [Check(g)] + (RotationRead(op) + RotationWrites(op))
  {
  }

  /** A guarded write that commits is not covered at that moment, and adds exactly its record. */
  lemma CommitPut(cfg: Config, s: State, t: nat, r: Record)
    requires CommitInv(cfg, s) && t in s.txns && s.txns[t].op == PutGuarded(r) && Finished(cfg, s.txns[t])
    ensures !IsRevoked(Abs(s.db), GuardOf(r))
    ensures Abs(Published(s.db, s.txns[t])) == AfterPut(Abs(s.db), r)
  {
    PutProgram(cfg, r, s.txns[t].bound);
    PutEffects(s.db, r);
    GuardedCommit(cfg, s, t, GuardOf(r), [Upsert(r)]);
  }

  lemma PutEffects(db: Db, r: Record)
    ensures Abs(db) + Effects(db, [Upsert(r)]) == Abs(db)[IdOf(r) := r]
    ensures forall stmt | stmt in [Upsert(r)] :: IsPlain(stmt) && !IsRemoval(stmt)
  {
    EffectsOne(db, Upsert(r));
  }

  lemma ReadProceeded(cfg: Config, s: State, t: nat)
    requires CommitInv(cfg, s) && t in s.txns && Finished(cfg, s.txns[t])
    requires s.txns[t].op.Rotate? || s.txns[t].op.SwapConsent?
    ensures Proceeds(s.txns[t].op, s.txns[t].hits) && HitsCurrent(s.db, s.txns[t].hits)
  {
    assert RowsOk(cfg, s.db, s.txns[t]);
  }

  /** A rotation commits only over exactly the record it was computed from, and writes all or nothing. */
  lemma CommitRotate(cfg: Config, s: State, t: nat, op: Operation)
    requires CommitInv(cfg, s) && t in s.txns && s.txns[t].op == op && op.Rotate? && Finished(cfg, s.txns[t])
    ensures Stored(s.db, IdOf(op.presented)) == Some(op.presented)
    ensures !IsRevoked(Abs(s.db), GuardOf(op.presented))
    ensures Abs(Published(s.db, s.txns[t]))
         == AfterRotate(Abs(s.db), op.presented, op.spent, op.access, op.next)
  {
    RotationProgram(cfg, op, s.txns[t].bound);
    RotationPlain(op);
    GuardedCommit(cfg, s, t, GuardOf(op.presented), RotationRead(op) + RotationWrites(op));
    EffectsAfterQuiet(s.db, RotationRead(op), RotationWrites(op));
    RotationEffects(s.db, op.spent, op.access, op.next);
    ReadProceeded(cfg, s, t);
  }

  lemma RotationPlain(op: Operation)
    requires op.Rotate?
    ensures forall stmt | stmt in RotationRead(op) + RotationWrites(op) :: IsPlain(stmt) && !IsRemoval(stmt)
    ensures forall stmt | stmt in RotationRead(op) :: IsQuiet(stmt)
  {
  }

  lemma RotationEffects(db: Db, sp: Record, a: Record, n: Option<Record>)
    requires sp.RefreshToken? && a.AccessToken?
    ensures var writes := [Upsert(sp), Upsert(a)] + (if n.Some? then [Upsert(n.value)] else []);
            Abs(db) + Effects(db, writes) == Rotated(Abs(db), sp, a, n)
  {
    var two := [Upsert(sp), Upsert(a)];
    EffectsOne(db, Upsert(sp));
    EffectsSnoc(db, two, 1);
    assert two[..1] == [Upsert(sp)] && two[..2] == two;
    if n.Some? {
      var three := two + [Upsert(n.value)];
      EffectsSnoc(db, three, 2);
      assert three[..2] == two && three[..3] == three;
    } else {
      assert two + [] == two;
    }
  }

  // ----- revocations

  /** What a finished revocation has gathered: its barrier, merged into the one committed now; every
  committed row of its scope in the guarded tables; and nothing its statements do not select. */
  ghost predicate Revokes(db: Db, u: Txn, scope: Scope, w: Window, stmts: seq<Stmt>) {
    && NonEmpty(scope)
    && Payloads(u.puts) == map[BarrierId(scope) := Merge(Stored(db, BarrierId(scope)), scope, w)]
    && (forall id | id in db && IsGuarded(db[id].payload) && InScope(scope, GuardOf(db[id].payload)) :: id in u.dels)
    && (forall id | id in u.dels :: id in db && RemovedBy(stmts, id, db[id]))
  }

  lemma RevocationEffects(cfg: Config, db: Db, claim: seq<Stmt>, scope: Scope, w: Window, removals: seq<Stmt>)
    requires forall stmt | stmt in claim || stmt in removals :: IsRemoval(stmt)
    ensures Effects(db, claim + Revocation(cfg, scope, w, removals))
         == map[BarrierId(scope) := Merge(Stored(db, BarrierId(scope)), scope, w)]
    ensures forall stmt | stmt in claim + Revocation(cfg, scope, w, removals) :: IsPlain(stmt)
  {
    var head := claim + ExclusiveLock(cfg, KeyOf(scope));
    var prog := claim + Revocation(cfg, scope, w, removals);
    assert prog == (head + [RecordBarrier(scope, w)]) + removals;
    EffectsBeforeQuiet(db, head + [RecordBarrier(scope, w)], removals);
    EffectsAfterQuiet(db, head, [RecordBarrier(scope, w)]);
    EffectsOne(db, RecordBarrier(scope, w));
  }

  lemma RevocationRecorded(prog: seq<Stmt>, db: Db, u: Txn, scope: Scope, w: Window)
    requires TxnInv(prog, db, u) && RowInv(prog, db, u) && u.pc == |prog|
    requires Effects(db, prog) == map[BarrierId(scope) := Merge(Stored(db, BarrierId(scope)), scope, w)]
    requires forall stmt | stmt in prog :: IsPlain(stmt)
    ensures NonEmpty(scope)
    ensures Payloads(u.puts) == map[BarrierId(scope) := Merge(Stored(db, BarrierId(scope)), scope, w)]
  {
    assert prog[..u.pc] == prog;
    assert BarrierId(scope) in Payloads(u.puts);
    assert PutOk(prog, BarrierId(scope), u.puts[BarrierId(scope)]);
  }

  lemma RevocationSelected(prog: seq<Stmt>, db: Db, u: Txn, stmts: seq<Stmt>)
    requires RowInv(prog, db, u) && u.pc == |prog|
    requires forall stmt | stmt in prog && IsRemoval(stmt) :: stmt in stmts
    ensures forall id | id in u.dels :: id in db && RemovedBy(stmts, id, db[id])
  {
    assert prog[..Reach(u)] == prog;
    forall id | id in u.dels ensures id in db && RemovedBy(stmts, id, db[id]) {
      assert RemovedBy(prog, id, u.hits[id]);
    }
  }

  lemma RevocationShape(cfg: Config, claim: seq<Stmt>, scope: Scope, w: Window, removals: seq<Stmt>)
    ensures var prog := claim + Revocation(cfg, scope, w, removals);
            && RecordBarrier(scope, w) in prog
            && forall stmt | stmt in prog && IsRemoval(stmt) :: stmt in claim + removals
  {
    var prog := claim + Revocation(cfg, scope, w, removals);
    assert prog[|claim| + |ExclusiveLock(cfg, KeyOf(scope))|] == RecordBarrier(scope, w);
  }

  lemma RevocationGathered(cfg: Config, prog: seq<Stmt>, db: Db, u: Txn,
                           claim: seq<Stmt>, scope: Scope, w: Window, removals: seq<Stmt>)
    requires Disciplined(prog) && TxnInv(prog, db, u) && RowInv(prog, db, u) && u.pc == |prog| && ColumnsAgree(db)
    requires prog == claim + Revocation(cfg, scope, w, removals)
    requires forall stmt | stmt in claim || stmt in removals :: IsRemoval(stmt)
    ensures Revokes(db, u, scope, w, claim + removals)
  {
    RevocationEffects(cfg, db, claim, scope, w, removals);
    RevocationRecorded(prog, db, u, scope, w);
    RevocationShape(cfg, claim, scope, w, removals);
    RevocationSelected(prog, db, u, claim + removals);
    forall id | id in db && IsGuarded(db[id].payload) && InScope(scope, GuardOf(db[id].payload))
      ensures id in u.dels
    {
      RecordedIsRemoved(prog, db, u, scope, w, id);
    }
  }

  lemma RevocationCommit(cfg: Config, s: State, t: nat, claim: seq<Stmt>, scope: Scope, w: Window, removals: seq<Stmt>)
    requires cfg.locking && CommitInv(cfg, s) && t in s.txns && Finished(cfg, s.txns[t])
    requires Program(cfg, s.txns[t].op, s.txns[t].bound) == claim + Revocation(cfg, scope, w, removals)
    requires forall stmt | stmt in claim || stmt in removals :: IsRemoval(stmt)
    ensures Revokes(s.db, s.txns[t], scope, w, claim + removals)
  {
    var u := s.txns[t];
    assert RowsOk(cfg, s.db, u) && RunningOk(cfg, s.db, u);
    ProgramDisciplined(cfg, u.op, u.bound);
    RevocationGathered(cfg, Program(cfg, u.op, u.bound), s.db, u, claim, scope, w, removals);
  }

  /** The revocation of a family commits as one step: its rows and no others leave, in both tables, its
  barrier is merged, and the number of rows it removed is the number of records of the family. */
  lemma CommitRevokeFamily(cfg: Config, s: State, t: nat, f: string, w: Window)
    requires cfg.locking && CommitInv(cfg, s) && t in s.txns && Finished(cfg, s.txns[t])
    requires s.txns[t].op == RevokeFamily(f, w)
    ensures Abs(Published(s.db, s.txns[t])) == AfterRevokeFamily(Abs(s.db), f, w)
    ensures s.txns[t].dels == set id | id in s.db && OfFamily(s.db[id].payload, f)
  {
    var u := s.txns[t];
    FamilyProgram(cfg, f, w, u.bound);
    RevocationCommit(cfg, s, t, [], FamilyScope(f), w, FamilyRemovals(f));
    FamilyRowsExact(s.db, u, f, w);
    FamilyAbs(s.db, u, f, w);
  }

  lemma FamilyProgram(cfg: Config, f: string, w: Window, bound: Option<(string, string)>)
    ensures Program(cfg, RevokeFamily(f, w), bound) == [] + Revocation(cfg, FamilyScope(f), w, FamilyRemovals(f))
    ensures forall stmt | stmt in FamilyRemovals(f) :: IsRemoval(stmt)
  {
  }

  lemma FamilyAbs(db: Db, u: Txn, f: string, w: Window)
    requires Revokes(db, u, FamilyScope(f), w, [] + FamilyRemovals(f))
    requires forall id :: id in u.dels <==> id in db && OfFamily(db[id].payload, f)
    ensures Abs(Published(db, u)) == AfterRevokeFamily(Abs(db), f, w)
  {
    AbsPublished(db, u);
    var id, store := BarrierId(FamilyScope(f)), Abs(db);
    assert Recorded(store, FamilyScope(f), w)[id] == Merge(Stored(db, id), FamilyScope(f), w);
  }

  lemma FamilyRowsExact(db: Db, u: Txn, f: string, w: Window)
    requires ColumnsAgree(db) && Revokes(db, u, FamilyScope(f), w, [] + FamilyRemovals(f))
    ensures forall id :: id in u.dels <==> id in db && OfFamily(db[id].payload, f)
  {
    forall id ensures id in u.dels <==> id in db && OfFamily(db[id].payload, f) {
      if id in u.dels {
        assert RemovedBy([] + FamilyRemovals(f), id, db[id]);
      }
    }
  }

  /** The tables whose writes consult the barriers, and the barriers themselves. */
  predicate Protected(id: RowId) {
    id.Table() in {AccessTokens, RefreshTokens, PushedRequests, Barriers}
  }

  function ProtectedPart(store: Store): (part: Store) { map id | id in store && Protected(id) :: store[id] }

  /** `small` holds nothing that `large` does not hold. */
  ghost predicate Within(small: Store, large: Store) {
    forall id | id in small :: id in large && small[id] == large[id]
  }

  lemma RecordedAbs(db: Db, scope: Scope, w: Window)
    ensures Recorded(Abs(db), scope, w) == Abs(db)[BarrierId(scope) := Merge(Stored(db, BarrierId(scope)), scope, w)]
  {
  }

  /** What a committed revocation leaves: the store with the barrier, minus the removed rows. */
  lemma RevocationAbs(db: Db, u: Txn, scope: Scope, w: Window, stmts: seq<Stmt>)
    requires Revokes(db, u, scope, w, stmts)
    requires forall id | id in u.dels :: id.Table() != Barriers
    ensures Abs(Published(db, u)) == Recorded(Abs(db), scope, w) - u.dels
  {
    AbsPublished(db, u);
    RecordedAbs(db, scope, w);
  }

  /** Deleting a client commits as one step on the guarded tables and the barriers. In the other tables
  it takes away only what belongs to the client; a row inserted there while it ran may remain. */
  lemma CommitDeleteClient(cfg: Config, s: State, t: nat, c: string, w: Window)
    requires cfg.locking && CommitInv(cfg, s) && t in s.txns && Finished(cfg, s.txns[t])
    requires s.txns[t].op == DeleteClient(c, w)
    ensures var store, after := Abs(s.db), Abs(Published(s.db, s.txns[t]));
            && ProtectedPart(after) == ProtectedPart(AfterDeleteClient(store, c, w))
            && Within(AfterDeleteClient(store, c, w), after)
            && Within(after, Recorded(store, ClientScope(c), w))
  {
    var u := s.txns[t];
    DeletionProgram(cfg, c, w, u.bound);
    RevocationCommit(cfg, s, t, [], ClientScope(c), w, ClientRemovals(c));
    ClientRowsExact(s.db, u, c, w);
    ClientAbs(s.db, u, c, w);
  }

  lemma ClientAbs(db: Db, u: Txn, c: string, w: Window)
    requires Revokes(db, u, ClientScope(c), w, [] + ClientRemovals(c)) && ColumnsAgree(db)
    requires forall id | id in u.dels :: id in db && OfClient(db[id].payload, c)
    requires forall id | id in db && Protected(id) && OfClient(db[id].payload, c) :: id in u.dels
    ensures var store, after := Abs(db), Abs(Published(db, u));
            && ProtectedPart(after) == ProtectedPart(AfterDeleteClient(store, c, w))
            && Within(AfterDeleteClient(store, c, w), after)
            && Within(after, Recorded(store, ClientScope(c), w))
  {
    var base := Recorded(Abs(db), ClientScope(c), w);
    var gone := set id | id in base && OfClient(base[id], c);
    ClientGone(db, u.dels, c, w);
    RevocationAbs(db, u, ClientScope(c), w, [] + ClientRemovals(c));
    assert WithoutClient(base, c) == base - gone;
    Sandwich(base, u.dels, gone);
  }

  lemma ClientGone(db: Db, dels: set<RowId>, c: string, w: Window)
    requires ColumnsAgree(db)
    requires forall id | id in dels :: id in db && OfClient(db[id].payload, c)
    requires forall id | id in db && Protected(id) && OfClient(db[id].payload, c) :: id in dels
    ensures var base := Recorded(Abs(db), ClientScope(c), w);
            var gone := set id | id in base && OfClient(base[id], c);
            && dels <= gone && (forall id | id in gone && Protected(id) :: id in dels)
            && forall id | id in dels :: id.Table() != Barriers
  {
    RecordedAbs(db, ClientScope(c), w);
    forall id | id in dels ensures id.Table() != Barriers { assert IdOf(db[id].payload) == id; }
  }

  /** Removing fewer rows than the specification, but all of its protected ones. */
  lemma Sandwich(base: Store, dels: set<RowId>, gone: set<RowId>)
    requires dels <= gone && forall id | id in gone && Protected(id) :: id in dels
    ensures ProtectedPart(base - dels) == ProtectedPart(base - gone)
    ensures Within(base - gone, base - dels) && Within(base - dels, base)
  {
  }

  lemma DeletionProgram(cfg: Config, c: string, w: Window, bound: Option<(string, string)>)
    ensures Program(cfg, DeleteClient(c, w), bound) == [] + Revocation(cfg, ClientScope(c), w, ClientRemovals(c))
    ensures forall stmt | stmt in ClientRemovals(c) :: IsRemoval(stmt)
  {
  }

  lemma ClientRemovalRow(stmt: Stmt, id: RowId, row: Row, c: string)
    requires stmt in ClientRemovals(c) && Matches(stmt.pred, id, row)
    requires IdOf(row.payload) == id && row.cols == Project(row.payload)
    ensures OfClient(row.payload, c)
  {
  }

  lemma ClientRowsExact(db: Db, u: Txn, c: string, w: Window)
    requires ColumnsAgree(db) && Revokes(db, u, ClientScope(c), w, [] + ClientRemovals(c))
    ensures forall id | id in u.dels :: id in db && OfClient(db[id].payload, c)
    ensures forall id | id in db && Protected(id) && OfClient(db[id].payload, c) :: id in u.dels
  {
    forall id | id in u.dels ensures id in db && OfClient(db[id].payload, c) {
      assert RemovedBy([] + ClientRemovals(c), id, db[id]);
      var stmt :| stmt in [] + ClientRemovals(c) && Matches(stmt.pred, id, db[id]);
      ClientRemovalRow(stmt, id, db[id], c);
    }
    forall id | id in db && Protected(id) && OfClient(db[id].payload, c) ensures id in u.dels {
      assert IsGuarded(db[id].payload) && InScope(ClientScope(c), GuardOf(db[id].payload));
    }
  }

  /** A withdrawal that claimed its consent commits as one step on the guarded tables and the barriers,
  for the pair its consent names at that moment; one that found nothing changes nothing. */
  lemma CommitRevokeConsent(cfg: Config, s: State, t: nat, id: string, w: Window)
    requires cfg.locking && CommitInv(cfg, s) && t in s.txns && Finished(cfg, s.txns[t])
    requires s.txns[t].op == RevokeConsent(id, w)
    ensures var u, key, store, after := s.txns[t], Keyed(Consents, id), Abs(s.db), Abs(Published(s.db, s.txns[t]));
            if u.bound.None? then after == store
            else
              && key in store && store[key].Consent?
              && (var scope := ConsentScope(store[key].client, store[key].subjectId);
                  && ProtectedPart(after) == ProtectedPart(AfterRevokeConsent(store, id, w))
                  && Within(AfterRevokeConsent(store, id, w), after)
                  && Within(after, Recorded(store - {key}, scope, w)))
  {
    var u := s.txns[t];
    assert RowsOk(cfg, s.db, u);
    if u.bound.None? {
      Ready(cfg, s, t);
      EmptyWithdrawal(cfg, s.db, u, id, w);
    } else {
      var (c, sub) := u.bound.value;
      var key := Keyed(Consents, id);
      assert s.db[key] == u.hits[key];
      WithdrawalProgram(cfg, id, w, c, sub);
      RevocationCommit(cfg, s, t, [Deletion(ByKey(key))], ConsentScope(c, sub), w, PairRemovals(c, sub));
      PairRowsExact(s.db, u, key, c, sub, w);
      PairAbs(s.db, u, id, c, sub, w);
    }
  }

  lemma PairAbs(db: Db, u: Txn, id: string, c: string, s: string, w: Window)
    requires var key := Keyed(Consents, id);
             && Revokes(db, u, ConsentScope(c, s), w, [Deletion(ByKey(key))] + PairRemovals(c, s)) && ColumnsAgree(db)
             && key in u.dels && key in db && PairOf(db[key]) == (c, s)
             && (forall i | i in u.dels :: i in db && (i == key || OfPair(db[i].payload, c, s)))
             && (forall i | i in db && Protected(i) && OfPair(db[i].payload, c, s) :: i in u.dels)
    ensures var key, store, after := Keyed(Consents, id), Abs(db), Abs(Published(db, u));
            && store[key].Consent? && (store[key].client, store[key].subjectId) == (c, s)
            && ProtectedPart(after) == ProtectedPart(AfterRevokeConsent(store, id, w))
            && Within(AfterRevokeConsent(store, id, w), after)
            && Within(after, Recorded(store - {key}, ConsentScope(c, s), w))
  {
    var key := Keyed(Consents, id);
    var base := Recorded(Abs(db) - {key}, ConsentScope(c, s), w);
    var gone := set i | i in base && OfPair(base[i], c, s);
    ClaimedConsent(db, id, c, s, w);
    PairGone(db, u.dels, key, c, s, w);
    RevocationAbs(db, u, ConsentScope(c, s), w, [Deletion(ByKey(key))] + PairRemovals(c, s));
    PairWithout(base, c, s);
    ClaimApart(Recorded(Abs(db), ConsentScope(c, s), w), u.dels, key);
    Sandwich(base, u.dels - {key}, gone);
  }

  lemma PairWithout(base: Store, c: string, s: string)
    ensures WithoutPair(base, c, s) == base - set i | i in base && OfPair(base[i], c, s)
  {
  }

  lemma ClaimApart(full: Store, dels: set<RowId>, key: RowId)
    requires key in dels
    ensures full - dels == full - {key} - (dels - {key})
  {
  }

  lemma ClaimedConsent(db: Db, id: string, c: string, s: string, w: Window)
    requires ColumnsAgree(db) && NonEmpty(ConsentScope(c, s))
    requires Keyed(Consents, id) in db && PairOf(db[Keyed(Consents, id)]) == (c, s)
    ensures var key, store := Keyed(Consents, id), Abs(db);
            && store[key].Consent? && (store[key].client, store[key].subjectId) == (c, s)
            && AfterRevokeConsent(store, id, w) == WithoutPair(Recorded(store - {key}, ConsentScope(c, s), w), c, s)
  {
  }

  lemma PairGone(db: Db, dels: set<RowId>, key: RowId, c: string, s: string, w: Window)
    requires ColumnsAgree(db) && key in dels && key.Table() == Consents
    requires forall i | i in dels :: i in db && (i == key || OfPair(db[i].payload, c, s))
    requires forall i | i in db && Protected(i) && OfPair(db[i].payload, c, s) :: i in dels
    ensures var base := Recorded(Abs(db) - {key}, ConsentScope(c, s), w);
            var gone := set i | i in base && OfPair(base[i], c, s);
            && base == Recorded(Abs(db), ConsentScope(c, s), w) - {key}
            && dels - {key} <= gone && (forall i | i in gone && Protected(i) :: i in dels)
            && forall i | i in dels :: i.Table() != Barriers
  {
    RecordedAbs(db, ConsentScope(c, s), w);
    forall i | i in dels ensures i.Table() != Barriers { assert IdOf(db[i].payload) == i; }
  }

  lemma WithdrawalProgram(cfg: Config, id: string, w: Window, c: string, s: string)
    ensures var claim := [Deletion(ByKey(Keyed(Consents, id)))];
            && Program(cfg, RevokeConsent(id, w), Some((c, s)))
               == claim + Revocation(cfg, ConsentScope(c, s), w, PairRemovals(c, s))
            && forall stmt | stmt in claim || stmt in PairRemovals(c, s) :: IsRemoval(stmt)
  {
  }

  lemma PairRowsExact(db: Db, u: Txn, key: RowId, c: string, s: string, w: Window)
    requires ColumnsAgree(db)
    requires Revokes(db, u, ConsentScope(c, s), w, [Deletion(ByKey(key))] + PairRemovals(c, s))
    ensures forall id | id in u.dels :: id in db && (id == key || OfPair(db[id].payload, c, s))
    ensures forall id | id in db && Protected(id) && OfPair(db[id].payload, c, s) :: id in u.dels
  {
    forall id | id in u.dels ensures id in db && (id == key || OfPair(db[id].payload, c, s)) {
      assert RemovedBy([Deletion(ByKey(key))] + PairRemovals(c, s), id, db[id]);
    }
  }

  lemma EmptyWithdrawal(cfg: Config, db: Db, u: Txn, id: string, w: Window)
    requires u.op == RevokeConsent(id, w) && u.bound.None? && u.pc == 1 && OpOk(cfg, db, u)
    requires RowInv([Deletion(ByKey(Keyed(Consents, id)))], db, u)
    ensures Abs(Published(db, u)) == Abs(db)
  {
    var prog := [Deletion(ByKey(Keyed(Consents, id)))];
    FinishedEffects(prog, db, u);
    EffectsOne(db, prog[0]);
    KeyRemoves(prog, db, u, Keyed(Consents, id));
    assert Abs(db) - {} == Abs(db);
  }

  // ----- the removals of a revocation select exactly the records of its scope

  lemma RemovedPair(id: RowId, row: Row, c: string, s: string)
    requires IdOf(row.payload) == id && row.cols == Project(row.payload)
    ensures RemovedBy(PairRemovals(c, s), id, row) <==> OfPair(row.payload, c, s)
  {
    if OfPair(row.payload, c, s) { assert Deletion(ByPair(id.Table(), c, s)) in PairRemovals(c, s); }
  }

  lemma RemovedFamily(id: RowId, row: Row, f: string)
    requires IdOf(row.payload) == id && row.cols == Project(row.payload)
    ensures RemovedBy(FamilyRemovals(f), id, row) <==> OfFamily(row.payload, f)
  {
    if OfFamily(row.payload, f) { assert Deletion(ByFamily(id.Table(), f)) in FamilyRemovals(f); }
  }

  lemma RemovedClient(id: RowId, row: Row, c: string)
    requires IdOf(row.payload) == id && row.cols == Project(row.payload)
    ensures RemovedBy(ClientRemovals(c), id, row) <==> OfClient(row.payload, c)
  {
    if row.payload.Client? {
      if OfClient(row.payload, c) { assert Deletion(ByKey(id)) in ClientRemovals(c); }
    } else if OfClient(row.payload, c) {
      assert Deletion(ByClient(id.Table(), c)) in ClientRemovals(c);
    }
  }

  // ----- single statements

  /** A swap that was applied found what it expected in the committed record; otherwise it changes
  nothing. Applied or not, it never creates a record. */
  lemma CommitSwap(cfg: Config, s: State, t: nat, e: Expected, r: Record)
    requires CommitInv(cfg, s) && t in s.txns && Finished(cfg, s.txns[t]) && s.txns[t].op == Swap(e, r)
    ensures var store, after := Abs(s.db), Abs(Published(s.db, s.txns[t]));
            if s.txns[t].hits == map[] then after == store
            else IdOf(r) in store && HasExpected(store[IdOf(r)], e) && after == AfterSwap(store, e, r)
  {
    var u := s.txns[t];
    assert RowsOk(cfg, s.db, u);
    SwapAbs(s.db, u, e, r);
  }

  lemma SwapAbs(db: Db, u: Txn, e: Expected, r: Record)
    requires SwapOk(Swap(e, r), u) && HitsCurrent(db, u.hits) && u.pc == 2
    ensures if u.hits == map[] then Abs(Published(db, u)) == Abs(db)
            else && IdOf(r) in db && HasExpected(db[IdOf(r)].payload, e)
                 && Abs(Published(db, u)) == AfterSwap(Abs(db), e, r)
  {
    AbsPublished(db, u);
    if u.hits != map[] {
      var id :| id in u.hits;
      assert Payloads(u.puts) == map[IdOf(r) := r];
    }
  }

  /** A take that returned a record returned the committed one and removed exactly that. */
  lemma CommitTake(cfg: Config, s: State, t: nat, id: RowId)
    requires CommitInv(cfg, s) && t in s.txns && Finished(cfg, s.txns[t]) && s.txns[t].op == Take(id)
    ensures var u, store, after := s.txns[t], Abs(s.db), Abs(Published(s.db, s.txns[t]));
            if id in u.hits then id in store && u.hits[id].payload == store[id] && after == store - {id}
            else after == store
  {
    Ready(cfg, s, t);
    TakeAbs(s.db, s.txns[t], id);
  }

  lemma TakeAbs(db: Db, u: Txn, id: RowId)
    requires RowInv([Deletion(ByKey(id))], db, u) && u.pc == 1 && u.dels == u.hits.Keys
    ensures if id in u.hits then id in db && u.hits[id] == db[id] && Abs(Published(db, u)) == Abs(db) - {id}
            else Abs(Published(db, u)) == Abs(db)
  {
    var prog := [Deletion(ByKey(id))];
    FinishedEffects(prog, db, u);
    EffectsOne(db, prog[0]);
    KeyRemoves(prog, db, u, id);
    assert Abs(db) - {} == Abs(db);
  }

  lemma KeyRemoves(prog: seq<Stmt>, db: Db, u: Txn, id: RowId)
    requires prog == [Deletion(ByKey(id))] && RowInv(prog, db, u) && u.pc == 1 && u.dels == u.hits.Keys
    ensures u.dels == if id in u.hits then {id} else {}
  {
    assert prog[..Reach(u)] == prog;
    forall i | i in u.dels ensures i == id {
      assert RemovedBy(prog, i, u.hits[i]);
    }
  }

  /** A claim that was granted found the identifier absent. */
  lemma CommitClaim(cfg: Config, s: State, t: nat, r: Record)
    requires CommitInv(cfg, s) && t in s.txns && Finished(cfg, s.txns[t]) && s.txns[t].op == Claim(r)
    ensures var u, store, after := s.txns[t], Abs(s.db), Abs(Published(s.db, s.txns[t]));
            if u.puts == map[] then after == store
            else IdOf(r) !in store && after == AfterClaim(store, r)
  {
    Ready(cfg, s, t);
    ClaimAbs(s.db, s.txns[t], r);
  }

  lemma ClaimAbs(db: Db, u: Txn, r: Record)
    requires ClaimOk(db, Claim(r), u)
    ensures if u.puts == map[] then Abs(Published(db, u)) == Abs(db)
            else IdOf(r) !in db && Abs(Published(db, u)) == AfterClaim(Abs(db), r)
  {
    AbsPublished(db, u);
  }

  /** A consent swap that expected a record commits over exactly that record; either way it writes its
  own record and nothing else. */
  lemma CommitSwapConsent(cfg: Config, s: State, t: nat, e: Option<Record>, r: Record)
    requires CommitInv(cfg, s) && t in s.txns && Finished(cfg, s.txns[t]) && s.txns[t].op == SwapConsent(e, r)
    ensures e.Some? ==> Stored(s.db, IdOf(e.value)) == e
    ensures Abs(Published(s.db, s.txns[t])) == Abs(s.db)[IdOf(r) := r]
  {
    ConsentProgram(cfg, e, r, s.txns[t].bound);
    Ready(cfg, s, t);
    ConsentAbs(cfg, s.db, s.txns[t], r);
    ReadProceeded(cfg, s, t);
  }

  lemma ConsentAbs(cfg: Config, db: Db, u: Txn, r: Record)
    requires r.Consent? && RowInv(ConsentHead(cfg, r) + [Upsert(r)], db, u)
    requires u.pc == |ConsentHead(cfg, r) + [Upsert(r)]|
    ensures Abs(Published(db, u)) == Abs(db)[IdOf(r) := r]
  {
    FinishedEffects(ConsentHead(cfg, r) + [Upsert(r)], db, u);
    EffectsAfterQuiet(db, ConsentHead(cfg, r), [Upsert(r)]);
    PutEffects(db, r);
    assert Abs(db) - {} == Abs(db);
  }

  function ConsentHead(cfg: Config, r: Record): (head: seq<Stmt>)
    requires r.Consent?
  {
    ExclusiveLock(cfg, CasKey(r.client, r.subjectId))
      + [Scan(ByPair(Consents, r.client, r.subjectId), LockNewest, false)]
  }

  lemma ConsentProgram(cfg: Config, e: Option<Record>, r: Record, bound: Option<(string, string)>)
    requires Valid(SwapConsent(e, r))
    ensures Program(cfg, SwapConsent(e, r), bound) == ConsentHead(cfg, r) + [Upsert(r)]
    ensures forall stmt | stmt in ConsentHead(cfg, r) :: IsQuiet(stmt) && IsPlain(stmt) && !IsRemoval(stmt)
  {
  }

  /** One batch of a sweep removes only committed records that have expired by the cutoff. */
  lemma CommitSweep(cfg: Config, s: State, t: nat, table: Table, n: Nanos)
    requires CommitInv(cfg, s) && t in s.txns && Finished(cfg, s.txns[t]) && s.txns[t].op == SweepBatch(table, n)
    ensures Abs(Published(s.db, s.txns[t])) == Abs(s.db) - s.txns[t].dels
    ensures forall id | id in s.txns[t].dels :: id in s.db && id.Table() == table && ExpiredBy(s.db[id].payload, n)
  {
    Ready(cfg, s, t);
    SweepAbs(s.db, s.txns[t], table, n);
  }

  lemma SweepAbs(db: Db, u: Txn, table: Table, n: Nanos)
    requires RowInv([Scan(Expired(table, n), Remove, true)], db, u) && u.pc == 1 && ColumnsAgree(db)
    ensures Abs(Published(db, u)) == Abs(db) - u.dels
    ensures forall id | id in u.dels :: id in db && id.Table() == table && ExpiredBy(db[id].payload, n)
  {
    var prog := [Scan(Expired(table, n), Remove, true)];
    FinishedEffects(prog, db, u);
    EffectsOne(db, prog[0]);
    SweptRows(prog, db, u, table, n);
  }

  /** The expiry the record itself states; a refresh token without a lifetime never expires. */
  predicate ExpiredBy(r: Record, n: Nanos) {
    match r
    case AccessToken(_, _, _, _, _, at, _) => ToNanos(at) <= n
    case RefreshToken(_, _, _, _, _, at, _, _) => at.Some? && ToNanos(at.value) <= n
    case Code(_, _, _, at, _, _) => ToNanos(at) <= n
    case DeviceGrant(_, _, _, at, _, _) => ToNanos(at) <= n
    case PushedRequest(_, _, _, at, _) => ToNanos(at) <= n
    case ReplayId(_, at) => ToNanos(at) <= n
    case Barrier(_, until, _) => until <= n
    case _ => false
  }

  lemma SweptRows(prog: seq<Stmt>, db: Db, u: Txn, table: Table, n: Nanos)
    requires prog == [Scan(Expired(table, n), Remove, true)] && RowInv(prog, db, u) && u.pc == 1
    requires ColumnsAgree(db)
    ensures forall id | id in u.dels :: id in db && id.Table() == table && ExpiredBy(db[id].payload, n)
  {
    assert prog[..Reach(u)] == prog;
    forall id | id in u.dels ensures id in db && id.Table() == table && ExpiredBy(db[id].payload, n) {
      assert RemovedBy(prog, id, u.hits[id]);
    }
  }
}
