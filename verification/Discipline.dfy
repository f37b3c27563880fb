/** What the programs of the store have in common.

The safety argument does not look at operations one by one. It uses only the discipline below, which
every program obeys: a guarded write comes after its refusal check, a refusal check after the shared
locks of every identity the record can be revoked by, a barrier after the exclusive lock of its scope,
and a barrier is always followed by the removals of that scope. */
module Discipline {
  import opened Options
  import opened Records
  import opened Protocol

  /** The scope a cascading removal from a guarded table belongs to. */
  function ScopeOf(p: Pred): (scope: Option<Scope>) {
    match p
    case ByClient(t, c) =>
      if t in {AccessTokens, RefreshTokens, PushedRequests} then Some(ClientScope(c)) else None
    case ByFamily(t, f) => if t in {AccessTokens, RefreshTokens} then Some(FamilyScope(f)) else None
    case ByPair(t, c, s) =>
      if t in {AccessTokens, RefreshTokens} then Some(ConsentScope(c, s)) else None
    case _ => None
  }

  predicate IsCascade(stmt: Stmt) {
    stmt.Scan? && stmt.action.Remove? && !stmt.skipLocked && ScopeOf(stmt.pred).Some?
  }

  /** The removals a barrier of this scope is followed by. */
  function CascadeOf(scope: Scope): (stmts: set<Stmt>) {
    match scope
    case ClientScope(c) =>
      {Deletion(ByClient(AccessTokens, c)), Deletion(ByClient(RefreshTokens, c)),
       Deletion(ByClient(PushedRequests, c))}
    case FamilyScope(f) => {Deletion(ByFamily(AccessTokens, f)), Deletion(ByFamily(RefreshTokens, f))}
    case ConsentScope(c, s) =>
      {Deletion(ByPair(AccessTokens, c, s)), Deletion(ByPair(RefreshTokens, c, s))}
  }

  ghost predicate WritePrepared(before: seq<Stmt>, r: Record) {
    !r.Barrier? && (IsGuarded(r) ==> Check(GuardOf(r)) in before)
  }

  ghost predicate RemovalPrepared(before: seq<Stmt>, p: Pred) {
    match p
    case ByState(_, _) => false
    case ByKey(id) =>
      && id.Keyed?
      && (id.name == Clients ==> exists w :: RecordBarrier(ClientScope(id.key), w) in before)
    case ByClient(t, _) => t != Clients && t != Barriers
    case ByFamily(t, _) => t != Clients && t != Barriers
    case ByPair(t, _, _) => t != Clients && t != Barriers
    case Expired(t, _) => t != Clients
  }

  /** What a statement relies on having been executed `before` it. */
  ghost predicate Prepared(before: seq<Stmt>, stmt: Stmt) {
    match stmt
    case Lock(_, _) => true
    case Check(g) =>
      && (forall st | st in before :: st.Lock?)
      && (forall scope | InScope(scope, g) :: Lock(KeyOf(scope), Shared) in before)
    case RecordBarrier(scope, _) => Lock(KeyOf(scope), Exclusive) in before
    case Upsert(r) => WritePrepared(before, r)
    case InsertNew(r) => WritePrepared(before, r)
    case Scan(p, Remove, _) =>
      && RemovalPrepared(before, p)
      && (IsCascade(stmt) ==> Lock(KeyOf(ScopeOf(p).value), Exclusive) in before)
    case Scan(_, _, _) => true
    case Hold(_) => true
    case Update(r) => WritePrepared(before, r)
  }

  /** A program that writes guarded records; it takes shared locks and removes nothing. */
  predicate WriterStmt(stmt: Stmt) { !IsCascade(stmt) && (stmt.Lock? ==> stmt.mode.Shared?) }

  /** A program that writes no guarded record. */
  predicate RevokerStmt(stmt: Stmt) { !stmt.Check? && (stmt.Lock? ==> stmt.mode.Exclusive?) }

  ghost predicate Disciplined(prog: seq<Stmt>) {
    && (forall j | 0 <= j < |prog| :: Prepared(prog[..j], prog[j]))
    && (forall scope, w | RecordBarrier(scope, w) in prog :: CascadeOf(scope) <= set stmt | stmt in prog)
    && ((forall stmt | stmt in prog :: WriterStmt(stmt)) || (forall stmt | stmt in prog :: RevokerStmt(stmt)))
  }

  // ----- every program is disciplined

  function KindOf(scope: Scope): (kind: KeyKind) {
    match scope
    case ClientScope(_) => ClientKey
    case FamilyScope(_) => FamilyKey
    case ConsentScope(_, _) => ConsentKey
  }

  /** Whatever the order, every key the write can be revoked by is in the list. */
  lemma KeyListed(g: Guard, order: KeyOrder, scope: Scope)
    requires InScope(scope, g)
    ensures KeyOf(scope) in BarrierScopeKeys(g, order)
  {
    var kinds := order.Kinds();
    assert KeyOf(scope) in KindKeys(g, KindOf(scope));
    assert kinds[0] == KindOf(scope) || kinds[1] == KindOf(scope) || kinds[2] == KindOf(scope);
  }

  lemma GuardLocksAll(cfg: Config, g: Guard, rest: seq<Stmt>)
    requires cfg.locking
    ensures var locks := GuardLocks(cfg, g);
            forall scope | InScope(scope, g) :: Lock(KeyOf(scope), Shared) in (locks + rest)[..|locks|]
  {
    var locks := GuardLocks(cfg, g);
    var keys := BarrierScopeKeys(g, cfg.keyOrder);
    assert (locks + rest)[..|locks|] == locks;
    forall scope | InScope(scope, g) ensures Lock(KeyOf(scope), Shared) in locks {
      KeyListed(g, cfg.keyOrder, scope);
      var i :| 0 <= i < |keys| && keys[i] == KeyOf(scope);
      assert locks[i] == Lock(KeyOf(scope), Shared);
    }
  }

  lemma GuardLocksShared(cfg: Config, g: Guard)
    ensures forall stmt | stmt in GuardLocks(cfg, g) :: stmt.Lock? && stmt.mode.Shared?
  {
  }

  /** What a guarded program does after its check. */
  predicate GuardedStmt(stmt: Stmt, g: Guard) {
    || (stmt.Upsert? && IsGuarded(stmt.rec) && GuardOf(stmt.rec) == g)
    || (stmt.Scan? && stmt.action.LockRow?)
  }

  lemma GuardedPrepared(before: seq<Stmt>, stmt: Stmt, g: Guard)
    requires GuardedStmt(stmt, g) && Check(g) in before
    ensures Prepared(before, stmt) && WriterStmt(stmt) && !stmt.RecordBarrier?
  {
  }

  lemma GuardedProgramDisciplined(cfg: Config, g: Guard, rest: seq<Stmt>)
    requires cfg.locking
    requires forall stmt | stmt in rest :: GuardedStmt(stmt, g)
    ensures Disciplined(GuardLocks(cfg, g) + [Check(g)] + rest)
  {
    var prog := GuardLocks(cfg, g) + [Check(g)] + rest;
    forall j | 0 <= j < |prog| ensures Prepared(prog[..j], prog[j]) { GuardedProgramPrepared(cfg, g, rest, j); }
    GuardedProgramWrites(cfg, g, rest);
  }

  lemma GuardedProgramPrepared(cfg: Config, g: Guard, rest: seq<Stmt>, j: nat)
    requires cfg.locking && j < |GuardLocks(cfg, g) + [Check(g)] + rest|
    requires forall stmt | stmt in rest :: GuardedStmt(stmt, g)
    ensures var prog := GuardLocks(cfg, g) + [Check(g)] + rest; Prepared(prog[..j], prog[j])
  {
    var locks := GuardLocks(cfg, g);
    var prog := locks + [Check(g)] + rest;
    if j < |locks| {
      GuardLocksShared(cfg, g);
      assert prog[j] in locks;
    } else if j == |locks| {
      GuardLocksShared(cfg, g);
      GuardLocksAll(cfg, g, []);
      assert locks + [] == locks;
      assert prog[..j] == locks;
    } else {
      assert prog[..j][|locks|] == Check(g);
      assert prog[j] in rest;
      GuardedPrepared(prog[..j], prog[j], g);
    }
  }

  lemma GuardedProgramWrites(cfg: Config, g: Guard, rest: seq<Stmt>)
    requires cfg.locking
    requires forall stmt | stmt in rest :: GuardedStmt(stmt, g)
    ensures forall stmt | stmt in GuardLocks(cfg, g) + [Check(g)] + rest :: WriterStmt(stmt) && !stmt.RecordBarrier?
  {
    GuardLocksShared(cfg, g);
    forall stmt | stmt in rest ensures WriterStmt(stmt) && !stmt.RecordBarrier? {
      GuardedPrepared([Check(g)], stmt, g);
    }
  }

  /** One removal of a revocation of `scope`. */
  predicate Removal(stmt: Stmt, scope: Scope) {
    && stmt.Scan? && stmt.action.Remove? && !stmt.skipLocked
    && (ScopeOf(stmt.pred).Some? ==> ScopeOf(stmt.pred) == Some(scope))
    && match stmt.pred
       case ByState(_, _) => false
       case ByKey(id) => id.Keyed? && (id.name == Clients ==> scope == ClientScope(id.key))
       case ByClient(t, _) => t != Clients && t != Barriers
       case ByFamily(t, _) => t != Clients && t != Barriers
       case ByPair(t, _, _) => t != Clients && t != Barriers
       case Expired(_, _) => false
  }

  lemma RevocationPrepared(claim: seq<Stmt>, scope: Scope, w: Window, removals: seq<Stmt>, j: nat)
    requires forall stmt | stmt in claim ::
               stmt.Scan? && stmt.action.Remove? && stmt.pred.ByKey?
               && stmt.pred.id.Keyed? && stmt.pred.id.name == Consents
    requires forall stmt | stmt in removals :: Removal(stmt, scope)
    requires j < |claim + [Lock(KeyOf(scope), Exclusive), RecordBarrier(scope, w)] + removals|
    ensures var prog := claim + [Lock(KeyOf(scope), Exclusive), RecordBarrier(scope, w)] + removals;
            Prepared(prog[..j], prog[j])
  {
    var head := [Lock(KeyOf(scope), Exclusive), RecordBarrier(scope, w)];
    var prog := claim + head + removals;
    if j < |claim| {
      assert prog[j] in claim;
    } else if j > |claim| {
      assert prog[..j][|claim|] == head[0];
      if j > |claim| + 1 {
        assert prog[..j][|claim| + 1] == head[1];
        assert prog[j] in removals;
      }
    }
  }

  lemma RevocationDisciplined(cfg: Config, claim: seq<Stmt>, scope: Scope, w: Window, removals: seq<Stmt>)
    requires cfg.locking
    requires forall stmt | stmt in claim ::
               stmt.Scan? && stmt.action.Remove? && stmt.pred.ByKey?
               && stmt.pred.id.Keyed? && stmt.pred.id.name == Consents
    requires forall stmt | stmt in removals :: Removal(stmt, scope)
    requires CascadeOf(scope) <= set stmt | stmt in removals
    ensures Disciplined(claim + Revocation(cfg, scope, w, removals))
  {
    var head := [Lock(KeyOf(scope), Exclusive), RecordBarrier(scope, w)];
    var prog := claim + head + removals;
    assert prog == claim + Revocation(cfg, scope, w, removals);
    forall j | 0 <= j < |prog| ensures Prepared(prog[..j], prog[j]) {
      RevocationPrepared(claim, scope, w, removals, j);
    }
    forall stmt | stmt in prog
      ensures RevokerStmt(stmt) && (stmt.RecordBarrier? ==> stmt.scope == scope)
    {
      assert stmt in claim || stmt in head || stmt in removals;
    }
    assert CascadeOf(scope) <= set stmt | stmt in prog;
  }

  lemma ClientRemovalsComplete(c: string)
    ensures forall stmt | stmt in ClientRemovals(c) :: Removal(stmt, ClientScope(c))
    ensures CascadeOf(ClientScope(c)) <= set stmt | stmt in ClientRemovals(c)
  {
    var r := ClientRemovals(c);
    assert r[1] in r && r[2] in r && r[5] in r;
  }

  lemma FamilyRemovalsComplete(f: string)
    ensures forall stmt | stmt in FamilyRemovals(f) :: Removal(stmt, FamilyScope(f))
    ensures CascadeOf(FamilyScope(f)) <= set stmt | stmt in FamilyRemovals(f)
  {
    var r := FamilyRemovals(f);
    assert r[0] in r && r[1] in r;
  }

  lemma PairRemovalsComplete(c: string, s: string)
    ensures forall stmt | stmt in PairRemovals(c, s) :: Removal(stmt, ConsentScope(c, s))
    ensures CascadeOf(ConsentScope(c, s)) <= set stmt | stmt in PairRemovals(c, s)
  {
    var r := PairRemovals(c, s);
    assert r[0] in r && r[1] in r;
  }

  lemma DeletionDisciplined(cfg: Config, c: string, w: Window)
    requires cfg.locking
    ensures Disciplined(Program(cfg, DeleteClient(c, w), None))
  {
    ClientRemovalsComplete(c);
    RevocationDisciplined(cfg, [], ClientScope(c), w, ClientRemovals(c));
    assert Program(cfg, DeleteClient(c, w), None)
        == [] + Revocation(cfg, ClientScope(c), w, ClientRemovals(c));
  }

  lemma FamilyDisciplined(cfg: Config, f: string, w: Window)
    requires cfg.locking
    ensures Disciplined(Program(cfg, RevokeFamily(f, w), None))
  {
    FamilyRemovalsComplete(f);
    RevocationDisciplined(cfg, [], FamilyScope(f), w, FamilyRemovals(f));
    assert Program(cfg, RevokeFamily(f, w), None)
        == [] + Revocation(cfg, FamilyScope(f), w, FamilyRemovals(f));
  }

  lemma WithdrawalDisciplined(cfg: Config, id: string, w: Window, bound: Option<(string, string)>)
    requires cfg.locking
    ensures Disciplined(Program(cfg, RevokeConsent(id, w), bound))
  {
    var claim := [Deletion(ByKey(Keyed(Consents, id)))];
    if bound.Some? {
      var (c, s) := bound.value;
      PairRemovalsComplete(c, s);
      RevocationDisciplined(cfg, claim, ConsentScope(c, s), w, PairRemovals(c, s));
      assert Program(cfg, RevokeConsent(id, w), bound)
        == claim + Revocation(cfg, ConsentScope(c, s), w, PairRemovals(c, s));
    } else {
      ClaimDisciplined(id);
      assert Program(cfg, RevokeConsent(id, w), bound) == claim;
    }
  }

  lemma ClaimDisciplined(id: string)
    ensures Disciplined([Deletion(ByKey(Keyed(Consents, id)))])
  {
  }

  lemma WriterDisciplined(cfg: Config, op: Operation)
    requires cfg.locking && Valid(op) && (op.PutGuarded? || op.Rotate?)
    ensures Disciplined(Program(cfg, op, None))
  {
    if op.PutGuarded? {
      var g := GuardOf(op.rec);
      GuardedProgramDisciplined(cfg, g, [Upsert(op.rec)]);
      assert Program(cfg, op, None) == GuardLocks(cfg, g) + [Check(g)] + [Upsert(op.rec)];
    } else {
      var g := GuardOf(op.presented);
      var rest := [Scan(ByKey(IdOf(op.presented)), LockRow, false), Upsert(op.spent), Upsert(op.access)]
                  + (if op.next.Some? then [Upsert(op.next.value)] else []);
      GuardedProgramDisciplined(cfg, g, rest);
      assert Program(cfg, op, None) == GuardLocks(cfg, g) + [Check(g)] + rest;
    }
  }

  lemma ShortDisciplined(cfg: Config, op: Operation)
    requires cfg.locking && Valid(op)
    requires op.Put? || op.SwapConsent? || op.Swap? || op.Take? || op.Claim? || op.SweepBatch?
    ensures Disciplined(Program(cfg, op, None))
  {
    var prog := Program(cfg, op, None);
    forall j | 0 <= j < |prog| ensures Prepared(prog[..j], prog[j]) {
    }
    forall stmt | stmt in prog ensures RevokerStmt(stmt) && !stmt.RecordBarrier? {
    }
  }

  lemma ProgramDisciplined(cfg: Config, op: Operation, bound: Option<(string, string)>)
    requires cfg.locking && Valid(op)
    ensures Disciplined(Program(cfg, op, bound))
  {
    if op.RevokeConsent? {
      WithdrawalDisciplined(cfg, op.consentId, op.window, bound);
    } else {
      assert Program(cfg, op, bound) == Program(cfg, op, None);
      if op.PutGuarded? || op.Rotate? {
        WriterDisciplined(cfg, op);
      } else if op.DeleteClient? {
        DeletionDisciplined(cfg, op.client, op.window);
      } else if op.RevokeFamily? {
        FamilyDisciplined(cfg, op.family, op.window);
      } else {
        ShortDisciplined(cfg, op);
      }
    }
  }
}
