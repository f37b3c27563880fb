/** What every transaction holds ranks below what it waits for.

Every program acquires in increasing order of one rank over lock keys and tables. The rows of one
statement follow the row order, which may leave any two of them open. The writes of a rotation and of a consent
swap lie outside the rank, and never wait: they go to a row the transaction already holds, or to a new
key nobody else writes. So does the entry of a user code, provided the code is the writer's own. */
module Deadlock {
  import opened Options
  import opened LockKeys
  import opened Records
  import opened Protocol
  import opened Invariant
  import opened NoResurrection
  import opened RowInvariant
  import opened Commit
  import opened CodeIndex
  import opened CodeWaits

  // ----- who waits for what

  datatype Resource = KeyRes(key: string) | RowRes(id: RowId) | CodeRes(code: string)

  predicate Holds(u: Txn, r: Resource) {
    match r
    case KeyRes(key) => key in u.keys
    case RowRes(id) => id in u.rows
    case CodeRes(code) => code in u.codes
  }

  /** A write asks for its row and for the entry of its user code. */
  predicate WriteRequests(rec: Record, r: Resource) {
    r == RowRes(IdOf(rec)) || (r.CodeRes? && r.code in CodesOf(rec))
  }

  /** What a statement asks for next and would wait for. */
  ghost predicate Requests(cfg: Config, u: Txn, stmt: Stmt, r: Resource) {
    match stmt
    case Lock(key, _) => r == KeyRes(key)
    case Check(_) => false
    case RecordBarrier(scope, _) => r == RowRes(BarrierId(scope))
    case Upsert(rec) => WriteRequests(rec, r)
    case InsertNew(rec) => r == RowRes(IdOf(rec))
    case Hold(id) => r == RowRes(id)
    case Update(rec) => IdOf(rec) in u.hits && WriteRequests(rec, r)
    case Scan(_, action, skipLocked) =>
      !skipLocked && u.scan.Some? && r.RowRes? && IsNext(cfg, u.scan.value, action, r.id)
  }

  ghost predicate Wants(cfg: Config, s: State, t: nat, r: Resource) {
    Runs(cfg, s, t) && Requests(cfg, s.txns[t], Current(cfg, s, t), r)
  }

  /** The transaction `t` wants `r`, and `t'` holds it, or a key with the same hash, in its way. */
  ghost predicate Blocked(cfg: Config, s: State, t: nat, r: Resource, t': nat) {
    && Wants(cfg, s, t, r) && t' in s.txns && t' != t
    && match r
       case RowRes(id) => id in s.txns[t'].rows
       case CodeRes(code) => code in s.txns[t'].codes
       case KeyRes(key) =>
         exists k | k in s.txns[t'].keys ::
           cfg.hash(k) == cfg.hash(key) && !(Current(cfg, s, t).mode.Shared? && s.txns[t'].keys[k].Shared?)
  }

  ghost predicate WaitsFor(cfg: Config, s: State, t: nat, t': nat) {
    exists r :: Blocked(cfg, s, t, r, t')
  }

  /** Every transaction of the list waits for the next one, and the last for the first. */
  ghost predicate Cycle(cfg: Config, s: State, ts: seq<nat>) {
    && ts != []
    && forall i | 0 <= i < |ts| :: WaitsFor(cfg, s, ts[i], ts[if i + 1 < |ts| then i + 1 else 0])
  }

  /** No key that is held has the hash of a different key that is waited for. */
  ghost predicate HashesApart(cfg: Config, s: State) {
    forall t, key, t', k | Wants(cfg, s, t, KeyRes(key)) && t' in s.txns && t' != t && k in s.txns[t'].keys ::
      cfg.hash(k) == cfg.hash(key) ==> k == key
  }

  // ----- the rank

  /** Where the family key stands depends on where the write takes it. */
  function FamilyClass(order: KeyOrder): (c: int) {
    match order
    case FamilyClientConsent => -1
    case ClientConsentFamily => 6
    case _ => 4
  }

  function KeyClass(order: KeyOrder, key: string): (c: int) {
    match ParseScopeKey(key)
    case Some((scope, _, _)) =>
      if scope == "client" then 0
      else if scope == "consent_cas" then 2
      else if scope == "family" then FamilyClass(order)
      else 5
    case None => 5
  }

  function TableClass(t: Table): (c: int) {
    match t
    case Consents => 3
    case Barriers => 7
    case AccessTokens => 8
    case RefreshTokens => 9
    case Codes => 10
    case DeviceGrants => 11
    case PushedRequests => 12
    case Clients => 13
    case ReplayIds => 14
  }

  function RowClass(id: RowId): (c: int) {
    if id.BarrierId? && id.scope.ClientScope? then 1 else TableClass(id.Table())
  }

  function StmtClass(rank: KeyRank, stmt: Stmt): (c: int) {
    match stmt
    case Lock(key, _) => rank(key)
    case Check(_) => -2
    case RecordBarrier(scope, _) => RowClass(BarrierId(scope))
    case Upsert(r) => RowClass(IdOf(r))
    case InsertNew(r) => RowClass(IdOf(r))
    case Hold(id) => RowClass(id)
    case Update(r) => RowClass(IdOf(r))
    case Scan(p, _, _) => TableClass(TableOf(p))
  }

  /** The rank of a resource: its class, and among the rows of one class the common row order. */
  function Class(rank: KeyRank, r: Resource): (c: int) {
    match r
    case KeyRes(key) => rank(key)
    case RowRes(id) => RowClass(id)
    case CodeRes(_) => 15
  }

  function Place(cfg: Config, r: Resource): (place: int) {
    match r
    case RowRes(id) => cfg.order(id)
    case _ => 0
  }

  predicate Below(cfg: Config, rank: KeyRank, a: Resource, b: Resource) {
    Class(rank, a) < Class(rank, b) || (Class(rank, a) == Class(rank, b) && Place(cfg, a) < Place(cfg, b))
  }

  type KeyRank = string -> int

  /** Where the four kinds of lock keys stand among the rows. */
  ghost predicate RanksKeys(rank: KeyRank, order: KeyOrder) {
    && (forall c :: rank(KeyOf(ClientScope(c))) == 0)
    && (forall c, s :: rank(CasKey(c, s)) == 2)
    && (forall f :: rank(KeyOf(FamilyScope(f))) == FamilyClass(order))
    && (forall c, s :: rank(KeyOf(ConsentScope(c, s))) == 5)
  }

  /** The keys themselves say which kind they are. */
  function RankOf(order: KeyOrder): KeyRank { (key: string) => KeyClass(order, key) }

  lemma KeyClassRanks(order: KeyOrder)
    ensures RanksKeys(RankOf(order), order)
  {
    forall c ensures KeyClass(order, KeyOf(ClientScope(c))) == 0 { KeyRoundTrip("client", c, ""); }
    forall c, s ensures KeyClass(order, CasKey(c, s)) == 2 { KeyRoundTrip("consent_cas", c, s); }
    forall f ensures KeyClass(order, KeyOf(FamilyScope(f))) == FamilyClass(order) { KeyRoundTrip("family", f, ""); }
    forall c, s ensures KeyClass(order, KeyOf(ConsentScope(c, s))) == 5 { KeyRoundTrip("consent", c, s); }
  }

  // ----- every program climbs

  /** Statements that may wait. The writes of a rotation and of a consent swap never do, nor does a write
  over a row that the statement before it has reached. */
  predicate Waitable(op: Operation, stmt: Stmt) {
    match stmt
    case Check(_) => false
    case Upsert(r) => !op.Rotate? && !op.SwapConsent? && !r.DeviceGrant?
    case Update(_) => false
    case Scan(_, _, skipLocked) => !skipLocked
    case _ => true
  }

  ghost predicate Climbs(rank: KeyRank, op: Operation, prog: seq<Stmt>) {
    forall i, j | 0 <= i < j < |prog| && Waitable(op, prog[j]) :: StmtClass(rank, prog[i]) < StmtClass(rank, prog[j])
  }

  /** Every statement of `b` that may wait ranks above every statement of `a`. */
  ghost predicate ClimbsFrom(rank: KeyRank, op: Operation, a: seq<Stmt>, b: seq<Stmt>) {
    forall x, y | x in a && y in b && Waitable(op, y) :: StmtClass(rank, x) < StmtClass(rank, y)
  }

  lemma ClimbsConcat(rank: KeyRank, op: Operation, a: seq<Stmt>, b: seq<Stmt>)
    requires Climbs(rank, op, a) && Climbs(rank, op, b) && ClimbsFrom(rank, op, a, b)
    ensures Climbs(rank, op, a + b)
  {
    var prog := a + b;
    forall i, j | 0 <= i < j < |prog| && Waitable(op, prog[j])
      ensures StmtClass(rank, prog[i]) < StmtClass(rank, prog[j])
    {
      if j < |a| {
        assert prog[i] == a[i] && prog[j] == a[j];
      } else if i < |a| {
        assert prog[i] in a && prog[j] in b;
      } else {
        assert prog[i] == b[i - |a|] && prog[j] == b[j - |a|];
      }
    }
  }

  lemma GuardLocksClimb(cfg: Config, rank: KeyRank, op: Operation, g: Guard)
    requires RanksKeys(rank, cfg.keyOrder) && cfg.locking && cfg.keyOrder.ClientBeforeConsent()
    ensures Climbs(rank, op, GuardLocks(cfg, g))
    ensures forall stmt | stmt in GuardLocks(cfg, g) :: stmt.Lock? && StmtClass(rank, stmt) <= 6
  {
    var keys := BarrierScopeKeys(g, cfg.keyOrder);
    KeysClimb(rank, cfg.keyOrder, g);
    assert forall i | 0 <= i < |keys| :: GuardLocks(cfg, g)[i] == Lock(keys[i], Shared);
  }

  lemma KeysClimb(rank: KeyRank, order: KeyOrder, g: Guard)
    requires RanksKeys(rank, order) && order.ClientBeforeConsent()
    ensures var keys := BarrierScopeKeys(g, order);
            && (forall i | 0 <= i < |keys| :: rank(keys[i]) <= 6)
            && (forall i, j | 0 <= i < j < |keys| :: rank(keys[i]) < rank(keys[j]))
  {
    assert rank(KeyOf(ClientScope(g.client))) == 0;
    assert g.family.Some? ==> rank(KeyOf(FamilyScope(g.family.value))) == FamilyClass(order);
    assert g.subject.Some? ==> rank(KeyOf(ConsentScope(g.client, g.subject.value))) == 5;
  }

  lemma GuardedClimbs(cfg: Config, rank: KeyRank, op: Operation, g: Guard, rest: seq<Stmt>)
    requires RanksKeys(rank, cfg.keyOrder) && cfg.locking && cfg.keyOrder.ClientBeforeConsent()
    requires Climbs(rank, op, rest)
    requires forall stmt | stmt in rest && Waitable(op, stmt) :: StmtClass(rank, stmt) > 6
    ensures Climbs(rank, op, GuardLocks(cfg, g) + [Check(g)] + rest)
  {
    GuardLocksClimb(cfg, rank, op, g);
    ClimbsConcat(rank, op, GuardLocks(cfg, g), [Check(g)]);
    ClimbsConcat(rank, op, GuardLocks(cfg, g) + [Check(g)], rest);
  }

  lemma ClientRemovalsClimb(rank: KeyRank, op: Operation, c: string)
    ensures Climbs(rank, op, ClientRemovals(c)) && forall stmt | stmt in ClientRemovals(c) :: StmtClass(rank, stmt) > 1
  {
  }

  lemma TokenRemovalsClimb(rank: KeyRank, op: Operation, c: string, s: string, f: string)
    ensures Climbs(rank, op, PairRemovals(c, s))
    ensures forall stmt | stmt in PairRemovals(c, s) :: StmtClass(rank, stmt) > 7
    ensures Climbs(rank, op, FamilyRemovals(f)) && forall stmt | stmt in FamilyRemovals(f) :: StmtClass(rank, stmt) > 7
  {
  }

  lemma HeadClimbs(rank: KeyRank, order: KeyOrder, op: Operation, scope: Scope, w: Window)
    requires RanksKeys(rank, order)
    ensures rank(KeyOf(scope)) < RowClass(BarrierId(scope))
    ensures Climbs(rank, op, [Lock(KeyOf(scope), Exclusive), RecordBarrier(scope, w)])
  {
    match scope
    case ClientScope(c) => assert rank(KeyOf(ClientScope(c))) == 0;
    case FamilyScope(f) => assert rank(KeyOf(FamilyScope(f))) == FamilyClass(order);
    case ConsentScope(c, s) => assert rank(KeyOf(ConsentScope(c, s))) == 5;
  }

  lemma RevocationClimbs(cfg: Config, rank: KeyRank, op: Operation, scope: Scope, w: Window, removals: seq<Stmt>)
    requires RanksKeys(rank, cfg.keyOrder) && cfg.locking && Climbs(rank, op, removals)
    requires forall stmt | stmt in removals :: StmtClass(rank, stmt) > RowClass(BarrierId(scope))
    ensures Climbs(rank, op, Revocation(cfg, scope, w, removals))
    ensures forall stmt | stmt in Revocation(cfg, scope, w, removals) :: StmtClass(rank, stmt) >= rank(KeyOf(scope))
  {
    var head := [Lock(KeyOf(scope), Exclusive), RecordBarrier(scope, w)];
    HeadClimbs(rank, cfg.keyOrder, op, scope, w);
    assert forall stmt | stmt in head :: StmtClass(rank, stmt) <= RowClass(BarrierId(scope));
    ClimbsConcat(rank, op, head, removals);
    assert head + removals == Revocation(cfg, scope, w, removals);
  }

  lemma WithdrawalClimbs(cfg: Config, rank: KeyRank, op: Operation, bound: Option<(string, string)>)
    requires RanksKeys(rank, cfg.keyOrder) && cfg.locking && op.RevokeConsent?
    ensures Climbs(rank, op, Program(cfg, op, bound))
  {
    if bound.Some? {
      var (c, s) := bound.value;
      var claim := [Deletion(ByKey(Keyed(Consents, op.consentId)))];
      var tail := Revocation(cfg, ConsentScope(c, s), op.window, PairRemovals(c, s));
      WithdrawalProgram(cfg, op.consentId, op.window, c, s);
      TokenRemovalsClimb(rank, op, c, s, "");
      RevocationClimbs(cfg, rank, op, ConsentScope(c, s), op.window, PairRemovals(c, s));
      ClimbsConcat(rank, op, claim, tail);
    }
  }

  lemma RotationClimbs(cfg: Config, rank: KeyRank, op: Operation, bound: Option<(string, string)>)
    requires RanksKeys(rank, cfg.keyOrder) && cfg.locking && cfg.keyOrder.ClientBeforeConsent() && Valid(op)
    requires op.Rotate?
    ensures Climbs(rank, op, Program(cfg, op, bound))
  {
    var rest := RotationRead(op) + RotationWrites(op);
    RotationProgram(cfg, op, bound);
    assert forall i | 0 < i < |rest| :: !Waitable(op, rest[i]);
    GuardedClimbs(cfg, rank, op, GuardOf(op.presented), rest);
  }

  lemma DeletionClimbs(cfg: Config, rank: KeyRank, op: Operation, bound: Option<(string, string)>)
    requires RanksKeys(rank, cfg.keyOrder) && cfg.locking && op.DeleteClient?
    ensures Climbs(rank, op, Program(cfg, op, bound))
  {
    ClientRemovalsClimb(rank, op, op.client);
    RevocationClimbs(cfg, rank, op, ClientScope(op.client), op.window, ClientRemovals(op.client));
  }

  lemma FamilyClimbs(cfg: Config, rank: KeyRank, op: Operation, bound: Option<(string, string)>)
    requires RanksKeys(rank, cfg.keyOrder) && cfg.locking && op.RevokeFamily?
    ensures Climbs(rank, op, Program(cfg, op, bound))
  {
    TokenRemovalsClimb(rank, op, "", "", op.family);
    RevocationClimbs(cfg, rank, op, FamilyScope(op.family), op.window, FamilyRemovals(op.family));
  }

  lemma PutClimbs(cfg: Config, rank: KeyRank, op: Operation, bound: Option<(string, string)>)
    requires RanksKeys(rank, cfg.keyOrder) && cfg.locking && cfg.keyOrder.ClientBeforeConsent() && Valid(op)
    requires op.PutGuarded?
    ensures Climbs(rank, op, Program(cfg, op, bound))
  {
    PutProgram(cfg, op.rec, bound);
    GuardedClimbs(cfg, rank, op, GuardOf(op.rec), [Upsert(op.rec)]);
  }

  lemma ShortClimbs(cfg: Config, rank: KeyRank, op: Operation, bound: Option<(string, string)>)
    requires RanksKeys(rank, cfg.keyOrder) && cfg.locking && Valid(op)
    requires op.Put? || op.SwapConsent? || op.Swap? || op.Take? || op.Claim? || op.SweepBatch?
    ensures Climbs(rank, op, Program(cfg, op, bound))
  {
  }

  /** With the client key before the consent key, the rank fits every program. */
  lemma ProgramClimbs(cfg: Config, rank: KeyRank, op: Operation, bound: Option<(string, string)>)
    requires RanksKeys(rank, cfg.keyOrder) && cfg.locking && cfg.keyOrder.ClientBeforeConsent() && Valid(op)
    ensures Climbs(rank, op, Program(cfg, op, bound))
  {
    match op
    case PutGuarded(_) => PutClimbs(cfg, rank, op, bound);
    case Rotate(_, _, _, _) => RotationClimbs(cfg, rank, op, bound);
    case DeleteClient(_, _) => DeletionClimbs(cfg, rank, op, bound);
    case RevokeFamily(_, _) => FamilyClimbs(cfg, rank, op, bound);
    case RevokeConsent(_, _) => WithdrawalClimbs(cfg, rank, op, bound);
    case _ => ShortClimbs(cfg, rank, op, bound);
  }

  // ----- what a transaction holds, read off its program

  predicate Acquires(stmt: Stmt, id: RowId) {
    match stmt
    case RecordBarrier(scope, _) => id == BarrierId(scope)
    case Upsert(r) => id == IdOf(r)
    case InsertNew(r) => id == IdOf(r)
    case Hold(held) => id == held
    case Update(r) => id == IdOf(r)
    case Scan(p, _, _) => id.Table() == TableOf(p) && (p.ByKey? || p.ByState? ==> id == p.id)
    case _ => false
  }

  ghost predicate KeysFrom(before: seq<Stmt>, keys: map<string, Mode>) {
    forall k | k in keys :: Lock(k, keys[k]) in before
  }

  ghost predicate RowsFrom(before: seq<Stmt>, rows: set<RowId>) {
    forall id | id in rows :: exists stmt | stmt in before :: Acquires(stmt, id)
  }

  /** What was to be held is held. */
  ghost predicate HoldsKept(before: seq<Stmt>, rows: set<RowId>) {
    forall id | Hold(id) in before :: id in rows
  }

  /** A scan meets the rest of its snapshot no earlier than the rows it already holds; a scan for the newest
  row holds none before it is done. */
  ghost predicate ScanClimbs(cfg: Config, stmt: Stmt, rows: set<RowId>, snapshot: map<RowId, Row>) {
    && stmt.Scan?
    && (forall other | other in snapshot :: Acquires(stmt, other))
    && forall id, other | id in rows && Acquires(stmt, id) && other in snapshot ::
         id != other && cfg.order(id) <= cfg.order(other) && !stmt.action.LockNewest?
  }

  ghost predicate LockInv(cfg: Config, prog: seq<Stmt>, u: Txn) {
    && Reach(u) <= |prog|
    && KeysFrom(prog[..u.pc], u.keys)
    && RowsFrom(prog[..Reach(u)], u.rows)
    && HoldsKept(prog[..u.pc], u.rows)
    && (u.scan.Some? ==> ScanClimbs(cfg, prog[u.pc], u.rows, u.scan.value))
  }

  lemma PrefixAcquires(prog: seq<Stmt>, n: nat, m: nat, keys: map<string, Mode>, rows: set<RowId>)
    requires n <= m <= |prog| && KeysFrom(prog[..n], keys) && RowsFrom(prog[..n], rows)
    ensures KeysFrom(prog[..m], keys) && RowsFrom(prog[..m], rows)
  {
    assert prog[..n] <= prog[..m];
    forall id | id in rows ensures exists stmt | stmt in prog[..m] :: Acquires(stmt, id) {
      var stmt :| stmt in prog[..n] && Acquires(stmt, id);
      assert stmt in prog[..m];
    }
  }

  lemma LastExecuted(prog: seq<Stmt>, pc: nat)
    requires pc < |prog|
    ensures prog[pc] in prog[..pc + 1]
  {
    assert prog[..pc + 1][pc] == prog[pc];
  }

  /** What one statement adds to what is held. */
  lemma ExecHolds(cfg: Config, s: State, t: nat, stmt: Stmt, u': Txn)
    requires t in s.txns && ExecStmt(cfg, s, t, stmt, u')
    ensures s.txns[t].rows <= u'.rows && forall id | id in u'.rows && id !in s.txns[t].rows :: Acquires(stmt, id)
    ensures stmt.Hold? ==> stmt.id in u'.rows
    ensures forall k | k in u'.keys ::
              (k in s.txns[t].keys && u'.keys[k] == s.txns[t].keys[k]) || stmt == Lock(k, u'.keys[k])
    ensures u'.scan == s.txns[t].scan && (u'.outcome.RolledBack? || u'.pc == s.txns[t].pc + 1)
  {
  }

  lemma ExecKeepsLockInv(cfg: Config, s: State, t: nat, prog: seq<Stmt>, u': Txn)
    requires t in s.txns && s.txns[t].pc < |prog| && LockInv(cfg, prog, s.txns[t])
    requires ExecStmt(cfg, s, t, prog[s.txns[t].pc], u')
    ensures u'.outcome.RolledBack? || LockInv(cfg, prog, u')
  {
    var u := s.txns[t];
    assert u.scan.None?;
    PrefixAcquires(prog, u.pc, u.pc + 1, u.keys, u.rows);
    LastExecuted(prog, u.pc);
    ExecHolds(cfg, s, t, prog[u.pc], u');
    assert prog[..u.pc + 1] == prog[..u.pc] + [prog[u.pc]];
  }

  /** A table is scanned only once, and before anything else happens to it. */
  lemma NothingHeldYet(prog: seq<Stmt>, pc: nat, rows: set<RowId>)
    requires Separate(prog) && pc < |prog| && prog[pc].Scan? && RowsFrom(prog[..pc], rows)
    ensures forall id | id in rows :: !Acquires(prog[pc], id)
  {
    forall id | id in rows ensures !Acquires(prog[pc], id) {
      var stmt :| stmt in prog[..pc] && Acquires(stmt, id);
      assert Touches(stmt) == Some(id.Table());
      assert Untouched(prog[..pc], TableOf(prog[pc].pred));
    }
  }

  lemma ScanStartKeepsLockInv(cfg: Config, s: State, t: nat, prog: seq<Stmt>, snapshot: map<RowId, Row>, u': Txn)
    requires t in s.txns && s.txns[t].pc < |prog| && LockInv(cfg, prog, s.txns[t]) && Separate(prog)
    requires ScanStartStmt(s, t, prog[s.txns[t].pc], snapshot, u')
    ensures LockInv(cfg, prog, u')
  {
    var u := s.txns[t];
    PrefixAcquires(prog, u.pc, u.pc + 1, u.keys, u.rows);
    NothingHeldYet(prog, u.pc, u.rows);
    forall other | other in snapshot ensures Acquires(prog[u.pc], other) {
      assert Matches(prog[u.pc].pred, other, View(s.db, u)[other]);
    }
    assert KeysFrom(prog[..u'.pc], u'.keys);
  }

  lemma ScanRowKeepsLockInv(cfg: Config, s: State, t: nat, prog: seq<Stmt>, id: RowId, u': Txn)
    requires t in s.txns && s.txns[t].pc < |prog| && LockInv(cfg, prog, s.txns[t])
    requires ScanRowStmt(cfg, s, t, prog[s.txns[t].pc], id, u')
    ensures LockInv(cfg, prog, u')
  {
    var u := s.txns[t];
    LastExecuted(prog, u.pc);
    assert u'.rows == u.rows || u'.rows == u.rows + {id};
    assert Acquires(prog[u.pc], id);
  }

  lemma ScanEndKeepsLockInv(cfg: Config, prog: seq<Stmt>, prog': seq<Stmt>, u: Txn, bound: Option<(string, string)>)
    requires LockInv(cfg, prog, u) && u.scan.Some? && prog <= prog'
    ensures LockInv(cfg, prog', u.(pc := u.pc + 1, scan := None, bound := bound))
  {
    PrefixKeysGrow(prog, u.pc, u.keys);
    assert prog'[..u.pc + 1] == prog[..u.pc + 1];
  }

  lemma PrefixKeysGrow(prog: seq<Stmt>, n: nat, keys: map<string, Mode>)
    requires n < |prog| && KeysFrom(prog[..n], keys)
    ensures KeysFrom(prog[..n + 1], keys)
  {
    assert prog[..n] <= prog[..n + 1];
  }

  // ----- new keys

  /** The keys an operation invents: nobody else writes them while it runs. */
  function NewIds(op: Operation): (ids: set<RowId>) {
    match op
    case Rotate(e, _, a, n) =>
      {IdOf(a)} + (if n.Some? && IdOf(n.value) != IdOf(e) then {IdOf(n.value)} else {})
    case SwapConsent(e, u) => if e.Some? && IdOf(e.value) == IdOf(u) then {} else {IdOf(u)}
    case _ => {}
  }

  /** The keys an operation may write without having found them first. */
  function BlindIds(op: Operation): (ids: set<RowId>) {
    match op
    case PutGuarded(r) => {IdOf(r)}
    case Put(r) => {IdOf(r)}
    case Claim(r) => {IdOf(r)}
    case _ => NewIds(op)
  }

  /** What a caller guarantees by drawing token values and consent identifiers at random. */
  ghost predicate FreshStart(s: State, t: nat, op: Operation) {
    OwnCode(s, t, op) && NewStart(s, op)
  }

  ghost predicate NewStart(s: State, op: Operation) {
    && NewIds(op) !! s.db.Keys
    && forall t | t in s.txns ::
         && NewIds(op) !! s.txns[t].rows
         && (s.txns[t].outcome.Running? ==>
               NewIds(op) !! BlindIds(s.txns[t].op) && BlindIds(op) !! NewIds(s.txns[t].op))
  }

  ghost predicate FreshRun(states: seq<State>, events: seq<Event>)
    requires |states| == |events| + 1
  {
    forall i | 0 <= i < |events| && events[i].Begin? :: FreshStart(states[i], events[i].t, events[i].op)
  }

  /** The new keys of a running transaction are still unknown to everybody else. */
  ghost predicate StillNew(s: State, t: nat)
    requires t in s.txns
  {
    var ids := NewIds(s.txns[t].op);
    && ids !! s.db.Keys
    && forall t' | t' in s.txns && t' != t ::
         && ids !! s.txns[t'].rows
         && (s.txns[t'].outcome.Running? ==> ids !! BlindIds(s.txns[t'].op))
  }

  ghost predicate HoldingOk(cfg: Config, s: State, t: nat)
    requires t in s.txns
  {
    s.txns[t].outcome.Running? ==>
      && Valid(s.txns[t].op) && LockInv(cfg, Program(cfg, s.txns[t].op, s.txns[t].bound), s.txns[t])
      && StillNew(s, t) && OwnCode(s, t, s.txns[t].op) && PutsOwn(s.txns[t])
  }

  /** The invariant behind deadlock freedom: what is held was acquired in order, and new keys are new. */
  ghost predicate LockingInv(cfg: Config, s: State) {
    CommitInv(cfg, s) && IndexInv(s) && forall t | t in s.txns :: HoldingOk(cfg, s, t)
  }

  /** A record is written under a key of the operation's own, or over the record its read compared. */
  predicate WritesOver(op: Operation, id: RowId) {
    || (op.Rotate? && id == IdOf(op.presented))
    || (op.SwapConsent? && op.expectedConsent.Some? && id == IdOf(op.expectedConsent.value))
  }

  /** An update goes to the row its scan has found. */
  predicate UpdatesHit(op: Operation, stmt: Stmt) { op.Swap? && stmt == Update(op.updated) }

  lemma GuardedWrite(cfg: Config, g: Guard, rest: seq<Stmt>, i: nat)
    requires i < |GuardLocks(cfg, g) + [Check(g)] + rest|
    requires IsWrite((GuardLocks(cfg, g) + [Check(g)] + rest)[i])
    ensures i > |GuardLocks(cfg, g)| && (GuardLocks(cfg, g) + [Check(g)] + rest)[i] in rest
  {
    var locks := GuardLocks(cfg, g);
    assert forall k | 0 <= k < |locks| :: (locks + [Check(g)] + rest)[k] == locks[k] && !IsWrite(locks[k]);
  }

  lemma WrittenKeys(cfg: Config, op: Operation, bound: Option<(string, string)>, i: nat)
    requires Valid(op) && i < |Program(cfg, op, bound)| && IsWrite(Program(cfg, op, bound)[i])
    ensures var id := IdOf(Program(cfg, op, bound)[i].rec);
            || id in BlindIds(op) || (WritesOver(op, id) && i > ReadIndex(cfg, op))
            || UpdatesHit(op, Program(cfg, op, bound)[i])
  {
    match op
    case PutGuarded(r) =>
      PutProgram(cfg, r, bound);
      GuardedWrite(cfg, GuardOf(r), [Upsert(r)], i);
    case Rotate(e, _, _, _) =>
      RotationProgram(cfg, op, bound);
      GuardedWrite(cfg, GuardOf(e), RotationRead(op) + RotationWrites(op), i);
      RotationKeys(cfg, op, bound, i);
    case Put(_) =>
    case SwapConsent(e, u) => ConsentProgram(cfg, e, u, bound);
    case Claim(_) =>
    case Swap(_, _) =>
    case _ =>
      RemoversDoNotWrite(cfg, op, bound, i);
  }

  lemma RotationKeys(cfg: Config, op: Operation, bound: Option<(string, string)>, i: nat)
    requires op.Rotate? && Valid(op) && |GuardLocks(cfg, GuardOf(op.presented))| < i < |Program(cfg, op, bound)|
    requires IsWrite(Program(cfg, op, bound)[i])
    ensures var id := IdOf(Program(cfg, op, bound)[i].rec); id in NewIds(op) || WritesOver(op, id)
    ensures i > ReadIndex(cfg, op)
  {
  }

  lemma ExecRows(cfg: Config, s: State, t: nat, stmt: Stmt, u': Txn)
    requires t in s.txns && ExecStmt(cfg, s, t, stmt, u')
    ensures forall id | id in u'.rows && id !in s.txns[t].rows ::
              || (IsWrite(stmt) && id == IdOf(stmt.rec) && (stmt.Update? ==> id in s.txns[t].hits))
              || stmt == Hold(id) || id.BarrierId?
  {
  }

  /** What a write adds to the rows a transaction holds. */
  lemma ExecAddsRows(cfg: Config, s: State, t: nat, u': Txn)
    requires Runs(cfg, s, t) && RowsOk(cfg, s.db, s.txns[t]) && ExecStmt(cfg, s, t, Current(cfg, s, t), u')
    ensures forall id | id in u'.rows && id !in s.txns[t].rows :: id in BlindIds(s.txns[t].op) || id.BarrierId?
  {
    var u, stmt := s.txns[t], Current(cfg, s, t);
    ExecRows(cfg, s, t, stmt, u');
    if IsWrite(stmt) {
      WriteIsBlindOrHeld(cfg, s.db, u);
    } else if stmt.Hold? {
      HoldIsBlind(cfg, u.op, u.bound, u.pc);
    }
  }

  lemma HoldIsBlind(cfg: Config, op: Operation, bound: Option<(string, string)>, i: nat)
    requires Valid(op) && i < |Program(cfg, op, bound)| && Program(cfg, op, bound)[i].Hold?
    ensures Program(cfg, op, bound)[i].id in BlindIds(op)
  {
    if Removes(op) {
      RemoversDoNotWrite(cfg, op, bound, i);
    } else if op.Rotate? || op.SwapConsent? {
      ReadIsTheOnlyScan(cfg, op, bound, i);
    }
  }

  lemma WriteIsBlindOrHeld(cfg: Config, db: Db, u: Txn)
    requires u.outcome.Running? && RowsOk(cfg, db, u) && u.pc < |Program(cfg, u.op, u.bound)|
    requires IsWrite(Program(cfg, u.op, u.bound)[u.pc])
    ensures var stmt := Program(cfg, u.op, u.bound)[u.pc];
            IdOf(stmt.rec) in BlindIds(u.op) || IdOf(stmt.rec) in u.rows || (stmt.Update? && IdOf(stmt.rec) !in u.hits)
  {
    var stmt := Program(cfg, u.op, u.bound)[u.pc];
    WrittenKeys(cfg, u.op, u.bound, u.pc);
    if WritesOver(u.op, IdOf(stmt.rec)) && u.pc > ReadIndex(cfg, u.op) { HeldOver(cfg, db, u, IdOf(stmt.rec)); }
  }

  lemma HeldOver(cfg: Config, db: Db, u: Txn, id: RowId)
    requires u.outcome.Running? && RowsOk(cfg, db, u) && WritesOver(u.op, id) && u.pc > ReadIndex(cfg, u.op)
    ensures id in u.rows
  {
  }

  lemma ScanAddsRows(cfg: Config, s: State, t: nat, stmt: Stmt, id: RowId, u': Txn)
    requires t in s.txns && s.txns[t].puts.Keys <= s.txns[t].rows && ScanRowStmt(cfg, s, t, stmt, id, u')
    ensures forall i | i in u'.rows && i !in s.txns[t].rows :: i in s.db
  {
  }

  lemma NewIdsAreKeyed(op: Operation)
    requires Valid(op)
    ensures forall id | id in NewIds(op) :: id.Keyed?
  {
  }

  /** The rows a transaction comes to hold: committed ones, barriers, and keys of its own. */
  lemma StepAddsRows(cfg: Config, s: State, e: Event, s': State)
    requires Step(cfg, s, e, s') && !e.Begin?
    requires RowsOk(cfg, s.db, s.txns[e.t])
    ensures s'.txns[e.t].op == s.txns[e.t].op
    ensures s'.txns[e.t].rows <= s.txns[e.t].rows || s.txns[e.t].outcome.Running?
    ensures forall id | id in s'.txns[e.t].rows && id !in s.txns[e.t].rows ::
              id in BlindIds(s.txns[e.t].op) || id.BarrierId? || id in s.db
  {
    var t, u' := e.t, s'.txns[e.t];
    StepKeepsOp(cfg, s, e, s');
    match e {
      case Exec(_) => ExecAddsRows(cfg, s, t, u');
      case ScanRow(_, id) => ScanAddsRows(cfg, s, t, Current(cfg, s, t), id, u');
      case _ =>
    }
  }

  lemma StepAddsToDb(cfg: Config, s: State, e: Event, s': State)
    requires CommitInv(cfg, s) && Step(cfg, s, e, s')
    ensures Framed(s, e, s')
    ensures forall id | id in s'.db && id !in s.db :: e.t in s.txns && id in s.txns[e.t].rows
  {
    StepIsFramed(cfg, s, e, s');
    if e.Publish? { assert RunningOk(cfg, s.db, s.txns[e.t]); }
  }

  /** Somebody else's step leaves the new keys of a running transaction unknown. */
  lemma OtherStepKeepsNew(cfg: Config, s: State, e: Event, s': State, t: nat)
    requires CommitInv(cfg, s) && Step(cfg, s, e, s') && t in s.txns && t != e.t
    requires s.txns[t].outcome.Running? && StillNew(s, t)
    requires e.Begin? ==> NewStart(s, e.op)
    ensures StillNew(s', t)
  {
    assert RowsOk(cfg, s.db, s.txns[t]);
    NewIdsAreKeyed(s.txns[t].op);
    StepAddsToDb(cfg, s, e, s');
    if !e.Begin? {
      assert RowsOk(cfg, s.db, s.txns[e.t]);
      StepAddsRows(cfg, s, e, s');
    }
    StaysNew(s, e, s', t);
  }

  lemma StaysNew(s: State, e: Event, s': State, t: nat)
    requires t in s.txns && t != e.t && s.txns[t].outcome.Running? && StillNew(s, t)
    requires Framed(s, e, s')
    requires forall id | id in s'.db && id !in s.db :: e.t in s.txns && id in s.txns[e.t].rows
    requires forall id | id in NewIds(s.txns[t].op) :: id.Keyed?
    requires if e.Begin? then NewStart(s, e.op)
             else
               && s'.txns[e.t].op == s.txns[e.t].op
               && (s'.txns[e.t].rows <= s.txns[e.t].rows || s.txns[e.t].outcome.Running?)
               && forall id | id in s'.txns[e.t].rows && id !in s.txns[e.t].rows ::
                    id in BlindIds(s.txns[e.t].op) || id.BarrierId? || id in s.db
    ensures StillNew(s', t)
  {
    var ids := NewIds(s.txns[t].op);
    if e.t in s.txns { assert ids !! s.txns[e.t].rows && ids !! s.db.Keys; }
    assert forall id | id in ids :: id !in s'.db && id !in s'.txns[e.t].rows;
  }

  lemma OwnStepKeepsNew(s: State, e: Event, s': State)
    requires Framed(s, e, s') && !e.Publish? && s'.txns[e.t].outcome.Running?
    requires if e.Begin? then NewStart(s, e.op) else StillNew(s, e.t) && s'.txns[e.t].op == s.txns[e.t].op
    ensures StillNew(s', e.t)
  {
  }

  lemma OwnStepKeepsLockInv(cfg: Config, s: State, e: Event, s': State, prog: seq<Stmt>)
    requires Step(cfg, s, e, s') && s'.txns[e.t].outcome.Running?
    requires e.Exec? || e.ScanStart? || e.ScanRow?
    requires prog == Program(cfg, s.txns[e.t].op, s.txns[e.t].bound) && Separate(prog)
    requires LockInv(cfg, prog, s.txns[e.t])
    ensures LockInv(cfg, prog, s'.txns[e.t])
    ensures s'.txns[e.t].op == s.txns[e.t].op && s'.txns[e.t].bound == s.txns[e.t].bound
  {
    var t, u' := e.t, s'.txns[e.t];
    match e {
      case Exec(_) =>
        ExecKeepsOp(cfg, s, t, prog[s.txns[t].pc], u');
        ExecKeepsLockInv(cfg, s, t, prog, u');
      case ScanStart(_, snapshot) => ScanStartKeepsLockInv(cfg, s, t, prog, snapshot, u');
      case ScanRow(_, id) => ScanRowKeepsLockInv(cfg, s, t, prog, id, u');
    }
  }

  lemma ScanEndKeepsHolding(cfg: Config, s: State, t: nat, s': State)
    requires Step(cfg, s, ScanEnd(t), s') && s'.txns[t].outcome.Running? && RunningOk(cfg, s.db, s.txns[t])
    requires LockInv(cfg, Program(cfg, s.txns[t].op, s.txns[t].bound), s.txns[t])
    ensures LockInv(cfg, Program(cfg, s'.txns[t].op, s'.txns[t].bound), s'.txns[t])
  {
    var u := s.txns[t];
    ProgramGrows(cfg, u);
    ScanEndKeepsLockInv(cfg, Program(cfg, u.op, u.bound), Program(cfg, u.op, Claimed(u)), u, Claimed(u));
  }

  lemma OwnHolding(cfg: Config, s: State, e: Event, s': State)
    requires LockingInv(cfg, s) && Step(cfg, s, e, s') && s'.txns[e.t].outcome.Running?
    ensures Valid(s'.txns[e.t].op)
    ensures LockInv(cfg, Program(cfg, s'.txns[e.t].op, s'.txns[e.t].bound), s'.txns[e.t])
  {
    if !e.Begin? {
      var u := s.txns[e.t];
      assert HoldingOk(cfg, s, e.t) && RunningOk(cfg, s.db, u);
      if e.ScanEnd? {
        ScanEndKeepsHolding(cfg, s, e.t, s');
      } else {
        ProgramSeparate(cfg, u.op, u.bound);
        OwnStepKeepsLockInv(cfg, s, e, s', Program(cfg, u.op, u.bound));
      }
    }
  }

  lemma StepKeepsLockingInv(cfg: Config, s: State, e: Event, s': State)
    requires cfg.locking && LockingInv(cfg, s) && Step(cfg, s, e, s')
    requires e.Begin? ==> FreshStart(s, e.t, e.op)
    ensures LockingInv(cfg, s')
  {
    StepKeepsCommitInv(cfg, s, e, s');
    StepKeepsIndex(cfg, s, e, s');
    forall t | t in s'.txns ensures HoldingOk(cfg, s', t) {
      if t == e.t {
        OwnHoldingOk(cfg, s, e, s');
      } else {
        StepIsFramed(cfg, s, e, s');
        OtherHoldingOk(cfg, s, e, s', t);
      }
    }
  }

  lemma OtherHoldingOk(cfg: Config, s: State, e: Event, s': State, t: nat)
    requires LockingInv(cfg, s) && Step(cfg, s, e, s') && t in s.txns && t != e.t && t in s'.txns
    requires s'.txns[t] == s.txns[t]
    requires e.Begin? ==> FreshStart(s, e.t, e.op)
    ensures HoldingOk(cfg, s', t)
  {
    assert HoldingOk(cfg, s, t);
    if s.txns[t].outcome.Running? {
      OtherStepKeepsNew(cfg, s, e, s', t);
      if DeviceWrite(s.txns[t].op).Some? {
        if !e.Begin? { assert HoldingOk(cfg, s, e.t); }
        OtherStepKeepsCode(cfg, s, e, s', t, DeviceWrite(s.txns[t].op).value);
      }
    }
  }

  lemma OwnHoldingOk(cfg: Config, s: State, e: Event, s': State)
    requires LockingInv(cfg, s) && Step(cfg, s, e, s')
    requires e.Begin? ==> FreshStart(s, e.t, e.op)
    ensures HoldingOk(cfg, s', e.t)
  {
    if s'.txns[e.t].outcome.Running? {
      if !e.Begin? { assert HoldingOk(cfg, s, e.t) && RowsOk(cfg, s.db, s.txns[e.t]); }
      OwnHolding(cfg, s, e, s');
      StepIsFramed(cfg, s, e, s');
      if !e.Begin? {
        StepKeepsOp(cfg, s, e, s');
        StepKeepsOwnPuts(cfg, s, e, s');
      }
      OwnStepKeepsNew(s, e, s');
      if DeviceWrite(s'.txns[e.t].op).Some? { OwnStepKeepsCode(s, e, s', DeviceWrite(s'.txns[e.t].op).value); }
    }
  }

  lemma {:induction false} RunKeepsLockingInv(cfg: Config, states: seq<State>, events: seq<Event>, n: nat)
    requires cfg.locking && Run(cfg, states, events) && FreshRun(states, events)
    requires n < |states|
    ensures LockingInv(cfg, states[n])
  {
    if n == 0 {
      InitInv(cfg);
    } else {
      RunKeepsLockingInv(cfg, states, events, n - 1);
      assert StepAt(cfg, states, events, n - 1);
      StepKeepsLockingInv(cfg, states[n - 1], events[n - 1], states[n]);
    }
  }

  // ----- whoever waits holds only lower ranks

  lemma HeldBelow(cfg: Config, rank: KeyRank, op: Operation, prog: seq<Stmt>, u: Txn, stmt: Stmt, held: Resource)
    requires Climbs(rank, op, prog) && u.pc < |prog| && prog[u.pc] == stmt && Waitable(op, stmt)
    requires LockInv(cfg, prog, u) && Holds(u, held) && !held.CodeRes?
    requires forall x | x in prog :: WaitingScan(x)
    ensures Class(rank, held) < StmtClass(rank, stmt) || (held.RowRes? && Acquires(stmt, held.id) && u.scan.Some?)
  {
    match held
    case KeyRes(key) =>
      var i :| 0 <= i < u.pc && prog[i] == Lock(key, u.keys[key]);
    case RowRes(id) => RowHeldBelow(cfg, rank, op, prog, u, id);
  }

  lemma RowHeldBelow(cfg: Config, rank: KeyRank, op: Operation, prog: seq<Stmt>, u: Txn, id: RowId)
    requires Climbs(rank, op, prog) && u.pc < |prog| && Waitable(op, prog[u.pc])
    requires LockInv(cfg, prog, u) && id in u.rows
    requires forall x | x in prog :: WaitingScan(x)
    ensures RowClass(id) < StmtClass(rank, prog[u.pc]) || (Acquires(prog[u.pc], id) && u.scan.Some?)
  {
    var x :| x in prog[..Reach(u)] && Acquires(x, id);
    var i :| 0 <= i < Reach(u) && prog[i] == x;
    if i < u.pc {
      assert prog[i] in prog[..u.pc] && prog[i] in prog;
      assert StmtClass(rank, prog[i]) < StmtClass(rank, prog[u.pc]);
      assert RowClass(id) == StmtClass(rank, x);
    }
  }

  predicate WaitingScan(x: Stmt) {
    x.Scan? ==>
      !x.skipLocked && TableOf(x.pred) != Barriers && (x.action.LockRow? ==> x.pred.ByKey? || x.pred.ByState?)
  }

  /** Only a sweep skips locked rows; no other scan reads the barriers; a row is locked by its key. */
  lemma ScansOfWaiter(cfg: Config, op: Operation, bound: Option<(string, string)>)
    requires Valid(op) && !op.SweepBatch?
    ensures forall x | x in Program(cfg, op, bound) :: WaitingScan(x)
  {
    match op
    case PutGuarded(r) =>
      PutProgram(cfg, r, bound);
      GuardedScans(cfg, GuardOf(r), [Upsert(r)]);
    case Rotate(e, _, _, _) =>
      RotationProgram(cfg, op, bound);
      GuardedScans(cfg, GuardOf(e), RotationRead(op) + RotationWrites(op));
    case DeleteClient(c, w) => RevocationScans(cfg, ClientScope(c), w, ClientRemovals(c));
    case RevokeFamily(f, w) => RevocationScans(cfg, FamilyScope(f), w, FamilyRemovals(f));
    case RevokeConsent(id, w) =>
      if bound.Some? {
        var (c, s) := bound.value;
        WithdrawalProgram(cfg, id, w, c, s);
        RevocationScans(cfg, ConsentScope(c, s), w, PairRemovals(c, s));
      }
    case _ =>
  }

  lemma GuardedScans(cfg: Config, g: Guard, rest: seq<Stmt>)
    requires forall x | x in rest :: WaitingScan(x)
    ensures forall x | x in GuardLocks(cfg, g) + [Check(g)] + rest :: WaitingScan(x)
  {
  }

  lemma RevocationScans(cfg: Config, scope: Scope, w: Window, removals: seq<Stmt>)
    requires forall x | x in removals :: WaitingScan(x)
    ensures forall x | x in Revocation(cfg, scope, w, removals) :: WaitingScan(x)
  {
  }

  /** A transaction that is blocked is blocked at a statement that may wait. */
  lemma BlockedWaits(cfg: Config, s: State, t: nat, r: Resource, t': nat)
    requires LockingInv(cfg, s) && Blocked(cfg, s, t, r, t')
    ensures !s.txns[t].op.SweepBatch? && Waitable(s.txns[t].op, Current(cfg, s, t)) && !r.CodeRes?
  {
    var u, stmt := s.txns[t], Current(cfg, s, t);
    assert RowsOk(cfg, s.db, u) && HoldingOk(cfg, s, t);
    if IsWrite(stmt) && stmt.rec.DeviceGrant? {
      DeviceWriteIsFree(cfg, s, t, t');
    } else if IsWrite(stmt) && (u.op.Rotate? || u.op.SwapConsent? || u.op.Swap?) {
      WriteIsBlindOrHeld(cfg, s.db, u);
    }
  }

  /** A device grant is written over a row the transaction holds, and its code is its own. */
  lemma DeviceWriteIsFree(cfg: Config, s: State, t: nat, t': nat)
    requires LockingInv(cfg, s) && Runs(cfg, s, t) && t' in s.txns && t' != t
    requires IsWrite(Current(cfg, s, t)) && Current(cfg, s, t).rec.DeviceGrant?
    requires Current(cfg, s, t).Update? ==> IdOf(Current(cfg, s, t).rec) in s.txns[t].hits
    ensures IdOf(Current(cfg, s, t).rec) !in s.txns[t'].rows
    ensures forall code | code in CodesOf(Current(cfg, s, t).rec) :: code !in s.txns[t'].codes
  {
    var u, stmt := s.txns[t], Current(cfg, s, t);
    assert RowsOk(cfg, s.db, u) && HoldingOk(cfg, s, t);
    DeviceStmt(cfg, u.op, u.bound, u.pc);
    DeviceRowHeld(cfg, u);
  }

  lemma DeviceRowHeld(cfg: Config, u: Txn)
    requires Valid(u.op) && LockInv(cfg, Program(cfg, u.op, u.bound), u) && u.pc < |Program(cfg, u.op, u.bound)|
    requires var stmt := Program(cfg, u.op, u.bound)[u.pc];
             && IsWrite(stmt) && DeviceWrite(u.op) == Some(stmt.rec)
             && (stmt.Update? ==> IdOf(stmt.rec) in u.hits && u.hits.Keys <= u.rows)
    ensures IdOf(Program(cfg, u.op, u.bound)[u.pc].rec) in u.rows
  {
    var prog := Program(cfg, u.op, u.bound);
    if u.op.Put? {
      assert prog == [Hold(IdOf(u.op.rec)), Upsert(u.op.rec)];
      assert prog[..u.pc][0] == Hold(IdOf(u.op.rec));
    }
  }

  /** A removal of whatever a statement finds, not of a row named by its key, that waits for locked rows. */
  predicate RemovesMany(stmt: Stmt) {
    stmt.Scan? && stmt.action.Remove? && !stmt.skipLocked && !stmt.pred.ByKey? && !stmt.pred.ByState?
  }

  /** Two rows of one multi-row statement that the row order leaves open: the statement holds the first and
  asks for the second. */
  ghost predicate Tied(cfg: Config, stmt: Stmt, u: Txn, held: Resource, r: Resource) {
    && RemovesMany(stmt) && held.RowRes? && r.RowRes? && held.id in u.rows && held != r
    && held.id.Table() == r.id.Table() != Barriers && cfg.order(held.id) == cfg.order(r.id)
  }

  /** Everything a transaction holds ranks below what its next statement waits for, or is tied with it. */
  lemma HeldBelowRequest(cfg: Config, rank: KeyRank, op: Operation, prog: seq<Stmt>, u: Txn, held: Resource,
                         r: Resource)
    requires Climbs(rank, op, prog) && u.pc < |prog| && Waitable(op, prog[u.pc])
    requires LockInv(cfg, prog, u) && Holds(u, held) && Requests(cfg, u, prog[u.pc], r)
    requires !held.CodeRes? && !r.CodeRes?
    requires forall x | x in prog :: WaitingScan(x)
    ensures Below(cfg, rank, held, r) || Tied(cfg, prog[u.pc], u, held, r)
  {
    HeldBelow(cfg, rank, op, prog, u, prog[u.pc], held);
    assert prog[u.pc] in prog;
    assert Class(rank, r) == StmtClass(rank, prog[u.pc]);
  }

  lemma BlockedHoldsBelow(cfg: Config, rank: KeyRank, s: State, t: nat, r: Resource, t': nat, held: Resource)
    requires cfg.locking && cfg.keyOrder.ClientBeforeConsent() && RanksKeys(rank, cfg.keyOrder)
    requires LockingInv(cfg, s) && Blocked(cfg, s, t, r, t') && Holds(s.txns[t], held) && !held.CodeRes?
    ensures Below(cfg, rank, held, r) || Tied(cfg, Current(cfg, s, t), s.txns[t], held, r)
  {
    BlockedWaits(cfg, s, t, r, t');
    WaiterHoldsBelow(cfg, rank, s, t, r, held);
  }

  lemma WaiterHoldsBelow(cfg: Config, rank: KeyRank, s: State, t: nat, r: Resource, held: Resource)
    requires cfg.locking && cfg.keyOrder.ClientBeforeConsent() && RanksKeys(rank, cfg.keyOrder)
    requires LockingInv(cfg, s) && Wants(cfg, s, t, r) && Holds(s.txns[t], held) && !held.CodeRes? && !r.CodeRes?
    requires !s.txns[t].op.SweepBatch? && Waitable(s.txns[t].op, Current(cfg, s, t))
    ensures Below(cfg, rank, held, r) || Tied(cfg, Current(cfg, s, t), s.txns[t], held, r)
  {
    var u := s.txns[t];
    assert HoldingOk(cfg, s, t);
    ScansOfWaiter(cfg, u.op, u.bound);
    ProgramClimbs(cfg, rank, u.op, u.bound);
    HeldBelowRequest(cfg, rank, u.op, Program(cfg, u.op, u.bound), u, held, r);
  }
}
