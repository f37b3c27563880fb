/** The store as a step system.

Any number of transactions run side by side. A transaction executes the statements of its operation
one at a time; a statement reads the committed rows plus the transaction's own uncommitted changes,
and a statement over several rows locks and rechecks them one by one. Committing publishes the changes
and only afterwards releases the locks. Nothing here assumes anything about the lock hash or about the
order in which a statement meets its rows: both are parameters. */
module Protocol {
  import opened Options
  import opened Time
  import opened LockKeys
  import opened UserCodes
  import opened Records

  /** The three kinds of keys a guarded write locks, and the six orders it could take them in. */
  datatype KeyKind = ClientKey | FamilyKey | ConsentKey

  datatype KeyOrder =
    | ClientFamilyConsent | ClientConsentFamily | FamilyClientConsent
    | FamilyConsentClient | ConsentClientFamily | ConsentFamilyClient
  {
    function Kinds(): (kinds: seq<KeyKind>) {
      match this
      case ClientFamilyConsent => [ClientKey, FamilyKey, ConsentKey]
      case ClientConsentFamily => [ClientKey, ConsentKey, FamilyKey]
      case FamilyClientConsent => [FamilyKey, ClientKey, ConsentKey]
      case FamilyConsentClient => [FamilyKey, ConsentKey, ClientKey]
      case ConsentClientFamily => [ConsentKey, ClientKey, FamilyKey]
      case ConsentFamilyClient => [ConsentKey, FamilyKey, ClientKey]
    }

    predicate ClientBeforeConsent() {
      ClientFamilyConsent? || ClientConsentFamily? || FamilyClientConsent?
    }
  }

  /** `hash` maps lock keys to the 64-bit lock space of the database. `order` is the order in which a
  multi-row statement reaches rows (equal values: any order). `keyOrder` is the order in which a guarded
  write takes its keys; the source uses `ClientFamilyConsent`. `locking` switches the advisory locks off,
  to show what they are for. */
  datatype Config = Config(hash: string -> int, order: RowId -> int, locking: bool, keyOrder: KeyOrder)

  const SWEEP_BATCH_ROWS: nat := 5000

  // ----- statements

  datatype Mode = Shared | Exclusive

  /** What a swap compares: the whole record, or only its state. */
  datatype Expected = Whole(r: Record) | OfDevice(s: DeviceState) | OfCode(c: CodeState)

  datatype Pred =
    | ByKey(id: RowId)
    | ByState(id: RowId, expected: Expected)
    | ByClient(table: Table, client: string)
    | ByFamily(table: Table, family: string)
    | ByPair(table: Table, client: string, subject: string)
    | Expired(table: Table, cutoff: Nanos)

  datatype Action = Remove | LockRow | LockNewest

  /** `Hold` and `Update` are the halves of a write whose row has a second unique index: it reaches its row
  first and enters its new index entry afterwards. `Update` writes over the row the scan before it found,
  and does nothing when there was none. */
  datatype Stmt =
    | Lock(key: string, mode: Mode)
    | Check(guard: Guard)
    | RecordBarrier(scope: Scope, window: Window)
    | Upsert(rec: Record)
    | InsertNew(rec: Record)
    | Hold(id: RowId)
    | Update(rec: Record)
    | Scan(pred: Pred, action: Action, skipLocked: bool)

  predicate HasExpected(r: Record, e: Expected) {
    match e
    case Whole(x) => r == x
    case OfDevice(s) => r.DeviceGrant? && r.deviceState == s
    case OfCode(c) => r.Code? && r.codeState == c
  }

  /** The WHERE clause, on the columns; only the swaps look into the payload. */
  predicate Matches(p: Pred, id: RowId, row: Row) {
    match p
    case ByKey(k) => id == k
    case ByState(k, e) => id == k && HasExpected(row.payload, e)
    case ByClient(t, c) => id.Table() == t && row.cols.client == c
    case ByFamily(t, f) => id.Table() == t && row.cols.family == Some(f)
    case ByPair(t, c, s) => id.Table() == t && row.cols.client == c && row.cols.subject == Some(s)
    case Expired(t, n) => id.Table() == t && row.cols.expires.Some? && row.cols.expires.value <= n
  }

  // ----- operations and their statements

  datatype Operation =
    | PutGuarded(rec: Record)
    | Rotate(presented: Record, spent: Record, access: Record, next: Option<Record>)
    | DeleteClient(client: string, window: Window)
    | RevokeFamily(family: string, window: Window)
    | RevokeConsent(consentId: string, window: Window)
    | Put(rec: Record)
    | SwapConsent(expectedConsent: Option<Record>, updatedConsent: Record)
    | Swap(expected: Expected, updated: Record)
    | Take(id: RowId)
    | Claim(rec: Record)
    | SweepBatch(table: Table, cutoff: Nanos)

  /** What the trait asks of its callers: each operation gets records of its own kind, and the records
  of a rotation belong to one grant. */
  predicate Valid(op: Operation) {
    match op
    case PutGuarded(r) => IsGuarded(r)
    case Rotate(e, s, a, n) =>
      && e.RefreshToken? && s.RefreshToken? && a.AccessToken? && s.token == e.token
      && GuardOf(s) == GuardOf(e) && GuardOf(a) == GuardOf(e)
      && (n.Some? ==> n.value.RefreshToken? && GuardOf(n.value) == GuardOf(e))
    case DeleteClient(_, _) | RevokeFamily(_, _) | RevokeConsent(_, _) => true
    case Put(r) => r.Client? || r.Consent? || r.Code? || r.DeviceGrant?
    case SwapConsent(e, u) => u.Consent? && (e.Some? ==> e.value.Consent?)
    case Swap(e, u) => (u.Client? && e.Whole?) || (u.Code? && e.OfCode?) || (u.DeviceGrant? && e.OfDevice?)
    case Take(id) =>
      id.Keyed? && id.name in {AccessTokens, RefreshTokens, Codes, DeviceGrants, PushedRequests}
    case Claim(r) => r.ReplayId?
    case SweepBatch(t, _) => t != Clients && t != Consents
  }

  /** The key of one kind that a write needs, if it needs one. */
  function KindKeys(g: Guard, kind: KeyKind): (keys: seq<string>) {
    match kind
    case ClientKey => [KeyOf(ClientScope(g.client))]
    case FamilyKey => if g.family.Some? then [KeyOf(FamilyScope(g.family.value))] else []
    case ConsentKey => if g.subject.Some? then [KeyOf(ConsentScope(g.client, g.subject.value))] else []
  }

  /** The keys of one guarded write in acquisition order. */
  function BarrierScopeKeys(g: Guard, order: KeyOrder): (keys: seq<string>) {
    var kinds := order.Kinds();
    KindKeys(g, kinds[0]) + KindKeys(g, kinds[1]) + KindKeys(g, kinds[2])
  }

  function SharedLocks(keys: seq<string>): (locks: seq<Stmt>) {
    seq(|keys|, i requires 0 <= i < |keys| => Lock(keys[i], Shared))
  }

  function GuardLocks(cfg: Config, g: Guard): (locks: seq<Stmt>) {
    if cfg.locking then SharedLocks(BarrierScopeKeys(g, cfg.keyOrder)) else []
  }

  function ExclusiveLock(cfg: Config, key: string): (locks: seq<Stmt>) {
    if cfg.locking then [Lock(key, Exclusive)] else []
  }

  function CasKey(client: string, subject: string): string { ScopeKey("consent_cas", client, subject) }

  function Deletion(p: Pred): Stmt { Scan(p, Remove, false) }

  /** What the deletion of a client removes: consents first, the registration last. */
  function ClientRemovals(c: string): (stmts: seq<Stmt>) {
    [Deletion(ByClient(Consents, c)), Deletion(ByClient(AccessTokens, c)),
     Deletion(ByClient(RefreshTokens, c)), Deletion(ByClient(Codes, c)),
     Deletion(ByClient(DeviceGrants, c)), Deletion(ByClient(PushedRequests, c)),
     Deletion(ByKey(Keyed(Clients, c)))]
  }

  function FamilyRemovals(f: string): (stmts: seq<Stmt>) {
    [Deletion(ByFamily(AccessTokens, f)), Deletion(ByFamily(RefreshTokens, f))]
  }

  function PairRemovals(c: string, s: string): (stmts: seq<Stmt>) {
    [Deletion(ByPair(AccessTokens, c, s)), Deletion(ByPair(RefreshTokens, c, s)),
     Deletion(ByPair(Codes, c, s)), Deletion(ByPair(DeviceGrants, c, s))]
  }

  /** A revocation: the exclusive lock of its scope, the barrier, the removals. */
  function Revocation(cfg: Config, scope: Scope, w: Window, removals: seq<Stmt>): (prog: seq<Stmt>) {
    ExclusiveLock(cfg, KeyOf(scope)) + [RecordBarrier(scope, w)] + removals
  }

  /** The statements of an operation. `bound` is the pair a withdrawal learned from its own claim. */
  function Program(cfg: Config, op: Operation, bound: Option<(string, string)>): (prog: seq<Stmt>)
    requires Valid(op)
  {
    match op
    case PutGuarded(r) => GuardLocks(cfg, GuardOf(r)) + [Check(GuardOf(r)), Upsert(r)]
    case Rotate(e, s, a, n) =>
      GuardLocks(cfg, GuardOf(e))
      + [Check(GuardOf(e)), Scan(ByKey(IdOf(e)), LockRow, false), Upsert(s), Upsert(a)]
      + (if n.Some? then [Upsert(n.value)] else [])
    case DeleteClient(c, w) => Revocation(cfg, ClientScope(c), w, ClientRemovals(c))
    case RevokeFamily(f, w) => Revocation(cfg, FamilyScope(f), w, FamilyRemovals(f))
    case RevokeConsent(id, w) =>
      [Deletion(ByKey(Keyed(Consents, id)))]
      + (match bound
         case None => []
         case Some((c, s)) => Revocation(cfg, ConsentScope(c, s), w, PairRemovals(c, s)))
    case Put(r) => if r.DeviceGrant? then [Hold(IdOf(r)), Upsert(r)] else [Upsert(r)]
    case SwapConsent(e, u) =>
      ExclusiveLock(cfg, CasKey(u.client, u.subjectId))
      + [Scan(ByPair(Consents, u.client, u.subjectId), LockNewest, false), Upsert(u)]
    case Swap(e, u) => [Scan(ByState(IdOf(u), e), LockRow, false), Update(u)]
    case Take(id) => [Deletion(ByKey(id))]
    case Claim(r) => [InsertNew(r)]
    case SweepBatch(t, n) => [Scan(Expired(t, n), Remove, true)]
  }

  // ----- transactions

  datatype Outcome = Running | Committed | RolledBack

  /** `hits` are the row versions the transaction has locked through a scan; `scan` is the rest of the
  snapshot of the scan in progress. `codes` are the entries of the unique user-code index that it has
  touched: those of the rows it is changing or removing, and those it has entered itself. */
  datatype Txn = Txn(
    op: Operation, pc: nat, bound: Option<(string, string)>, outcome: Outcome,
    keys: map<string, Mode>, rows: set<RowId>, codes: set<string>,
    puts: map<RowId, Row>, dels: set<RowId>,
    hits: map<RowId, Row>, scan: Option<map<RowId, Row>>)

  datatype State = State(db: Db, txns: map<nat, Txn>, clock: nat)

  function Started(op: Operation): Txn {
    Txn(op, 0, None, Running, map[], {}, {}, map[], {}, map[], None)
  }

  /** Committed rows plus the transaction's own changes. */
  function View(db: Db, u: Txn): (view: Db) { (db - u.dels) + u.puts }

  /** No other transaction holds the key, or a key with the same hash, in a conflicting mode. */
  ghost predicate KeyFree(cfg: Config, s: State, t: nat, key: string, mode: Mode) {
    forall t', k | t' in s.txns && t' != t && k in s.txns[t'].keys && cfg.hash(k) == cfg.hash(key)
      :: mode.Shared? && s.txns[t'].keys[k].Shared?
  }

  ghost predicate RowFree(s: State, t: nat, id: RowId) {
    forall t' | t' in s.txns && t' != t :: id !in s.txns[t'].rows
  }

  /** No other transaction has touched the index entry of the code. */
  ghost predicate CodeFree(s: State, t: nat, code: string) {
    forall t' | t' in s.txns && t' != t :: code !in s.txns[t'].codes
  }

  /** Another row carries the code. */
  predicate Taken(view: Db, code: string, id: RowId) {
    exists other | other in view :: other != id && view[other].cols.userCode == Some(code)
  }

  /** The index entries of a record, and of the row under a key. */
  function CodesOf(r: Record): (codes: set<string>) {
    if r.DeviceGrant? then {Normalize(r.userCode)} else {}
  }

  function CodesAt(view: Db, id: RowId): (codes: set<string>) {
    if id in view && view[id].cols.userCode.Some? then {view[id].cols.userCode.value} else {}
  }

  /** Recording a barrier keeps the later deadline and the later instant. */
  function Merge(present: Option<Record>, scope: Scope, w: Window): (b: Record) {
    var until, recorded := ToNanos(w.until), ToNanos(w.recordedAt);
    match present
    case Some(Barrier(_, u, r)) =>
      Barrier(scope, if u > until then u else until, if r > recorded then r else recorded)
    case _ => Barrier(scope, until, recorded)
  }

  function Stored(db: Db, id: RowId): (r: Option<Record>) {
    if id in db then Some(db[id].payload) else None
  }

  /** Writing a record: an existing row is updated in place, a missing one is inserted. */
  function Written(db: Db, u: Txn, r: Record, born: nat): (u': Txn) {
    var id, view := IdOf(r), View(db, u);
    var identity := if id in view then view[id].born else born;
    u.(rows := u.rows + {id}, codes := u.codes + CodesOf(r), puts := u.puts[id := RowOf(r, identity)],
       dels := u.dels - {id})
  }

  /** Writing a record waits for its row and for its index entry; a device grant whose code another row
  carries is a unique violation, which ends the transaction. */
  ghost predicate WriteStmt(s: State, t: nat, r: Record, u': Txn)
    requires t in s.txns
  {
    var u := s.txns[t];
    && RowFree(s, t, IdOf(r)) && (forall code | code in CodesOf(r) :: CodeFree(s, t, code))
    && u' == if exists code | code in CodesOf(r) :: Taken(View(s.db, u), code, IdOf(r))
             then u.(outcome := RolledBack)
             else Written(s.db, u, r, s.clock).(pc := u.pc + 1)
  }

  /** Everything except a scan is one step. A statement that has to wait is simply not enabled. */
  ghost predicate ExecStmt(cfg: Config, s: State, t: nat, stmt: Stmt, u': Txn)
    requires t in s.txns
  {
    var u := s.txns[t];
    match stmt
    case Lock(key, mode) =>
      && KeyFree(cfg, s, t, key, mode)
      && u' == u.(keys := u.keys[key := mode], pc := u.pc + 1)
    case Check(g) =>
      u' == if Covers(View(s.db, u), g) then u.(outcome := RolledBack) else u.(pc := u.pc + 1)
    case RecordBarrier(scope, w) =>
      if !NonEmpty(scope) then u' == u.(outcome := RolledBack)
      else
        && RowFree(s, t, BarrierId(scope))
        && u' == Written(s.db, u, Merge(Stored(View(s.db, u), BarrierId(scope)), scope, w),
                         s.clock).(pc := u.pc + 1)
    case Upsert(r) => WriteStmt(s, t, r, u')
    case Hold(id) =>
      && RowFree(s, t, id)
      && u' == u.(rows := u.rows + {id}, codes := u.codes + CodesAt(View(s.db, u), id), pc := u.pc + 1)
    case Update(r) =>
      if IdOf(r) in u.hits then WriteStmt(s, t, r, u') else u' == u.(pc := u.pc + 1)
    case InsertNew(r) =>
      && RowFree(s, t, IdOf(r))
      && u' == (if IdOf(r) in View(s.db, u) then u else Written(s.db, u, r, s.clock)).(pc := u.pc + 1)
    case Scan(_, _, _) => false
  }

  // ----- scans

  function Selected(view: Db, p: Pred): (rows: map<RowId, Row>) {
    map id | id in view && Matches(p, id, view[id]) :: view[id]
  }

  /** The snapshot of a scan: every matching row, or for a sweep one batch of them. */
  ghost predicate ScanStartStmt(s: State, t: nat, stmt: Stmt, snapshot: map<RowId, Row>, u': Txn)
    requires t in s.txns
  {
    var u := s.txns[t];
    && stmt.Scan? && u.scan.None?
    && (var all := Selected(View(s.db, u), stmt.pred);
        if !stmt.skipLocked then snapshot == all
        else
          && (forall id | id in snapshot :: id in all && snapshot[id] == all[id])
          && |snapshot| <= SWEEP_BATCH_ROWS
          && (|snapshot| < SWEEP_BATCH_ROWS ==>
                forall id | id in all && RowFree(s, t, id) :: id in snapshot))
    && u' == u.(scan := Some(snapshot))
  }

  /** The row the scan reaches next. */
  ghost predicate IsNext(cfg: Config, snapshot: map<RowId, Row>, action: Action, id: RowId) {
    && id in snapshot
    && forall other | other in snapshot ::
         if action.LockNewest? then snapshot[other].cols.granted <= snapshot[id].cols.granted
         else cfg.order(id) <= cfg.order(other)
  }

  /** After any wait the row is rechecked: it must still be the row of the snapshot and still match. */
  predicate StillMatches(view: Db, p: Pred, snapshot: map<RowId, Row>, id: RowId) {
    id in snapshot && id in view && view[id].born == snapshot[id].born && Matches(p, id, view[id])
  }

  function Hit(db: Db, u: Txn, action: Action, snapshot: map<RowId, Row>, id: RowId): (u': Txn)
    requires id in View(db, u)
  {
    var row := View(db, u)[id];
    var locked := u.(rows := u.rows + {id}, codes := u.codes + CodesAt(View(db, u), id),
                     hits := u.hits[id := row], scan := Some(snapshot - {id}));
    match action
    case Remove => locked.(puts := u.puts - {id}, dels := u.dels + {id})
    case LockRow => locked
    case LockNewest => locked.(scan := Some(map[]))
  }

  ghost predicate ScanRowStmt(cfg: Config, s: State, t: nat, stmt: Stmt, id: RowId, u': Txn)
    requires t in s.txns
  {
    var u := s.txns[t];
    && stmt.Scan? && u.scan.Some? && IsNext(cfg, u.scan.value, stmt.action, id)
    && if !StillMatches(View(s.db, u), stmt.pred, u.scan.value, id) then
         u' == u.(scan := Some(u.scan.value - {id}))
       else if RowFree(s, t, id) then
         u' == Hit(s.db, u, stmt.action, u.scan.value, id)
       else
         stmt.skipLocked && u' == u.(scan := Some(u.scan.value - {id}))
  }

  /** A comparing read goes on only when it found exactly what the caller expected. */
  predicate Proceeds(op: Operation, hits: map<RowId, Row>) {
    match op
    case Rotate(e, _, _, _) => IdOf(e) in hits && hits[IdOf(e)].payload == e
    case SwapConsent(e, _) =>
      if e.None? then hits == map[]
      else IdOf(e.value) in hits && hits[IdOf(e.value)].payload == e.value
    case _ => true
  }

  /** The pair a withdrawal reads out of the columns of the row it claimed. */
  function Claimed(u: Txn): (bound: Option<(string, string)>) {
    if u.op.RevokeConsent? && u.pc == 0 && Keyed(Consents, u.op.consentId) in u.hits then
      var cols := u.hits[Keyed(Consents, u.op.consentId)].cols;
      Some((cols.client, cols.subject.GetOr("")))
    else u.bound
  }

  predicate ScanEndStmt(u: Txn, u': Txn) {
    && u.scan == Some(map[])
    && u' == if Proceeds(u.op, u.hits)
             then u.(pc := u.pc + 1, scan := None, bound := Claimed(u))
             else u.(outcome := RolledBack)
  }

  // ----- steps and runs

  datatype Event =
    | Begin(t: nat, op: Operation)
    | Exec(t: nat)
    | ScanStart(t: nat, snapshot: map<RowId, Row>)
    | ScanRow(t: nat, id: RowId)
    | ScanEnd(t: nat)
    | Abort(t: nat)
    | Publish(t: nat)
    | Release(t: nat)

  /** The transaction is running and has a statement to execute. */
  predicate Runs(cfg: Config, s: State, t: nat) {
    && t in s.txns && s.txns[t].outcome.Running? && Valid(s.txns[t].op)
    && s.txns[t].pc < |Program(cfg, s.txns[t].op, s.txns[t].bound)|
  }

  function Current(cfg: Config, s: State, t: nat): Stmt
    requires Runs(cfg, s, t)
  {
    Program(cfg, s.txns[t].op, s.txns[t].bound)[s.txns[t].pc]
  }

  predicate Finished(cfg: Config, u: Txn) {
    u.outcome.Running? && Valid(u.op) && u.pc == |Program(cfg, u.op, u.bound)|
  }

  function Published(db: Db, u: Txn): (db': Db) { (db - u.dels) + u.puts }

  function With(s: State, t: nat, u: Txn): State { s.(txns := s.txns[t := u]) }

  ghost predicate Step(cfg: Config, s: State, e: Event, s': State) {
    match e
    case Begin(t, op) => t !in s.txns && Valid(op) && s' == With(s, t, Started(op))
    case Exec(t) =>
      && Runs(cfg, s, t) && s'.txns.Keys == s.txns.Keys
      && ExecStmt(cfg, s, t, Current(cfg, s, t), s'.txns[t])
      && s' == With(s, t, s'.txns[t]).(clock := s.clock + 1)
    case ScanStart(t, snapshot) =>
      && Runs(cfg, s, t) && s'.txns.Keys == s.txns.Keys
      && ScanStartStmt(s, t, Current(cfg, s, t), snapshot, s'.txns[t]) && s' == With(s, t, s'.txns[t])
    case ScanRow(t, id) =>
      && Runs(cfg, s, t) && s'.txns.Keys == s.txns.Keys
      && ScanRowStmt(cfg, s, t, Current(cfg, s, t), id, s'.txns[t]) && s' == With(s, t, s'.txns[t])
    case ScanEnd(t) =>
      && Runs(cfg, s, t) && s'.txns.Keys == s.txns.Keys && Current(cfg, s, t).Scan?
      && ScanEndStmt(s.txns[t], s'.txns[t]) && s' == With(s, t, s'.txns[t])
    case Abort(t) =>
      && t in s.txns && s.txns[t].outcome.Running?
      && s' == With(s, t, s.txns[t].(outcome := RolledBack))
    case Publish(t) =>
      && t in s.txns && Finished(cfg, s.txns[t])
      && s' == With(s, t, s.txns[t].(outcome := Committed)).(db := Published(s.db, s.txns[t]))
    case Release(t) =>
      && t in s.txns && !s.txns[t].outcome.Running?
      && s' == With(s, t, s.txns[t].(keys := map[], rows := {}, codes := {}))
  }

  function Init(): State { State(map[], map[], 0) }

  ghost predicate StepAt(cfg: Config, states: seq<State>, events: seq<Event>, i: nat)
    requires |states| == |events| + 1 && i < |events|
  {
    Step(cfg, states[i], events[i], states[i + 1])
  }

  /** A run: the states it passes through and the steps between them. */
  ghost predicate Run(cfg: Config, states: seq<State>, events: seq<Event>) {
    && |states| == |events| + 1 && states[0] == Init()
    && forall i | 0 <= i < |events| :: StepAt(cfg, states, events, i)
  }
}
