/** The commits of a run, in their order, as steps of the plain store of records.

A guarded write, a rotation, a family revocation, a plain write and a consent swap are exactly their single
step. A client deletion and a withdrawal are so on the tables whose writes consult the barriers; elsewhere
they are bounded from both sides, and Leftovers says what they may leave. A take, a claim or a swap is its
step or changes nothing, and Misses says when it may change nothing. */
module Serial {
  import opened Time
  import opened Records
  import opened Protocol
  import opened Invariant
  import opened NoResurrection
  import opened RowInvariant
  import opened Atomic
  import opened Commit
  import opened SingleUse
  import opened StoreSpec
  import opened CodeIndex

  /** What a withdrawal or a deletion leaves in the tables whose writes do not consult the barriers: at
  least what the single step leaves, at most what was there before. */
  ghost predicate Between(least: Store, store': Store, most: Store) {
    ProtectedPart(store') == ProtectedPart(least) && Within(least, store') && Within(store', most)
  }

  /** The effect an operation may have as one step. A statement that found no row has no effect. */
  ghost predicate SerialStep(op: Operation, store: Store, store': Store) {
    match op
    case PutGuarded(r) =>
      IsGuarded(r) && !IsRevoked(store, GuardOf(r)) && store' == store[IdOf(r) := r]
    case Rotate(e, s, a, n) =>
      && e.RefreshToken? && IdOf(e) in store && store[IdOf(e)] == e && !IsRevoked(store, GuardOf(e))
      && store' == Rotated(store, s, a, n)
    case RevokeFamily(f, w) => f != "" && store' == WithoutFamily(Recorded(store, FamilyScope(f), w), f)
    case DeleteClient(c, w) => Between(AfterDeleteClient(store, c, w), store', Recorded(store, ClientScope(c), w))
    case RevokeConsent(id, w) => store' == store || Withdrawn(store, id, w, store')
    case Put(r) => (r.DeviceGrant? ==> !Clashes(store, r)) && store' == store[IdOf(r) := r]
    case SwapConsent(e, r) =>
      (e.Some? ==> IdOf(e.value) in store && store[IdOf(e.value)] == e.value) && store' == store[IdOf(r) := r]
    case Swap(e, r) =>
      || store' == store
      || (&& IdOf(r) in store && HasExpected(store[IdOf(r)], e) && (r.DeviceGrant? ==> !Clashes(store, r))
          && store' == store[IdOf(r) := r])
    case Take(id) => store' == store || (id in store && store' == store - {id})
    case Claim(r) => store' == store || (IdOf(r) !in store && store' == store[IdOf(r) := r])
    case SweepBatch(t, n) => SweptSome(store, t, n, store')
  }

  ghost predicate Withdrawn(store: Store, id: string, w: Window, store': Store) {
    var key := Keyed(Consents, id);
    && key in store && store[key].Consent?
    && Between(AfterRevokeConsent(store, id, w), store',
               Recorded(store - {key}, ConsentScope(store[key].client, store[key].subjectId), w))
  }

  ghost predicate SweptSome(store: Store, t: Table, n: Nanos, store': Store) {
    Within(store', store) && forall id | id in store && id !in store' :: id.Table() == t && ExpiredBy(store[id], n)
  }

  function PlainHead(r: Record): (head: seq<Stmt>) { if r.DeviceGrant? then [Hold(IdOf(r))] else [] }

  lemma PlainAbs(db: Db, u: Txn, prog: seq<Stmt>, r: Record)
    requires RowInv(prog, db, u) && u.pc == |prog| && Effects(db, prog) == map[IdOf(r) := r]
    requires forall stmt | stmt in prog :: IsPlain(stmt) && !IsRemoval(stmt)
    ensures Abs(Published(db, u)) == Abs(db)[IdOf(r) := r]
    ensures u.dels == {} && Payloads(u.puts) == map[IdOf(r) := r]
  {
    FinishedEffects(prog, db, u);
    assert prog[..u.pc] == prog;
    assert Abs(db) - {} == Abs(db);
  }

  lemma PlainEffects(db: Db, r: Record)
    ensures Effects(db, PlainHead(r) + [Upsert(r)]) == map[IdOf(r) := r]
  {
    EffectsAfterQuiet(db, PlainHead(r), [Upsert(r)]);
    EffectsOne(db, Upsert(r));
  }

  /** A plain write adds its record; a device grant that commits clashes with no committed one. */
  lemma CommitPlain(cfg: Config, s: State, t: nat, r: Record)
    requires CommitInv(cfg, s) && IndexInv(s) && t in s.txns && Finished(cfg, s.txns[t]) && s.txns[t].op == Put(r)
    ensures Abs(Published(s.db, s.txns[t])) == Abs(s.db)[IdOf(r) := r]
    ensures r.DeviceGrant? ==> !Clashes(Abs(s.db), r)
  {
    var u := s.txns[t];
    assert Program(cfg, u.op, u.bound) == PlainHead(r) + [Upsert(r)];
    Ready(cfg, s, t);
    PlainEffects(s.db, r);
    PlainAbs(s.db, u, PlainHead(r) + [Upsert(r)], r);
    if r.DeviceGrant? { PutWithoutClash(Program(cfg, u.op, u.bound), s, t, r); }
  }

  lemma PutWithoutClash(prog: seq<Stmt>, s: State, t: nat, r: Record)
    requires IndexInv(s) && t in s.txns && s.txns[t].outcome.Running? && ColumnsAgree(s.db) && r.DeviceGrant?
    requires s.txns[t].pc <= |prog| && PutsOk(prog[..s.txns[t].pc], s.txns[t].puts)
    requires s.txns[t].dels == {} && Payloads(s.txns[t].puts) == map[IdOf(r) := r]
    ensures !Clashes(Abs(s.db), r)
  {
    var u, id := s.txns[t], IdOf(r);
    assert IndexOf(s.db, u);
    assert id in Payloads(u.puts) && Payloads(u.puts)[id] == r;
    assert PutOk(prog[..u.pc], id, u.puts[id]);
    assert u.puts.Keys == Payloads(u.puts).Keys;
    CommittedWithoutClash(s.db, u, r);
  }

  /** A swap that found its row replaces it, and only over the expected state and, for a device grant, with a
  code nobody else has; a swap that found none changes nothing. */
  lemma SwapSerial(cfg: Config, s: State, t: nat, e: Expected, r: Record)
    requires CommitInv(cfg, s) && IndexInv(s) && t in s.txns && Finished(cfg, s.txns[t]) && s.txns[t].op == Swap(e, r)
    ensures var store, store' := Abs(s.db), Abs(Published(s.db, s.txns[t]));
            if s.txns[t].hits == map[] then store' == store
            else && IdOf(r) in store && HasExpected(store[IdOf(r)], e) && (r.DeviceGrant? ==> !Clashes(store, r))
                 && store' == store[IdOf(r) := r]
  {
    var u := s.txns[t];
    CommitSwap(cfg, s, t, e, r);
    if u.hits != map[] && r.DeviceGrant? {
      SwapProgram(cfg, u.op, u.bound);
      Ready(cfg, s, t);
      SwapPuts(u, e, r);
      PutWithoutClash(Program(cfg, u.op, u.bound), s, t, r);
    }
  }

  lemma SwapPuts(u: Txn, e: Expected, r: Record)
    requires SwapOk(Swap(e, r), u) && u.pc == 2 && u.hits != map[]
    ensures u.dels == {} && Payloads(u.puts) == map[IdOf(r) := r]
  {
    var id :| id in u.hits;
  }

  lemma SweepSerial(cfg: Config, s: State, t: nat, table: Table, n: Nanos)
    requires CommitInv(cfg, s) && t in s.txns && Finished(cfg, s.txns[t]) && s.txns[t].op == SweepBatch(table, n)
    ensures SweptSome(Abs(s.db), table, n, Abs(Published(s.db, s.txns[t])))
  {
    CommitSweep(cfg, s, t, table, n);
  }

  lemma WithdrawalSerial(cfg: Config, s: State, t: nat, id: string, w: Window)
    requires cfg.locking && CommitInv(cfg, s) && t in s.txns && Finished(cfg, s.txns[t])
    requires s.txns[t].op == RevokeConsent(id, w)
    ensures var store, store' := Abs(s.db), Abs(Published(s.db, s.txns[t]));
              store' == store || Withdrawn(store, id, w, store')
  {
    CommitRevokeConsent(cfg, s, t, id, w);
  }

  lemma FamilySerial(cfg: Config, s: State, t: nat, f: string, w: Window)
    requires cfg.locking && CommitInv(cfg, s) && t in s.txns && Finished(cfg, s.txns[t])
    requires s.txns[t].op == RevokeFamily(f, w)
    ensures f != "" && Abs(Published(s.db, s.txns[t])) == WithoutFamily(Recorded(Abs(s.db), FamilyScope(f), w), f)
  {
    CommitRevokeFamily(cfg, s, t, f, w);
    FamilyProgram(cfg, f, w, s.txns[t].bound);
    RevocationCommit(cfg, s, t, [], FamilyScope(f), w, FamilyRemovals(f));
  }

  lemma CommitIsSerial(cfg: Config, s: State, t: nat)
    requires cfg.locking && CommitInv(cfg, s) && IndexInv(s) && t in s.txns && Finished(cfg, s.txns[t])
    ensures SerialStep(s.txns[t].op, Abs(s.db), Abs(Published(s.db, s.txns[t])))
  {
    var op := s.txns[t].op;
    match op {
      case PutGuarded(r) => CommitPut(cfg, s, t, r);
      case Rotate(_, _, _, _) => CommitRotate(cfg, s, t, op);
      case RevokeFamily(f, w) => FamilySerial(cfg, s, t, f, w);
      case DeleteClient(c, w) => CommitDeleteClient(cfg, s, t, c, w);
      case RevokeConsent(id, w) => WithdrawalSerial(cfg, s, t, id, w);
      case Put(r) => CommitPlain(cfg, s, t, r);
      case SwapConsent(e, r) => CommitSwapConsent(cfg, s, t, e, r);
      case Swap(e, r) => SwapSerial(cfg, s, t, e, r);
      case Take(id) => CommitTake(cfg, s, t, id);
      case Claim(r) => CommitClaim(cfg, s, t, r);
      case SweepBatch(table, n) => SweepSerial(cfg, s, t, table, n);
    }
  }

  /** In every run, for every lock hash and row order, a commit has the effect its operation may have as one
  step, and no other event, a rollback included, changes the records. */
  lemma RunIsSerial(cfg: Config, states: seq<State>, events: seq<Event>, i: nat)
    requires cfg.locking && Run(cfg, states, events) && i < |events|
    ensures if events[i].Publish?
            then events[i].t in states[i].txns
                 && SerialStep(states[i].txns[events[i].t].op, Abs(states[i].db), Abs(states[i + 1].db))
            else Abs(states[i + 1].db) == Abs(states[i].db)
  {
    assert StepAt(cfg, states, events, i);
    StepIsFramed(cfg, states[i], events[i], states[i + 1]);
    if events[i].Publish? {
      CommitStep(cfg, states, events, i);
      RunKeepsIndex(cfg, states, events, i);
      CommitIsSerial(cfg, states[i], events[i].t);
    }
  }

  /** After every run each row's key columns are the projection of its payload. */
  lemma ColumnsAlwaysAgree(cfg: Config, states: seq<State>, events: seq<Event>, n: nat, id: RowId)
    requires cfg.locking && Run(cfg, states, events) && n < |states| && id in states[n].db
    ensures IdOf(states[n].db[id].payload) == id && states[n].db[id].cols == Project(states[n].db[id].payload)
  {
    RunKeepsInv(cfg, states, events, n);
  }
}
