/** Why a write of a device grant needs a user code of its own: the unique index on user codes is one more
thing to wait for, and it closes two kinds of cycles. */
module CodeDeadlocks {
  import opened Options
  import opened UserCodes
  import opened Records
  import opened Protocol
  import opened Deadlock
  import opened Witnesses

  function Grant(device: string, code: string, c: string): Record { DeviceGrant(device, code, c, 0, Pending, "") }

  lemma GrantStatements(cfg: Config, r: Record)
    requires r.DeviceGrant?
    ensures Program(cfg, Put(r), None) == [Hold(IdOf(r)), Upsert(r)]
  {
  }

  /** A write that has reached its row. */
  function Holding(db: Db, r: Record): Txn
    requires r.DeviceGrant?
  {
    Started(Put(r)).(pc := 1, rows := {IdOf(r)}, codes := CodesAt(db, IdOf(r)))
  }

  lemma ReachesRow(cfg: Config, s: State, t: nat, r: Record) returns (s': State)
    requires Reaches(cfg, s) && t !in s.txns && r.DeviceGrant? && RowFree(s, t, IdOf(r))
    ensures Reaches(cfg, s') && s' == With(s, t, Holding(s.db, r)).(clock := s.clock + 1)
  {
    HoldStep(cfg, s, t, r);
    var s1 := Begins(cfg, s, t, Put(r));
    s' := Execs(cfg, s1, t, Holding(s.db, r));
  }

  lemma HoldStep(cfg: Config, s: State, t: nat, r: Record)
    requires t !in s.txns && r.DeviceGrant? && RowFree(s, t, IdOf(r))
    ensures var s1 := With(s, t, Started(Put(r)));
            && Runs(cfg, s1, t) && Current(cfg, s1, t) == Hold(IdOf(r))
            && ExecStmt(cfg, s1, t, Hold(IdOf(r)), Holding(s.db, r))
  {
    GrantStatements(cfg, r);
    assert View(s.db, Started(Put(r))) == s.db;
  }

  lemma Enters(cfg: Config, s: State, t: nat, r: Record) returns (s': State)
    requires Reaches(cfg, s) && t in s.txns && r.DeviceGrant? && s.txns[t] == Holding(s.db, r)
    requires RowFree(s, t, IdOf(r)) && CodeFree(s, t, Normalize(r.userCode))
    requires !Taken(s.db, Normalize(r.userCode), IdOf(r)) && IdOf(r) !in s.db
    ensures Reaches(cfg, s') && s'.db == s.db && s'.txns.Keys == s.txns.Keys && Finished(cfg, s'.txns[t])
    ensures Published(s.db, s'.txns[t]) == s.db[IdOf(r) := RowOf(r, s.clock)]
    ensures forall t' | t' in s.txns && t' != t :: s'.txns[t'] == s.txns[t']
  {
    GrantStatements(cfg, r);
    EnterStep(cfg, s, t, r);
    s' := Execs(cfg, s, t, Written(s.db, s.txns[t], r, s.clock).(pc := 2));
  }

  lemma EnterStep(cfg: Config, s: State, t: nat, r: Record)
    requires t in s.txns && r.DeviceGrant? && s.txns[t] == Holding(s.db, r)
    requires RowFree(s, t, IdOf(r)) && CodeFree(s, t, Normalize(r.userCode))
    requires !Taken(s.db, Normalize(r.userCode), IdOf(r)) && IdOf(r) !in s.db
    ensures ExecStmt(cfg, s, t, Upsert(r), Written(s.db, s.txns[t], r, s.clock).(pc := 2))
    ensures Published(s.db, Written(s.db, s.txns[t], r, s.clock)) == s.db[IdOf(r) := RowOf(r, s.clock)]
  {
    assert View(s.db, s.txns[t]) == s.db;
  }

  /** A whole write, from its start to the release of what it held. */
  lemma CommitsGrant(cfg: Config, s: State, t: nat, r: Record) returns (s': State, born: nat)
    requires Reaches(cfg, s) && Quiet(s) && t !in s.txns && r.DeviceGrant? && IdOf(r) !in s.db
    requires !Taken(s.db, Normalize(r.userCode), IdOf(r))
    ensures Reaches(cfg, s') && Quiet(s') && s'.txns.Keys == s.txns.Keys + {t}
    ensures s'.db == s.db[IdOf(r) := RowOf(r, born)]
  {
    var s1 := ReachesRow(cfg, s, t, r);
    var s2 := Enters(cfg, s1, t, r);
    s' := Ends(cfg, s2, t);
    born := s1.clock;
  }

  /** Two committed grants with different codes. */
  ghost predicate TwoGrants(db: Db, g1: Record, g2: Record) {
    && g1.DeviceGrant? && g2.DeviceGrant? && db.Keys == {IdOf(g1), IdOf(g2)}
    && db[IdOf(g1)].payload == g1 && db[IdOf(g1)].cols == Project(g1)
    && db[IdOf(g2)].payload == g2 && db[IdOf(g2)].cols == Project(g2)
  }

  lemma CommitsTwo(cfg: Config, g1: Record, g2: Record) returns (s': State)
    requires g1.DeviceGrant? && g2.DeviceGrant? && IdOf(g1) != IdOf(g2)
    requires Normalize(g1.userCode) != Normalize(g2.userCode)
    ensures Reaches(cfg, s') && Quiet(s') && s'.txns.Keys == {8, 9} && TwoGrants(s'.db, g1, g2)
  {
    ReachInit(cfg);
    var s1, born1 := CommitsGrant(cfg, Init(), 8, g1);
    var born2;
    s', born2 := CommitsGrant(cfg, s1, 9, g2);
  }

  // ----- two writes that exchange their codes

  /** Each write has reached its own grant and waits for the code the other is giving up. */
  lemma ExchangeDeadlocks(cfg: Config, d1: string, d2: string, a: string, b: string, c: string)
    requires d1 != d2 && Normalize(a) != Normalize(b)
    ensures exists s | Reaches(cfg, s) :: Cycle(cfg, s, [1, 2])
  {
    var s1 := CommitsTwo(cfg, Grant(d1, a, c), Grant(d2, b, c));
    var s2 := ReachesRow(cfg, s1, 1, Grant(d1, b, c));
    var s3 := ReachesRow(cfg, s2, 2, Grant(d2, a, c));
    WaitsForCode(cfg, s3, 1, Grant(d1, b, c), 2);
    WaitsForCode(cfg, s3, 2, Grant(d2, a, c), 1);
    var ts := [1, 2];
    assert WaitsFor(cfg, s3, ts[0], ts[1]) && WaitsFor(cfg, s3, ts[1], ts[0]);
  }

  lemma WaitsForCode(cfg: Config, s: State, t: nat, r: Record, t': nat)
    requires t in s.txns && r.DeviceGrant? && s.txns[t] == Holding(s.db, r) && t' in s.txns && t' != t
    requires Normalize(r.userCode) in s.txns[t'].codes
    ensures WaitsFor(cfg, s, t, t')
  {
    GrantStatements(cfg, r);
    assert Blocked(cfg, s, t, CodeRes(Normalize(r.userCode)), t');
  }

  // ----- a deletion and a write

  lemma DeletionProgramAt(cfg: Config, c: string, i: nat)
    requires cfg.locking && 2 <= i < 9
    ensures |Program(cfg, DeleteClient(c, WINDOW), None)| == 9
    ensures Program(cfg, DeleteClient(c, WINDOW), None)[i] == ClientRemovals(c)[i - 2]
  {
  }

  /** The deletion at its statement `pc`, with its barrier written and nothing removed yet. */
  ghost predicate Deleting(u: Txn, c: string, pc: nat) {
    && u.op == DeleteClient(c, WINDOW) && u.pc == pc && u.bound.None? && u.outcome.Running? && u.scan.None?
    && u.hits == map[] && u.dels == {} && u.puts.Keys == {BarrierId(ClientScope(c))}
    && u.rows == {BarrierId(ClientScope(c))} && u.codes == {}
  }

  lemma DeletionStarts(cfg: Config, s: State, c: string) returns (s': State)
    requires cfg.locking && c != "" && Reaches(cfg, s) && Quiet(s) && 2 !in s.txns && BarrierId(ClientScope(c)) !in s.db
    ensures Reaches(cfg, s') && s'.db == s.db && s'.txns.Keys == s.txns.Keys + {2} && Deleting(s'.txns[2], c, 2)
    ensures s'.txns[2].keys == map[KeyOf(ClientScope(c)) := Exclusive]
    ensures forall t | t in s.txns :: s'.txns[t] == s.txns[t]
  {
    var s1 := DeletionLocks(cfg, s, c);
    DeletionStatements(cfg, c);
    s' := RecordsFirst(cfg, s1, 2, ClientScope(c), WINDOW);
  }

  lemma SkipsTable(cfg: Config, s: State, c: string, pc: nat, g1: Record, g2: Record) returns (s': State)
    requires cfg.locking && Reaches(cfg, s) && 2 in s.txns && Deleting(s.txns[2], c, pc) && 2 <= pc < 6
    requires TwoGrants(s.db, g1, g2)
    ensures Reaches(cfg, s') && s' == With(s, 2, s.txns[2].(pc := pc + 1)) && Deleting(s'.txns[2], c, pc + 1)
  {
    DeletionProgramAt(cfg, c, pc);
    assert View(s.db, s.txns[2]).Keys == {IdOf(g1), IdOf(g2), BarrierId(ClientScope(c))};
    OtherTable(View(s.db, s.txns[2]), c, pc, g1, g2);
    s' := ScansNothing(cfg, s, 2);
  }

  lemma OtherTable(view: Db, c: string, pc: nat, g1: Record, g2: Record)
    requires 2 <= pc < 6 && g1.DeviceGrant? && g2.DeviceGrant?
    requires view.Keys == {IdOf(g1), IdOf(g2), BarrierId(ClientScope(c))}
    ensures Selected(view, ClientRemovals(c)[pc - 2].pred) == map[]
  {
  }

  lemma ReachesGrants(cfg: Config, s: State, c: string, g1: Record, g2: Record) returns (s': State)
    requires cfg.locking && Reaches(cfg, s) && 2 in s.txns && Deleting(s.txns[2], c, 2) && TwoGrants(s.db, g1, g2)
    ensures Reaches(cfg, s') && s' == With(s, 2, s.txns[2].(pc := 6)) && Deleting(s'.txns[2], c, 6)
  {
    var s1 := SkipsTable(cfg, s, c, 2, g1, g2);
    var s2 := SkipsTable(cfg, s1, c, 3, g1, g2);
    var s3 := SkipsTable(cfg, s2, c, 4, g1, g2);
    s' := SkipsTable(cfg, s3, c, 5, g1, g2);
  }

  lemma OnlyTheGrants(view: Db, db: Db, c: string, g1: Record, g2: Record)
    requires TwoGrants(db, g1, g2) && g1.client == c && g2.client == c
    requires view.Keys == {IdOf(g1), IdOf(g2), BarrierId(ClientScope(c))} && forall id | id in db :: view[id] == db[id]
    ensures Selected(view, ByClient(DeviceGrants, c)) == db
  {
  }

  lemma SelectsGrants(cfg: Config, s: State, c: string, g1: Record, g2: Record) returns (s': State)
    requires cfg.locking && Reaches(cfg, s) && 2 in s.txns && Deleting(s.txns[2], c, 6) && TwoGrants(s.db, g1, g2)
    requires g1.client == c && g2.client == c
    ensures Reaches(cfg, s') && s' == With(s, 2, s.txns[2].(scan := Some(s.db)))
  {
    DeletionProgramAt(cfg, c, 6);
    assert View(s.db, s.txns[2]).Keys == {IdOf(g1), IdOf(g2), BarrierId(ClientScope(c))};
    OnlyTheGrants(View(s.db, s.txns[2]), s.db, c, g1, g2);
    s' := With(s, 2, s.txns[2].(scan := Some(s.db)));
    ReachStep(cfg, s, ScanStart(2, s.db), s');
  }

  /** The deletion has removed the first grant and has the second one before it. */
  ghost predicate BetweenGrants(u: Txn, db: Db, c: string, g1: Record, g2: Record) {
    && TwoGrants(db, g1, g2) && u.op == DeleteClient(c, WINDOW) && u.pc == 6 && u.bound.None? && u.outcome.Running?
    && u.scan == Some(db - {IdOf(g1)}) && Normalize(g1.userCode) in u.codes
    && u.rows == {BarrierId(ClientScope(c)), IdOf(g1)}
  }

  lemma RemovesFirst(cfg: Config, s: State, c: string, g1: Record, g2: Record) returns (s': State)
    requires cfg.locking && Reaches(cfg, s) && 2 in s.txns && TwoGrants(s.db, g1, g2) && s.txns[2].scan == Some(s.db)
    requires Deleting(s.txns[2].(scan := None), c, 6) && g1.client == c && RowFree(s, 2, IdOf(g1))
    requires cfg.order(IdOf(g1)) <= cfg.order(IdOf(g2))
    ensures Reaches(cfg, s') && s'.db == s.db && s'.txns.Keys == s.txns.Keys
    ensures BetweenGrants(s'.txns[2], s.db, c, g1, g2)
    ensures forall t | t in s.txns && t != 2 :: s'.txns[t] == s.txns[t]
  {
    DeletionProgramAt(cfg, c, 6);
    var u := s.txns[2];
    assert View(s.db, u)[IdOf(g1)] == s.db[IdOf(g1)];
    var u' := Hit(s.db, u, Remove, s.db, IdOf(g1));
    s' := With(s, 2, u');
    ReachStep(cfg, s, ScanRow(2, IdOf(g1)), s');
  }

  /** The deletion of a client has removed one grant and waits for another, which a write has reached that
  wants to give it the code of the removed one. */
  lemma DeletionAndWriteDeadlock(cfg: Config, d1: string, d2: string, a: string, b: string, c: string)
    requires cfg.locking && c != "" && d1 != d2 && Normalize(a) != Normalize(b)
    requires cfg.order(Keyed(DeviceGrants, d1)) <= cfg.order(Keyed(DeviceGrants, d2))
    ensures exists s | Reaches(cfg, s) :: Cycle(cfg, s, [1, 2])
  {
    var g1, g2 := Grant(d1, a, c), Grant(d2, b, c);
    var s5 := HalfDeleted(cfg, c, g1, g2);
    var s6 := ReachesRow(cfg, s5, 1, Grant(d2, a, c));
    WaitsForCode(cfg, s6, 1, Grant(d2, a, c), 2);
    WaitsForGrant(cfg, s6, c, g1, g2);
    var ts := [1, 2];
    assert WaitsFor(cfg, s6, ts[0], ts[1]) && WaitsFor(cfg, s6, ts[1], ts[0]);
  }

  lemma HalfDeleted(cfg: Config, c: string, g1: Record, g2: Record) returns (s': State)
    requires cfg.locking && c != "" && g1.DeviceGrant? && g2.DeviceGrant? && g1.client == c && g2.client == c
    requires IdOf(g1) != IdOf(g2) && Normalize(g1.userCode) != Normalize(g2.userCode)
    requires cfg.order(IdOf(g1)) <= cfg.order(IdOf(g2))
    ensures Reaches(cfg, s') && 1 !in s'.txns && 2 in s'.txns && BetweenGrants(s'.txns[2], s'.db, c, g1, g2)
    ensures forall t | t in s'.txns && t != 2 :: s'.txns[t].rows == {}
  {
    var s1 := CommitsTwo(cfg, g1, g2);
    var s2 := DeletionStarts(cfg, s1, c);
    var s3 := ReachesGrants(cfg, s2, c, g1, g2);
    var s4 := SelectsGrants(cfg, s3, c, g1, g2);
    assert s4.txns.Keys == {2, 8, 9};
    s' := RemovesFirst(cfg, s4, c, g1, g2);
  }

  lemma WaitsForGrant(cfg: Config, s: State, c: string, g1: Record, g2: Record)
    requires cfg.locking && 1 in s.txns && 2 in s.txns && BetweenGrants(s.txns[2], s.db, c, g1, g2)
    requires IdOf(g1) != IdOf(g2) && IdOf(g2) in s.txns[1].rows
    ensures WaitsFor(cfg, s, 2, 1)
  {
    DeletionProgramAt(cfg, c, 6);
    assert IsNext(cfg, s.txns[2].scan.value, Remove, IdOf(g2));
    assert Blocked(cfg, s, 2, RowRes(IdOf(g2)), 1);
  }
}
