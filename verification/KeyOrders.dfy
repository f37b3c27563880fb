/** Which orders of the three keys of a guarded write can be ranked with the rest of the store. */
module KeyOrders {
  import opened Options
  import opened Records
  import opened Protocol
  import opened RowInvariant
  import opened Deadlock

  ghost predicate CouldMatch(p: Pred, id: RowId) { exists row :: Matches(p, id, row) }

  ghost predicate MayAcquire(stmt: Stmt, r: Resource) {
    match stmt
    case Lock(key, _) => r == KeyRes(key)
    case Check(_) => false
    case RecordBarrier(scope, _) => r == RowRes(BarrierId(scope))
    case Upsert(rec) => r == RowRes(IdOf(rec))
    case InsertNew(rec) => r == RowRes(IdOf(rec))
    case Hold(id) => r == RowRes(id)
    case Update(rec) => r == RowRes(IdOf(rec))
    case Scan(p, _, _) => r.RowRes? && CouldMatch(p, r.id)
  }

  /** Whatever the program may acquire ranks below whatever it may later wait for. */
  ghost predicate Fits(rank: Resource -> int, op: Operation, prog: seq<Stmt>) {
    forall i, j, a, b | 0 <= i < j < |prog| && Waitable(op, prog[j])
                        && MayAcquire(prog[i], a) && MayAcquire(prog[j], b) :: rank(a) < rank(b)
  }

  ghost predicate FitsAll(cfg: Config, rank: Resource -> int) {
    forall op, bound | Valid(op) :: Fits(rank, op, Program(cfg, op, bound))
  }

  lemma MatchTable(p: Pred, id: RowId)
    requires CouldMatch(p, id)
    ensures id.Table() == TableOf(p)
  {
  }

  lemma ClimbsFits(rank: KeyRank, op: Operation, prog: seq<Stmt>)
    requires Climbs(rank, op, prog) && forall x | x in prog :: WaitingScan(x)
    ensures Fits(r => Class(rank, r), op, prog)
  {
    forall i, j, a, b | 0 <= i < j < |prog| && Waitable(op, prog[j]) && MayAcquire(prog[i], a) && MayAcquire(prog[j], b)
      ensures Class(rank, a) < Class(rank, b)
    {
      assert prog[i] in prog && prog[j] in prog;
      AcquiredClass(rank, prog[i], a);
      AcquiredClass(rank, prog[j], b);
    }
  }

  lemma AcquiredClass(rank: KeyRank, stmt: Stmt, r: Resource)
    requires MayAcquire(stmt, r) && WaitingScan(stmt)
    ensures Class(rank, r) == StmtClass(rank, stmt)
  {
    if stmt.Scan? { MatchTable(stmt.pred, r.id); }
  }

  lemma ClientFirstFits(cfg: Config, rank: KeyRank, op: Operation, bound: Option<(string, string)>)
    requires cfg.locking && cfg.keyOrder.ClientBeforeConsent() && RanksKeys(rank, cfg.keyOrder) && Valid(op)
    ensures Fits(r => Class(rank, r), op, Program(cfg, op, bound))
  {
    if !op.SweepBatch? {
      ScansOfWaiter(cfg, op, bound);
      ProgramClimbs(cfg, rank, op, bound);
      ClimbsFits(rank, op, Program(cfg, op, bound));
    }
  }

  /** The write takes the consent key before the client key, the deletion the client key before the
  consent row, the withdrawal the consent row before the consent key. */
  lemma ConsentFirstNeverFits(cfg: Config, rank: Resource -> int, c: string, s: string, id: string, w: Window)
    requires cfg.locking && !cfg.keyOrder.ClientBeforeConsent()
    ensures var token := AccessToken("", c, Some(s), None, 0, 0, "");
            !(&& Fits(rank, PutGuarded(token), Program(cfg, PutGuarded(token), None))
              && Fits(rank, DeleteClient(c, w), Program(cfg, DeleteClient(c, w), None))
              && Fits(rank, RevokeConsent(id, w), Program(cfg, RevokeConsent(id, w), Some((c, s)))))
  {
    var token := AccessToken("", c, Some(s), None, 0, 0, "");
    var client, consent := KeyRes(KeyOf(ClientScope(c))), KeyRes(KeyOf(ConsentScope(c, s)));
    var row := RowRes(Keyed(Consents, id));
    ConsumesInOrder(rank, PutGuarded(token), Program(cfg, PutGuarded(token), None), 0, 1, consent, client);
    assert Matches(ByClient(Consents, c), row.id, RowOf(Consent(id, c, s, 0, ""), 0));
    ConsumesInOrder(rank, DeleteClient(c, w), Program(cfg, DeleteClient(c, w), None), 0, 2, client, row);
    assert Matches(ByKey(row.id), row.id, RowOf(Consent(id, c, s, 0, ""), 0));
    ConsumesInOrder(rank, RevokeConsent(id, w), Program(cfg, RevokeConsent(id, w), Some((c, s))), 0, 1, row, consent);
  }

  lemma ConsumesInOrder(rank: Resource -> int, op: Operation, prog: seq<Stmt>, i: nat, j: nat, a: Resource, b: Resource)
    requires i < j < |prog| && Waitable(op, prog[j]) && MayAcquire(prog[i], a) && MayAcquire(prog[j], b)
    ensures Fits(rank, op, prog) ==> rank(a) < rank(b)
  {
  }

  /** Of the six orders, exactly those with the client key before the consent key have a rank that fits
  every program. Where the family key stands makes no difference. */
  lemma RankExistsIff(cfg: Config)
    requires cfg.locking
    ensures (exists rank :: FitsAll(cfg, rank)) <==> cfg.keyOrder.ClientBeforeConsent()
  {
    if cfg.keyOrder.ClientBeforeConsent() {
      KeyClassRanks(cfg.keyOrder);
      var rank := r => Class(RankOf(cfg.keyOrder), r);
      forall op, bound | Valid(op) ensures Fits(rank, op, Program(cfg, op, bound)) {
        ClientFirstFits(cfg, RankOf(cfg.keyOrder), op, bound);
      }
      assert FitsAll(cfg, rank);
    } else {
      forall rank ensures !FitsAll(cfg, rank) {
        ConsentFirstNeverFits(cfg, rank, "c", "s", "id", Window(0, 0));
        var token := AccessToken("", "c", Some("s"), None, 0, 0, "");
        assert Valid(PutGuarded(token)) && Valid(DeleteClient("c", Window(0, 0)))
          && Valid(RevokeConsent("id", Window(0, 0)));
      }
    }
  }
}
