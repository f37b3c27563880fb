/** A client that was deleted and registered again: its later grants are served although the barrier of the
deletion still stands. */
module Reprovisioning {
  import opened Options
  import opened Time
  import opened Records
  import opened Protocol
  import opened NoResurrection
  import opened Atomic
  import opened Commit
  import opened Serial
  import opened Witnesses
  import opened ByFields
  import opened Served

  /** A deletion that finds nothing leaves its barrier only. */
  lemma EmptyDeletion(c: string, w: Window, store': Store)
    requires c != "" && SerialStep(DeleteClient(c, w), map[], store')
    ensures store' == map[BarrierId(ClientScope(c)) := Merge(None, ClientScope(c), w)]
  {
    var id := BarrierId(ClientScope(c));
    assert id in ProtectedPart(AfterDeleteClient(map[], c, w));
    assert id in ProtectedPart(store');
  }

  // ----- and served again

  /** The barrier of the deletion stands and the record is there. */
  predicate StandsBeside(db: Db, w: Window, r: Record)
    requires IsGuarded(r)
  {
    var scope := ClientScope(GuardOf(r).client);
    && BarrierId(scope) in db && db[BarrierId(scope)].payload == Merge(None, scope, w)
    && IdOf(r) in db && db[IdOf(r)].payload == r
  }

  lemma ServedAgain(cfg: Config, w: Window, r: Record) returns (s': State)
    requires cfg.locking && IsGuarded(r) && GuardOf(r).client != ""
    requires ToNanos(w.recordedAt) < ToNanos(GuardOf(r).established)
    ensures Reaches(cfg, s') && StandsBeside(s'.db, w, r)
  {
    var c := GuardOf(r).client;
    var s1 := Deletes(cfg, c, w);
    var s2 := Registers(cfg, s1, 1, c);
    NotBarred(Abs(s2.db), w, r);
    s' := WritesToken(cfg, s2, 2, r);
    ServedRecords(s'.db, w, r);
  }

  lemma Deletes(cfg: Config, c: string, w: Window) returns (s': State)
    requires cfg.locking && c != ""
    ensures Reaches(cfg, s') && Quiet(s') && s'.txns.Keys == {0}
    ensures Abs(s'.db) == map[BarrierId(ClientScope(c)) := Merge(None, ClientScope(c), w)]
  {
    ReachInit(cfg);
    assert Abs(Init().db) == map[];
    s' := Does(cfg, Init(), 0, DeleteClient(c, w));
    EmptyDeletion(c, w, Abs(s'.db));
  }

  lemma Registers(cfg: Config, s: State, t: nat, c: string) returns (s': State)
    requires cfg.locking && Reaches(cfg, s) && Quiet(s) && t !in s.txns
    ensures Reaches(cfg, s') && Quiet(s') && s'.txns.Keys == s.txns.Keys + {t}
    ensures Abs(s'.db) == Abs(s.db)[Keyed(Clients, c) := Client(c, "")]
  {
    s' := Does(cfg, s, t, Put(Client(c, "")));
  }

  lemma NotBarred(store: Store, w: Window, r: Record)
    requires IsGuarded(r) && ToNanos(w.recordedAt) < ToNanos(GuardOf(r).established)
    requires var c := GuardOf(r).client;
             store == map[BarrierId(ClientScope(c)) := Merge(None, ClientScope(c), w),
               Keyed(Clients, c) := Client(c, "")]
    ensures !Barred(store, r)
  {
  }

  lemma ServedRecords(db: Db, w: Window, r: Record)
    requires IsGuarded(r)
    requires var scope := ClientScope(GuardOf(r).client);
             && BarrierId(scope) in Abs(db) && Abs(db)[BarrierId(scope)] == Merge(None, scope, w)
             && IdOf(r) in Abs(db) && Abs(db)[IdOf(r)] == r
    ensures StandsBeside(db, w, r)
  {
  }

  /** A record of a client can stand beside the barrier of the client's deletion exactly when its grant is
  later than the deletion. */
  lemma ServedAgainIff(cfg: Config, w: Window, r: Record)
    requires cfg.locking && IsGuarded(r) && GuardOf(r).client != ""
    ensures (exists s | Reaches(cfg, s) :: StandsBeside(s.db, w, r))
       <==> ToNanos(w.recordedAt) < ToNanos(GuardOf(r).established)
  {
    forall s | Reaches(cfg, s) && StandsBeside(s.db, w, r)
      ensures ToNanos(w.recordedAt) < ToNanos(GuardOf(r).established)
    {
      var states: seq<State>, events: seq<Event> :| Run(cfg, states, events) && states[|events|] == s;
      RunKeepsInv(cfg, states, events, |events|);
      NotCovered(s.db, w, r);
    }
    if ToNanos(w.recordedAt) < ToNanos(GuardOf(r).established) { var s := ServedAgain(cfg, w, r); }
  }

  lemma NotCovered(db: Db, w: Window, r: Record)
    requires IsGuarded(r) && StandsBeside(db, w, r) && !Covers(db, GuardOf(r))
    ensures ToNanos(w.recordedAt) < ToNanos(GuardOf(r).established)
  {
  }
}
