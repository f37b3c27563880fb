/** The two-round-trip twins of the single-use operations.

Each reads in one round trip and changes the table in a second, on what the first one told it. Alone they
do what the real ones do, apart from one case of the swap. Two of them side by side behave as if one ran
after the other exactly when the reads do not both come before the first write. */
module Naive {
  import opened Options
  import opened Records
  import opened Protocol
  import opened Atomic

  datatype NaiveOp = TakeOp(id: RowId) | ClaimOp(claimed: Record) | SwapOp(expected: DeviceState, updated: Record)

  datatype Answer = Got(r: Option<Record>) | Said(yes: bool)

  datatype Proc = Ready(op: NaiveOp) | Seen(op: NaiveOp, seen: Option<Record>) | Done(op: NaiveOp, answer: Answer)

  function KeyOfOp(op: NaiveOp): (id: RowId) {
    match op
    case TakeOp(id) => id
    case ClaimOp(r) => IdOf(r)
    case SwapOp(_, r) => IdOf(r)
  }

  function Read(store: Store, id: RowId): (r: Option<Record>) { if id in store then Some(store[id]) else None }

  /** What the first round trip decides: an answer at once, or to go on. */
  function AfterRead(op: NaiveOp, seen: Option<Record>): (p: Proc) {
    match op
    case TakeOp(_) => if seen.None? then Done(op, Got(None)) else Seen(op, seen)
    case ClaimOp(_) => if seen.Some? then Done(op, Said(false)) else Seen(op, seen)
    case SwapOp(e, _) =>
      if seen.Some? && !HasExpected(seen.value, OfDevice(e)) then Done(op, Said(false)) else Seen(op, seen)
  }

  /** What the second round trip does to the table, whatever has happened since the first. */
  function Change(op: NaiveOp, store: Store): (store': Store) {
    match op
    case TakeOp(id) => store - {id}
    case ClaimOp(r) => AfterClaim(store, r)
    case SwapOp(_, r) => store[IdOf(r) := r]
  }

  /** The answer of an operation that went on. */
  function Success(op: NaiveOp, seen: Option<Record>): (a: Answer) { if op.TakeOp? then Got(seen) else Said(true) }

  function AnswerOf(op: NaiveOp, seen: Option<Record>): (a: Answer) {
    var p := AfterRead(op, seen);
    if p.Done? then p.answer else Success(op, seen)
  }

  /** One operation with nothing beside it. */
  function Alone(op: NaiveOp, store: Store): (r: (Store, Answer)) {
    var seen := Read(store, KeyOfOp(op));
    (if AfterRead(op, seen).Done? then store else Change(op, store), AnswerOf(op, seen))
  }

  // ----- the source's functions, one round trip after the other

  class NaiveTable {
    var records: Store

    method Select(id: RowId) returns (r: Option<Record>)
      ensures r == Read(records, id)
    {
      r := if id in records then Some(records[id]) else None;
    }

    /** Read, then delete: alone, a take. */
    method Take(id: RowId) returns (r: Option<Record>)
      modifies this
      ensures (records, Got(r)) == Alone(TakeOp(id), old(records))
      ensures r == Read(old(records), id) && records == old(records) - {id}
    {
      r := Select(id);
      if r.Some? {
        records := records - {id};
      }
    }

    /** Look, then insert: alone, a claim. */
    method Claim(r: Record) returns (granted: bool)
      modifies this
      ensures (records, Said(granted)) == Alone(ClaimOp(r), old(records))
      ensures (granted <==> IdOf(r) !in old(records)) && records == AfterClaim(old(records), r)
    {
      var seen := Select(IdOf(r));
      if seen.Some? {
        return false;
      }
      if IdOf(r) !in records {
        records := records[IdOf(r) := r];
      }
      return true;
    }

    /** Read, compare, write: alone it is a swap exactly when the record is there; when it is not, this one
    creates it and says it was applied. */
    method Swap(expected: DeviceState, r: Record) returns (applied: bool)
      modifies this
      ensures (records, Said(applied)) == Alone(SwapOp(expected, r), old(records))
      ensures IdOf(r) in old(records) ==> (applied <==> HasExpected(old(records)[IdOf(r)], OfDevice(expected)))
      ensures records == AfterSwap(old(records), OfDevice(expected), r) <==> IdOf(r) in old(records)
    {
      var current := Select(IdOf(r));
      if current.Some? && !HasExpected(current.value, OfDevice(expected)) {
        return false;
      }
      records := records[IdOf(r) := r];
      return true;
    }
  }

  // ----- two of them side by side

  /** One round trip: whose it is, and whether it writes. */
  datatype Trip = Trip(first: bool, write: bool)

  datatype System = System(store: Store, p: Proc, q: Proc, log: seq<Trip>)

  function Start(store: Store, a: NaiveOp, b: NaiveOp): System { System(store, Ready(a), Ready(b), []) }

  function Advance(store: Store, p: Proc): (r: (Store, Proc)) {
    match p
    case Ready(op) => (store, AfterRead(op, Read(store, KeyOfOp(op))))
    case Seen(op, seen) => (Change(op, store), Done(op, Success(op, seen)))
    case Done(_, _) => (store, p)
  }

  /** The next round trip of one of the two. */
  function Next(sys: System, first: bool): (sys': System) {
    var p := if first then sys.p else sys.q;
    var (store', p') := Advance(sys.store, p);
    if p.Done? then sys
    else System(store', if first then p' else sys.p, if first then sys.q else p', sys.log + [Trip(first, p.Seen?)])
  }

  /** The system after a schedule: who moves when. */
  function After(sys: System, schedule: seq<bool>): (sys': System) {
    if schedule == [] then sys
    else Next(After(sys, schedule[..|schedule| - 1]), schedule[|schedule| - 1])
  }

  predicate Finished(sys: System) { sys.p.Done? && sys.q.Done? }

  predicate BothReadFirst(log: seq<Trip>) { |log| >= 2 && !log[0].write && !log[1].write }

  /** The process has read this store, and perhaps gone on. */
  predicate HasRead(p: Proc, op: NaiveOp, store: Store) {
    var seen := Read(store, KeyOfOp(op));
    p == AfterRead(op, seen) || (AfterRead(op, seen).Seen? && p == Done(op, Success(op, seen)))
  }

  /** What is known after one has run to its end before the other has read. */
  ghost predicate AfterOne(store: Store, done: Proc, x: NaiveOp, other: Proc, y: NaiveOp, now: Store) {
    && AfterRead(x, Read(store, KeyOfOp(x))).Seen? && done == Done(x, AnswerOf(x, Read(store, KeyOfOp(x))))
    && (other == Ready(y) || HasRead(other, y, Change(x, store)))
    && (!other.Done? ==> now == Change(x, store))
    && (other.Done? ==> now == Alone(y, Change(x, store)).0)
  }

  /** Neither, or one of the two, has made its first round trip. */
  ghost predicate Beginning(store: Store, a: NaiveOp, b: NaiveOp, sys: System) {
    && sys.store == store
    && (|sys.log| == 0 ==> sys.p == Ready(a) && sys.q == Ready(b))
    && (|sys.log| == 1 ==>
          && !sys.log[0].write
          && if sys.log[0].first then sys.p == AfterRead(a, Read(store, KeyOfOp(a))) && sys.q == Ready(b)
             else sys.q == AfterRead(b, Read(store, KeyOfOp(b))) && sys.p == Ready(a))
  }

  ghost predicate Overlapping(store: Store, a: NaiveOp, b: NaiveOp, sys: System) {
    BothReadFirst(sys.log) && HasRead(sys.p, a, store) && HasRead(sys.q, b, store)
  }

  ghost predicate InTurn(store: Store, a: NaiveOp, b: NaiveOp, sys: System) {
    && |sys.log| >= 2 && !BothReadFirst(sys.log)
    && if sys.log[0].first then AfterOne(store, sys.p, a, sys.q, b, sys.store)
       else AfterOne(store, sys.q, b, sys.p, a, sys.store)
  }

  ghost predicate SideInv(store: Store, a: NaiveOp, b: NaiveOp, sys: System) {
    if |sys.log| < 2 then Beginning(store, a, b, sys)
    else Overlapping(store, a, b, sys) || InTurn(store, a, b, sys)
  }

  lemma FromBeginning(store: Store, a: NaiveOp, b: NaiveOp, sys: System, first: bool)
    requires |sys.log| < 2 && Beginning(store, a, b, sys)
    ensures SideInv(store, a, b, Next(sys, first))
  {
  }

  lemma FromOverlapping(store: Store, a: NaiveOp, b: NaiveOp, sys: System, first: bool)
    requires Overlapping(store, a, b, sys)
    ensures Overlapping(store, a, b, Next(sys, first))
  {
  }

  lemma FromInTurn(store: Store, a: NaiveOp, b: NaiveOp, sys: System, first: bool)
    requires InTurn(store, a, b, sys)
    ensures InTurn(store, a, b, Next(sys, first))
  {
  }

  lemma NextKeepsSide(store: Store, a: NaiveOp, b: NaiveOp, sys: System, first: bool)
    requires SideInv(store, a, b, sys)
    ensures SideInv(store, a, b, Next(sys, first))
  {
    if |sys.log| < 2 {
      FromBeginning(store, a, b, sys, first);
    } else if BothReadFirst(sys.log) {
      FromOverlapping(store, a, b, sys, first);
    } else {
      FromInTurn(store, a, b, sys, first);
    }
  }

  lemma {:induction false} AfterKeepsSide(store: Store, a: NaiveOp, b: NaiveOp, schedule: seq<bool>)
    ensures SideInv(store, a, b, After(Start(store, a, b), schedule))
  {
    if schedule != [] {
      var n := |schedule| - 1;
      AfterKeepsSide(store, a, b, schedule[..n]);
      NextKeepsSide(store, a, b, After(Start(store, a, b), schedule[..n]), schedule[n]);
    }
  }

  /** Two operations beside each other, in any schedule: if both reads come before the first write, each
  gets the answer it would have got alone; otherwise the outcome is that of one after the other. */
  lemma SideBySide(store: Store, a: NaiveOp, b: NaiveOp, schedule: seq<bool>)
    requires Finished(After(Start(store, a, b), schedule))
    ensures var sys := After(Start(store, a, b), schedule);
            && |sys.log| >= 2
            && if BothReadFirst(sys.log) then
                 sys.p.answer == Alone(a, store).1 && sys.q.answer == Alone(b, store).1
               else if sys.log[0].first then
                 sys.p.answer == Alone(a, store).1 && (sys.store, sys.q.answer) == Alone(b, Alone(a, store).0)
               else
                 sys.q.answer == Alone(b, store).1 && (sys.store, sys.p.answer) == Alone(a, Alone(b, store).0)
  {
    AfterKeepsSide(store, a, b, schedule);
  }

  // ----- what goes wrong, and exactly when

  /** Two takers both receive one record exactly when both read before either deletes. */
  lemma BothReceiveIff(store: Store, id: RowId, schedule: seq<bool>)
    requires id in store && Finished(After(Start(store, TakeOp(id), TakeOp(id)), schedule))
    ensures var sys := After(Start(store, TakeOp(id), TakeOp(id)), schedule);
            sys.p.answer == Got(Some(store[id])) && sys.q.answer == Got(Some(store[id])) <==> BothReadFirst(sys.log)
  {
    SideBySide(store, TakeOp(id), TakeOp(id), schedule);
  }

  /** Two claims of one identifier are both granted exactly when both look before either inserts. */
  lemma BothGrantedIff(store: Store, r: Record, r': Record, schedule: seq<bool>)
    requires IdOf(r) == IdOf(r') && IdOf(r) !in store
    requires Finished(After(Start(store, ClaimOp(r), ClaimOp(r')), schedule))
    ensures var sys := After(Start(store, ClaimOp(r), ClaimOp(r')), schedule);
            sys.p.answer == Said(true) && sys.q.answer == Said(true) <==> BothReadFirst(sys.log)
  {
    SideBySide(store, ClaimOp(r), ClaimOp(r'), schedule);
  }

  /** Two decisions on a pending grant are both reported as applied exactly when both read it pending. Only
  one of the two stands in the end. */
  lemma BothAppliedIff(store: Store, r: Record, r': Record, schedule: seq<bool>)
    requires r.DeviceGrant? && r'.DeviceGrant? && IdOf(r) == IdOf(r') && IdOf(r) in store && r != r'
    requires HasExpected(store[IdOf(r)], OfDevice(Pending)) && !r.deviceState.Pending? && !r'.deviceState.Pending?
    requires Finished(After(Start(store, SwapOp(Pending, r), SwapOp(Pending, r')), schedule))
    ensures var sys := After(Start(store, SwapOp(Pending, r), SwapOp(Pending, r')), schedule);
            && (sys.p.answer == Said(true) && sys.q.answer == Said(true) <==> BothReadFirst(sys.log))
            && IdOf(r) in sys.store && (sys.store[IdOf(r)] == r) != (sys.store[IdOf(r)] == r')
  {
    var a, b := SwapOp(Pending, r), SwapOp(Pending, r');
    SideBySide(store, a, b, schedule);
    SwapStands(store, a, b, schedule);
  }

  /** Once a swap has said it was applied, the record is one of the two that were written. */
  lemma {:induction false} SwapStands(store: Store, a: NaiveOp, b: NaiveOp, schedule: seq<bool>)
    requires a.SwapOp? && b.SwapOp? && IdOf(a.updated) == IdOf(b.updated)
    ensures var sys := After(Start(store, a, b), schedule);
            && sys.p.op == a && sys.q.op == b
            && ((sys.p.Done? && sys.p.answer == Said(true)) || (sys.q.Done? && sys.q.answer == Said(true)) ==>
                  IdOf(a.updated) in sys.store && sys.store[IdOf(a.updated)] in {a.updated, b.updated})
  {
    if schedule != [] { SwapStands(store, a, b, schedule[..|schedule| - 1]); }
  }

  /** A grant that a swap and a redemption work on: the redeemer receives it, and it stands in the table
  again exactly when the swap makes the last round trip. */
  lemma RedeemedComesBackIff(store: Store, r: Record, schedule: seq<bool>)
    requires r.DeviceGrant? && IdOf(r) in store && HasExpected(store[IdOf(r)], OfDevice(Pending))
    requires Finished(After(Start(store, SwapOp(Pending, r), TakeOp(IdOf(r))), schedule))
    ensures var sys := After(Start(store, SwapOp(Pending, r), TakeOp(IdOf(r))), schedule);
            && sys.p.answer == Said(true) && sys.q.answer.Got? && sys.q.answer.r.Some?
            && |sys.log| >= 2 && (IdOf(r) in sys.store <==> sys.log[|sys.log| - 1].first)
  {
    SideBySide(store, SwapOp(Pending, r), TakeOp(IdOf(r)), schedule);
    LastTrip(store, r, schedule);
  }

  /** While the two work on it, the record is there unless the redeemer has made the last change. */
  lemma {:induction false} LastTrip(store: Store, r: Record, schedule: seq<bool>)
    requires r.DeviceGrant? && IdOf(r) in store && HasExpected(store[IdOf(r)], OfDevice(Pending))
    ensures var sys := After(Start(store, SwapOp(Pending, r), TakeOp(IdOf(r))), schedule);
            && sys.p.op == SwapOp(Pending, r) && sys.q.op == TakeOp(IdOf(r))
            && (sys.p.Done? ==> sys.p.answer == Said(true))
            && (sys.q.Done? ==> sys.q.answer.Got? && sys.q.answer.r.Some?)
            && (sys.q.Seen? ==> sys.q.seen.Some?)
            && (!sys.q.Done? ==> IdOf(r) in sys.store)
            && (!sys.p.Done? && !sys.q.Done? ==> sys.store == store)
            && (sys.q.Done? && !sys.p.Done? ==> IdOf(r) !in sys.store)
            && (Finished(sys) ==> sys.log != [] && (IdOf(r) in sys.store <==> sys.log[|sys.log| - 1].first))
  {
    if schedule != [] { LastTrip(store, r, schedule[..|schedule| - 1]); }
  }
}
