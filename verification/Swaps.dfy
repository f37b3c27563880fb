/** Compare-and-swap on codes, device grants and clients.

The applied swaps of a record form a chain: each one found exactly what the last write left. A swap
never brings back a record that has left, and once a state that nobody expects has been written it
stays until the record leaves. */
module Swaps {
  import opened Records
  import opened Protocol
  import opened RowInvariant
  import opened Commit
  import opened SingleUse

  /** The step commits a swap that found what it expected. */
  predicate Applies(s: State, ev: Event, e: Expected, r: Record) {
    ev.Publish? && ev.t in s.txns && s.txns[ev.t].op == Swap(e, r) && s.txns[ev.t].hits != map[]
  }

  /** The step commits a change to this row. */
  predicate Changes(s: State, ev: Event, id: RowId) {
    ev.Publish? && ev.t in s.txns && (id in s.txns[ev.t].puts || id in s.txns[ev.t].dels)
  }

  /** The step commits this record. */
  predicate Writes(s: State, ev: Event, r: Record) {
    && ev.Publish? && ev.t in s.txns && IdOf(r) in s.txns[ev.t].puts
    && s.txns[ev.t].puts[IdOf(r)].payload == r
  }

  /** An applied swap found the expected state, changed nothing but the record, and kept its identity. */
  lemma AppliedSwap(cfg: Config, states: seq<State>, events: seq<Event>, j: nat, e: Expected, r: Record)
    requires cfg.locking && Run(cfg, states, events) && j < |events| && Applies(states[j], events[j], e, r)
    ensures var id, db, db' := IdOf(r), states[j].db, states[j + 1].db;
            && id in db && HasExpected(db[id].payload, e) && db' == db[id := RowOf(r, db[id].born)]
            && Writes(states[j], events[j], r)
  {
    CommitStep(cfg, states, events, j);
    assert StepAt(cfg, states, events, j);
    var u := states[j].txns[events[j].t];
    assert RowsOk(cfg, states[j].db, u);
    SwapRow(states[j].db, u, e, r);
  }

  lemma SwapRow(db: Db, u: Txn, e: Expected, r: Record)
    requires SwapOk(Swap(e, r), u) && HitsCurrent(db, u.hits) && u.hits != map[] && u.pc == 2
    ensures var id := IdOf(r);
            && id in db && HasExpected(db[id].payload, e) && Published(db, u) == db[id := RowOf(r, db[id].born)]
            && id in u.puts && u.puts[id].payload == r
  {
    var id :| id in u.hits;
    assert u.puts == map[id := RowOf(r, db[id].born)];
  }

  lemma UnchangedStep(cfg: Config, s: State, ev: Event, s': State, id: RowId)
    requires Step(cfg, s, ev, s') && !Changes(s, ev, id)
    ensures id in s'.db <==> id in s.db
    ensures id in s.db ==> s'.db[id] == s.db[id]
  {
  }

  /** Every committed record was left by the last commit that changed its row. */
  lemma {:induction false} LastWriter(cfg: Config, states: seq<State>, events: seq<Event>, n: nat,
                                      id: RowId) returns (i: nat)
    requires cfg.locking && Run(cfg, states, events) && n < |states| && id in states[n].db
    ensures i < n && Writes(states[i], events[i], states[n].db[id].payload)
    ensures forall k | i < k < n :: !Changes(states[k], events[k], id)
  {
    assert StepAt(cfg, states, events, n - 1);
    if Changes(states[n - 1], events[n - 1], id) {
      i := n - 1;
      RunKeepsCommitInv(cfg, states, events, n);
      assert IdOf(states[n].db[id].payload) == id;
    } else {
      UnchangedStep(cfg, states[n - 1], events[n - 1], states[n], id);
      i := LastWriter(cfg, states, events, n - 1, id);
    }
  }

  /** The chain: an applied swap expected what the last write before it left. */
  lemma SwapsChain(cfg: Config, states: seq<State>, events: seq<Event>, j: nat, e: Expected, r: Record)
      returns (i: nat, left: Record)
    requires cfg.locking && Run(cfg, states, events) && j < |events| && Applies(states[j], events[j], e, r)
    ensures i < j && Writes(states[i], events[i], left) && IdOf(left) == IdOf(r) && HasExpected(left, e)
    ensures forall k | i < k < j :: !Changes(states[k], events[k], IdOf(r))
  {
    AppliedSwap(cfg, states, events, j, e, r);
    i := LastWriter(cfg, states, events, j, IdOf(r));
    left := states[j].db[IdOf(r)].payload;
    RunKeepsCommitInv(cfg, states, events, j);
    assert ColumnsAgree(states[j].db);
  }

  /** A record that was taken, revoked or swept is never re-created by a swap. */
  lemma SwapNeverRevives(cfg: Config, states: seq<State>, events: seq<Event>, i: nat, j: nat,
                         id: RowId, b: nat, e: Expected, r: Record)
    requires cfg.locking && Run(cfg, states, events) && i < j < |events|
    requires Leaves(states[i], events[i], id, b) && Applies(states[j], events[j], e, r)
    ensures IdOf(r) in states[j + 1].db && states[j + 1].db[IdOf(r)].born != b
    ensures states[j + 1].db.Keys == states[j].db.Keys
  {
    AppliedSwap(cfg, states, events, j, e, r);
    RunKeepsGone(cfg, states, events, i, j, id, b);
  }

  /** If the step changes the row, it removes it or swaps it from the state `e`. */
  predicate SwapsFrom(s: State, ev: Event, id: RowId, e: Expected) {
    Changes(s, ev, id) ==>
      var u := s.txns[ev.t];
      id in u.dels || (u.op.Swap? && u.op.expected == e && IdOf(u.op.updated) == id)
  }

  lemma ChangeByStep(cfg: Config, states: seq<State>, events: seq<Event>, k: nat, id: RowId, e: Expected)
    requires cfg.locking && Run(cfg, states, events) && k < |events| && SwapsFrom(states[k], events[k], id, e)
    requires id in states[k].db && id in states[k + 1].db && states[k + 1].db[id] != states[k].db[id]
    ensures HasExpected(states[k].db[id].payload, e) || states[k + 1].db[id].born != states[k].db[id].born
  {
    assert StepAt(cfg, states, events, k);
    if !Changes(states[k], events[k], id) { UnchangedStep(cfg, states[k], events[k], states[k + 1], id); }
    assert Changes(states[k], events[k], id);
    var u := states[k].txns[events[k].t];
    RunKeepsBornInv(cfg, states, events, k);
    assert RowsOk(cfg, states[k].db, u);
    if id in u.puts { assert PutBorn(states[k], events[k].t, id); }
    if u.op.Swap? && u.hits != map[] {
      AppliedSwap(cfg, states, events, k, u.op.expected, u.op.updated);
    }
  }

  /** The row is in the table, in the given stay. */
  predicate Stands(s: State, id: RowId, b: nat) { id in s.db && s.db[id].born == b }

  /** Once somebody has moved the record out of the state everybody swaps from, that decision stands for
  as long as the record does, so whoever redeems the record sees it. */
  lemma {:induction false} DecisionStands(cfg: Config, states: seq<State>, events: seq<Event>, i: nat, n: nat,
                                          e: Expected, r: Record, b: nat)
    requires cfg.locking && Run(cfg, states, events) && i < n < |states|
    requires Applies(states[i], events[i], e, r) && !HasExpected(r, e) && Stands(states[i], IdOf(r), b)
    requires (forall k | i <= k < n :: SwapsFrom(states[k], events[k], IdOf(r), e)) && Stands(states[n], IdOf(r), b)
    ensures states[n].db[IdOf(r)].payload == r
  {
    if i + 1 < n {
      DecisionStandsBefore(cfg, states, events, i, n, e, r, b);
      DecisionStands(cfg, states, events, i, n - 1, e, r, b);
      StepKeepsDecision(cfg, states, events, n - 1, IdOf(r), e);
    } else {
      AppliedSwap(cfg, states, events, i, e, r);
    }
  }

  lemma DecisionStandsBefore(cfg: Config, states: seq<State>, events: seq<Event>, i: nat, n: nat,
                             e: Expected, r: Record, b: nat)
    requires cfg.locking && Run(cfg, states, events) && i + 1 < n < |states|
    requires Applies(states[i], events[i], e, r) && Stands(states[i], IdOf(r), b) && Stands(states[n], IdOf(r), b)
    ensures Stands(states[n - 1], IdOf(r), b)
  {
    AppliedSwap(cfg, states, events, i, e, r);
    StandsBefore(cfg, states, events, i + 1, n, IdOf(r));
  }

  lemma StepKeepsDecision(cfg: Config, states: seq<State>, events: seq<Event>, k: nat, id: RowId, e: Expected)
    requires cfg.locking && Run(cfg, states, events) && k < |events| && SwapsFrom(states[k], events[k], id, e)
    requires id in states[k].db && Stands(states[k + 1], id, states[k].db[id].born)
    requires !HasExpected(states[k].db[id].payload, e)
    ensures states[k + 1].db[id] == states[k].db[id]
  {
    if states[k + 1].db[id] != states[k].db[id] { ChangeByStep(cfg, states, events, k, id, e); }
  }

  /** At most one decision is applied to a record: a second one from the same state finds another. */
  lemma OneDecision(cfg: Config, states: seq<State>, events: seq<Event>, i: nat, j: nat,
                    e: Expected, r: Record, r': Record, b: nat)
    requires cfg.locking && Run(cfg, states, events) && i < j < |events| && IdOf(r') == IdOf(r)
    requires Applies(states[i], events[i], e, r) && !HasExpected(r, e) && Stands(states[i], IdOf(r), b)
    requires (forall k | i <= k < j :: SwapsFrom(states[k], events[k], IdOf(r), e)) && Stands(states[j], IdOf(r), b)
    ensures !Applies(states[j], events[j], e, r')
  {
    DecisionStands(cfg, states, events, i, j, e, r, b);
    if Applies(states[j], events[j], e, r') { AppliedSwap(cfg, states, events, j, e, r'); }
  }

  /** Whoever redeems the record after the decision receives the decision. */
  lemma RedeemerSeesDecision(cfg: Config, states: seq<State>, events: seq<Event>, i: nat, j: nat,
                             e: Expected, r: Record, row: Row)
    requires cfg.locking && Run(cfg, states, events) && i < j < |events|
    requires Applies(states[i], events[i], e, r) && !HasExpected(r, e) && Stands(states[i], IdOf(r), row.born)
    requires forall k | i <= k < j :: SwapsFrom(states[k], events[k], IdOf(r), e)
    requires Receives(states[j], events[j], IdOf(r), row)
    ensures row.payload == r
  {
    CommitStep(cfg, states, events, j);
    assert StepAt(cfg, states, events, j);
    ReceivedLeaves(cfg, states[j], events[j], states[j + 1], IdOf(r), row);
    DecisionStands(cfg, states, events, i, j, e, r, row.born);
  }

  /** A row that is there at both ends with one identity was there all the time. */
  lemma StandsBefore(cfg: Config, states: seq<State>, events: seq<Event>, i: nat, n: nat, id: RowId)
    requires cfg.locking && Run(cfg, states, events) && i < n < |states|
    requires id in states[i].db && id in states[n].db && states[n].db[id].born == states[i].db[id].born
    ensures id in states[n - 1].db && states[n - 1].db[id].born == states[i].db[id].born
  {
    var b := states[i].db[id].born;
    if !(id in states[n - 1].db && states[n - 1].db[id].born == b) {
      var k := LossIsARemoval(cfg, states, events, i, n - 1, id);
      RunKeepsGone(cfg, states, events, k, n, id, b);
    }
  }

  // ----- by the fields of the records

  /** An applied swap of a code replaced a committed code in exactly the expected state. */
  lemma AppliedCodeSwap(cfg: Config, states: seq<State>, events: seq<Event>, j: nat, c: CodeState, r: Record)
    requires cfg.locking && Run(cfg, states, events) && j < |events| && Applies(states[j], events[j], OfCode(c), r)
    ensures r.Code?
    ensures var id, db, db' := Keyed(Codes, r.code), states[j].db, states[j + 1].db;
            && id in db && db[id].payload.Code? && db[id].payload.code == r.code && db[id].payload.codeState == c
            && id in db' && db'[id].payload == r && db'[id].born == db[id].born
  {
    AppliedSwap(cfg, states, events, j, OfCode(c), r);
    CommitStep(cfg, states, events, j);
    assert IdOf(states[j].db[IdOf(r)].payload) == IdOf(r);
  }

  /** Likewise for a device grant. */
  lemma AppliedDeviceSwap(cfg: Config, states: seq<State>, events: seq<Event>, j: nat, s: DeviceState, r: Record)
    requires cfg.locking && Run(cfg, states, events) && j < |events| && Applies(states[j], events[j], OfDevice(s), r)
    ensures r.DeviceGrant?
    ensures var id, db, db' := Keyed(DeviceGrants, r.deviceCode), states[j].db, states[j + 1].db;
            && id in db && db[id].payload.DeviceGrant? && db[id].payload.deviceCode == r.deviceCode
            && db[id].payload.deviceState == s
            && id in db' && db'[id].payload == r && db'[id].born == db[id].born
  {
    AppliedSwap(cfg, states, events, j, OfDevice(s), r);
    CommitStep(cfg, states, events, j);
    assert IdOf(states[j].db[IdOf(r)].payload) == IdOf(r);
  }

  /** And for a client, which is compared as a whole. */
  lemma AppliedClientSwap(cfg: Config, states: seq<State>, events: seq<Event>, j: nat, x: Record, r: Record)
    requires cfg.locking && Run(cfg, states, events) && j < |events| && Applies(states[j], events[j], Whole(x), r)
    ensures r.Client?
    ensures var id, db, db' := Keyed(Clients, r.clientId), states[j].db, states[j + 1].db;
            id in db && db[id].payload == x && id in db' && db'[id].payload == r && db'[id].born == db[id].born
  {
    AppliedSwap(cfg, states, events, j, Whole(x), r);
    CommitStep(cfg, states, events, j);
  }

  /** The last write of a row before a step comes after every earlier step that changed the row. */
  lemma WrittenSince(cfg: Config, states: seq<State>, events: seq<Event>, i: nat, j: nat, id: RowId, r: Record)
      returns (k: nat)
    requires cfg.locking && Run(cfg, states, events) && i < j < |events| && Writes(states[i], events[i], r)
    requires IdOf(r) == id && id in states[j].db && states[j].db[id].payload != r
    ensures i < k < j && Writes(states[k], events[k], states[j].db[id].payload)
  {
    k := LastWriter(cfg, states, events, j, id);
    assert Changes(states[i], events[i], id);
    RunKeepsCommitInv(cfg, states, events, j);
    assert IdOf(states[j].db[id].payload) == id;
  }

  /** A code is consumed once: between two applied swaps from one state, the first of which wrote another
  state, somebody has written the code back in the first state. */
  lemma CodeSwappedOnce(cfg: Config, states: seq<State>, events: seq<Event>, i: nat, j: nat, c: CodeState,
                        r: Record, r': Record) returns (k: nat, back: Record)
    requires cfg.locking && Run(cfg, states, events) && i < j < |events|
    requires r.Code? && r'.Code? && r.code == r'.code && r.codeState != c
    requires Applies(states[i], events[i], OfCode(c), r) && Applies(states[j], events[j], OfCode(c), r')
    ensures i < k < j && Writes(states[k], events[k], back)
    ensures back.Code? && back.code == r.code && back.codeState == c
  {
    AppliedSwap(cfg, states, events, i, OfCode(c), r);
    AppliedCodeSwap(cfg, states, events, j, c, r');
    back := states[j].db[IdOf(r)].payload;
    k := WrittenSince(cfg, states, events, i, j, IdOf(r), r);
  }

  /** Likewise, a device grant is decided once. */
  lemma DeviceSwappedOnce(cfg: Config, states: seq<State>, events: seq<Event>, i: nat, j: nat, s: DeviceState,
                          r: Record, r': Record) returns (k: nat, back: Record)
    requires cfg.locking && Run(cfg, states, events) && i < j < |events|
    requires r.DeviceGrant? && r'.DeviceGrant? && r.deviceCode == r'.deviceCode && r.deviceState != s
    requires Applies(states[i], events[i], OfDevice(s), r) && Applies(states[j], events[j], OfDevice(s), r')
    ensures i < k < j && Writes(states[k], events[k], back)
    ensures back.DeviceGrant? && back.deviceCode == r.deviceCode && back.deviceState == s
  {
    AppliedSwap(cfg, states, events, i, OfDevice(s), r);
    AppliedDeviceSwap(cfg, states, events, j, s, r');
    back := states[j].db[IdOf(r)].payload;
    k := WrittenSince(cfg, states, events, i, j, IdOf(r), r);
  }

  /** Where everybody swaps one code from one state to another one, at most one of two swaps is applied. */
  lemma OneRedemption(cfg: Config, states: seq<State>, events: seq<Event>, i: nat, j: nat, c: CodeState,
                      r: Record, r': Record)
    requires cfg.locking && Run(cfg, states, events) && i < j < |events| && r.Code? && r'.Code? && r.code == r'.code
    requires Applies(states[i], events[i], OfCode(c), r)
    requires forall k, back | i <= k < j && Writes(states[k], events[k], back) && back.Code? && back.code == r.code ::
               back.codeState != c
    ensures !Applies(states[j], events[j], OfCode(c), r')
  {
    if Applies(states[j], events[j], OfCode(c), r') {
      AppliedSwap(cfg, states, events, i, OfCode(c), r);
      var k, back := CodeSwappedOnce(cfg, states, events, i, j, c, r, r');
    }
  }
}
