/** Recording barriers is a join: repeated revocations of one scope, in any order and any number, leave
the latest deadline and the latest instant. */
module BarrierJoin {
  import opened Options
  import opened Time
  import opened Records
  import opened Protocol
  import opened Atomic

  /** The barrier after a list of revocations of its scope. */
  function MergeAll(scope: Scope, ws: seq<Window>): (b: Option<Record>) {
    if ws == [] then None else Some(Merge(MergeAll(scope, ws[..|ws| - 1]), scope, ws[|ws| - 1]))
  }

  /** The two instants of a window. */
  datatype Side = Deadline | RecordedAt

  function Column(side: Side, w: Window): Nanos { if side.Deadline? then ToNanos(w.until) else ToNanos(w.recordedAt) }

  function ColumnOf(side: Side, b: Record): Nanos
    requires b.Barrier?
  {
    if side.Deadline? then b.until else b.recorded
  }

  predicate IsMax(n: Nanos, side: Side, ws: seq<Window>) {
    && (forall w | w in ws :: Column(side, w) <= n)
    && (exists w | w in ws :: Column(side, w) == n)
  }

  lemma MaxSnoc(m: Nanos, side: Side, ws: seq<Window>, w: Window)
    requires IsMax(m, side, ws)
    ensures IsMax(if m > Column(side, w) then m else Column(side, w), side, ws + [w])
  {
    var all := ws + [w];
    assert w in all;
    assert forall x | x in ws :: x in all;
  }

  lemma MergeColumns(b: Record, scope: Scope, w: Window, side: Side)
    requires b.Barrier?
    ensures var after := Merge(Some(b), scope, w);
            && after.Barrier? && after.scope == scope
            && ColumnOf(side, after) ==
                 if ColumnOf(side, b) > Column(side, w) then ColumnOf(side, b) else Column(side, w)
  {
  }

  /** Both instants of the stored barrier are the maxima of those given. */
  lemma {:induction false} MergedIsMax(scope: Scope, ws: seq<Window>, side: Side)
    requires ws != []
    ensures MergeAll(scope, ws).Some? && MergeAll(scope, ws).value.Barrier? && MergeAll(scope, ws).value.scope == scope
    ensures IsMax(ColumnOf(side, MergeAll(scope, ws).value), side, ws)
  {
    var n := |ws| - 1;
    var w := ws[n];
    assert ws == ws[..n] + [w] && w in ws;
    if n > 0 {
      MergedIsMax(scope, ws[..n], side);
      var b := MergeAll(scope, ws[..n]).value;
      MergeColumns(b, scope, w, side);
      MaxSnoc(ColumnOf(side, b), side, ws[..n], w);
    } else {
      FirstMerge(scope, w, side);
      assert ws[..0] == [] && ws == [w];
    }
  }

  lemma FirstMerge(scope: Scope, w: Window, side: Side)
    ensures var b := Merge(None, scope, w); b.Barrier? && b.scope == scope && ColumnOf(side, b) == Column(side, w)
    ensures IsMax(Column(side, w), side, [w])
  {
    assert w in [w];
  }

  lemma MaxUnique(a: Nanos, b: Nanos, side: Side, ws: seq<Window>, ws': seq<Window>)
    requires IsMax(a, side, ws) && IsMax(b, side, ws') && forall w :: w in ws <==> w in ws'
    ensures a == b
  {
  }

  /** Order and repetition make no difference. */
  lemma OrderAndRepetitionDoNotMatter(scope: Scope, ws: seq<Window>, ws': seq<Window>)
    requires forall w :: w in ws <==> w in ws'
    ensures MergeAll(scope, ws) == MergeAll(scope, ws')
  {
    assert |ws'| > 0 ==> ws'[0] in ws';
    if ws != [] {
      assert ws[0] in ws';
      SameSide(scope, ws, ws', Deadline);
      SameSide(scope, ws, ws', RecordedAt);
    }
  }

  lemma SameSide(scope: Scope, ws: seq<Window>, ws': seq<Window>, side: Side)
    requires ws != [] && ws' != [] && forall w :: w in ws <==> w in ws'
    ensures MergeAll(scope, ws).value.Barrier? && MergeAll(scope, ws').value.Barrier?
    ensures MergeAll(scope, ws).value.scope == MergeAll(scope, ws').value.scope == scope
    ensures ColumnOf(side, MergeAll(scope, ws).value) == ColumnOf(side, MergeAll(scope, ws').value)
  {
    MergedIsMax(scope, ws, side);
    MergedIsMax(scope, ws', side);
    MaxUnique(ColumnOf(side, MergeAll(scope, ws).value), ColumnOf(side, MergeAll(scope, ws').value), side, ws, ws');
  }

  // ----- a client that is registered again

  lemma DeletionBarrier(store: Store, c: string, w: Window)
    requires c != "" && forall id | id in store :: IdOf(store[id]) == id
    ensures var gone := AfterDeleteClient(store, c, w);
            && BarrierId(ClientScope(c)) in gone && gone[BarrierId(ClientScope(c))].Barrier?
            && gone[BarrierId(ClientScope(c))].recorded >= ToNanos(w.recordedAt) && Keyed(Clients, c) !in gone
  {
    var base := Recorded(store, ClientScope(c), w);
    assert Keyed(Clients, c) in base ==> IdOf(base[Keyed(Clients, c)]) == Keyed(Clients, c);
  }

  /** After a deletion every write of the client is refused. Once the client is registered again a write
  is served exactly when its grant is later than the recorded deletion, and no family or consent
  barrier stands against it. */
  lemma Reprovisioned(store: Store, w: Window, client: Record, r: Record)
    requires (forall id | id in store :: IdOf(store[id]) == id) && client.Client? && client.clientId != ""
    requires IsGuarded(r) && GuardOf(r).client == client.clientId
    ensures var c, g := client.clientId, GuardOf(r);
            var gone := AfterDeleteClient(store, c, w);
            var back := gone[IdOf(client) := client];
            && AfterPut(gone, r) == gone
            && (IsRevoked(back, g) <==>
                  || gone[BarrierId(ClientScope(c))].recorded >= ToNanos(g.established)
                  || (g.family.Some? && BarrierId(FamilyScope(g.family.value)) in store)
                  || (g.subject.Some? && BarrierSince(store, ConsentScope(c, g.subject.value), g.established)))
  {
    DeletionBarrier(store, client.clientId, w);
  }
}
