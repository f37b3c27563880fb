/** A client deletion and a withdrawal reach the consents before the tokens, so they take turns there.

The withdrawal holds the row of its consent, which the deletion has to remove before it goes on. So the two
meet among the tokens only when the consent was written while the deletion was already running. */
module TakingTurns {
  import opened Options
  import opened Records
  import opened Protocol
  import opened Invariant
  import opened RowInvariant
  import opened Commit
  import opened Leftovers
  import opened Deadlock
  import opened Cycles

  lemma ConsentsComeFirst(cfg: Config, c: string, w: Window, bound: Option<(string, string)>, pc: nat)
    requires cfg.locking && 2 < pc <= |Program(cfg, DeleteClient(c, w), bound)|
    ensures Deletion(ByClient(Consents, c)) in Program(cfg, DeleteClient(c, w), bound)[..pc]
  {
    var prog := Program(cfg, DeleteClient(c, w), bound);
    assert prog[2] == Deletion(ByClient(Consents, c));
    assert prog[..pc][2] == prog[2];
  }

  /** A withdrawal that knows its pair holds the committed row of its consent. */
  lemma HoldsConsent(cfg: Config, s: State, t: nat)
    requires CommitInv(cfg, s) && t in s.txns && s.txns[t].outcome.Running? && s.txns[t].op.RevokeConsent?
    requires s.txns[t].bound.Some?
    ensures var key := Keyed(Consents, s.txns[t].op.consentId);
            key in s.db && key in s.txns[t].rows && s.db[key].cols.client == s.txns[t].bound.value.0
  {
    assert RowsOk(cfg, s.db, s.txns[t]);
  }

  lemma PassedConsents(cfg: Config, s: State, t: nat, since: set<RowId>, c: string, w: Window, id: RowId)
    requires cfg.locking && Inv(cfg, s) && LeftAt(cfg, s, t, since) && s.txns[t].op == DeleteClient(c, w)
    requires s.txns[t].pc > 2 && id !in s.txns[t].rows
    requires id in s.db && id.Table() == Consents && s.db[id].cols.client == c
    ensures id in since
  {
    var u := s.txns[t];
    assert RunningOk(cfg, s.db, u);
    ConsentsComeFirst(cfg, c, w, u.bound, u.pc);
    assert Thorough(Deletion(ByClient(Consents, c))) && Matches(ByClient(Consents, c), id, s.db[id]);
    assert Emptied(ByClient(Consents, c), s.db, u.dels, since);
  }

  /** While a deletion is past the consents, a withdrawal that works on a pair of the client has claimed a
  consent that was written since the deletion began. */
  lemma WithdrawalIsNew(cfg: Config, states: seq<State>, events: seq<Event>, b: nat, n: nat, t: nat, t': nat,
                        c: string, w: Window)
    requires cfg.locking && Run(cfg, states, events) && b < n < |states| && events[b] == Begin(t, DeleteClient(c, w))
    requires t in states[n].txns && states[n].txns[t].outcome.Running? && states[n].txns[t].pc > 2
    requires t' in states[n].txns && states[n].txns[t'].outcome.Running? && states[n].txns[t'].op.RevokeConsent?
    requires states[n].txns[t'].bound.Some? && states[n].txns[t'].bound.value.0 == c
    ensures Keyed(Consents, states[n].txns[t'].op.consentId) in WrittenBetween(states, events, b, n)
  {
    RunKeepsLeft(cfg, states, events, b, n, t, DeleteClient(c, w));
    RunKeepsCommitInv(cfg, states, events, n);
    HoldsConsent(cfg, states[n], t');
    assert states[n].txns[t].rows !! states[n].txns[t'].rows;
    PassedConsents(cfg, states[n], t, WrittenBetween(states, events, b, n), c, w,
                   Keyed(Consents, states[n].txns[t'].op.consentId));
  }

  lemma MidTableScans(cfg: Config, s: State, t: nat, table: Table)
    requires CommitInv(cfg, s) && MidTable(cfg, s, t, table)
    ensures TableOf(Current(cfg, s, t).pred) == table
  {
    assert RowsOk(cfg, s.db, s.txns[t]);
    var id :| Wants(cfg, s, t, RowRes(id)) && id.Table() == table;
  }

  lemma WithdrawalRemovesTokens(cfg: Config, id: string, w: Window, bound: Option<(string, string)>, pc: nat)
    requires pc < |Program(cfg, RevokeConsent(id, w), bound)|
    requires RemovesMany(Program(cfg, RevokeConsent(id, w), bound)[pc])
    ensures bound.Some? && TableOf(Program(cfg, RevokeConsent(id, w), bound)[pc].pred) != Consents
  {
  }

  lemma DeletionPastConsents(cfg: Config, c: string, w: Window, bound: Option<(string, string)>, pc: nat)
    requires cfg.locking && pc < |Program(cfg, DeleteClient(c, w), bound)|
    requires var stmt := Program(cfg, DeleteClient(c, w), bound)[pc]; stmt.Scan? && TableOf(stmt.pred) != Consents
    ensures pc > 2
  {
  }

  /** A deletion and a withdrawal of a pair of the same client cross in a table only if the consent was
  written while the deletion ran. */
  lemma CrossOnlyOverNew(cfg: Config, states: seq<State>, events: seq<Event>, b: nat, n: nat, t: nat, t': nat,
                         c: string, w: Window, table: Table)
    requires cfg.locking && Run(cfg, states, events) && b < n < |states| && events[b] == Begin(t, DeleteClient(c, w))
    requires MidTable(cfg, states[n], t, table) && MidTable(cfg, states[n], t', table)
    requires states[n].txns[t'].op.RevokeConsent?
    requires states[n].txns[t'].bound.Some? ==> states[n].txns[t'].bound.value.0 == c
    ensures Keyed(Consents, states[n].txns[t'].op.consentId) in WrittenBetween(states, events, b, n)
  {
    var u, u' := states[n].txns[t], states[n].txns[t'];
    RunKeepsCommitInv(cfg, states, events, n);
    RunKeepsLeft(cfg, states, events, b, n, t, DeleteClient(c, w));
    MidTableScans(cfg, states[n], t, table);
    MidTableScans(cfg, states[n], t', table);
    WithdrawalRemovesTokens(cfg, u'.op.consentId, u'.op.window, u'.bound, u'.pc);
    DeletionPastConsents(cfg, c, w, u.bound, u.pc);
    WithdrawalIsNew(cfg, states, events, b, n, t, t', c, w);
  }
}
