/** What a refresh chain carries from its first issuance on.

A redemption compares the proof key and the certificate of the request with those of the presented
record, and copies the rest of the record into what it issues. */
module RefreshChains {
  import opened Options
  import opened Time
  import opened Records

  /** What a record of a chain is bound to. */
  datatype Binding = Binding(jkt: Option<string>, certificate: Option<string>, authentication: string,
    established: Instant)

  datatype Link = Link(client: string, family: string, binding: Binding, state: RefreshState)

  datatype AccessLink = AccessLink(client: string, family: string, binding: Binding)

  datatype Chain = Chain(refresh: map<string, Link>, access: map<string, AccessLink>)

  /** Two settings of the server: whether it keeps the presented token alive, and how long it answers a
  retried rotation again. */
  datatype Settings = Settings(reuse: bool, retryWindow: nat) {
    /** The presented record is removed before anything about it has been judged. */
    predicate Takes() { !reuse && retryWindow == 0 }
  }

  /** What scope, resource and expiry say: go on, refuse and keep the chain, or refuse and let it die. */
  datatype Verdict = Fine | Narrower | Dead

  datatype Request = Request(client: string, token: string, jkt: Option<string>, certificate: Option<string>,
                             newAccess: string, newRefresh: string, verdict: Verdict)

  datatype Answer = Granted | UnknownToken | WrongClient | ReuseDetected | WrongKey | WrongCertificate | Refused

  /** A confidential client may change its key but not whether it proves one; a public client may do
  neither. */
  predicate KeyViolation(confidential: bool, bound: Option<string>, presented: Option<string>) {
    if confidential then bound.Some? != presented.Some? else bound != presented
  }

  function WithoutFamilyOf(chain: Chain, f: string): Chain {
    Chain(map t | t in chain.refresh && chain.refresh[t].family != f :: chain.refresh[t],
          map t | t in chain.access && chain.access[t].family != f :: chain.access[t])
  }

  /** What is issued: keys from the request, everything else from the record. */
  function Carried(record: Link, req: Request): Binding {
    Binding(req.jkt, req.certificate, record.binding.authentication, record.binding.established)
  }

  function Extended(chain: Chain, record: Link, req: Request, reuse: bool): Chain {
    var b := Carried(record, req);
    var access := chain.access[req.newAccess := AccessLink(record.client, record.family, b)];
    if reuse then Chain(chain.refresh, access)
    else
      var spent := chain.refresh[req.token := record.(state := Spent)];
      Chain(spent[req.newRefresh := Link(record.client, record.family, b, Active)], access)
  }

  /** One redemption of a refresh token. */
  function Redeem(confidential: string -> bool, mode: Settings, chain: Chain, req: Request): (r: (Chain, Answer)) {
    if req.token !in chain.refresh then (chain, UnknownToken)
    else
      var record := chain.refresh[req.token];
      if record.client != req.client then (chain, WrongClient)
      else if !mode.reuse && record.state.Spent? then (WithoutFamilyOf(chain, record.family), ReuseDetected)
      else if KeyViolation(confidential(req.client), record.binding.jkt, req.jkt) then (chain, WrongKey)
      else if record.binding.certificate != req.certificate then (chain, WrongCertificate)
      else
        match req.verdict
        case Narrower => (chain, Refused)
        case Dead => (if mode.Takes() then chain.(refresh := chain.refresh - {req.token}) else chain, Refused)
        case Fine => (Extended(chain, record, req, mode.reuse), Granted)
  }

  function RedeemAll(confidential: string -> bool, mode: Settings, chain: Chain, reqs: seq<Request>): (chain': Chain) {
    if reqs == [] then chain
    else Redeem(confidential, mode, RedeemAll(confidential, mode, chain, reqs[..|reqs| - 1]), reqs[|reqs| - 1]).0
  }

  // ----- what every record of a family has in common

  /** The binding of a later record against the first issuance. */
  predicate BoundAs(confidential: bool, first: Binding, b: Binding) {
    && b.certificate == first.certificate && b.authentication == first.authentication
    && b.established == first.established && !KeyViolation(confidential, first.jkt, b.jkt)
  }

  ghost predicate FamilyBound(confidential: string -> bool, chain: Chain, f: string, client: string, first: Binding) {
    && (forall t | t in chain.refresh && chain.refresh[t].family == f ::
          chain.refresh[t].client == client && BoundAs(confidential(client), first, chain.refresh[t].binding))
    && (forall t | t in chain.access && chain.access[t].family == f ::
          chain.access[t].client == client && BoundAs(confidential(client), first, chain.access[t].binding))
  }

  lemma RedeemKeepsBinding(confidential: string -> bool, mode: Settings, chain: Chain, req: Request, f: string,
                           client: string, first: Binding)
    requires FamilyBound(confidential, chain, f, client, first)
    ensures FamilyBound(confidential, Redeem(confidential, mode, chain, req).0, f, client, first)
  {
  }

  /** Along a chain of any length every record of the family keeps the certificate, the reported
  authentication and the grant instant of the first issuance; it keeps the proof key if the client is
  public, and the fact of being key-bound if it is confidential. */
  lemma {:induction false} ChainKeepsBinding(confidential: string -> bool, mode: Settings, chain: Chain,
                                             reqs: seq<Request>,
                                             f: string, client: string, first: Binding)
    requires FamilyBound(confidential, chain, f, client, first)
    ensures FamilyBound(confidential, RedeemAll(confidential, mode, chain, reqs), f, client, first)
  {
    if reqs != [] {
      var n := |reqs| - 1;
      ChainKeepsBinding(confidential, mode, chain, reqs[..n], f, client, first);
      RedeemKeepsBinding(confidential, mode, RedeemAll(confidential, mode, chain, reqs[..n]), reqs[n], f, client,
        first);
    }
  }

  /** After any history a request that proves another key or certificate than the first issuance is not
  served, and it leaves the chain as it was, unless it replays a spent token, which ends the family. */
  lemma ForeignBindingNeverServed(confidential: string -> bool, mode: Settings, chain: Chain, reqs: seq<Request>,
                                  f: string, client: string, first: Binding, req: Request)
    requires FamilyBound(confidential, chain, f, client, first)
    requires var now := RedeemAll(confidential, mode, chain, reqs).refresh;
               req.token in now && now[req.token].family == f
    requires KeyViolation(confidential(client), first.jkt, req.jkt) || first.certificate != req.certificate
    ensures var now := RedeemAll(confidential, mode, chain, reqs);
            var (after, answer) := Redeem(confidential, mode, now, req);
            && !answer.Granted?
            && after == if answer.ReuseDetected? then WithoutFamilyOf(now, f) else now
  {
    ChainKeepsBinding(confidential, mode, chain, reqs, f, client, first);
    var now := RedeemAll(confidential, mode, chain, reqs);
    assert BoundAs(confidential(client), first, now.refresh[req.token].binding);
  }

  // ----- the proof key itself

  ghost predicate OneKey(chain: Chain, f: string, jkt: Option<string>) {
    && (forall t | t in chain.refresh && chain.refresh[t].family == f :: chain.refresh[t].binding.jkt == jkt)
    && (forall t | t in chain.access && chain.access[t].family == f :: chain.access[t].binding.jkt == jkt)
  }

  predicate GrantedOn(confidential: string -> bool, mode: Settings, chain: Chain, req: Request, f: string) {
    && req.token in chain.refresh && chain.refresh[req.token].family == f
    && Redeem(confidential, mode, chain, req).1.Granted?
  }

  /** One redemption leaves the family on its key exactly when it proves that key, if it is granted at all. */
  lemma KeyKeptOnce(confidential: string -> bool, mode: Settings, chain: Chain, req: Request, f: string,
                    jkt: Option<string>)
    requires OneKey(chain, f, jkt)
    ensures OneKey(Redeem(confidential, mode, chain, req).0, f, jkt)
       <==> (GrantedOn(confidential, mode, chain, req, f) ==> req.jkt == jkt)
  {
    var after := Redeem(confidential, mode, chain, req).0;
    if GrantedOn(confidential, mode, chain, req, f) {
      assert req.newAccess in after.access && after.access[req.newAccess].family == f;
      assert after.access[req.newAccess].binding.jkt == req.jkt;
    }
  }

  /** The chain after the first `n` requests. */
  function After(confidential: string -> bool, mode: Settings, chain: Chain, reqs: seq<Request>, n: nat): Chain
    requires n <= |reqs|
  {
    RedeemAll(confidential, mode, chain, reqs[..n])
  }

  lemma AfterNext(confidential: string -> bool, mode: Settings, chain: Chain, reqs: seq<Request>, n: nat)
    requires n < |reqs|
    ensures After(confidential, mode, chain, reqs, n + 1)
         == Redeem(confidential, mode, After(confidential, mode, chain, reqs, n), reqs[n]).0
  {
    assert reqs[..n + 1][..n] == reqs[..n];
  }

  lemma {:induction false} KeyKeptUpTo(confidential: string -> bool, mode: Settings, chain: Chain, reqs: seq<Request>,
                                       f: string, jkt: Option<string>, n: nat)
    requires OneKey(chain, f, jkt) && n <= |reqs|
    requires forall i | 0 <= i < n ::
               GrantedOn(confidential, mode, After(confidential, mode, chain, reqs, i), reqs[i], f) ==>
                 reqs[i].jkt == jkt
    ensures OneKey(After(confidential, mode, chain, reqs, n), f, jkt)
  {
    if n > 0 {
      KeyKeptUpTo(confidential, mode, chain, reqs, f, jkt, n - 1);
      AfterNext(confidential, mode, chain, reqs, n - 1);
      KeyKeptOnce(confidential, mode, After(confidential, mode, chain, reqs, n - 1), reqs[n - 1], f, jkt);
    }
  }

  /** Along a chain of any length the family stays on one key exactly when every redemption that is granted
  on it proves that key. */
  lemma KeyKeptIff(confidential: string -> bool, mode: Settings, chain: Chain, reqs: seq<Request>,
                   f: string, jkt: Option<string>)
    requires OneKey(chain, f, jkt)
    ensures (forall n | 0 <= n <= |reqs| :: OneKey(After(confidential, mode, chain, reqs, n), f, jkt))
       <==> (forall n | 0 <= n < |reqs| ::
               GrantedOn(confidential, mode, After(confidential, mode, chain, reqs, n), reqs[n], f) ==>
                 reqs[n].jkt == jkt)
  {
    if forall n | 0 <= n < |reqs| ::
         GrantedOn(confidential, mode, After(confidential, mode, chain, reqs, n), reqs[n], f) ==> reqs[n].jkt == jkt {
      forall n | 0 <= n <= |reqs| ensures OneKey(After(confidential, mode, chain, reqs, n), f, jkt) {
        KeyKeptUpTo(confidential, mode, chain, reqs, f, jkt, n);
      }
    }
    if forall n | 0 <= n <= |reqs| :: OneKey(After(confidential, mode, chain, reqs, n), f, jkt) {
      forall n | 0 <= n < |reqs|
        ensures GrantedOn(confidential, mode, After(confidential, mode, chain, reqs, n), reqs[n], f) ==>
                  reqs[n].jkt == jkt
      {
        AfterNext(confidential, mode, chain, reqs, n);
        assert OneKey(After(confidential, mode, chain, reqs, n + 1), f, jkt);
        KeyKeptOnce(confidential, mode, After(confidential, mode, chain, reqs, n), reqs[n], f, jkt);
      }
    }
  }

  /** A public client never leaves its key: whatever it is granted, it proved the key of its family. */
  lemma PublicKeepsKey(confidential: string -> bool, mode: Settings, chain: Chain, reqs: seq<Request>,
                       f: string, client: string, first: Binding)
    requires FamilyBound(confidential, chain, f, client, first) && !confidential(client)
    ensures OneKey(RedeemAll(confidential, mode, chain, reqs), f, first.jkt)
  {
    ChainKeepsBinding(confidential, mode, chain, reqs, f, client, first);
  }

  /** A token of the family that a redemption would accept. */
  predicate Redeemable(mode: Settings, chain: Chain, f: string, token: string) {
    && token in chain.refresh && chain.refresh[token].family == f
    && (mode.reuse || chain.refresh[token].state.Active?)
  }

  ghost predicate Alive(mode: Settings, chain: Chain, f: string) {
    exists token :: Redeemable(mode, chain, f, token)
  }

  /** A confidential client can move any key-bound family to any other key, with any token of it that is
  accepted at all. */
  lemma ConfidentialRekeys(confidential: string -> bool, mode: Settings, chain: Chain, f: string, client: string,
                           first: Binding, token: string, key: string)
    requires FamilyBound(confidential, chain, f, client, first) && Redeemable(mode, chain, f, token)
    requires confidential(client) && first.jkt.Some? && first.jkt != Some(key)
    ensures exists req: Request | req.token == token && req.jkt == Some(key) ::
              && Redeem(confidential, mode, chain, req).1.Granted?
              && !OneKey(Redeem(confidential, mode, chain, req).0, f, first.jkt)
  {
    var req := Request(client, token, Some(key), first.certificate, "", "", Fine);
    var after, answer := Redeem(confidential, mode, chain, req).0, Redeem(confidential, mode, chain, req).1;
    assert BoundAs(true, first, chain.refresh[token].binding);
    assert answer.Granted? && "" in after.access && after.access[""].family == f;
    assert req.token == token;
  }

  /** A family with no token left that is accepted is not extended any more. */
  lemma {:induction false} DeadStaysDead(confidential: string -> bool, mode: Settings, chain: Chain, reqs: seq<Request>,
                                         f: string, jkt: Option<string>)
    requires OneKey(chain, f, jkt) && !Alive(mode, chain, f)
    ensures var now := RedeemAll(confidential, mode, chain, reqs); OneKey(now, f, jkt) && !Alive(mode, now, f)
  {
    if reqs != [] {
      var n := |reqs| - 1;
      DeadStaysDead(confidential, mode, chain, reqs[..n], f, jkt);
      RedeemKeepsDead(confidential, mode, RedeemAll(confidential, mode, chain, reqs[..n]), reqs[n], f, jkt);
    }
  }

  lemma RedeemKeepsDead(confidential: string -> bool, mode: Settings, chain: Chain, req: Request,
                        f: string, jkt: Option<string>)
    requires OneKey(chain, f, jkt) && !Alive(mode, chain, f)
    ensures var now := Redeem(confidential, mode, chain, req).0; OneKey(now, f, jkt) && !Alive(mode, now, f)
  {
    var now := Redeem(confidential, mode, chain, req).0;
    assert !Redeemable(mode, chain, f, req.token);
    forall token ensures !Redeemable(mode, now, f, token) {
      assert !Redeemable(mode, chain, f, token);
    }
  }

  ghost predicate AlwaysOneKey(confidential: string -> bool, mode: Settings, chain: Chain, f: string,
                               jkt: Option<string>) {
    forall reqs: seq<Request> :: OneKey(RedeemAll(confidential, mode, chain, reqs), f, jkt)
  }

  /** Whatever is requested, a family stays on its first key exactly when it is on it now and its client is
  public, or it is not key-bound, or it has no token left that is accepted. */
  lemma AlwaysOneKeyIff(confidential: string -> bool, mode: Settings, chain: Chain, f: string, client: string,
                        first: Binding)
    requires FamilyBound(confidential, chain, f, client, first)
    ensures AlwaysOneKey(confidential, mode, chain, f, first.jkt)
       <==> OneKey(chain, f, first.jkt) && (!confidential(client) || first.jkt.None? || !Alive(mode, chain, f))
  {
    if AlwaysOneKey(confidential, mode, chain, f, first.jkt) {
      assert OneKey(RedeemAll(confidential, mode, chain, []), f, first.jkt);
    }
    if confidential(client) && first.jkt.Some? && Alive(mode, chain, f) {
      var token :| Redeemable(mode, chain, f, token);
      var key := first.jkt.value + "'";
      assert |key| != |first.jkt.value|;
      ConfidentialRekeys(confidential, mode, chain, f, client, first, token, key);
      var req: Request :| req.token == token && !OneKey(Redeem(confidential, mode, chain, req).0, f, first.jkt);
      OneRequest(confidential, mode, chain, req);
    } else if OneKey(chain, f, first.jkt) {
      forall reqs: seq<Request> ensures OneKey(RedeemAll(confidential, mode, chain, reqs), f, first.jkt) {
        if confidential(client) && first.jkt.Some? {
          DeadStaysDead(confidential, mode, chain, reqs, f, first.jkt);
        } else {
          ChainKeepsBinding(confidential, mode, chain, reqs, f, client, first);
        }
      }
    }
  }

  lemma OneRequest(confidential: string -> bool, mode: Settings, chain: Chain, req: Request)
    ensures RedeemAll(confidential, mode, chain, [req]) == Redeem(confidential, mode, chain, req).0
  {
    assert [req][..0] == [];
  }

  // ----- a token is spent once

  ghost predicate NoneLeft(chain: Chain, f: string) {
    && (forall t | t in chain.refresh :: chain.refresh[t].family != f)
    && (forall t | t in chain.access :: chain.access[t].family != f)
  }

  /** Without reuse a granted redemption spends the presented token, issues one active refresh token and one
  access token in its family, and leaves every other token as it was. */
  lemma GrantSpends(confidential: string -> bool, mode: Settings, chain: Chain, req: Request)
    requires !mode.reuse && Redeem(confidential, mode, chain, req).1.Granted? && req.newRefresh !in chain.refresh
    ensures var now, was := Redeem(confidential, mode, chain, req).0, chain.refresh;
            && req.token in was && was[req.token].client == req.client && was[req.token].state.Active?
            && now.refresh.Keys == was.Keys + {req.newRefresh} && now.access.Keys == chain.access.Keys + {req.newAccess}
            && now.refresh[req.token].state.Spent? && now.refresh[req.token].family == was[req.token].family
            && now.refresh[req.token].client == req.client
            && now.refresh[req.newRefresh].state.Active? && now.refresh[req.newRefresh].client == req.client
            && now.refresh[req.newRefresh].family == was[req.token].family
            && now.access[req.newAccess].client == req.client
            && now.access[req.newAccess].family == was[req.token].family
            && (forall t | t in was && t != req.token :: now.refresh[t] == was[t])
            && (forall t | t in chain.access && t != req.newAccess :: now.access[t] == chain.access[t])
  {
  }

  /** Exactly who is served: the client of a token that is accepted, with the certificate of its record and,
  if the client is public, its key; a confidential client has to prove some key exactly if there is one. */
  lemma GrantedIff(confidential: string -> bool, mode: Settings, chain: Chain, req: Request)
    ensures Redeem(confidential, mode, chain, req).1.Granted? <==>
              && req.token in chain.refresh && req.verdict.Fine?
              && (var was := chain.refresh[req.token];
                  && was.client == req.client && (mode.reuse || was.state.Active?)
                  && was.binding.certificate == req.certificate
                  && (if confidential(req.client) then was.binding.jkt.Some? <==> req.jkt.Some?
                      else was.binding.jkt == req.jkt))
  {
  }

  /** With reuse a granted redemption issues an access token and nothing else. */
  lemma ReuseIssuesAccess(confidential: string -> bool, mode: Settings, chain: Chain, req: Request)
    requires mode.reuse && Redeem(confidential, mode, chain, req).1.Granted?
    ensures var now := Redeem(confidential, mode, chain, req).0;
            && now.refresh == chain.refresh && now.access.Keys == chain.access.Keys + {req.newAccess}
            && (forall t | t in chain.access && t != req.newAccess :: now.access[t] == chain.access[t])
            && now.access[req.newAccess].family == chain.refresh[req.token].family
            && now.access[req.newAccess].client == req.client
  {
  }

  /** Who is not served leaves the chain as it was, unless the token is replayed, or has run out and was taken. */
  lemma RefusalsKeepChain(confidential: string -> bool, mode: Settings, chain: Chain, req: Request)
    requires !Redeem(confidential, mode, chain, req).1.Granted?
    ensures var (now, answer) := Redeem(confidential, mode, chain, req);
            || now == chain
            || (&& answer == ReuseDetected && !mode.reuse && req.token in chain.refresh
                && chain.refresh[req.token].state.Spent? && chain.refresh[req.token].client == req.client)
            || (req.verdict.Dead? && now == chain.(refresh := chain.refresh - {req.token}))
  {
  }

  /** A spent token stays spent for as long as it is in the chain, unless its name is given away again. */
  lemma {:induction false} SpentStays(confidential: string -> bool, mode: Settings, chain: Chain, reqs: seq<Request>,
                                      token: string)
    requires !mode.reuse && token in chain.refresh && chain.refresh[token].state.Spent?
    requires forall i | 0 <= i < |reqs| :: reqs[i].newRefresh != token
    ensures var now := RedeemAll(confidential, mode, chain, reqs);
            token in now.refresh ==> now.refresh[token] == chain.refresh[token]
  {
    if reqs != [] {
      var n := |reqs| - 1;
      SpentStays(confidential, mode, chain, reqs[..n], token);
    }
  }

  /** Presenting a redeemed token again, after whatever else was requested in the meantime, is recognized,
  and ends its family and no other. */
  lemma ReplayEndsFamily(confidential: string -> bool, mode: Settings, chain: Chain, req: Request,
                         reqs: seq<Request>, again: Request)
    requires !mode.reuse && Redeem(confidential, mode, chain, req).1.Granted? && req.newRefresh !in chain.refresh
    requires forall i | 0 <= i < |reqs| :: reqs[i].newRefresh != req.token
    requires again.token == req.token && again.client == req.client
    requires var now := RedeemAll(confidential, mode, Redeem(confidential, mode, chain, req).0, reqs);
             req.token in now.refresh
    ensures var f := chain.refresh[req.token].family;
            var now := RedeemAll(confidential, mode, Redeem(confidential, mode, chain, req).0, reqs);
            var (after, answer) := Redeem(confidential, mode, now, again);
            && answer == ReuseDetected && NoneLeft(after, f)
            && (forall t | t in now.refresh && now.refresh[t].family != f :: t in after.refresh)
            && (forall t | t in now.access && now.access[t].family != f :: t in after.access)
            && (forall t | t in after.refresh :: t in now.refresh && after.refresh[t] == now.refresh[t])
            && (forall t | t in after.access :: t in now.access && after.access[t] == now.access[t])
  {
    GrantSpends(confidential, mode, chain, req);
    SpentStays(confidential, mode, Redeem(confidential, mode, chain, req).0, reqs, req.token);
  }

  /** At most one token of the family is active. */
  ghost predicate OneActive(chain: Chain, f: string) {
    forall a, b | a in chain.refresh && b in chain.refresh && ActiveIn(chain, a, f) && ActiveIn(chain, b, f) :: a == b
  }

  predicate ActiveIn(chain: Chain, token: string, f: string)
    requires token in chain.refresh
  {
    chain.refresh[token].family == f && chain.refresh[token].state.Active?
  }

  /** Every new name is new when it is given. */
  ghost predicate NewNames(confidential: string -> bool, mode: Settings, chain: Chain, reqs: seq<Request>) {
    forall n | 0 <= n < |reqs| :: reqs[n].newRefresh !in After(confidential, mode, chain, reqs, n).refresh
  }

  lemma RedeemKeepsOneActive(confidential: string -> bool, mode: Settings, chain: Chain, req: Request, f: string)
    requires OneActive(chain, f) && req.newRefresh !in chain.refresh
    ensures OneActive(Redeem(confidential, mode, chain, req).0, f)
  {
    var now := Redeem(confidential, mode, chain, req).0;
    forall a | a in now.refresh && a != req.newRefresh && ActiveIn(now, a, f)
      ensures a in chain.refresh && ActiveIn(chain, a, f) && (req.newRefresh in now.refresh ==> a != req.token)
    {
    }
    if req.newRefresh in now.refresh && ActiveIn(now, req.newRefresh, f) { assert ActiveIn(chain, req.token, f); }
  }

  /** A family with at most one active token never has two. */
  lemma {:induction false} ChainHasOneActive(confidential: string -> bool, mode: Settings, chain: Chain,
                                             reqs: seq<Request>, f: string, n: nat)
    requires OneActive(chain, f) && NewNames(confidential, mode, chain, reqs) && n <= |reqs|
    ensures OneActive(After(confidential, mode, chain, reqs, n), f)
  {
    if n > 0 {
      ChainHasOneActive(confidential, mode, chain, reqs, f, n - 1);
      AfterNext(confidential, mode, chain, reqs, n - 1);
      RedeemKeepsOneActive(confidential, mode, After(confidential, mode, chain, reqs, n - 1), reqs[n - 1], f);
    }
  }

  // ----- the endpoint, step by step

  class ChainStore {
    var refresh: map<string, Link>
    var access: map<string, AccessLink>

    function Now(): Chain
      reads this
    {
      Chain(refresh, access)
    }

    /** Puts the record back after a refusal that is no evidence of compromise. With a retry window nothing
    was taken, and a concurrent rotation must not be overwritten. */
    method Restore(token: string, record: Link, mode: Settings)
      modifies this`refresh
      ensures refresh == if mode.retryWindow == 0 then old(refresh)[token := record] else old(refresh)
    {
      if mode.retryWindow == 0 {
        refresh := refresh[token := record];
      }
    }

    /** The refresh grant. In strict rotation the record is taken before anything about it has been judged,
    so every refusal that keeps the chain has to put it back: what is stored is then as it was. */
    method Refresh(confidential: bool, mode: Settings, req: Request) returns (answer: Answer)
      modifies this
      ensures (Now(), answer) == Redeem(_ => confidential, mode, old(Now()), req)
      ensures answer.UnknownToken? || answer.WrongClient? || answer.WrongKey? || answer.WrongCertificate? ==>
                Now() == old(Now())
    {
      if req.token !in refresh {
        return UnknownToken;
      }
      var record := refresh[req.token];
      ghost var stored := refresh;
      if mode.Takes() {
        refresh := refresh - {req.token};
      }
      assert refresh[req.token := record] == stored;
      if record.client != req.client {
        Restore(req.token, record, mode);
        return WrongClient;
      }
      if !mode.reuse && record.state.Spent? {
        refresh := map t | t in refresh && refresh[t].family != record.family :: refresh[t];
        access := map t | t in access && access[t].family != record.family :: access[t];
        assert Now() == WithoutFamilyOf(Chain(stored, old(access)), record.family);
        return ReuseDetected;
      }
      if KeyViolation(confidential, record.binding.jkt, req.jkt) {
        Restore(req.token, record, mode);
        return WrongKey;
      }
      if record.binding.certificate != req.certificate {
        Restore(req.token, record, mode);
        return WrongCertificate;
      }
      if req.verdict.Dead? {
        return Refused;
      }
      if req.verdict.Narrower? {
        Restore(req.token, record, mode);
        return Refused;
      }
      Issue(record, mode.reuse, req);
      assert Now() == Extended(Chain(stored, old(access)), record, req, mode.reuse);
      return Granted;
    }

    /** Spends the presented record and writes what is issued. */
    method Issue(record: Link, reuse: bool, req: Request)
      modifies this
      ensures access == old(access)[req.newAccess := AccessLink(record.client, record.family, Carried(record, req))]
      ensures refresh == if reuse then old(refresh)
                         else old(refresh)[req.token := record.(state := Spent)]
                                [req.newRefresh := Link(record.client, record.family, Carried(record, req), Active)]
    {
      var b := Carried(record, req);
      if !reuse {
        refresh := refresh[req.token := record.(state := Spent)];
        refresh := refresh[req.newRefresh := Link(record.client, record.family, b, Active)];
      }
      access := access[req.newAccess := AccessLink(record.client, record.family, b)];
    }
  }
}
