/** From the token string to the forward: the token lifecycle and the mutation protocol as one
    machine, in which a request starts with the rules that its token was resolved to. */
module Composition {
  import Traces
  import opened Text
  import opened Scope
  import opened RulesCache
  import L = TokenLifecycle
  import TokenSafety
  import TokenTheorems
  import TokenRows
  import P = MutationProtocol
  import MutationLocks
  import MutationRuns
  import MutationScope

  datatype Whole = Whole(life: L.State, proxy: P.State)

  datatype Action = Life(life: L.Action) | Proxy(proxy: P.Action)

  /** Request `q` starts when resolve `q` has succeeded, with the rules that it returned and the
      credential of its token. */
  predicate Admitted(life: L.State, q: nat, request: P.Request) {
    && q in life.resolvers && life.resolvers[q].Resolved?
    && request.rules == life.resolvers[q].rules
    && life.resolvers[q].tokenId in life.tokens
    && request.credentialId == life.tokens[life.resolvers[q].tokenId].credentialId
  }

  function Step(config: P.Config, w: Whole, a: Action): Option<Whole> {
    match a
    case Life(a) =>
      (match L.Step(w.life, a)
       case None => None
       case Some(life) => Some(w.(life := life)))
    case Proxy(a) =>
      if a.Spawn? && !Admitted(w.life, a.q, a.request) then None
      else
        match P.Step(config, w.proxy, a)
        case None => None
        case Some(proxy) => Some(w.(proxy := proxy))
  }

  function Steps(config: P.Config): (Whole, Action) -> Option<Whole> {
    (w: Whole, a: Action) => Step(config, w, a)
  }

  function Run(config: P.Config, w: Whole, actions: seq<Action>): Option<Whole> {
    Traces.Run(Steps(config), w, actions)
  }

  function Init(brand: string, credentials: map<string, string>, upstream: map<string, P.Stored>): Whole {
    Whole(L.Init(brand, credentials), P.Init(upstream))
  }

  function LifeOf(actions: seq<Action>): seq<L.Action> {
    if actions == [] then []
    else if actions[0].Life? then [actions[0].life] + LifeOf(actions[1..])
    else LifeOf(actions[1..])
  }

  function ProxyOf(actions: seq<Action>): seq<P.Action> {
    if actions == [] then []
    else if actions[0].Proxy? then [actions[0].proxy] + ProxyOf(actions[1..])
    else ProxyOf(actions[1..])
  }

  /** A run of the whole is a run of each part. */
  lemma {:induction false} RunSplits(config: P.Config, w: Whole, actions: seq<Action>)
    requires Run(config, w, actions).Some?
    ensures var t := Run(config, w, actions).value;
      && L.Run(w.life, LifeOf(actions)) == Some(t.life)
      && P.Run(config, w.proxy, ProxyOf(actions)) == Some(t.proxy)
    decreases |actions|
  {
    hide L.Step, P.Step, Admitted;
    if actions != [] {
      var mid := Step(config, w, actions[0]).value;
      RunSplits(config, mid, actions[1..]);
      match actions[0]
      case Life(a) => Traces.RunCons(L.Step, w.life, a, LifeOf(actions[1..]));
      case Proxy(a) => Traces.RunCons(P.Steps(config), w.proxy, a, ProxyOf(actions[1..]));
    }
  }

  /** What a resolve keeps once it has succeeded. */
  lemma ResolvedStays(s: L.State, a: L.Action, q: nat)
    requires L.Step(s, a).Some? && q in s.resolvers && s.resolvers[q].Resolved?
    ensures var t := L.Step(s, a).value; q in t.resolvers && t.resolvers[q] == s.resolvers[q]
  {
    match a
    case Serve(service) => TokenTheorems.ServeKeepsResolvers(s, service);
    case CacheLose(_) =>
    case Begin(_, _) =>
    case Do(rid, move) => TokenSafety.AdvanceSummary(s, rid, move);
  }

  /** The credential of a token never changes. */
  lemma CredentialStays(s: L.State, a: L.Action, x: string)
    requires L.Step(s, a).Some? && x in s.tokens
    ensures var t := L.Step(s, a).value; x in t.tokens && t.tokens[x].credentialId == s.tokens[x].credentialId
  {
    match a
    case Serve(service) => ServeKeepsCredential(s, service, x);
    case CacheLose(_) =>
    case Begin(_, _) =>
    case Do(rid, move) => TokenSafety.AdvanceSummary(s, rid, move);
  }

  lemma ServeKeepsCredential(s: L.State, service: L.Service, x: string)
    requires L.ServeStep(s, service).Some? && x in s.tokens
    ensures var t := L.ServeStep(s, service).value;
      x in t.tokens && t.tokens[x].credentialId == s.tokens[x].credentialId
  {
    match service
    case Mint(_, _, _, _, _, _, _, _) =>
    case Rotate(_, _, _, _) =>
    case Revoke(_, _) =>
    case DeleteCredential(_, _) =>
    case EditRules(_, _) =>
  }

  /** Every request was admitted, and still has what it was admitted with. */
  ghost predicate Linked(w: Whole) {
    forall q | q in w.proxy.requests :: Admitted(w.life, q, w.proxy.requests[q])
  }

  lemma StepKeepsLinked(config: P.Config, w: Whole, a: Action)
    requires Linked(w) && Step(config, w, a).Some?
    ensures Linked(Step(config, w, a).value)
  {
    hide P.Advance, L.Step;
    var t := Step(config, w, a).value;
    match a
    case Life(a) =>
      forall q | q in w.proxy.requests ensures Admitted(t.life, q, w.proxy.requests[q]) {
        ResolvedStays(w.life, a, q);
        CredentialStays(w.life, a, w.life.resolvers[q].tokenId);
      }
    case Proxy(a) =>
      if a.Do? {
        MutationLocks.StepMoves(config, w.proxy, a.q, a.move);
      }
  }

  lemma {:induction false} RunKeepsLinked(config: P.Config, w: Whole, actions: seq<Action>)
    requires Linked(w) && Run(config, w, actions).Some?
    ensures Linked(Run(config, w, actions).value)
    decreases |actions|
  {
    hide Step, Linked;
    if actions != [] {
      StepKeepsLinked(config, w, actions[0]);
      RunKeepsLinked(config, Step(config, w, actions[0]).value, actions[1..]);
    }
  }

  /** Step `i` of the run was the resolve's row read, which found the token's row with the hash
      of the presented string, active and not expired. */
  ghost predicate AcceptedAt(config: P.Config, w: Whole, actions: seq<Action>, i: nat, now: int, q: nat,
                             full: string, tokenId: string)
  {
    && i < |actions| && actions[i] == Life(L.Do(q, L.ReadRow(now, Some(tokenId))))
    && Run(config, w, actions[..i]).Some?
    && var life := Run(config, w, actions[..i]).value.life;
    && tokenId in life.tokens
    && var row := life.tokens[tokenId];
    && row.tokenHash == L.Digest(full) && row.status == L.Active
    && (row.expiresAt.None? || now <= row.expiresAt.value)
  }

  ghost predicate ReadWhenActive(config: P.Config, w: Whole, actions: seq<Action>, q: nat, full: string,
                                 tokenId: string)
  {
    exists i: nat, now: int :: AcceptedAt(config, w, actions, i, now, q, full, tokenId)
  }

  /** In every run, whatever resolve is past its row read was accepted at some step. */
  lemma {:induction false} PastWasAccepted(config: P.Config, brand: string, credentials: map<string, string>,
                                           upstream: map<string, P.Stored>, actions: seq<Action>, q: nat)
    requires Run(config, Init(brand, credentials, upstream), actions).Some?
    requires var life := Run(config, Init(brand, credentials, upstream), actions).value.life;
      q in life.resolvers && TokenRows.PastRow(life.resolvers[q])
    ensures var r := Run(config, Init(brand, credentials, upstream), actions).value.life.resolvers[q];
      ReadWhenActive(config, Init(brand, credentials, upstream), actions, q, r.full, r.tokenId)
    decreases |actions|
  {
    hide L.Step, P.Step, Admitted;
    var w0 := Init(brand, credentials, upstream);
    if actions != [] {
      var n := |actions| - 1;
      Traces.RunLast(Steps(config), w0, actions);
      var w, last := Run(config, w0, actions[..n]).value, actions[n];
      var r := Run(config, w0, actions).value.life.resolvers[q];
      if last.Life? {
        TokenRows.PastByRead(w.life, last.life, q);
      }
      if q in w.life.resolvers && TokenRows.PastRow(w.life.resolvers[q])
         && w.life.resolvers[q].full == r.full && w.life.resolvers[q].tokenId == r.tokenId {
        PastWasAccepted(config, brand, credentials, upstream, actions[..n], q);
        var i: nat, now: int :| AcceptedAt(config, w0, actions[..n], i, now, q, r.full, r.tokenId);
        assert actions[..n][..i] == actions[..i];
        assert AcceptedAt(config, w0, actions, i, now, q, r.full, r.tokenId);
      } else {
        assert AcceptedAt(config, w0, actions, n, last.life.move.now, q, r.full, r.tokenId);
      }
    }
  }

  /** What the operations before that step say of the string: it was the last one issued for the
      token, which had not been revoked, nor its credential deleted, and had not reached the
      expiry of its mint. */
  lemma AcceptedWasUsable(config: P.Config, brand: string, credentials: map<string, string>,
                          upstream: map<string, P.Stored>, actions: seq<Action>, i: nat, now: int, q: nat, full: string,
                          tokenId: string)
    requires AcceptedAt(config, Init(brand, credentials, upstream), actions, i, now, q, full, tokenId)
    ensures TokenRows.Usable(brand, LifeOf(actions[..i]), tokenId, full, now)
  {
    hide Step, TokenRows.Usable, TokenRows.Logged;
    var w0 := Init(brand, credentials, upstream);
    RunSplits(config, w0, actions[..i]);
    TokenRows.RowsAreLogged(brand, credentials, LifeOf(actions[..i]));
    TokenRows.UsableIsMayUse(brand, credentials, LifeOf(actions[..i]), Run(config, w0, actions[..i]).value.life,
                             tokenId, full, now);
  }

  ghost predicate NoEdits(actions: seq<Action>) {
    forall i | 0 <= i < |actions| ::
      !(actions[i].Life? && actions[i].life.Serve? && actions[i].life.service.EditRules?)
  }

  lemma {:induction false} LifeNoEdits(actions: seq<Action>)
    requires NoEdits(actions)
    ensures TokenTheorems.NoEdits(LifeOf(actions))
  {
    if actions != [] {
      LifeNoEdits(actions[1..]);
    }
  }

  lemma AcceptedInRange(config: P.Config, w: Whole, actions: seq<Action>, i: nat, now: int, q: nat, full: string,
                        tokenId: string)
    requires AcceptedAt(config, w, actions, i, now, q, full, tokenId)
    ensures i <= |actions|
  {
  }

  /** At some step the resolve's row read found the row with the string's hash, active and not
      expired; and so it was by the operations until then. */
  ghost predicate ReadWhenUsable(config: P.Config, w: Whole, actions: seq<Action>, q: nat, full: string,
                                 tokenId: string)
  {
    exists i: nat, now: int | i <= |actions| ::
      && AcceptedAt(config, w, actions, i, now, q, full, tokenId)
      && TokenRows.Usable(w.life.brand, LifeOf(actions[..i]), tokenId, full, now)
  }

  /** The request acts for a token: a string was presented for it that was usable when its row was
      read, and the request's rules are the rules stored for that row, in a version not older than
      the one read; those that it was minted with, when no rules are edited. */
  ghost predicate ActsFor(config: P.Config, w0: Whole, actions: seq<Action>, t: Whole, q: nat) {
    && q in t.proxy.requests && Admitted(t.life, q, t.proxy.requests[q])
    && var r := t.life.resolvers[q];
    && ReadWhenUsable(config, w0, actions, q, r.full, r.tokenId)
    && TokenTheorems.NotOlder(t.life, r.tokenId, r.version, t.proxy.requests[q].rules)
    && (NoEdits(actions) ==>
          && r.tokenId in t.life.rules
          && t.proxy.requests[q].rules == RulesOf(t.life.rules[r.tokenId])
          && TokenRows.MintOf(LifeOf(actions), r.tokenId).Some?
          && t.proxy.requests[q].rules == RulesOf(TokenRows.MintOf(LifeOf(actions), r.tokenId).value.rows))
  }

  /** In every run, every request acts for a token. */
  lemma EveryRequestActsFor(config: P.Config, brand: string, credentials: map<string, string>,
                            upstream: map<string, P.Stored>, actions: seq<Action>, q: nat)
    requires Run(config, Init(brand, credentials, upstream), actions).Some?
    requires q in Run(config, Init(brand, credentials, upstream), actions).value.proxy.requests
    ensures var w0 := Init(brand, credentials, upstream);
      ActsFor(config, w0, actions, Run(config, w0, actions).value, q)
  {
    hide Step, AcceptedAt, TokenRows.Usable, TokenRows.MintOf, TokenTheorems.NotOlder, NoEdits, TokenTheorems.NoEdits,
         RulesOf;
    var w0 := Init(brand, credentials, upstream);
    RunKeepsLinked(config, w0, actions);
    RunSplits(config, w0, actions);
    PastWasAccepted(config, brand, credentials, upstream, actions, q);
    var r := Run(config, w0, actions).value.life.resolvers[q];
    var i: nat, now: int :| AcceptedAt(config, w0, actions, i, now, q, r.full, r.tokenId);
    AcceptedInRange(config, w0, actions, i, now, q, r.full, r.tokenId);
    AcceptedWasUsable(config, brand, credentials, upstream, actions, i, now, q, r.full, r.tokenId);
    TokenTheorems.NoStaleRules(brand, credentials, LifeOf(actions), q);
    if NoEdits(actions) {
      LifeNoEdits(actions);
      TokenTheorems.CacheTransparent(brand, credentials, LifeOf(actions), q);
      TokenRows.ResolvesToMinted(brand, credentials, LifeOf(actions), q);
    }
  }

  /** From token to upstream. In every run, with lifecycle operations, rule edits, cache losses
      and requests at any point, every forward was asked for with a token string whose row was
      active when it was read, and was granted by the rules stored for that row, on the record
      as it was fetched and as it would become. */
  lemma ForwardsAreAuthorized(lockName: P.LockName, brand: string, credentials: map<string, string>,
                              upstream: map<string, P.Stored>, actions: seq<Action>, k: nat)
    requires Run(P.ProxyConfig(lockName), Init(brand, credentials, upstream), actions).Some?
    requires k < |Run(P.ProxyConfig(lockName), Init(brand, credentials, upstream), actions).value.proxy.events|
    ensures var w0 := Init(brand, credentials, upstream);
      var t := Run(P.ProxyConfig(lockName), w0, actions).value; var e := t.proxy.events[k];
      && ActsFor(P.ProxyConfig(lockName), w0, actions, t, e.q)
      && MutationScope.KeptToScope(t.proxy.requests, e)
  {
    hide Step, ActsFor, MutationScope.GrantedOn, MutationScope.InOwnScope, MutationScope.GrantedCreate,
         MutationScope.OtherWritesExempt;
    var config, w0 := P.ProxyConfig(lockName), Init(brand, credentials, upstream);
    var t := Run(config, w0, actions).value;
    RunSplits(config, w0, actions);
    MutationScope.KeepsToScope(lockName, upstream, ProxyOf(actions), k);
    EveryRequestActsFor(config, brand, credentials, upstream, actions, t.proxy.events[k].q);
  }

  /** Some request on the record acts for a token whose rules grant it on the record as it was at
      the start. */
  ghost predicate ChangedFor(config: P.Config, w0: Whole, actions: seq<Action>, t: Whole, id: string,
                             stored: P.Stored)
  {
    exists q | q in t.proxy.requests ::
      && ActsFor(config, w0, actions, t, q)
      && MutationScope.Names(t.proxy.requests[q], id, stored)
      && MutationScope.GrantedOn(t.proxy.requests[q], stored.record.image)
  }

  /** So a record of the upstream is never changed or removed unless some token string was
      presented whose row was active when it was read and whose stored rules grant the request on
      the record as it was at the start. */
  lemma ChangesAreAuthorized(lockName: P.LockName, brand: string, credentials: map<string, string>,
                             upstream: map<string, P.Stored>, actions: seq<Action>, id: string)
    requires Run(P.ProxyConfig(lockName), Init(brand, credentials, upstream), actions).Some? && id in upstream
    ensures var w0 := Init(brand, credentials, upstream);
      var t := Run(P.ProxyConfig(lockName), w0, actions).value;
      || (id in t.proxy.upstream && t.proxy.upstream[id] == upstream[id])
      || ChangedFor(P.ProxyConfig(lockName), w0, actions, t, id, upstream[id])
  {
    hide Step, ActsFor, MutationScope.GrantedOn, MutationRuns.InLandingScope;
    var config, w0 := P.ProxyConfig(lockName), Init(brand, credentials, upstream);
    var t := Run(config, w0, actions).value;
    RunSplits(config, w0, actions);
    MutationScope.FrameOverRuns(lockName, upstream, ProxyOf(actions));
    if q :| q in t.proxy.requests && MutationScope.Names(t.proxy.requests[q], id, upstream[id])
            && MutationScope.GrantedOn(t.proxy.requests[q], upstream[id].record.image) {
      EveryRequestActsFor(config, brand, credentials, upstream, actions, q);
    }
  }

  /** The request presents a string with this lookup id. */
  ghost predicate RequestPresents(t: Whole, q: nat, lookupId: string) {
    q in t.life.resolvers && TokenTheorems.Presents(t.life.resolvers[q], lookupId)
  }

  /** A forward that a string issued before the token's end still brings about. */
  ghost predicate InFlight(w: Whole, q: nat) {
    q in w.life.resolvers && !w.life.resolvers[q].Started?
  }

  /** The state after the service operation that follows the first part of the run. */
  function Served(w: Whole, service: L.Service): Option<Whole> {
    match L.ServeStep(w.life, service)
    case None => None
    case Some(life) => Some(w.(life := life))
  }

  lemma OnlyInFlight(config: P.Config, brand: string, credentials: map<string, string>,
                     upstream: map<string, P.Stored>, before: seq<Action>, service: L.Service, after: seq<Action>,
                     tokenId: string, lookupId: string, q: nat)
    requires Run(config, Init(brand, credentials, upstream), before).Some?
    requires var w := Run(config, Init(brand, credentials, upstream), before).value;
      && Served(w, service).Some? && TokenTheorems.Ends(w.life, service, tokenId)
      && lookupId in w.life.owner && w.life.owner[lookupId] == tokenId
      && Run(config, Served(w, service).value, after).Some?
      && Linked(Run(config, Served(w, service).value, after).value)
    ensures var w := Run(config, Init(brand, credentials, upstream), before).value;
      var t := Run(config, Served(w, service).value, after).value;
      q in t.proxy.requests && RequestPresents(t, q, lookupId) ==> InFlight(w, q)
  {
    hide Step, L.ServeStep, TokenTheorems.Ends, TokenTheorems.Presents;
    var w := Run(config, Init(brand, credentials, upstream), before).value;
    if !InFlight(w, q) {
      RunSplits(config, Init(brand, credentials, upstream), before);
      RunSplits(config, Served(w, service).value, after);
      TokenTheorems.RevocationIsFinal(brand, credentials, LifeOf(before), service, LifeOf(after), tokenId, lookupId, q);
    }
  }

  /** What a run of the whole keeps of the two machines' own invariants. */
  lemma RunKeepsBoth(config: P.Config, w: Whole, actions: seq<Action>)
    requires Run(config, w, actions).Some?
    requires Linked(w) && MutationLocks.LocksInv(config, w.proxy) && MutationRuns.ForwardedOnce(w.proxy)
    ensures var t := Run(config, w, actions).value;
      Linked(t) && MutationLocks.LocksInv(config, t.proxy) && MutationRuns.ForwardedOnce(t.proxy)
  {
    hide Step, Linked, MutationLocks.LocksInv, MutationRuns.ForwardedOnce;
    RunKeepsLinked(config, w, actions);
    RunSplits(config, w, actions);
    MutationLocks.RunKeepsLocks(config, w.proxy, ProxyOf(actions));
    MutationRuns.RunForwardsOnce(config, w.proxy, ProxyOf(actions));
  }

  lemma ServedKeepsLinked(config: P.Config, w: Whole, service: L.Service)
    requires Linked(w) && Served(w, service).Some?
    ensures Linked(Served(w, service).value) && Served(w, service).value.proxy == w.proxy
  {
    hide Linked;
    StepKeepsLinked(config, w, Life(L.Serve(service)));
  }

  /** Revocation reaches the upstream. Once a token is revoked or rotated, or its credential is
      deleted, the only forwards that a string issued for it before can still bring about are
      those of requests whose resolve had read the row by then, one each. */
  lemma RevocationStopsForwards(config: P.Config, brand: string, credentials: map<string, string>,
                                upstream: map<string, P.Stored>, before: seq<Action>, service: L.Service,
                                after: seq<Action>, tokenId: string, lookupId: string)
    requires Run(config, Init(brand, credentials, upstream), before).Some?
    requires var w := Run(config, Init(brand, credentials, upstream), before).value;
      && Served(w, service).Some? && TokenTheorems.Ends(w.life, service, tokenId)
      && lookupId in w.life.owner && w.life.owner[lookupId] == tokenId
      && Run(config, Served(w, service).value, after).Some?
    ensures var w := Run(config, Init(brand, credentials, upstream), before).value;
      var t := Run(config, Served(w, service).value, after).value;
      && (forall q | q in t.proxy.requests && RequestPresents(t, q, lookupId) :: InFlight(w, q))
      && (forall k | 0 <= k < |t.proxy.events| && RequestPresents(t, t.proxy.events[k].q, lookupId) ::
            InFlight(w, t.proxy.events[k].q))
      && MutationRuns.ForwardedOnce(t.proxy)
  {
    hide Step, Served, Linked, TokenTheorems.Ends, RequestPresents, InFlight, MutationRuns.ForwardedOnce;
    var w0 := Init(brand, credentials, upstream);
    InitKeepsBoth(config, brand, credentials, upstream);
    RunKeepsBoth(config, w0, before);
    var w := Run(config, w0, before).value;
    ServedKeepsLinked(config, w, service);
    RunKeepsBoth(config, Served(w, service).value, after);
    var t := Run(config, Served(w, service).value, after).value;
    forall q | q in t.proxy.requests && RequestPresents(t, q, lookupId) ensures InFlight(w, q) {
      OnlyInFlight(config, brand, credentials, upstream, before, service, after, tokenId, lookupId, q);
    }
    forall k | 0 <= k < |t.proxy.events| ensures t.proxy.events[k].q in t.proxy.requests {
      EventHasRequest(config, t.proxy, k);
    }
  }

  lemma InitKeepsBoth(config: P.Config, brand: string, credentials: map<string, string>,
                      upstream: map<string, P.Stored>)
    ensures var w := Init(brand, credentials, upstream);
      Linked(w) && MutationLocks.LocksInv(config, w.proxy) && MutationRuns.ForwardedOnce(w.proxy)
  {
    MutationLocks.InitLocks(config, upstream);
  }

  lemma EventHasRequest(config: P.Config, s: P.State, k: nat)
    requires MutationLocks.LocksInv(config, s) && k < |s.events|
    ensures s.events[k].q in s.requests
  {
  }
}
