/** Both directions from the token string to the upstream: what a minted token's stored rules
    grant is what can be forwarded with it, and nothing else. */
module EndToEnd {
  import Traces
  import opened Text
  import opened Scope
  import opened Authorizer
  import opened TokenLayout
  import opened RulesCache
  import L = TokenLifecycle
  import TokenRoundTrip
  import P = MutationProtocol
  import MutationSafety
  import MutationTheorems
  import MutationScope
  import MutationRace
  import opened Composition

  function LifeActions(actions: seq<L.Action>): seq<Action> {
    seq(|actions|, i requires 0 <= i < |actions| => Life(actions[i]))
  }

  function ProxyActions(actions: seq<P.Action>): seq<Action> {
    seq(|actions|, i requires 0 <= i < |actions| => Proxy(actions[i]))
  }

  /** A run of the lifecycle is a run of the whole in which no request moves. */
  lemma {:induction false} LifeRuns(config: P.Config, w: Whole, actions: seq<L.Action>)
    requires L.Run(w.life, actions).Some?
    ensures Run(config, w, LifeActions(actions)) == Some(w.(life := L.Run(w.life, actions).value))
    decreases |actions|
  {
    hide L.Step, P.Step, Admitted;
    if actions != [] {
      var mid := w.(life := L.Step(w.life, actions[0]).value);
      LifeRuns(config, mid, actions[1..]);
      assert LifeActions(actions)[1..] == LifeActions(actions[1..]);
    }
  }

  /** A run of the protocol whose requests are all admitted is a run of the whole. */
  lemma {:induction false} ProxyRuns(config: P.Config, w: Whole, actions: seq<P.Action>)
    requires P.Run(config, w.proxy, actions).Some?
    requires forall i | 0 <= i < |actions| && actions[i].Spawn? :: Admitted(w.life, actions[i].q, actions[i].request)
    ensures Run(config, w, ProxyActions(actions)) == Some(w.(proxy := P.Run(config, w.proxy, actions).value))
    decreases |actions|
  {
    hide L.Step, P.Step, Admitted;
    if actions != [] {
      var mid := w.(proxy := P.Step(config, w.proxy, actions[0]).value);
      ProxyRuns(config, mid, actions[1..]);
      assert ProxyActions(actions)[1..] == ProxyActions(actions[1..]);
    }
  }

  const TOKEN := "t"
  const OWNER := "u"

  function Drawing(length: nat): string {
    seq(length, i => 'a')
  }

  function MintOf(credentialId: string, rows: seq<RuleRow>): L.Service {
    L.Mint(TOKEN, OWNER, credentialId, None, rows, true, Drawing(LOOKUP_ID_LEN), Drawing(SECRET_LEN))
  }

  function MintedToken(brand: string): string {
    FullToken(brand, Drawing(LOOKUP_ID_LEN), Drawing(SECRET_LEN))
  }

  /** A token is minted with the rules and presented as it was returned, with an empty cache. */
  function Issuing(brand: string, credentialId: string, rows: seq<RuleRow>): seq<L.Action> {
    [L.Serve(MintOf(credentialId, rows))]
    + (TokenRoundTrip.Presenting(0, MintedToken(brand), 0, TOKEN) + TokenRoundTrip.Loading(0, true, false))
  }

  lemma {:induction false} RunKeepsCredential(s: L.State, actions: seq<L.Action>, x: string)
    requires L.Run(s, actions).Some? && x in s.tokens
    ensures var t := L.Run(s, actions).value; x in t.tokens && t.tokens[x].credentialId == s.tokens[x].credentialId
    decreases |actions|
  {
    hide L.Step;
    if actions != [] {
      CredentialStays(s, actions[0], x);
      RunKeepsCredential(L.Step(s, actions[0]).value, actions[1..], x);
    }
  }

  /** After that the request is admitted. */
  lemma IssuedAdmits(brand: string, rows: seq<RuleRow>, request: P.Request)
    requires '_' !in brand && request.rules == RulesOf(rows)
    ensures var s := L.Init(brand, map[request.credentialId := OWNER]);
      var actions := Issuing(brand, request.credentialId, rows);
      L.Run(s, actions).Some? && Admitted(L.Run(s, actions).value, 0, request)
  {
    hide RulesOf, FullToken, TokenRoundTrip.Presenting, TokenRoundTrip.Loading, ParseScopedToken;
    var credentials := map[request.credentialId := OWNER];
    var s, service := L.Init(brand, credentials), MintOf(request.credentialId, rows);
    var rest := TokenRoundTrip.Presenting(0, MintedToken(brand), 0, TOKEN) + TokenRoundTrip.Loading(0, true, false);
    assert L.ServeStep(s, service).Some?;
    var t := L.ServeStep(s, service).value;
    TokenRoundTrip.IssuedTokenResolves(brand, credentials, [], service, TOKEN, MintedToken(brand), 0, 0, true, false);
    Traces.RunCons(L.Step, s, L.Serve(service), rest);
    RunKeepsCredential(t, rest, TOKEN);
  }

  function FirstForward(): P.Action {
    P.Do(0, P.Forward(true, true, ""))
  }

  /** Request 0 alone, from its start to its forward. */
  function Forwarding(request: P.Request): seq<P.Action> {
    if request.m == Post then
      [P.Spawn(0, request)]
      + [P.Do(0, P.Decide), P.Do(0, P.UseCachedAuth), P.Do(0, P.Enter), FirstForward()]
    else [P.Spawn(0, request)] + (MutationRace.Preparation(0) + [FirstForward()])
  }

  function OneRecord(request: P.Request, record: Record): map<string, P.Stored> {
    map[request.recordId := P.Stored(request.zoneId, record)]
  }

  predicate OfZone(record: Record, zoneId: string) {
    record.zoneId == None || record.zoneId == Some(zoneId)
  }

  lemma GrantedIsAllowed(lockName: P.LockName, request: P.Request, record: Record)
    requires P.Mutating(request.m) && request.m != Post
    requires MutationScope.GrantedOn(request, record.image) && OfZone(record, request.zoneId)
    ensures MutationRace.Forwardable(P.ProxyConfig(lockName), OneRecord(request, record), request, record)
  {
    hide MatchRules;
    AllowedMeaning(request.rules, request.m, request.zoneId, request.recordId, request.body,
                   (zone, id) => Found(record));
  }

  predicate FirstEventOf(s: P.State, request: P.Request, pre: Option<Record>) {
    && s.requests == map[0 := request] && |s.events| == 1
    && s.events[0].q == 0 && s.events[0].pre == pre && s.events[0].applied
  }

  function Spawned(upstream: map<string, P.Stored>, request: P.Request): P.State {
    P.Init(upstream).(requests := map[0 := request], phases := map[0 := P.Received])
  }

  lemma SpawnOne(config: P.Config, upstream: map<string, P.Stored>, request: P.Request)
    requires P.Mutating(request.m)
    ensures P.Step(config, P.Init(upstream), P.Spawn(0, request)) == Some(Spawned(upstream, request))
  {
  }

  lemma ForwardOne(config: P.Config, s: P.State, request: P.Request, exempt: bool, pre: Option<Record>)
    requires s.requests == map[0 := request] && s.events == [] && (request.m == Post ==> "" !in s.usedIds)
    requires 0 in s.phases && s.phases[0] == P.Phase.Forwarding(exempt, pre)
    ensures P.Step(config, s, FirstForward()).Some?
    ensures FirstEventOf(P.Step(config, s, FirstForward()).value, request, pre)
  {
    hide P.Effect, P.FoundRecord;
  }

  lemma MutationForwards(lockName: P.LockName, request: P.Request, record: Record)
    requires P.Mutating(request.m) && request.m != Post
    requires MutationScope.GrantedOn(request, record.image) && OfZone(record, request.zoneId)
    ensures var s := P.Init(OneRecord(request, record));
      && P.Run(P.ProxyConfig(lockName), s, Forwarding(request)).Some?
      && FirstEventOf(P.Run(P.ProxyConfig(lockName), s, Forwarding(request)).value, request, Some(record))
  {
    hide MutationScope.GrantedOn, P.Step, OneRecord, MutationRace.Forwardable, IsLockExempt, MutationRace.Preparation,
         FirstForward, FirstEventOf;
    var config, upstream := P.ProxyConfig(lockName), OneRecord(request, record);
    var s := Spawned(upstream, request);
    GrantedIsAllowed(lockName, request, record);
    SpawnOne(config, upstream, request);
    MutationRace.Prepare(config, s, 0, request, record);
    ForwardOne(config, MutationRace.Prepared(config, s, 0, request, record), request, config.exempt(request),
               Some(record));
    Traces.RunCons(P.Steps(config), P.Init(upstream), P.Spawn(0, request),
                   MutationRace.Preparation(0) + [FirstForward()]);
    Traces.RunNext(P.Steps(config), s, MutationRace.Preparation(0), FirstForward());
  }

  lemma CreateForwards(lockName: P.LockName, request: P.Request)
    requires request.m == Post && MutationScope.GrantedCreate(request)
    ensures var s := P.Init(map[]);
      && P.Run(P.ProxyConfig(lockName), s, Forwarding(request)).Some?
      && FirstEventOf(P.Run(P.ProxyConfig(lockName), s, Forwarding(request)).value, request, None)
  {
    hide MatchRules, FirstForward, FirstEventOf;
    var config, s := P.ProxyConfig(lockName), Spawned(map[], request);
    var s2, s3, s4 := P.Goto(s, 0, P.Resolving(true)), P.Goto(s, 0, P.Resolved(true)),
                      P.Goto(s, 0, P.Phase.Forwarding(true, None));
    SpawnOne(config, map[], request);
    assert P.Step(config, s, P.Do(0, P.Decide)) == Some(s2);
    assert s2.phases[0 := P.Resolved(true)] == s3.phases;
    assert s3.phases[0 := P.Phase.Forwarding(true, None)] == s4.phases;
    ForwardOne(config, s4, request, true, None);
    var t := P.Step(config, s4, FirstForward()).value;
    MutationRace.FourSteps(config, s, P.Do(0, P.Decide), P.Do(0, P.UseCachedAuth), P.Do(0, P.Enter), FirstForward(),
                           s2, s3, s4, t);
    Traces.RunCons(P.Steps(config), P.Init(map[]), P.Spawn(0, request),
                   [P.Do(0, P.Decide), P.Do(0, P.UseCachedAuth), P.Do(0, P.Enter), FirstForward()]);
  }

  /** From mint to forward, with nothing in between. */
  function Straight(brand: string, rows: seq<RuleRow>, request: P.Request): seq<Action> {
    LifeActions(Issuing(brand, request.credentialId, rows)) + ProxyActions(Forwarding(request))
  }

  lemma StraightRuns(config: P.Config, brand: string, upstream: map<string, P.Stored>, rows: seq<RuleRow>,
                     request: P.Request)
    requires '_' !in brand && request.rules == RulesOf(rows)
    requires P.Run(config, P.Init(upstream), Forwarding(request)).Some?
    ensures var w0 := Init(brand, map[request.credentialId := OWNER], upstream);
      && Run(config, w0, Straight(brand, rows, request)).Some?
      && Run(config, w0, Straight(brand, rows, request)).value.proxy
         == P.Run(config, P.Init(upstream), Forwarding(request)).value
  {
    hide RulesOf, Admitted, Issuing, P.Step, L.Step;
    var w0 := Init(brand, map[request.credentialId := OWNER], upstream);
    IssuedAdmits(brand, rows, request);
    LifeRuns(config, w0, Issuing(brand, request.credentialId, rows));
    var w := Run(config, w0, LifeActions(Issuing(brand, request.credentialId, rows))).value;
    ProxyRuns(config, w, Forwarding(request));
    Traces.RunAppend(Steps(config), w0, LifeActions(Issuing(brand, request.credentialId, rows)),
                     ProxyActions(Forwarding(request)));
  }

  /** The run forwards this request, one that names a record having fetched this one, and the
      upstream applies it. */
  ghost predicate ForwardedIn(config: P.Config, w0: Whole, actions: seq<Action>, request: P.Request,
                              record: Record)
  {
    && Run(config, w0, actions).Some?
    && var proxy := Run(config, w0, actions).value.proxy;
    && exists e | e in proxy.events ::
         && e.q in proxy.requests && proxy.requests[e.q] == request
         && (request.m != Post ==> e.pre == Some(record)) && e.applied
  }

  /** The request's rules grant it: the creation, or the operation on the record of its zone as
      it is and as it would become. */
  predicate GrantedTo(request: P.Request, record: Record) {
    if request.m == Post then MutationScope.GrantedCreate(request)
    else OfZone(record, request.zoneId) && MutationScope.GrantedOn(request, record.image)
  }

  lemma ForwardedIsGranted(lockName: P.LockName, brand: string, credentials: map<string, string>,
                           upstream: map<string, P.Stored>, actions: seq<Action>, request: P.Request, record: Record)
    requires ForwardedIn(P.ProxyConfig(lockName), Init(brand, credentials, upstream), actions, request, record)
    ensures GrantedTo(request, record)
  {
    hide MatchRules, MutationScope.GrantedOn, MutationScope.GrantedCreate, MutationTheorems.RequestCovers;
    var config, w0 := P.ProxyConfig(lockName), Init(brand, credentials, upstream);
    RunSplits(config, w0, actions);
    var proxy := Run(config, w0, actions).value.proxy;
    MutationScope.ProxyRun(lockName, upstream, ProxyOf(actions));
    var e :| e in proxy.events && e.q in proxy.requests && proxy.requests[e.q] == request
      && (request.m != Post ==> e.pre == Some(record));
    var k :| 0 <= k < |proxy.events| && proxy.events[k] == e;
    assert MutationSafety.EventOk(config, MutationTheorems.ProxyCover(), proxy.requests, e);
    if request.m == Post {
      MutationScope.AllowedCreateIsGranted(request, lockName);
    } else {
      MutationScope.AllowedIsGranted(request, record, lockName);
      AllowedIsOfZone(lockName, request, record);
    }
  }

  lemma AllowedIsOfZone(lockName: P.LockName, request: P.Request, record: Record)
    requires P.Mutating(request.m) && request.m != Post
    requires Allowed(P.ProxyConfig(lockName).authorizeById(request, Found(record)))
    ensures OfZone(record, request.zoneId)
  {
    hide MatchRules;
    AllowedMeaning(request.rules, request.m, request.zoneId, request.recordId, request.body,
                   (zone, id) => Found(record));
  }

  /** What a token can do is what its rules grant. For every token minted with the rules: some
      run forwards the request, having fetched the record, if and only if the rules grant it. */
  lemma ForwardedExactly(lockName: P.LockName, brand: string, rows: seq<RuleRow>, request: P.Request, record: Record)
    requires '_' !in brand && request.rules == RulesOf(rows)
    requires request.m == Post || request.m == Patch || request.m == Put || request.m == DeleteMethod
    ensures (exists credentials, upstream, actions ::
               ForwardedIn(P.ProxyConfig(lockName), Init(brand, credentials, upstream), actions, request, record))
      <==> GrantedTo(request, record)
  {
    hide RulesOf, ForwardedIn, MutationScope.GrantedOn, MutationScope.GrantedCreate;
    if credentials, upstream, actions :|
         ForwardedIn(P.ProxyConfig(lockName), Init(brand, credentials, upstream), actions, request, record) {
      ForwardedIsGranted(lockName, brand, credentials, upstream, actions, request, record);
    }
    if GrantedTo(request, record) {
      GrantedIsForwarded(lockName, brand, rows, request, record);
    }
  }

  lemma GrantedIsForwarded(lockName: P.LockName, brand: string, rows: seq<RuleRow>, request: P.Request, record: Record)
    requires '_' !in brand && request.rules == RulesOf(rows) && P.Mutating(request.m) && GrantedTo(request, record)
    ensures var upstream := if request.m == Post then map[] else OneRecord(request, record);
      ForwardedIn(P.ProxyConfig(lockName), Init(brand, map[request.credentialId := OWNER], upstream),
                  Straight(brand, rows, request), request, record)
  {
    hide RulesOf, MutationScope.GrantedOn, MutationScope.GrantedCreate, Straight, Forwarding, P.Step, Step;
    var upstream := if request.m == Post then map[] else OneRecord(request, record);
    if request.m == Post {
      CreateForwards(lockName, request);
    } else {
      MutationForwards(lockName, request, record);
    }
    StraightRuns(P.ProxyConfig(lockName), brand, upstream, rows, request);
    var proxy := P.Run(P.ProxyConfig(lockName), P.Init(upstream), Forwarding(request)).value;
    assert proxy.events[0] in proxy.events;
  }
}
