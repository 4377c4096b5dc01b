/** Each token's own scope: what every forward of a run was authorized by, and when it stays
    within its own token's rules. */
module MutationScope {
  import opened Text
  import opened Fqdn
  import opened Scope
  import opened RuleTheorems
  import opened Authorizer
  import opened MutationProtocol
  import opened MutationLocks
  import opened MutationSafety
  import opened MutationTheorems
  import opened MutationRuns

  /** The request's own rules grant its operation on the record as it is and as it would become. */
  predicate GrantedOn(request: Request, image: Image) {
    var post := PostOf(request, image);
    && MatchRules(request.rules, request.zoneId, image.name, image.rtype, Some(request.recordId), Op(request))
       == Granted
    && MatchRules(request.rules, request.zoneId, post.name, post.rtype, Some(request.recordId), Op(request))
       == Granted
  }

  /** The request's own rules grant the creation it asks for. */
  predicate GrantedCreate(request: Request) {
    var image := CreatedImage(request);
    MatchRules(request.rules, request.zoneId, image.name, image.rtype, None, Create) == Granted
  }

  /** The request's own rules cover the record as the forward found it and as it left it. */
  ghost predicate InOwnScope(request: Request, found: Image) {
    RequestCovers(request, found) && RequestCovers(request, PostOf(request, found))
  }

  /** Another request of the run is lock-exempt for writing the record. */
  ghost predicate OtherWritesExempt(requests: map<nat, Request>, q: nat, zoneId: string, recordId: string) {
    exists p | p in requests && p != q ::
      && requests[p].m != Post && requests[p].zoneId == zoneId && requests[p].recordId == recordId
      && Op(requests[p]) == Write && IsLockExempt(requests[p].rules, zoneId, recordId, Write)
  }

  lemma AllowedIsGranted(request: Request, record: Record, lockName: LockName)
    requires Mutating(request.m) && request.m != Post
    requires Allowed(ProxyConfig(lockName).authorizeById(request, Found(record)))
    ensures GrantedOn(request, record.image)
  {
    hide MatchRules;
    AllowedMeaning(request.rules, request.m, request.zoneId, request.recordId, request.body,
                   (zone, id) => Found(record));
  }

  lemma AllowedCreateIsGranted(request: Request, lockName: LockName)
    requires request.m == Post && Allowed(ProxyConfig(lockName).authorizeCreate(request))
    ensures GrantedCreate(request)
  {
    hide MatchRules;
  }

  /** The invariant of every run of the proxy. */
  lemma ProxyRun(lockName: LockName, upstream: map<string, Stored>, actions: seq<Action>)
    requires Run(ProxyConfig(lockName), Init(upstream), actions).Some?
    ensures Inv(ProxyConfig(lockName), ProxyCover(), Run(ProxyConfig(lockName), Init(upstream), actions).value)
  {
    ProxySound(lockName);
    InitInv(ProxyConfig(lockName), ProxyCover(), upstream);
    FrameRun(ProxyConfig(lockName), ProxyCover(), Init(upstream), actions);
  }

  /** What an event of the log owes to its own request. */
  ghost predicate KeptToScope(requests: map<nat, Request>, e: Event) {
    && e.q in requests
    && var request := requests[e.q];
    && (request.m == Post ==> GrantedCreate(request))
    && (request.m != Post ==>
          && e.pre.Some? && GrantedOn(request, e.pre.value.image)
          && (e.found.Some? && !OtherWritesExempt(requests, e.q, request.zoneId, request.recordId) ==>
                InOwnScope(request, e.found.value.image)))
  }

  /** A token cannot touch records outside its scope. In every run, every forward was granted by
      its own token's rules: a create on the image it creates, any other mutation on the record
      that it fetched, as it was and as it would become. And unless another request is
      lock-exempt for writing the record, the record that the forward then reaches, and what it
      leaves there, are in its own token's scope as well. */
  lemma KeepsToScope(lockName: LockName, upstream: map<string, Stored>, actions: seq<Action>, k: nat)
    requires Run(ProxyConfig(lockName), Init(upstream), actions).Some?
    requires k < |Run(ProxyConfig(lockName), Init(upstream), actions).value.events|
    ensures var t := Run(ProxyConfig(lockName), Init(upstream), actions).value; KeptToScope(t.requests, t.events[k])
  {
    ProxyRun(lockName, upstream, actions);
    var t := Run(ProxyConfig(lockName), Init(upstream), actions).value;
    EventKeepsToScope(lockName, t.requests, t.events[k]);
  }

  lemma EventKeepsToScope(lockName: LockName, requests: map<nat, Request>, e: Event)
    requires EventOk(ProxyConfig(lockName), ProxyCover(), requests, e)
    requires e.q in requests ==> Mutating(requests[e.q].m)
    ensures KeptToScope(requests, e)
  {
    hide GrantedOn, GrantedCreate, MatchRules, Covers, IsLockExempt;
    var request := requests[e.q];
    if request.m == Post {
      AllowedCreateIsGranted(request, lockName);
    } else {
      AllowedIsGranted(request, e.pre.value, lockName);
      if e.found.Some? && !OtherWritesExempt(requests, e.q, request.zoneId, request.recordId) {
        if IsLockExempt(request.rules, request.zoneId, request.recordId, Op(request)) {
          var found := e.found.value.image;
          ExemptCovers(request.rules, request.zoneId, request.recordId, Op(request), found);
          ExemptCovers(request.rules, request.zoneId, request.recordId, Op(request), PostOf(request, found));
        } else if e.found != e.pre {
          OnlyOthersExpose(lockName, requests, e.q);
        }
      }
    }
  }

  /** Exposure of a record to writes that is not by the request itself is by another one. */
  lemma OnlyOthersExpose(lockName: LockName, requests: map<nat, Request>, q: nat)
    requires q in requests && requests[q].m != Post
    requires !IsLockExempt(requests[q].rules, requests[q].zoneId, requests[q].recordId, Op(requests[q]))
    requires ExposedFor(ProxyConfig(lockName), requests, requests[q].zoneId, requests[q].recordId, Write)
    ensures OtherWritesExempt(requests, q, requests[q].zoneId, requests[q].recordId)
  {
    hide IsLockExempt;
    var p :| p in requests && requests[p].m != Post && requests[p].zoneId == requests[q].zoneId
      && requests[p].recordId == requests[q].recordId && Op(requests[p]) == Write
      && ProxyConfig(lockName).exempt(requests[p]);
  }

  /** No request of the run was allowed on the record as it was at the start. */
  ghost predicate NoneAllowed(config: Config, requests: map<nat, Request>, id: string, stored: Stored) {
    forall q | q in requests && Names(requests[q], id, stored) ::
      !Allowed(config.authorizeById(requests[q], Found(stored.record)))
  }

  predicate Names(request: Request, id: string, stored: Stored) {
    request.m != Post && request.zoneId == stored.zone && request.recordId == id
  }

  /** The record is as it was at the start, and no request is about to be forwarded to it. */
  ghost predicate Untouched(s: State, id: string, stored: Stored) {
    && id in s.upstream && s.upstream[id] == stored
    && forall q | q in s.requests && q in s.phases && Names(s.requests[q], id, stored) :: !s.phases[q].Forwarding?
  }

  lemma StepUntouched(config: Config, cover: Cover, s: State, a: Action, id: string, stored: Stored)
    requires Sound(config, cover) && LocksInv(config, s) && Untouched(s, id, stored) && Step(config, s, a).Some?
    requires NoneAllowed(config, Step(config, s, a).value.requests, id, stored)
    ensures Untouched(Step(config, s, a).value, id, stored)
  {
    var t := Step(config, s, a).value;
    if a.Do? {
      StepMoves(config, s, a.q, a.move);
      if a.move.Forward? {
        StepForwarded(config, s, a.q, a.move);
        EffectFrame(s.upstream, s.requests[a.q], a.move.newId, id);
      } else {
        StepQuiet(config, s, a.q, a.move);
        if Names(s.requests[a.q], id, stored) {
          FetchStaysOut(config, cover, s, a.q, a.move, id, stored);
        }
      }
    }
  }

  lemma FetchStaysOut(config: Config, cover: Cover, s: State, q: nat, move: Move, id: string, stored: Stored)
    requires Sound(config, cover) && LocksInv(config, s) && Untouched(s, id, stored)
    requires Step(config, s, Do(q, move)).Some? && !move.Forward?
    requires q in s.requests && Names(s.requests[q], id, stored)
    requires !Allowed(config.authorizeById(s.requests[q], Found(stored.record)))
    ensures q in Step(config, s, Do(q, move)).value.phases && !Step(config, s, Do(q, move)).value.phases[q].Forwarding?
  {
    if move.Fetch? {
      assert ByIdSound(config, cover, s.requests[q], FetchFailed);
    } else {
      StepMoves(config, s, q, move);
      OnlyFetchOrEnterForwards(config, s, q, move);
    }
  }

  lemma {:induction false} RunUntouched(config: Config, cover: Cover, s: State, actions: seq<Action>, id: string,
                                        stored: Stored)
    requires Sound(config, cover) && LocksInv(config, s) && Untouched(s, id, stored) && Run(config, s, actions).Some?
    requires NoneAllowed(config, Run(config, s, actions).value.requests, id, stored)
    ensures MoreRequests(s.requests, Run(config, s, actions).value.requests)
    ensures Untouched(Run(config, s, actions).value, id, stored)
    decreases |actions|
  {
    hide Step, Sound, LocksInv, Untouched;
    if actions != [] {
      var mid := Step(config, s, actions[0]).value;
      StepKeepsLocks(config, s, actions[0]);
      StepGrows(config, s, actions[0]);
      RunGrows(config, mid, actions[1..]);
      StepUntouched(config, cover, s, actions[0], id, stored);
      RunUntouched(config, cover, mid, actions[1..], id, stored);
    }
  }

  lemma {:induction false} RunGrows(config: Config, s: State, actions: seq<Action>)
    requires Run(config, s, actions).Some?
    ensures MoreRequests(s.requests, Run(config, s, actions).value.requests)
    decreases |actions|
  {
    hide Step;
    if actions != [] {
      StepGrows(config, s, actions[0]);
      RunGrows(config, Step(config, s, actions[0]).value, actions[1..]);
    }
  }

  /** Some token of the run had its request granted on the record as it was at the start. */
  ghost predicate GrantedAtStart(requests: map<nat, Request>, id: string, stored: Stored) {
    exists q | q in requests && Names(requests[q], id, stored) :: GrantedOn(requests[q], stored.record.image)
  }

  lemma NotGrantedNotAllowed(lockName: LockName, requests: map<nat, Request>, id: string, stored: Stored)
    requires forall q | q in requests :: Mutating(requests[q].m)
    requires !GrantedAtStart(requests, id, stored)
    ensures NoneAllowed(ProxyConfig(lockName), requests, id, stored)
  {
    hide GrantedOn, MatchRules;
    forall q | q in requests && Names(requests[q], id, stored)
      ensures !Allowed(ProxyConfig(lockName).authorizeById(requests[q], Found(stored.record)))
    {
      if Allowed(ProxyConfig(lockName).authorizeById(requests[q], Found(stored.record))) {
        AllowedIsGranted(requests[q], stored.record, lockName);
      }
    }
  }

  /** The frame of a run, from both sides. A record is changed or removed only if the rules of
      some token that asks for it grant its request on the record as it was at the start; and a
      record that is not as it was at the start lies in some token's create or write scope. */
  lemma FrameOverRuns(lockName: LockName, upstream: map<string, Stored>, actions: seq<Action>)
    requires Run(ProxyConfig(lockName), Init(upstream), actions).Some?
    ensures var t := Run(ProxyConfig(lockName), Init(upstream), actions).value;
      && (forall id | id in upstream && !GrantedAtStart(t.requests, id, upstream[id]) ::
            id in t.upstream && t.upstream[id] == upstream[id])
      && (forall id | id in t.upstream && !InLandingScope(t.requests, id, t.upstream[id]) ::
            id in upstream && t.upstream[id] == upstream[id])
  {
    hide GrantedOn, Covers;
    var config := ProxyConfig(lockName);
    var t := Run(config, Init(upstream), actions).value;
    ProxyRun(lockName, upstream, actions);
    ProxySound(lockName);
    InitLocks(config, upstream);
    LandsInScope(lockName, upstream, actions);
    forall id | id in upstream && !GrantedAtStart(t.requests, id, upstream[id])
      ensures id in t.upstream && t.upstream[id] == upstream[id]
    {
      NotGrantedNotAllowed(lockName, t.requests, id, upstream[id]);
      RunUntouched(config, ProxyCover(), Init(upstream), actions, id, upstream[id]);
    }
  }

  /** The router and the authorizer agree on the lock: for every mutation that is decided, the
      router's own exemption test is the negation of the decision's need for a lock. */
  lemma ExemptIsNoNeed(lockName: LockName, request: Request, fetched: Fetched)
    requires Mutating(request.m) && request.m != Post
    requires ProxyConfig(lockName).authorizeById(request, fetched).Decided?
    ensures ProxyConfig(lockName).exempt(request)
      <==> !ProxyConfig(lockName).authorizeById(request, fetched).decision.needsLock
  {
    hide MatchRules, IsLockExempt;
    NeedsLockIsNotExempt(request.rules, request.m, request.zoneId, request.recordId, request.body,
                         (zone, id) => fetched);
  }

  /** The lock that the decision asks for is the one the router holds. In every run, a mutation
      that is about to be forwarded holds its record's lock exactly when the decision on the
      record that it fetched says that it needs one. */
  lemma HoldsTheLockItNeeds(lockName: LockName, upstream: map<string, Stored>, actions: seq<Action>, q: nat)
    requires Run(ProxyConfig(lockName), Init(upstream), actions).Some?
    requires var t := Run(ProxyConfig(lockName), Init(upstream), actions).value;
      q in t.requests && q in t.phases && t.requests[q].m != Post && t.phases[q].Forwarding?
    ensures var t := Run(ProxyConfig(lockName), Init(upstream), actions).value; var request := t.requests[q];
      && t.phases[q].pre.Some?
      && var outcome := ProxyConfig(lockName).authorizeById(request, Found(t.phases[q].pre.value));
      && outcome.Decided?
      && (outcome.decision.needsLock
          <==> lockName(request.zoneId, request.recordId) in t.recordLocks
               && t.recordLocks[lockName(request.zoneId, request.recordId)] == q)
  {
    hide MatchRules, IsLockExempt, Covers;
    ProxyRun(lockName, upstream, actions);
    var config := ProxyConfig(lockName);
    var t := Run(config, Init(upstream), actions).value;
    assert ForwardOk(config, ProxyCover(), t, q);
    ExemptIsNoNeed(lockName, t.requests[q], Found(t.phases[q].pre.value));
    var name := LockOf(config, t.requests[q]);
    if name in t.recordLocks {
      assert HolderOk(config, t, name);
    }
  }
}
