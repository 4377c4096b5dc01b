/** What no interleaving of requests can do: the invariants of the mutation protocol that
    carry the frame and the atomicity theorems. They hold of any decisions that are sound for
    a relation `cover` saying when a request's rules cover an image. */
module MutationSafety {
  import opened Text
  import opened Scope
  import opened Authorizer
  import opened MutationProtocol
  import opened MutationLocks

  type Cover = (Request, Image) -> bool

  function CreatedImage(request: Request): Image {
    var body := BodyOrEmpty(request.body);
    Image(body.name.Or(None), body.rtype.Or(None))
  }

  function PostOf(request: Request, pre: Image): Image {
    PostImage(request.m, request.body, pre)
  }

  /** What an allowed by-id decision promises. */
  ghost predicate ByIdSound(config: Config, cover: Cover, request: Request, fetched: Fetched) {
    Allowed(config.authorizeById(request, fetched)) ==>
      && fetched.Found?
      && config.authorizeById(request, fetched).decision.preImage == Some(fetched.record)
      && cover(request, fetched.record.image)
      && cover(request, PostOf(request, fetched.record.image))
  }

  ghost predicate Sound(config: Config, cover: Cover) {
    && (forall request: Request, fetched: Fetched | request.m != Post && Mutating(request.m) ::
          ByIdSound(config, cover, request, fetched))
    && (forall request: Request | request.m == Post && Allowed(config.authorizeCreate(request)) ::
          cover(request, CreatedImage(request)))
    && (forall request: Request, image: Image | request.m != Post && config.exempt(request) :: cover(request, image))
  }

  /** Some request of the run is exempt for `need` on the record. */
  ghost predicate ExposedFor(config: Config, requests: map<nat, Request>, zoneId: string, recordId: string,
                             need: Need) {
    exists q | q in requests ::
      && requests[q].m != Post && requests[q].zoneId == zoneId && requests[q].recordId == recordId
      && Op(requests[q]) == need && config.exempt(requests[q])
  }

  ghost predicate Exposed(config: Config, requests: map<nat, Request>, zoneId: string, recordId: string) {
    ExposedFor(config, requests, zoneId, recordId, Write) || ExposedFor(config, requests, zoneId, recordId, Delete)
  }

  /** The record that the request fetched is still what the upstream has, unless exempt
      requests run on it. */
  ghost predicate InStep(config: Config, s: State, request: Request, pre: Record) {
    && request.recordId in s.usedIds
    && (FoundRecord(s.upstream, request) == Some(pre)
        || config.exempt(request)
        || (FoundRecord(s.upstream, request).Some?
            && ExposedFor(config, s.requests, request.zoneId, request.recordId, Write))
        || (FoundRecord(s.upstream, request) == None
            && ExposedFor(config, s.requests, request.zoneId, request.recordId, Delete)))
  }

  /** The request was allowed on the record that it fetched. */
  ghost predicate Vetted(config: Config, cover: Cover, request: Request, pre: Record) {
    && Allowed(config.authorizeById(request, Found(pre)))
    && cover(request, pre.image) && cover(request, PostOf(request, pre.image))
  }

  ghost predicate ForwardOk(config: Config, cover: Cover, s: State, q: nat)
    requires q in s.requests && q in s.phases && s.phases[q].Forwarding?
  {
    var request, pre := s.requests[q], s.phases[q].pre;
    request.m != Post ==>
      pre.Some? && Vetted(config, cover, request, pre.value) && InStep(config, s, request, pre.value)
  }

  ghost predicate ForwardInv(config: Config, cover: Cover, s: State) {
    forall q | q in s.requests && q in s.phases && s.phases[q].Forwarding? :: ForwardOk(config, cover, s, q)
  }

  predicate PastDecision(phase: Phase) {
    phase.Resolving? || phase.RowLocked? || phase.Resolved? || Critical(phase)
  }

  ghost predicate CreateOk(config: Config, cover: Cover, request: Request) {
    Allowed(config.authorizeCreate(request)) && cover(request, CreatedImage(request))
  }

  ghost predicate CreateInv(config: Config, cover: Cover, s: State) {
    forall q | q in s.requests && q in s.phases && s.requests[q].m == Post && PastDecision(s.phases[q]) ::
      CreateOk(config, cover, s.requests[q])
  }

  /** What the log says of a forward: its request was allowed, on the record that it fetched if
      it names one; and it acted on that record, unless exempt requests run on it. */
  ghost predicate EventOk(config: Config, cover: Cover, requests: map<nat, Request>, e: Event) {
    && e.q in requests
    && var request := requests[e.q];
    && (request.m == Post ==> CreateOk(config, cover, request))
    && (request.m != Post ==>
          e.pre.Some? && Vetted(config, cover, request, e.pre.value)
          && (e.found == e.pre || config.exempt(request)
              || ExposedFor(config, requests, request.zoneId, request.recordId,
                            if e.found.Some? then Write else Delete)))
  }

  ghost predicate EventInv(config: Config, cover: Cover, s: State) {
    forall k | 0 <= k < |s.events| :: EventOk(config, cover, s.requests, s.events[k])
  }

  ghost predicate Inv(config: Config, cover: Cover, s: State) {
    LocksInv(config, s) && ForwardInv(config, cover, s) && CreateInv(config, cover, s) && EventInv(config, cover, s)
  }

  /** Records other than the one a request names, and zones, are untouched by its forward. */
  lemma EffectFrame(upstream: map<string, Stored>, request: Request, newId: string, id: string)
    requires id in upstream && (request.m == Post ==> newId != id)
    ensures var after := Effect(upstream, request, newId);
      && (id in after ==> after[id].zone == upstream[id].zone)
      && (id != request.recordId || request.zoneId != upstream[id].zone || request.m == Post ==>
            id in after && after[id] == upstream[id])
      && (id !in after ==> request.m == DeleteMethod)
  {
  }

  lemma EffectKeepsAbsent(upstream: map<string, Stored>, request: Request, newId: string, other: Request)
    requires FoundRecord(upstream, other) == None
    requires request.m == Post ==> newId != other.recordId
    ensures FoundRecord(Effect(upstream, request, newId), other) == None
  {
    if other.recordId in upstream {
      EffectFrame(upstream, request, newId, other.recordId);
    }
  }

  /** The parts of a forward that matter to other requests. */
  ghost predicate Forwarded(s: State, p: nat, newId: string, t: State)
    requires p in s.requests
  {
    && t.requests == s.requests
    && (t.upstream == s.upstream || t.upstream == Effect(s.upstream, s.requests[p], newId))
    && s.usedIds <= t.usedIds
    && (s.requests[p].m == Post ==> newId !in s.usedIds)
  }

  lemma StepForwarded(config: Config, s: State, p: nat, move: Move)
    requires Step(config, s, Do(p, move)).Some? && move.Forward?
    ensures p in s.requests && p in s.phases && s.phases[p].Forwarding?
    ensures Forwarded(s, p, move.newId, Step(config, s, Do(p, move)).value)
  {
  }

  lemma ExemptIsExposed(config: Config, requests: map<nat, Request>, q: nat)
    requires q in requests && requests[q].m != Post && config.exempt(requests[q])
    ensures ExposedFor(config, requests, requests[q].zoneId, requests[q].recordId, Op(requests[q]))
  {
  }

  /** A request that is not exempt cannot be overtaken by another one that is not exempt, and
      what an exempt one does to its record is recorded as exposure. */
  lemma OthersStayInStep(config: Config, s: State, p: nat, newId: string, t: State, q: nat, pre: Record)
    requires Shape(s) && p in s.requests && q in s.requests && p != q
    requires s.requests[q].m != Post && InStep(config, s, s.requests[q], pre)
    requires Forwarded(s, p, newId, t)
    requires config.exempt(s.requests[p]) || config.exempt(s.requests[q]) || s.requests[p].m == Post
      || s.requests[p].zoneId != s.requests[q].zoneId || s.requests[p].recordId != s.requests[q].recordId
    ensures InStep(config, t, s.requests[q], pre)
  {
    var mine, other := s.requests[q], s.requests[p];
    if !config.exempt(mine) && t.upstream != s.upstream {
      if FoundRecord(s.upstream, mine) == None {
        EffectKeepsAbsent(s.upstream, other, newId, mine);
      } else {
        EffectFrame(s.upstream, other, newId, mine.recordId);
        if other.m != Post && other.zoneId == mine.zoneId && other.recordId == mine.recordId {
          ExemptIsExposed(config, s.requests, p);
        }
      }
    }
  }

  lemma ForwardKeepsForwardInv(config: Config, cover: Cover, s: State, p: nat, move: Move)
    requires LocksInv(config, s) && ForwardInv(config, cover, s)
    requires Step(config, s, Do(p, move)).Some? && move.Forward?
    ensures ForwardInv(config, cover, Step(config, s, Do(p, move)).value)
  {
    var t := Step(config, s, Do(p, move)).value;
    StepForwarded(config, s, p, move);
    StepMoves(config, s, p, move);
    forall q | q in t.requests && q in t.phases && t.phases[q].Forwarding?
      ensures ForwardOk(config, cover, t, q)
    {
      assert q != p && t.phases[q] == s.phases[q];
      assert ForwardOk(config, cover, s, q);
      if s.requests[q].m != Post {
        OthersStayInStep(config, s, p, move.newId, t, q, s.phases[q].pre.value);
      }
    }
  }

  /** A move that is not a forward leaves the upstream and its log alone. */
  ghost predicate Quiet(s: State, t: State) {
    t.requests == s.requests && t.upstream == s.upstream && t.usedIds == s.usedIds && t.events == s.events
  }

  lemma StepQuiet(config: Config, s: State, q: nat, move: Move)
    requires Step(config, s, Do(q, move)).Some? && !move.Forward?
    ensures Quiet(s, Step(config, s, Do(q, move)).value)
  {
  }

  lemma OnlyFetchOrEnterForwards(config: Config, s: State, q: nat, move: Move)
    requires Step(config, s, Do(q, move)).Some? && !move.Fetch?
    ensures q in s.requests && q in Step(config, s, Do(q, move)).value.phases
    ensures Step(config, s, Do(q, move)).value.phases[q].Forwarding? ==> s.requests[q].m == Post
  {
  }

  lemma FetchVets(config: Config, cover: Cover, s: State, q: nat, move: Move)
    requires Sound(config, cover) && Shape(s) && FlagInv(config, s)
    requires Step(config, s, Do(q, move)).Some? && move.Fetch?
    ensures var t := Step(config, s, Do(q, move)).value;
      && q in t.requests && q in t.phases
      && (t.phases[q].Forwarding? ==> ForwardOk(config, cover, t, q))
  {
    var request := s.requests[q];
    var fetched := if move.fails then FetchFailed else LookupStored(s.upstream, request.zoneId, request.recordId);
    assert ByIdSound(config, cover, request, fetched);
  }

  lemma QuietKeepsForwardInv(config: Config, cover: Cover, s: State, p: nat, move: Move)
    requires Sound(config, cover) && LocksInv(config, s) && ForwardInv(config, cover, s)
    requires Step(config, s, Do(p, move)).Some? && !move.Forward?
    ensures ForwardInv(config, cover, Step(config, s, Do(p, move)).value)
  {
    var t := Step(config, s, Do(p, move)).value;
    StepQuiet(config, s, p, move);
    StepMoves(config, s, p, move);
    forall q | q in t.requests && q in t.phases && t.phases[q].Forwarding?
      ensures ForwardOk(config, cover, t, q)
    {
      if q == p {
        if move.Fetch? {
          FetchVets(config, cover, s, p, move);
        } else {
          OnlyFetchOrEnterForwards(config, s, p, move);
        }
      } else {
        assert t.phases[q] == s.phases[q];
        assert ForwardOk(config, cover, s, q);
      }
    }
  }

  lemma MovedCreate(config: Config, cover: Cover, s: State, q: nat, t: State)
    requires Sound(config, cover) && CreateInv(config, cover, s) && Moved(config, s, q, t)
    ensures CreateInv(config, cover, t)
  {
  }

  lemma StepLogsEvent(config: Config, s: State, p: nat, move: Move)
    requires Step(config, s, Do(p, move)).Some? && move.Forward?
    ensures p in s.requests && p in s.phases && s.phases[p].Forwarding?
    ensures Step(config, s, Do(p, move)).value.events
      == s.events + [Event(p, s.phases[p].pre, FoundRecord(s.upstream, s.requests[p]), move.applied)]
    ensures Step(config, s, Do(p, move)).value.requests == s.requests
  {
  }

  lemma StepKeepsEvents(config: Config, cover: Cover, s: State, p: nat, move: Move)
    requires Inv(config, cover, s)
    requires Step(config, s, Do(p, move)).Some?
    ensures EventInv(config, cover, Step(config, s, Do(p, move)).value)
  {
    var t := Step(config, s, Do(p, move)).value;
    if move.Forward? {
      StepLogsEvent(config, s, p, move);
      assert ForwardOk(config, cover, s, p);
      assert EventOk(config, cover, s.requests, t.events[|s.events|]);
      forall k | 0 <= k < |t.events| ensures EventOk(config, cover, t.requests, t.events[k]) {
        if k < |s.events| {
          assert t.events[k] == s.events[k];
        }
      }
    } else {
      StepQuiet(config, s, p, move);
    }
  }

  lemma MoreRequestsExpose(config: Config, requests: map<nat, Request>, q: nat, request: Request,
                           zoneId: string, recordId: string, need: Need)
    requires q !in requests && ExposedFor(config, requests, zoneId, recordId, need)
    ensures ExposedFor(config, requests[q := request], zoneId, recordId, need)
  {
    var p :| p in requests && requests[p].m != Post && requests[p].zoneId == zoneId
      && requests[p].recordId == recordId && Op(requests[p]) == need && config.exempt(requests[p]);
    assert requests[q := request][p] == requests[p];
  }

  lemma SpawnKeepsInv(config: Config, cover: Cover, s: State, q: nat, request: Request)
    requires Inv(config, cover, s) && Step(config, s, Spawn(q, request)).Some?
    ensures Inv(config, cover, Step(config, s, Spawn(q, request)).value)
  {
    var t := Step(config, s, Spawn(q, request)).value;
    SpawnKeeps(config, s, q, request);
    forall zoneId, recordId, need | ExposedFor(config, s.requests, zoneId, recordId, need)
      ensures ExposedFor(config, t.requests, zoneId, recordId, need)
    {
      MoreRequestsExpose(config, s.requests, q, request, zoneId, recordId, need);
    }
    forall p | p in t.requests && p in t.phases && t.phases[p].Forwarding?
      ensures ForwardOk(config, cover, t, p)
    {
      assert ForwardOk(config, cover, s, p);
    }
    forall k | 0 <= k < |t.events| ensures EventOk(config, cover, t.requests, t.events[k]) {
      assert EventOk(config, cover, s.requests, s.events[k]);
    }
  }

  lemma StepKeepsInv(config: Config, cover: Cover, s: State, a: Action)
    requires Sound(config, cover) && Inv(config, cover, s) && Step(config, s, a).Some?
    ensures Inv(config, cover, Step(config, s, a).value)
  {
    match a
    case Spawn(q, request) => SpawnKeepsInv(config, cover, s, q, request);
    case Do(q, move) =>
      var t := Step(config, s, a).value;
      StepKeepsLocks(config, s, a);
      StepMoves(config, s, q, move);
      MovedCreate(config, cover, s, q, t);
      StepKeepsEvents(config, cover, s, q, move);
      if move.Forward? {
        ForwardKeepsForwardInv(config, cover, s, q, move);
      } else {
        QuietKeepsForwardInv(config, cover, s, q, move);
      }
  }

  lemma InitInv(config: Config, cover: Cover, upstream: map<string, Stored>)
    ensures Inv(config, cover, Init(upstream))
  {
  }
}
