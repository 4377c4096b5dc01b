/** The proxy's promise over whole runs: in every interleaving, no record is changed outside
    the scopes of the tokens that run, and a mutation acts on the record that it authorized. */
module MutationTheorems {
  import opened Text
  import opened Scope
  import opened RuleTheorems
  import opened Authorizer
  import opened MutationProtocol
  import opened MutationLocks
  import opened MutationSafety

  /** A request's own rules cover its operation on an image of its record. */
  ghost predicate RequestCovers(request: Request, image: Image) {
    Covers(request.rules, request.zoneId, image,
           if request.m == Post then None else Some(request.recordId), Op(request))
  }

  ghost function ProxyCover(): Cover {
    (request: Request, image: Image) => RequestCovers(request, image)
  }

  lemma AllowedIsCovered(request: Request, fetched: Fetched)
    requires request.m == Patch || request.m == Put || request.m == DeleteMethod
    requires Allowed(AuthorizeDnsRequest(request.rules, request.m, request.zoneId, request.recordId, request.body,
                                         (zone, id) => fetched))
    ensures fetched.Found?
    ensures RequestCovers(request, fetched.record.image)
    ensures RequestCovers(request, PostOf(request, fetched.record.image))
  {
    AllowedMeaning(request.rules, request.m, request.zoneId, request.recordId, request.body, (zone, id) => fetched);
    GrantedCovers(request.rules, request.zoneId, fetched.record.image, Some(request.recordId), Op(request));
    var post := PostOf(request, fetched.record.image);
    GrantedCovers(request.rules, request.zoneId, post, Some(request.recordId), Op(request));
  }

  lemma CreateIsCovered(request: Request)
    requires request.m == Post
    requires Allowed(AuthorizeCreate(request.rules, request.zoneId, request.body))
    ensures RequestCovers(request, CreatedImage(request))
  {
    GrantedCovers(request.rules, request.zoneId, CreatedImage(request), None, Create);
  }

  lemma ProxySound(lockName: LockName)
    ensures Sound(ProxyConfig(lockName), ProxyCover())
  {
    var config, cover := ProxyConfig(lockName), ProxyCover();
    forall request: Request, fetched: Fetched | request.m != Post && Mutating(request.m)
      ensures ByIdSound(config, cover, request, fetched)
    {
      if Allowed(config.authorizeById(request, fetched)) {
        AllowedIsCovered(request, fetched);
        AllowedMeaning(request.rules, request.m, request.zoneId, request.recordId, request.body, (zone, id) => fetched);
      }
    }
    forall request: Request | request.m == Post && Allowed(config.authorizeCreate(request))
      ensures cover(request, CreatedImage(request))
    {
      CreateIsCovered(request);
    }
    forall request: Request, image: Image | request.m != Post && config.exempt(request)
      ensures cover(request, image)
    {
      ExemptCovers(request.rules, request.zoneId, request.recordId, Op(request), image);
    }
  }

  /** Some request of the run covers writing or deleting the record as it stands. */
  ghost predicate TouchCovered(cover: Cover, requests: map<nat, Request>, id: string, stored: Stored) {
    exists q | q in requests ::
      && requests[q].m != Post && requests[q].zoneId == stored.zone && requests[q].recordId == id
      && cover(requests[q], stored.record.image)
  }

  /** Some request of the run covers writing the record to this image, or creating it so. */
  ghost predicate LandingCovered(cover: Cover, requests: map<nat, Request>, id: string, stored: Stored) {
    exists q | q in requests ::
      && requests[q].zoneId == stored.zone
      && (requests[q].m == Post || (Op(requests[q]) == Write && requests[q].recordId == id))
      && cover(requests[q], stored.record.image)
  }

  lemma ExposureCovers(config: Config, cover: Cover, requests: map<nat, Request>, id: string, stored: Stored,
                       need: Need)
    requires Sound(config, cover)
    requires ExposedFor(config, requests, stored.zone, id, need)
    ensures TouchCovered(cover, requests, id, stored)
    ensures need == Write ==> LandingCovered(cover, requests, id, stored)
  {
    var q :| q in requests && requests[q].m != Post && requests[q].zoneId == stored.zone
      && requests[q].recordId == id && Op(requests[q]) == need && config.exempt(requests[q]);
    assert cover(requests[q], stored.record.image);
  }

  /** One forward by a by-id request, on the record it names. */
  lemma ForwardTouches(config: Config, cover: Cover, s: State, q: nat, newId: string)
    requires Sound(config, cover) && Inv(config, cover, s)
    requires q in s.requests && q in s.phases && s.phases[q].Forwarding? && s.requests[q].m != Post
    requires FoundRecord(s.upstream, s.requests[q]).Some?
    ensures var request := s.requests[q]; var id := request.recordId;
      && TouchCovered(cover, s.requests, id, s.upstream[id])
      && (id in Effect(s.upstream, request, newId) ==>
            LandingCovered(cover, s.requests, id, Effect(s.upstream, request, newId)[id]))
  {
    var request := s.requests[q];
    var id := request.recordId;
    var pre := s.phases[q].pre;
    assert ForwardOk(config, cover, s, q);
    var stored := s.upstream[id];
    var after := Effect(s.upstream, request, newId);
    if config.exempt(request) {
      assert cover(request, stored.record.image);
      if id in after { assert cover(request, after[id].record.image); }
    } else if FoundRecord(s.upstream, request) == pre {
      if id in after { assert after[id].record.image == PostOf(request, stored.record.image); }
    } else {
      ExposureCovers(config, cover, s.requests, id, stored, Write);
      if id in after {
        ExposureCovers(config, cover, s.requests, id, after[id], Write);
      }
    }
  }

  /** The frame of one step: a record is changed or removed only if some request covers
      touching it, and what it becomes, or what is created, is covered too. */
  lemma FrameStep(config: Config, cover: Cover, s: State, a: Action)
    requires Sound(config, cover) && Inv(config, cover, s) && Step(config, s, a).Some?
    ensures var t := Step(config, s, a).value;
      forall id | id in s.upstream && !(id in t.upstream && t.upstream[id] == s.upstream[id]) ::
        TouchCovered(cover, s.requests, id, s.upstream[id])
    ensures var t := Step(config, s, a).value;
      forall id | id in t.upstream && !(id in s.upstream && t.upstream[id] == s.upstream[id]) ::
        LandingCovered(cover, s.requests, id, t.upstream[id])
    ensures var t := Step(config, s, a).value;
      forall id | id in s.upstream && id in t.upstream :: t.upstream[id].zone == s.upstream[id].zone
  {
    if a.Do? {
      var t := Step(config, s, a).value;
      if a.move.Forward? {
        StepForwarded(config, s, a.q, a.move);
        var request, newId := s.requests[a.q], a.move.newId;
        if t.upstream != s.upstream {
          forall id | id in s.upstream
            ensures id in t.upstream ==> t.upstream[id].zone == s.upstream[id].zone
            ensures request.m == Post || id != request.recordId || request.zoneId != s.upstream[id].zone ==>
              id in t.upstream && t.upstream[id] == s.upstream[id]
          {
            EffectFrame(s.upstream, request, newId, id);
          }
          if request.m == Post {
            CreationLands(config, cover, s, a.q, newId);
          } else if FoundRecord(s.upstream, request).Some? {
            ForwardTouches(config, cover, s, a.q, newId);
          }
        }
      } else {
        StepQuiet(config, s, a.q, a.move);
      }
    }
  }

  lemma CreationLands(config: Config, cover: Cover, s: State, q: nat, newId: string)
    requires CreateInv(config, cover, s) && q in s.requests && q in s.phases && s.phases[q].Forwarding?
    requires s.requests[q].m == Post
    ensures LandingCovered(cover, s.requests, newId, Effect(s.upstream, s.requests[q], newId)[newId])
  {
    assert CreateOk(config, cover, s.requests[q]);
  }
}
