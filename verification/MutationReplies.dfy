/** What a mutation answers, over all runs: the reply that a request ends with is the one that the
    decision on its own live fetch calls for, and of two unreachable records, or none, it tells
    the client the same. */
module MutationReplies {
  import Traces
  import opened Text
  import opened Scope
  import opened Authorizer
  import opened MutationProtocol
  import opened MutationLocks

  /** Step `i` of the run was the request's live fetch, and this is what it returned. */
  ghost predicate FetchedAt(config: Config, s0: State, actions: seq<Action>, i: nat, q: nat, fetched: Fetched) {
    && i < |actions| && actions[i].Do? && actions[i].q == q && actions[i].move.Fetch?
    && Run(config, s0, actions[..i]).Some?
    && var s := Run(config, s0, actions[..i]).value;
    && q in s.requests
    && fetched == if actions[i].move.fails then FetchFailed
                  else LookupStored(s.upstream, s.requests[q].zoneId, s.requests[q].recordId)
  }

  /** The reply is the one that the decision calls for. An allowed request that the upstream does
      not answer ends in an error. */
  predicate ReplyFollows(outcome: Outcome, reply: Reply) {
    match outcome
    case Crashed => reply == Broken
    case Decided(d) =>
      if d.allowed then reply == Broken || (reply.Sent? && reply.pre == d.preImage)
      else reply == Denied(d.error, d.preImage)
  }

  predicate PhaseFollows(outcome: Outcome, phase: Phase) {
    match phase
    case Forwarding(_, pre) => Allowed(outcome) && pre == outcome.decision.preImage
    case Leaving(_, reply) => ReplyFollows(outcome, reply)
    case Closing(reply) => ReplyFollows(outcome, reply)
    case Finished(reply) => ReplyFollows(outcome, reply)
    case _ => false
  }

  /** A phase that a by-id request is in only after its fetch. */
  predicate PastFetch(phase: Phase) {
    match phase
    case Forwarding(_, _) => true
    case Leaving(_, _) => true
    case Closing(reply) => reply.Denied? || reply.Sent?
    case Finished(reply) => reply.Denied? || reply.Sent?
    case _ => false
  }

  lemma FetchFollows(config: Config, s: State, q: nat, fails: bool)
    requires Step(config, s, Do(q, Fetch(fails))).Some?
    ensures q in s.requests && q in s.phases && s.phases[q].Inside?
    ensures var t := Step(config, s, Do(q, Fetch(fails))).value; var request := s.requests[q];
      && t.requests == s.requests && q in t.phases
      && PhaseFollows(config.authorizeById(request, if fails then FetchFailed
                                                    else LookupStored(s.upstream, request.zoneId, request.recordId)),
                      t.phases[q])
  {
  }

  lemma StepKeepsFollowing(config: Config, s: State, a: Action, q: nat, outcome: Outcome)
    requires Step(config, s, a).Some? && q in s.requests && q in s.phases && PhaseFollows(outcome, s.phases[q])
    ensures var t := Step(config, s, a).value;
      && q in t.requests && t.requests[q] == s.requests[q] && q in t.phases && PhaseFollows(outcome, t.phases[q])
    ensures !(a.Do? && a.q == q && a.move.Fetch?)
  {
    hide Effect, FoundRecord, LookupStored, Mutating;
    if a.Do? {
      StepMoves(config, s, a.q, a.move);
    }
  }

  lemma OnlyFetchPasses(config: Config, s: State, a: Action, q: nat)
    requires Step(config, s, a).Some?
    requires var t := Step(config, s, a).value;
      q in t.requests && t.requests[q].m != Post && q in t.phases && PastFetch(t.phases[q])
    ensures (a.Do? && a.q == q && a.move.Fetch?)
      || (q in s.requests && s.requests[q].m != Post && q in s.phases && PastFetch(s.phases[q]))
  {
    hide Effect, FoundRecord, LookupStored;
    if a.Do? {
      StepMoves(config, s, a.q, a.move);
    }
  }

  ghost predicate AllFollow(config: Config, s0: State, actions: seq<Action>, q: nat) {
    Run(config, s0, actions).Some? ==>
      var t := Run(config, s0, actions).value;
      forall i: nat, fetched | FetchedAt(config, s0, actions, i, q, fetched) ::
        && q in t.requests && q in t.phases
        && PhaseFollows(config.authorizeById(t.requests[q], fetched), t.phases[q])
  }

  /** In every run, whatever a request's live fetch returned, the request is where the decision on
      it has led. */
  lemma {:induction false} DecisionsAreFollowed(config: Config, s0: State, actions: seq<Action>, q: nat)
    requires Run(config, s0, actions).Some?
    ensures AllFollow(config, s0, actions, q)
    decreases |actions|
  {
    hide Step, PhaseFollows, LookupStored;
    if actions != [] {
      var n := |actions| - 1;
      Traces.RunLast(Steps(config), s0, actions);
      DecisionsAreFollowed(config, s0, actions[..n], q);
      var s := Run(config, s0, actions[..n]).value;
      forall i: nat, fetched | FetchedAt(config, s0, actions, i, q, fetched)
        ensures var t := Run(config, s0, actions).value;
          && q in t.requests && q in t.phases
          && PhaseFollows(config.authorizeById(t.requests[q], fetched), t.phases[q])
      {
        if i == n {
          FetchFollows(config, s, q, actions[n].move.fails);
        } else {
          assert actions[..n][..i] == actions[..i];
          assert FetchedAt(config, s0, actions[..n], i, q, fetched);
          StepKeepsFollowing(config, s, actions[n], q, config.authorizeById(s.requests[q], fetched));
        }
      }
    }
  }

  ghost predicate HasFetched(config: Config, s0: State, actions: seq<Action>, q: nat) {
    exists i: nat, fetched :: FetchedAt(config, s0, actions, i, q, fetched)
  }

  /** No by-id request gets past its fetch without one. */
  lemma {:induction false} PastMeansFetched(config: Config, s0: State, actions: seq<Action>, q: nat)
    requires q !in s0.requests && Run(config, s0, actions).Some?
    requires var t := Run(config, s0, actions).value;
      q in t.requests && t.requests[q].m != Post && q in t.phases && PastFetch(t.phases[q])
    ensures HasFetched(config, s0, actions, q)
    decreases |actions|
  {
    hide Step, LookupStored, PastFetch;
    if actions != [] {
      var n := |actions| - 1;
      Traces.RunLast(Steps(config), s0, actions);
      var s := Run(config, s0, actions[..n]).value;
      OnlyFetchPasses(config, s, actions[n], q);
      if actions[n].Do? && actions[n].q == q && actions[n].move.Fetch? {
        FetchFollows(config, s, q, actions[n].move.fails);
        var fetched := if actions[n].move.fails then FetchFailed
                       else LookupStored(s.upstream, s.requests[q].zoneId, s.requests[q].recordId);
        assert FetchedAt(config, s0, actions, n, q, fetched);
      } else {
        PastMeansFetched(config, s0, actions[..n], q);
        var i: nat, fetched :| FetchedAt(config, s0, actions[..n], i, q, fetched);
        assert actions[..n][..i] == actions[..i];
        assert FetchedAt(config, s0, actions, i, q, fetched);
      }
    }
  }

  /** Step `i` of the run forwarded the request, when the log had `n` entries. */
  ghost predicate ForwardedAt(config: Config, s0: State, actions: seq<Action>, i: nat, q: nat, pre: Option<Record>,
                              n: nat)
  {
    && i < |actions| && actions[i].Do? && actions[i].q == q && actions[i].move.Forward?
    && Run(config, s0, actions[..i]).Some?
    && var s := Run(config, s0, actions[..i]).value;
    && q in s.requests && q in s.phases && s.phases[q].Forwarding? && s.phases[q].pre == pre && n == |s.events|
  }

  /** A forwarded request ends with the upstream's answer to it, or with an error if it got none. */
  predicate Answered(answered: bool, pre: Option<Record>, n: nat, phase: Phase) {
    match phase
    case Leaving(_, reply) => reply == if answered then Sent(pre, n) else Broken
    case Closing(reply) => reply == if answered then Sent(pre, n) else Broken
    case Finished(reply) => reply == if answered then Sent(pre, n) else Broken
    case _ => false
  }

  /** The name, type and content that the body sets in a record, absent ones as `record` has
      them. */
  function Updated(request: Request, record: Record): Record {
    match request.body
    case None => record
    case Some(body) =>
      Record(record.id, record.zoneId, Changed(request, record.image),
             if body.content.Present? then body.content.value else record.content)
  }

  /** The image with the name and the type that the body sets, absent ones kept. */
  function Changed(request: Request, image: Image): Image {
    match request.body
    case None => image
    case Some(body) =>
      Image(if body.name.Present? then body.name.value else image.name,
            if body.rtype.Present? then body.rtype.value else image.rtype)
  }

  /** The upstream after it has applied the request: one more record under the new id, one record
      less, or one record updated; nothing when there is no such record in the zone. */
  predicate AppliedTo(upstream: map<string, Stored>, request: Request, newId: string, after: map<string, Stored>) {
    if request.m == Post then
      after == upstream[newId := Stored(request.zoneId,
        Updated(request, Record(Some(newId), Some(request.zoneId), Image(None, None), None)))]
    else if request.recordId in upstream && upstream[request.recordId].zone == request.zoneId then
      if request.m == DeleteMethod then after == upstream - {request.recordId}
      else
        var record := Updated(request, upstream[request.recordId].record);
        after == upstream[request.recordId := Stored(request.zoneId, record)]
    else after == upstream
  }

  /** What a forward does: the upstream changes as the request says if it applies it, the log notes
      what the forward found, and the reply depends on whether it is answered. */
  lemma ForwardTells(config: Config, s: State, q: nat, applied: bool, answered: bool, newId: string)
    requires Step(config, s, Do(q, Forward(applied, answered, newId))).Some?
    ensures q in s.requests && q in s.phases && s.phases[q].Forwarding?
    ensures var t := Step(config, s, Do(q, Forward(applied, answered, newId))).value; var request := s.requests[q];
      && (if applied then AppliedTo(s.upstream, request, newId, t.upstream) else t.upstream == s.upstream)
      && |t.events| == |s.events| + 1 && t.events[..|s.events|] == s.events
      && t.events[|s.events|].q == q && t.events[|s.events|].applied == applied
      && t.events[|s.events|].pre == s.phases[q].pre
      && t.events[|s.events|].found
         == (if request.recordId in s.upstream && s.upstream[request.recordId].zone == request.zoneId
             then Some(s.upstream[request.recordId].record) else None)
      && q in t.phases && Answered(answered, s.phases[q].pre, |s.events|, t.phases[q])
  {
  }

  lemma StepKeepsAnswer(config: Config, s: State, a: Action, q: nat, answered: bool, pre: Option<Record>, n: nat)
    requires Step(config, s, a).Some? && q in s.requests && q in s.phases && Answered(answered, pre, n, s.phases[q])
    ensures var t := Step(config, s, a).value;
      q in t.requests && t.requests[q] == s.requests[q] && q in t.phases && Answered(answered, pre, n, t.phases[q])
    ensures !(a.Do? && a.q == q && a.move.Forward?)
  {
    hide Effect, FoundRecord, LookupStored, Mutating;
    if a.Do? {
      StepMoves(config, s, a.q, a.move);
    }
  }

  ghost predicate AllAnswered(config: Config, s0: State, actions: seq<Action>, q: nat) {
    Run(config, s0, actions).Some? ==>
      var t := Run(config, s0, actions).value;
      forall i: nat, pre, n | ForwardedAt(config, s0, actions, i, q, pre, n) ::
        q in t.phases && Answered(actions[i].move.answered, pre, n, t.phases[q])
  }

  /** In every run, a request that was forwarded ends with the upstream's answer, which refers to
      its own entry in the log, or with an error if there was none. */
  lemma {:induction false} ForwardsAreAnswered(config: Config, s0: State, actions: seq<Action>, q: nat)
    requires Run(config, s0, actions).Some?
    ensures AllAnswered(config, s0, actions, q)
    decreases |actions|
  {
    hide Step, Answered;
    if actions != [] {
      var n := |actions| - 1;
      Traces.RunLast(Steps(config), s0, actions);
      ForwardsAreAnswered(config, s0, actions[..n], q);
      var s, t := Run(config, s0, actions[..n]).value, Run(config, s0, actions).value;
      forall i: nat, pre, m | ForwardedAt(config, s0, actions, i, q, pre, m)
        ensures q in t.phases && Answered(actions[i].move.answered, pre, m, t.phases[q])
      {
        if i == n {
          var move := actions[n].move;
          ForwardTells(config, s, q, move.applied, move.answered, move.newId);
        } else {
          assert actions[..n][..i] == actions[..i];
          assert ForwardedAt(config, s0, actions[..n], i, q, pre, m);
          RequestStays(config, s0, actions[..n], i, q);
          StepKeepsAnswer(config, s, actions[n], q, actions[i].move.answered, pre, m);
        }
      }
    }
  }

  lemma {:induction false} RequestStays(config: Config, s0: State, actions: seq<Action>, i: nat, q: nat)
    requires Run(config, s0, actions).Some? && i <= |actions| && Run(config, s0, actions[..i]).Some?
    requires q in Run(config, s0, actions[..i]).value.requests
    ensures q in Run(config, s0, actions).value.requests
    decreases |actions|
  {
    hide Step;
    if i < |actions| {
      var n := |actions| - 1;
      Traces.RunLast(Steps(config), s0, actions);
      assert actions[..n][..i] == actions[..i];
      RequestStays(config, s0, actions[..n], i, q);
      RequestsGrow(config, Run(config, s0, actions[..n]).value, actions[n], q);
    } else {
      assert actions[..i] == actions;
    }
  }

  lemma RequestsGrow(config: Config, s: State, a: Action, q: nat)
    requires Step(config, s, a).Some? && q in s.requests
    ensures q in Step(config, s, a).value.requests
  {
    if a.Do? {
      StepMoves(config, s, a.q, a.move);
    }
  }

  /** What the client of a by-id mutation is told, by what the fetch returned and by what the
      rules say of the record as it is and as it would become. */
  ghost predicate Answers(request: Request, fetched: Fetched, reply: Reply) {
    match fetched
    case FetchFailed => reply == Broken
    case Missing => reply == Denied(Some(ApiError(404, 81044, "Record does not exist.")), None)
    case Found(record) =>
      if record.zoneId.Some? && record.zoneId.value != request.zoneId then
        reply == Denied(Some(ApiError(404, 81044, "Record does not exist.")), None)
      else
        match Ruled(request, record.image)
        case Raised => reply == Broken
        case Refused => reply == Denied(Some(ApiError(404, 81044, "Record does not exist.")), Some(record))
        case Granted =>
          match Ruled(request, if request.m == DeleteMethod then record.image else Changed(request, record.image))
          case Raised => reply == Broken
          case Refused =>
            reply == Denied(Some(ApiError(403, 9109, "Authorization error: insufficient scope")), Some(record))
          case Granted => reply == Broken || (reply.Sent? && reply.pre == Some(record))
  }

  /** The verdict of the request's rules on an image of the record. */
  function Ruled(request: Request, image: Image): Verdict {
    MatchRules(request.rules, request.zoneId, image.name, image.rtype, Some(request.recordId),
               if request.m == DeleteMethod then Delete else Write)
  }

  lemma FollowingAnswers(lockName: LockName, request: Request, fetched: Fetched, reply: Reply)
    requires Mutating(request.m) && request.m != Post
    requires ReplyFollows(ProxyConfig(lockName).authorizeById(request, fetched), reply)
    ensures Answers(request, fetched, reply)
  {
    hide MatchRules, IsLockExempt;
    if fetched.Found? {
      assert MergePatchImage(fetched.record.image, BodyOrEmpty(request.body)) == Changed(request, fetched.record.image);
    }
  }

  /** In every run of the proxy, a by-id mutation that is over, and has fetched, tells its client
      what the rules say of what it fetched; and only one that has fetched is denied, or answered
      by the upstream. */
  lemma MutationsAnswer(lockName: LockName, upstream: map<string, Stored>, actions: seq<Action>, q: nat, reply: Reply)
    requires Run(ProxyConfig(lockName), Init(upstream), actions).Some?
    requires var t := Run(ProxyConfig(lockName), Init(upstream), actions).value;
      q in t.requests && t.requests[q].m != Post && q in t.phases && t.phases[q] == Finished(reply)
    ensures var t := Run(ProxyConfig(lockName), Init(upstream), actions).value;
      forall i: nat, fetched | FetchedAt(ProxyConfig(lockName), Init(upstream), actions, i, q, fetched) ::
        Answers(t.requests[q], fetched, reply)
    ensures reply.Denied? || reply.Sent? ==> HasFetched(ProxyConfig(lockName), Init(upstream), actions, q)
  {
    hide Step, Answers, ReplyFollows;
    var config := ProxyConfig(lockName);
    var t := Run(config, Init(upstream), actions).value;
    InitLocks(config, upstream);
    RunKeepsLocks(config, Init(upstream), actions);
    DecisionsAreFollowed(config, Init(upstream), actions, q);
    forall i: nat, fetched | FetchedAt(config, Init(upstream), actions, i, q, fetched)
      ensures Answers(t.requests[q], fetched, reply)
    {
      FollowingAnswers(lockName, t.requests[q], fetched, reply);
    }
    if reply.Denied? || reply.Sent? {
      PastMeansFetched(config, Init(upstream), actions, q);
    }
  }

  /** What the client sees of a denial. */
  function Shown(reply: Reply): Option<ApiError> {
    if reply.Denied? then reply.error else None
  }

  /** Mutations do not tell an unreachable record from none: where nothing raises and the rules do
      not grant the operation on what was fetched, the reply is the one for a missing record; and
      a 403 shows only to tokens whose rules grant it. */
  lemma DenialsLookAlike(request: Request, fetched: Fetched, reply: Reply, absent: Reply)
    requires Answers(request, fetched, reply) && Answers(request, Missing, absent)
    ensures fetched.Found? && Ruled(request, fetched.record.image) == Refused ==>
      reply.Denied? && absent.Denied? && Shown(reply) == Shown(absent)
    ensures Shown(reply).Some? && Shown(reply).value.status == 403 ==>
      fetched.Found? && Ruled(request, fetched.record.image) == Granted
  {
    hide MatchRules;
  }

  /** Where a create stands follows from its decision. */
  predicate CreateFollows(outcome: Outcome, phase: Phase) {
    match phase
    case Received => true
    case Resolving(_) => Allowed(outcome)
    case RowLocked(_) => Allowed(outcome)
    case Resolved(_) => Allowed(outcome)
    case Inside(_) => false
    case Forwarding(_, pre) => Allowed(outcome) && pre == None
    case Leaving(_, reply) => CreateReplyFollows(outcome, reply)
    case Closing(reply) => CreateReplyFollows(outcome, reply)
    case Finished(reply) => CreateReplyFollows(outcome, reply)
  }

  predicate CreateReplyFollows(outcome: Outcome, reply: Reply) {
    match outcome
    case Crashed => reply == Broken
    case Decided(d) =>
      if d.allowed then reply == Broken || (reply.Sent? && reply.pre == None) else reply == Denied(d.error, None)
  }

  ghost predicate CreateInLine(config: Config, s: State, q: nat) {
    q in s.requests && q in s.phases && s.requests[q].m == Post ==>
      Exempting(s.phases[q]) && CreateFollows(config.authorizeCreate(s.requests[q]), s.phases[q])
  }

  /** A create takes no record lock. */
  predicate Exempting(phase: Phase) {
    match phase
    case Resolving(exempt) => exempt
    case RowLocked(exempt) => exempt
    case Resolved(exempt) => exempt
    case _ => true
  }

  lemma StepKeepsCreate(config: Config, s: State, a: Action, q: nat)
    requires CreateInLine(config, s, q) && Step(config, s, a).Some?
    ensures CreateInLine(config, Step(config, s, a).value, q)
  {
    hide Effect, FoundRecord, LookupStored, Mutating;
    if a.Do? {
      StepMoves(config, s, a.q, a.move);
      if a.q == q && s.requests[q].m == Post {
        CreateMoves(config, s, q, a.move);
      }
    }
  }

  lemma CreateMoves(config: Config, s: State, q: nat, move: Move)
    requires Step(config, s, Do(q, move)).Some? && q in s.requests && q in s.phases && s.requests[q].m == Post
    requires Exempting(s.phases[q]) && CreateFollows(config.authorizeCreate(s.requests[q]), s.phases[q])
    ensures var t := Step(config, s, Do(q, move)).value;
      q in t.phases && Exempting(t.phases[q]) && CreateFollows(config.authorizeCreate(s.requests[q]), t.phases[q])
  {
    hide Effect, FoundRecord, LookupStored;
  }

  lemma {:induction false} RunKeepsCreate(config: Config, s: State, actions: seq<Action>, q: nat)
    requires CreateInLine(config, s, q) && Run(config, s, actions).Some?
    ensures CreateInLine(config, Run(config, s, actions).value, q)
    decreases |actions|
  {
    hide Step, CreateInLine;
    if actions != [] {
      StepKeepsCreate(config, s, actions[0], q);
      RunKeepsCreate(config, Step(config, s, actions[0]).value, actions[1..], q);
    }
  }

  /** What the client of a create is told, by what the rules say of the record it asks for. */
  predicate CreateAnswers(request: Request, reply: Reply) {
    var image := Changed(request, Image(None, None));
    match MatchRules(request.rules, request.zoneId, image.name, image.rtype, None, Create)
    case Raised => reply == Broken
    case Refused => reply == Denied(Some(ApiError(403, 9109, "Authorization error: insufficient scope")), None)
    case Granted => reply == Broken || (reply.Sent? && reply.pre == None)
  }

  lemma FollowingCreateAnswers(lockName: LockName, request: Request, reply: Reply)
    requires CreateReplyFollows(ProxyConfig(lockName).authorizeCreate(request), reply)
    ensures CreateAnswers(request, reply)
  {
    hide MatchRules;
  }

  /** In every run of the proxy, a create that is over tells its client what the rules say of the
      record it asks for: a 403 when they refuse it, an error when matching raises, and otherwise
      what the upstream answers, if it does. */
  lemma CreatesAnswer(lockName: LockName, upstream: map<string, Stored>, actions: seq<Action>, q: nat, reply: Reply)
    requires Run(ProxyConfig(lockName), Init(upstream), actions).Some?
    requires var t := Run(ProxyConfig(lockName), Init(upstream), actions).value;
      q in t.requests && t.requests[q].m == Post && q in t.phases && t.phases[q] == Finished(reply)
    ensures CreateAnswers(Run(ProxyConfig(lockName), Init(upstream), actions).value.requests[q], reply)
  {
    hide MatchRules, Step;
    RunKeepsCreate(ProxyConfig(lockName), Init(upstream), actions, q);
  }
}
