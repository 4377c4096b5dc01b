/** The theorems over whole runs of the mutation protocol. */
module MutationRuns {
  import opened Text
  import opened Fqdn
  import opened Scope
  import opened RuleTheorems
  import opened Authorizer
  import opened MutationProtocol
  import opened MutationLocks
  import opened MutationSafety
  import opened MutationTheorems

  ghost predicate MoreRequests(fewer: map<nat, Request>, more: map<nat, Request>) {
    forall q | q in fewer :: q in more && more[q] == fewer[q]
  }

  lemma StepGrows(config: Config, s: State, a: Action)
    requires Step(config, s, a).Some?
    ensures MoreRequests(s.requests, Step(config, s, a).value.requests)
  {
    if a.Do? {
      StepMoves(config, s, a.q, a.move);
    }
  }

  lemma TouchMonotone(cover: Cover, fewer: map<nat, Request>, more: map<nat, Request>, id: string, stored: Stored)
    requires MoreRequests(fewer, more) && TouchCovered(cover, fewer, id, stored)
    ensures TouchCovered(cover, more, id, stored)
  {
    var q :| q in fewer && fewer[q].m != Post && fewer[q].zoneId == stored.zone && fewer[q].recordId == id
      && cover(fewer[q], stored.record.image);
    assert more[q] == fewer[q];
  }

  lemma LandingMonotone(cover: Cover, fewer: map<nat, Request>, more: map<nat, Request>, id: string, stored: Stored)
    requires MoreRequests(fewer, more) && LandingCovered(cover, fewer, id, stored)
    ensures LandingCovered(cover, more, id, stored)
  {
    var q :| q in fewer && fewer[q].zoneId == stored.zone
      && (fewer[q].m == Post || (Op(fewer[q]) == Write && fewer[q].recordId == id))
      && cover(fewer[q], stored.record.image);
    assert more[q] == fewer[q];
  }

  ghost predicate Unchanged(s: State, t: State, id: string) {
    id in s.upstream && id in t.upstream && t.upstream[id] == s.upstream[id]
  }

  /** The frame of a run, from any state that satisfies the invariant. */
  lemma {:induction false} FrameRun(config: Config, cover: Cover, s: State, actions: seq<Action>)
    requires Sound(config, cover) && Inv(config, cover, s) && Run(config, s, actions).Some?
    ensures var t := Run(config, s, actions).value;
      && Inv(config, cover, t)
      && MoreRequests(s.requests, t.requests)
      && (forall id | id in s.upstream && !TouchCovered(cover, t.requests, id, s.upstream[id]) :: Unchanged(s, t, id))
      && (forall id | id in t.upstream && !LandingCovered(cover, t.requests, id, t.upstream[id]) :: Unchanged(s, t, id))
    decreases |actions|
  {
    if actions != [] {
      var mid := Step(config, s, actions[0]).value;
      StepKeepsInv(config, cover, s, actions[0]);
      StepGrows(config, s, actions[0]);
      FrameStep(config, cover, s, actions[0]);
      FrameRun(config, cover, mid, actions[1..]);
      var t := Run(config, s, actions).value;
      forall id | id in s.upstream && !TouchCovered(cover, t.requests, id, s.upstream[id])
        ensures Unchanged(s, t, id)
      {
        if TouchCovered(cover, s.requests, id, s.upstream[id]) {
          TouchMonotone(cover, s.requests, t.requests, id, s.upstream[id]);
        }
        assert Unchanged(mid, t, id);
      }
      forall id | id in t.upstream && !LandingCovered(cover, t.requests, id, t.upstream[id])
        ensures Unchanged(s, t, id)
      {
        assert Unchanged(mid, t, id);
        if LandingCovered(cover, s.requests, id, t.upstream[id]) {
          LandingMonotone(cover, s.requests, t.requests, id, t.upstream[id]);
        }
      }
    }
  }

  /** Some token of the run may create such a record, or write this one to its image. */
  ghost predicate InLandingScope(requests: map<nat, Request>, id: string, stored: Stored) {
    exists q | q in requests ::
      Covers(requests[q].rules, stored.zone, stored.record.image, Some(id), Write)
      || Covers(requests[q].rules, stored.zone, stored.record.image, None, Create)
  }

  /** In every interleaving of requests by any tokens, every record that is not as it was at the
      start lies in some token's create or write scope. */
  lemma LandsInScope(lockName: LockName, upstream: map<string, Stored>, actions: seq<Action>)
    requires Run(ProxyConfig(lockName), Init(upstream), actions).Some?
    ensures var t := Run(ProxyConfig(lockName), Init(upstream), actions).value;
      forall id | id in t.upstream && !InLandingScope(t.requests, id, t.upstream[id]) ::
        id in upstream && t.upstream[id] == upstream[id]
  {
    var config, cover := ProxyConfig(lockName), ProxyCover();
    ProxySound(lockName);
    InitInv(config, cover, upstream);
    FrameRun(config, cover, Init(upstream), actions);
    var t := Run(config, Init(upstream), actions).value;
    forall id | id in t.upstream && !InLandingScope(t.requests, id, t.upstream[id])
      ensures Unchanged(Init(upstream), t, id)
    {
      if LandingCovered(cover, t.requests, id, t.upstream[id]) {
        LandingIsScope(t, id, t.upstream[id]);
      }
    }
  }

  lemma LandingIsScope(t: State, id: string, stored: Stored)
    requires Shape(t) && LandingCovered(ProxyCover(), t.requests, id, stored)
    ensures InLandingScope(t.requests, id, stored)
  {
    var q :| q in t.requests && t.requests[q].zoneId == stored.zone
      && (t.requests[q].m == Post || (Op(t.requests[q]) == Write && t.requests[q].recordId == id))
      && ProxyCover()(t.requests[q], stored.record.image);
    assert RequestCovers(t.requests[q], stored.record.image);
  }

  /** What is written down of a request agrees with what it forwarded. */
  ghost predicate TrailInv(s: State) {
    && (forall q | q in s.phases && SentReply(s.phases[q]).Some? ::
          LoggedFor(s, q, SentReply(s.phases[q]).value.pre, SentReply(s.phases[q]).value.event))
    && (forall i | 0 <= i < |s.audits| && s.audits[i].allowed ::
          exists k: nat :: LoggedFor(s, s.audits[i].q, s.audits[i].pre, k))
  }

  function SentReply(phase: Phase): Option<Reply> {
    if (phase.Leaving? || phase.Closing? || phase.Finished?) && phase.reply.Sent? then Some(phase.reply) else None
  }

  ghost predicate LoggedFor(s: State, q: nat, pre: Option<Record>, k: nat) {
    k < |s.events| && s.events[k].q == q && s.events[k].pre == pre
  }

  lemma LogOnlyGrows(config: Config, s: State, a: Action)
    requires Step(config, s, a).Some?
    ensures s.events <= Step(config, s, a).value.events
  {
    if a.Do? {
      if a.move.Forward? {
        StepLogsEvent(config, s, a.q, a.move);
      } else {
        StepQuiet(config, s, a.q, a.move);
      }
    }
  }

  lemma StepAudits(config: Config, s: State, q: nat, move: Move)
    requires Step(config, s, Do(q, move)).Some?
    ensures q in s.phases
    ensures var t := Step(config, s, Do(q, move)).value;
      t.audits == s.audits
      || exists audit :: t.audits == s.audits + [audit]
           && (audit.allowed ==> SentReply(s.phases[q]).Some? && audit.q == q
                                 && audit.pre == SentReply(s.phases[q]).value.pre)
  {
    if move.Close? {
      var t := Step(config, s, Do(q, move)).value;
      match s.phases[q].reply
      case Denied(_, pre) => assert t.audits == s.audits + [Audit(q, false, pre)];
      case Sent(pre, _) => assert t.audits == s.audits + [Audit(q, true, pre)];
      case _ =>
    }
  }

  lemma StepReply(config: Config, s: State, q: nat, move: Move)
    requires Step(config, s, Do(q, move)).Some?
    ensures var t := Step(config, s, Do(q, move)).value;
      && q in s.phases && q in t.phases
      && (SentReply(t.phases[q]).Some? ==>
            SentReply(t.phases[q]) == SentReply(s.phases[q])
            || LoggedFor(t, q, SentReply(t.phases[q]).value.pre, SentReply(t.phases[q]).value.event))
  {
  }

  lemma StepKeepsTrail(config: Config, s: State, a: Action)
    requires TrailInv(s) && Step(config, s, a).Some?
    ensures TrailInv(Step(config, s, a).value)
  {
    var t := Step(config, s, a).value;
    LogOnlyGrows(config, s, a);
    if a.Do? {
      StepMoves(config, s, a.q, a.move);
      StepReply(config, s, a.q, a.move);
      StepAudits(config, s, a.q, a.move);
    }
    forall i | 0 <= i < |t.audits| && t.audits[i].allowed
      ensures exists k: nat :: LoggedFor(t, t.audits[i].q, t.audits[i].pre, k)
    {
      if i < |s.audits| {
        assert t.audits[i] == s.audits[i];
        var k: nat :| LoggedFor(s, s.audits[i].q, s.audits[i].pre, k);
        assert LoggedFor(t, t.audits[i].q, t.audits[i].pre, k);
      } else {
        var sent := SentReply(s.phases[a.q]).value;
        assert LoggedFor(s, a.q, sent.pre, sent.event);
        assert LoggedFor(t, t.audits[i].q, t.audits[i].pre, sent.event);
      }
    }
  }

  /** No request is forwarded twice. */
  ghost predicate ForwardedOnce(s: State) {
    forall i, j | 0 <= i < j < |s.events| :: s.events[i].q != s.events[j].q
  }

  lemma {:induction false} RunForwardsOnce(config: Config, s: State, actions: seq<Action>)
    requires LocksInv(config, s) && ForwardedOnce(s) && Run(config, s, actions).Some?
    ensures ForwardedOnce(Run(config, s, actions).value)
    decreases |actions|
  {
    hide Step, LocksInv;
    if actions != [] {
      StepForwardsOnce(config, s, actions[0]);
      StepKeepsLocks(config, s, actions[0]);
      RunForwardsOnce(config, Step(config, s, actions[0]).value, actions[1..]);
    }
  }

  lemma StepForwardsOnce(config: Config, s: State, a: Action)
    requires LocksInv(config, s) && ForwardedOnce(s) && Step(config, s, a).Some?
    ensures ForwardedOnce(Step(config, s, a).value)
  {
    hide Shape, FlagInv, LockInv, RowInv;
    if a.Do? {
      var t := Step(config, s, a).value;
      StepMovesLogs(config, s, a.q, a.move);
      forall i, j | 0 <= i < j < |t.events| ensures t.events[i].q != t.events[j].q {
        assert t.events[i] == s.events[i];
        if j < |s.events| {
          assert t.events[j] == s.events[j];
        }
      }
    }
  }

  lemma {:induction false} TrailRun(config: Config, s: State, actions: seq<Action>)
    requires TrailInv(s) && Run(config, s, actions).Some?
    ensures TrailInv(Run(config, s, actions).value)
    decreases |actions|
  {
    if actions != [] {
      StepKeepsTrail(config, s, actions[0]);
      TrailRun(config, Step(config, s, actions[0]).value, actions[1..]);
    }
  }

  /** No request of the run is lock-exempt for what it does to the record. */
  ghost predicate NoneExempt(requests: map<nat, Request>, zoneId: string, recordId: string) {
    forall q | q in requests && requests[q].m != Post
               && requests[q].zoneId == zoneId && requests[q].recordId == recordId ::
      !IsLockExempt(requests[q].rules, zoneId, recordId, Op(requests[q]))
  }

  /** Every forward of the run on the record acted on the image that its request fetched. */
  ghost predicate ActsOnFetched(s: State, zoneId: string, recordId: string) {
    forall k | 0 <= k < |s.events| && s.events[k].q in s.requests ::
      var request := s.requests[s.events[k].q];
      request.m != Post && request.zoneId == zoneId && request.recordId == recordId ==>
        s.events[k].pre.Some? && s.events[k].found == s.events[k].pre
  }

  /** Every forward of the run on the record was allowed on the image that its request fetched. */
  ghost predicate AllowedOnFetched(config: Config, s: State, zoneId: string, recordId: string) {
    forall k | 0 <= k < |s.events| && s.events[k].q in s.requests ::
      var request := s.requests[s.events[k].q];
      request.m != Post && request.zoneId == zoneId && request.recordId == recordId ==>
        s.events[k].pre.Some? && Allowed(config.authorizeById(request, Found(s.events[k].pre.value)))
  }

  /** Fetch-to-forward atomicity: in every run, for a record on which no request is lock-exempt,
      each forwarded mutation acts on exactly the image that its request fetched, authorized
      and later audits. */
  lemma AtomicOverRuns(lockName: LockName, upstream: map<string, Stored>, actions: seq<Action>,
                       zoneId: string, recordId: string)
    requires Run(ProxyConfig(lockName), Init(upstream), actions).Some?
    requires NoneExempt(Run(ProxyConfig(lockName), Init(upstream), actions).value.requests, zoneId, recordId)
    ensures var t := Run(ProxyConfig(lockName), Init(upstream), actions).value;
      && ActsOnFetched(t, zoneId, recordId)
      && AllowedOnFetched(ProxyConfig(lockName), t, zoneId, recordId)
      && (forall i | 0 <= i < |t.audits| && t.audits[i].allowed ::
            exists k: nat :: LoggedFor(t, t.audits[i].q, t.audits[i].pre, k))
  {
    var config, cover := ProxyConfig(lockName), ProxyCover();
    ProxySound(lockName);
    InitInv(config, cover, upstream);
    FrameRun(config, cover, Init(upstream), actions);
    TrailRun(config, Init(upstream), actions);
    var t := Run(config, Init(upstream), actions).value;
    NoneExposed(lockName, t.requests, zoneId, recordId);
    forall k | 0 <= k < |t.events| && t.events[k].q in t.requests
      ensures var request := t.requests[t.events[k].q];
        request.m != Post && request.zoneId == zoneId && request.recordId == recordId ==>
          && t.events[k].pre.Some? && t.events[k].found == t.events[k].pre
          && Allowed(config.authorizeById(request, Found(t.events[k].pre.value)))
    {
      assert EventOk(config, cover, t.requests, t.events[k]);
    }
  }

  lemma NoneExposed(lockName: LockName, requests: map<nat, Request>, zoneId: string, recordId: string)
    requires NoneExempt(requests, zoneId, recordId)
    ensures !Exposed(ProxyConfig(lockName), requests, zoneId, recordId)
  {
  }
}
