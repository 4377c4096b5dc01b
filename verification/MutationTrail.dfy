/** What a request leaves behind: its entries in the audit trail, and nothing at the upstream or in
    the row locks when it has no credential to go on with. */
module MutationTrail {
  import opened Text
  import opened Authorizer
  import opened MutationProtocol
  import opened MutationLocks

  /** The entries of the audit trail that are about the request. */
  function AuditsOf(audits: seq<Audit>, q: nat): seq<Audit> {
    if audits == [] then []
    else
      var last := audits[|audits| - 1];
      AuditsOf(audits[..|audits| - 1], q) + if last.q == q then [last] else []
  }

  /** What a reply leaves in the audit trail: denials and answers one entry each, errors none. */
  function AuditedAs(q: nat, reply: Reply): seq<Audit> {
    match reply
    case Denied(_, pre) => [Audit(q, false, pre)]
    case Sent(pre, _) => [Audit(q, true, pre)]
    case Broken => []
    case Unavailable => []
  }

  ghost predicate AuditedRight(s: State, q: nat) {
    AuditsOf(s.audits, q)
      == if q in s.phases && s.phases[q].Finished? then AuditedAs(q, s.phases[q].reply) else []
  }

  lemma AuditNext(audits: seq<Audit>, entry: Audit, q: nat)
    ensures AuditsOf(audits + [entry], q) == AuditsOf(audits, q) + if entry.q == q then [entry] else []
  {
    assert (audits + [entry])[..|audits|] == audits;
  }

  lemma CloseAudits(config: Config, s: State, q: nat)
    requires Step(config, s, Do(q, Close)).Some?
    ensures q in s.phases && s.phases[q].Closing?
    ensures var t := Step(config, s, Do(q, Close)).value;
      && t.phases == s.phases[q := Finished(s.phases[q].reply)]
      && t.audits == s.audits + AuditedAs(q, s.phases[q].reply)
  {
  }

  lemma OtherAudits(config: Config, s: State, a: Action)
    requires Step(config, s, a).Some? && !(a.Do? && a.move.Close?)
    ensures var t := Step(config, s, a).value;
      && t.audits == s.audits
      && (forall q | q in s.phases && s.phases[q].Finished? && !a.Spawn? :: q in t.phases && t.phases[q] == s.phases[q])
      && (forall q | q in t.phases && t.phases[q].Finished? :: q in s.phases && t.phases[q] == s.phases[q])
  {
    hide Effect, FoundRecord, LookupStored, Mutating;
    if a.Do? {
      StepMoves(config, s, a.q, a.move);
    }
  }

  lemma StepAuditsRight(config: Config, s: State, a: Action, q: nat)
    requires s.phases.Keys <= s.requests.Keys && AuditedRight(s, q) && Step(config, s, a).Some?
    ensures AuditedRight(Step(config, s, a).value, q)
    ensures Step(config, s, a).value.phases.Keys <= Step(config, s, a).value.requests.Keys
  {
    hide AuditsOf;
    PhasesHaveRequests(config, s, a);
    if a.Do? && a.move.Close? {
      CloseAudits(config, s, a.q);
      match s.phases[a.q].reply
      case Denied(_, pre) => AuditNext(s.audits, Audit(a.q, false, pre), q);
      case Sent(pre, _) => AuditNext(s.audits, Audit(a.q, true, pre), q);
      case _ => assert s.audits + [] == s.audits;
    } else {
      OtherAudits(config, s, a);
      if a.Spawn? {
        SpawnIsNew(config, s, a, q);
      }
    }
  }

  lemma PhasesHaveRequests(config: Config, s: State, a: Action)
    requires s.phases.Keys <= s.requests.Keys && Step(config, s, a).Some?
    ensures Step(config, s, a).value.phases.Keys <= Step(config, s, a).value.requests.Keys
  {
    if a.Do? {
      StepMoves(config, s, a.q, a.move);
    }
  }

  lemma SpawnIsNew(config: Config, s: State, a: Action, q: nat)
    requires s.phases.Keys <= s.requests.Keys && Step(config, s, a).Some? && a.Spawn?
    ensures a.q !in s.phases
    ensures q in s.phases ==>
      q in Step(config, s, a).value.phases && Step(config, s, a).value.phases[q] == s.phases[q]
  {
  }

  /** In every run the audit trail has of every request exactly what is due: one entry with the
      fetched record for one that was denied, one for one that the upstream answered, and none for
      one that failed or is not over. */
  lemma {:induction false} RunAuditsRight(config: Config, s: State, actions: seq<Action>, q: nat)
    requires s.phases.Keys <= s.requests.Keys && AuditedRight(s, q) && Run(config, s, actions).Some?
    ensures AuditedRight(Run(config, s, actions).value, q)
    decreases |actions|
  {
    hide Step, AuditedRight;
    if actions != [] {
      StepAuditsRight(config, s, actions[0], q);
      RunAuditsRight(config, Step(config, s, actions[0]).value, actions[1..], q);
    }
  }

  /** Where a request is that could not get its upstream credential. */
  predicate GivenUp(s: State, q: nat) {
    q in s.requests && q in s.phases && (s.phases[q] == Closing(Broken) || s.phases[q] == Finished(Broken))
  }

  lemma {:induction false} GivenUpStays(config: Config, s: State, actions: seq<Action>, q: nat)
    requires GivenUp(s, q) && Run(config, s, actions).Some?
    ensures var t := Run(config, s, actions).value;
      GivenUp(t, q)
      && (q !in s.fetched ==> q !in t.fetched)
      && (forall k | 0 <= k < |t.events| && t.events[k].q == q :: k < |s.events| && t.events[k] == s.events[k])
    decreases |actions|
  {
    hide Step;
    if actions != [] {
      GivenUpStep(config, s, actions[0], q);
      GivenUpStays(config, Step(config, s, actions[0]).value, actions[1..], q);
    }
  }

  lemma GivenUpStep(config: Config, s: State, a: Action, q: nat)
    requires GivenUp(s, q) && Step(config, s, a).Some?
    ensures var t := Step(config, s, a).value;
      GivenUp(t, q)
      && (q !in s.fetched ==> q !in t.fetched)
      && (forall k | 0 <= k < |t.events| && t.events[k].q == q :: k < |s.events| && t.events[k] == s.events[k])
  {
    hide Effect, FoundRecord, LookupStored, Mutating;
    if a.Do? {
      StepMoves(config, s, a.q, a.move);
      StepMovesLogs(config, s, a.q, a.move);
    }
  }

  /** Without a credential nothing is done: once a request's wait for the credential has timed out,
      or the refresh has failed, it neither fetches nor is forwarded in any continuation, and it
      ends in an error. */
  lemma NoCredentialNoForward(config: Config, upstream: map<string, Stored>, before: seq<Action>, q: nat, move: Move,
                              after: seq<Action>)
    requires Run(config, Init(upstream), before).Some? && (move.RowTimeOut? || move.RowFailed?)
    requires var s := Run(config, Init(upstream), before).value;
      Step(config, s, Do(q, move)).Some? && Run(config, Step(config, s, Do(q, move)).value, after).Some?
    ensures var s := Run(config, Init(upstream), before).value;
      var t := Run(config, Step(config, s, Do(q, move)).value, after).value;
      GivenUp(t, q) && q !in t.fetched && forall k | 0 <= k < |t.events| :: t.events[k].q != q
  {
    hide Shape, FlagInv, LockInv, RowInv;
    var s := Run(config, Init(upstream), before).value;
    InitLocks(config, upstream);
    RunKeepsLocks(config, Init(upstream), before);
    GiveUpNow(config, s, q, move);
    GivenUpStays(config, Step(config, s, Do(q, move)).value, after, q);
  }

  lemma GiveUpNow(config: Config, s: State, q: nat, move: Move)
    requires ReachedInv(s) && Step(config, s, Do(q, move)).Some? && (move.RowTimeOut? || move.RowFailed?)
    ensures var t := Step(config, s, Do(q, move)).value;
      GivenUp(t, q) && q !in t.fetched && forall k | 0 <= k < |t.events| :: t.events[k].q != q
  {
  }

  /** A refresh of the credential is committed, which ends its row lock: the request has none from
      then on. */
  lemma RefreshReleasesRow(config: Config, s: State, q: nat, after: seq<Action>)
    requires Step(config, s, Do(q, RowRefreshed)).Some?
    requires Run(config, Step(config, s, Do(q, RowRefreshed)).value, after).Some?
    ensures var t := Run(config, Step(config, s, Do(q, RowRefreshed)).value, after).value;
      forall c | c in t.rowLocks :: t.rowLocks[c] != q
  {
    var t := Step(config, s, Do(q, RowRefreshed)).value;
    assert HasNoRow(t, q);
    NoRowAgain(config, t, after, q);
  }

  predicate HasNoRow(s: State, q: nat) {
    && q in s.requests && q in s.phases && !s.phases[q].Received? && !s.phases[q].Resolving?
    && forall c | c in s.rowLocks :: s.rowLocks[c] != q
  }

  lemma {:induction false} NoRowAgain(config: Config, s: State, actions: seq<Action>, q: nat)
    requires HasNoRow(s, q) && Run(config, s, actions).Some?
    ensures HasNoRow(Run(config, s, actions).value, q)
    decreases |actions|
  {
    hide Step;
    if actions != [] {
      NoRowStep(config, s, actions[0], q);
      NoRowAgain(config, Step(config, s, actions[0]).value, actions[1..], q);
    }
  }

  lemma NoRowStep(config: Config, s: State, a: Action, q: nat)
    requires HasNoRow(s, q) && Step(config, s, a).Some?
    ensures HasNoRow(Step(config, s, a).value, q)
  {
    hide Effect, FoundRecord, LookupStored, Mutating;
    if a.Do? {
      StepMoves(config, s, a.q, a.move);
      StepMovesRows(config, s, a.q, a.move);
    }
  }
}
