/** Locking in the mutation protocol: mutual exclusion, failing closed, releasing on every exit
    path, and freedom from deadlock. */
module MutationLocks {
  import opened Text
  import opened Authorizer
  import opened MutationProtocol

  /** Between entering and leaving: fetching, authorizing, forwarding. */
  predicate Critical(phase: Phase) {
    phase.Inside? || phase.Forwarding? || phase.Leaving?
  }

  predicate MayHoldRow(phase: Phase) {
    phase.RowLocked? || phase.Resolved? || Critical(phase) || phase.Closing?
  }

  function LockOf(config: Config, request: Request): string {
    config.lockName(request.zoneId, request.recordId)
  }

  ghost predicate Shape(s: State) {
    && s.phases.Keys == s.requests.Keys
    && (forall q | q in s.requests :: Mutating(s.requests[q].m))
    && s.upstream.Keys <= s.usedIds
  }

  /** The `exempt` flag that a request carries is the one its rules and its path give. */
  ghost predicate FlagInv(config: Config, s: State) {
    forall q | q in s.requests && q in s.phases :: FlagOk(config, s.requests[q], s.phases[q])
  }

  predicate FlagOk(config: Config, request: Request, phase: Phase) {
    && (phase.Inside? ==> request.m != Post)
    && (phase.Resolving? || phase.RowLocked? || phase.Resolved? || Critical(phase) ==>
      (phase.exempt <==> request.m == Post || config.exempt(request)))
  }

  ghost predicate HolderOk(config: Config, s: State, name: string)
    requires name in s.recordLocks
  {
    var q := s.recordLocks[name];
    && q in s.requests && q in s.phases
    && Critical(s.phases[q]) && !s.phases[q].exempt && LockOf(config, s.requests[q]) == name
  }

  ghost predicate LockInv(config: Config, s: State) {
    && (forall name | name in s.recordLocks :: HolderOk(config, s, name))
    && (forall q | q in s.requests && q in s.phases && Critical(s.phases[q]) && !s.phases[q].exempt ::
          LockOf(config, s.requests[q]) in s.recordLocks && s.recordLocks[LockOf(config, s.requests[q])] == q)
  }

  ghost predicate RowInv(s: State) {
    && (forall credential | credential in s.rowLocks ::
          var q := s.rowLocks[credential];
          q in s.requests && q in s.phases && MayHoldRow(s.phases[q]) && s.requests[q].credentialId == credential)
    && (forall q | q in s.requests && q in s.phases && s.phases[q].RowLocked? ::
          s.requests[q].credentialId in s.rowLocks && s.rowLocks[s.requests[q].credentialId] == q)
  }

  /** Only requests that never timed out on the lock have fetched or forwarded. */
  ghost predicate ReachedInv(s: State) {
    && (forall q | q in s.fetched :: q in s.phases && PastLock(s.phases[q]))
    && (forall k | 0 <= k < |s.events| :: s.events[k].q in s.phases && PastForward(s.phases[s.events[k].q]))
  }

  predicate PastLock(phase: Phase) {
    match phase
    case Forwarding(_, _) => true
    case Leaving(_, reply) => !reply.Unavailable?
    case Closing(reply) => !reply.Unavailable?
    case Finished(reply) => !reply.Unavailable?
    case _ => false
  }

  predicate PastForward(phase: Phase) {
    match phase
    case Leaving(_, reply) => reply.Sent? || reply.Broken?
    case Closing(reply) => reply.Sent? || reply.Broken?
    case Finished(reply) => reply.Sent? || reply.Broken?
    case _ => false
  }

  ghost predicate LocksInv(config: Config, s: State) {
    Shape(s) && FlagInv(config, s) && LockInv(config, s) && RowInv(s) && ReachedInv(s)
  }

  /** The moves from phase to phase. */
  predicate NextPhase(config: Config, request: Request, from: Phase, to: Phase) {
    match from
    case Received =>
      to == Closing(Broken) || (to.Closing? && to.reply.Denied?)
      || (to.Resolving? && FlagOk(config, request, to)
          && (request.m == Post ==> Allowed(config.authorizeCreate(request))))
    case Resolving(x) => to == Resolved(x) || to == RowLocked(x) || to == Closing(Broken)
    case RowLocked(x) => to == Resolved(x) || to == Closing(Broken)
    case Resolved(x) =>
      (to == Inside(x) && request.m != Post) || (to == Forwarding(x, None) && request.m == Post)
      || (to == Closing(Unavailable) && !x)
    case Inside(x) =>
      to == Leaving(x, Broken) || (to.Leaving? && to.exempt == x && to.reply.Denied?)
      || (to.Forwarding? && to.exempt == x)
    case Forwarding(x, pre) =>
      to == Leaving(x, Broken) || (to.Leaving? && to.exempt == x && to.reply.Sent? && to.reply.pre == pre)
    case Leaving(_, reply) => to == Closing(reply)
    case Closing(reply) => to == Finished(reply)
    case Finished(_) => false
  }

  ghost predicate Moved(config: Config, s: State, q: nat, t: State) {
    && q in s.requests && q in s.phases
    && t.requests == s.requests
    && q in t.phases && t.phases == s.phases[q := t.phases[q]]
    && NextPhase(config, s.requests[q], s.phases[q], t.phases[q])
  }

  ghost predicate RowsMoved(s: State, q: nat, t: State)
    requires q in s.requests && q in s.phases && q in t.phases
  {
    var credential := s.requests[q].credentialId;
    if t.phases[q].RowLocked? then credential !in s.rowLocks && t.rowLocks == s.rowLocks[credential := q]
    else if t.phases[q].Finished? then t.rowLocks == Release(s.rowLocks, q)
    else if s.phases[q].RowLocked? && t.phases[q].Resolved? then
      t.rowLocks == s.rowLocks || t.rowLocks == Release(s.rowLocks, q)
    else t.rowLocks == s.rowLocks
  }

  ghost predicate RecordsMoved(config: Config, s: State, q: nat, t: State)
    requires q in s.requests && q in s.phases && q in t.phases
  {
    var name := LockOf(config, s.requests[q]);
    if t.phases[q].Inside? && !t.phases[q].exempt then
      name !in s.recordLocks && t.recordLocks == s.recordLocks[name := q]
    else if s.phases[q].Leaving? then t.recordLocks == Release(s.recordLocks, q)
    else t.recordLocks == s.recordLocks
  }

  lemma StepMoves(config: Config, s: State, q: nat, move: Move)
    requires Step(config, s, Do(q, move)).Some?
    ensures Moved(config, s, q, Step(config, s, Do(q, move)).value)
  {
    hide Effect, FoundRecord, Mutating;
  }

  lemma StepMovesRows(config: Config, s: State, q: nat, move: Move)
    requires Step(config, s, Do(q, move)).Some?
    ensures q in s.requests && q in s.phases && q in Step(config, s, Do(q, move)).value.phases
    ensures RowsMoved(s, q, Step(config, s, Do(q, move)).value)
  {
    hide Effect, FoundRecord, Mutating;
  }

  lemma StepMovesRecords(config: Config, s: State, q: nat, move: Move)
    requires Step(config, s, Do(q, move)).Some?
    ensures q in s.requests && q in s.phases && q in Step(config, s, Do(q, move)).value.phases
    ensures RecordsMoved(config, s, q, Step(config, s, Do(q, move)).value)
  {
    hide Effect, FoundRecord, Mutating;
  }

  lemma MovedFlag(config: Config, s: State, q: nat, t: State)
    requires FlagInv(config, s) && Moved(config, s, q, t)
    ensures FlagInv(config, t)
  {
  }

  lemma MovedLock(config: Config, s: State, q: nat, t: State)
    requires FlagInv(config, s) && LockInv(config, s)
    requires Moved(config, s, q, t) && RecordsMoved(config, s, q, t)
    ensures LockInv(config, t)
  {
  }

  lemma MovedRow(config: Config, s: State, q: nat, t: State)
    requires RowInv(s) && Moved(config, s, q, t) && RowsMoved(s, q, t)
    ensures RowInv(t)
  {
  }

  ghost predicate LogsMoved(s: State, q: nat, t: State)
    requires q in s.phases
  {
    && (t.fetched == s.fetched || (s.phases[q].Inside? && t.fetched == s.fetched + {q}))
    && (t.events == s.events
        || (&& s.phases[q].Forwarding? && |t.events| == |s.events| + 1
            && t.events[..|s.events|] == s.events && t.events[|s.events|].q == q))
    && (t.upstream == s.upstream || s.phases[q].Forwarding?)
    && (t.usedIds == s.usedIds || s.phases[q].Forwarding?)
  }

  lemma StepMovesLogs(config: Config, s: State, q: nat, move: Move)
    requires Step(config, s, Do(q, move)).Some?
    ensures q in s.phases && LogsMoved(s, q, Step(config, s, Do(q, move)).value)
  {
    hide Effect, FoundRecord, Mutating;
  }

  lemma MovedReached(config: Config, s: State, q: nat, t: State)
    requires ReachedInv(s) && Moved(config, s, q, t) && LogsMoved(s, q, t)
    ensures ReachedInv(t)
  {
    forall k | 0 <= k < |t.events|
      ensures t.events[k].q in t.phases && PastForward(t.phases[t.events[k].q])
    {
      if k < |s.events| {
        assert t.events[k] == s.events[k];
      }
    }
  }

  lemma EffectIds(upstream: map<string, Stored>, request: Request, newId: string)
    ensures Effect(upstream, request, newId).Keys <= upstream.Keys + (if request.m == Post then {newId} else {})
  {
  }

  lemma StepShape(config: Config, s: State, q: nat, move: Move)
    requires Shape(s) && Step(config, s, Do(q, move)).Some?
    ensures Shape(Step(config, s, Do(q, move)).value)
  {
    var t := Step(config, s, Do(q, move)).value;
    StepMoves(config, s, q, move);
    StepMovesLogs(config, s, q, move);
    if s.phases[q].Forwarding? {
      ForwardedIds(config, s, q, move);
    }
  }

  lemma ForwardedIds(config: Config, s: State, q: nat, move: Move)
    requires Shape(s) && Step(config, s, Do(q, move)).Some? && s.phases[q].Forwarding?
    ensures var t := Step(config, s, Do(q, move)).value; t.upstream.Keys <= t.usedIds
  {
    EffectIds(s.upstream, s.requests[q], move.newId);
  }

  lemma SpawnKeeps(config: Config, s: State, q: nat, request: Request)
    requires LocksInv(config, s) && Step(config, s, Spawn(q, request)).Some?
    ensures LocksInv(config, Step(config, s, Spawn(q, request)).value)
  {
    var t := Step(config, s, Spawn(q, request)).value;
    SpawnKeepsLock(config, s, t, q, request);
    SpawnKeepsRows(s, t, q, request);
    assert ReachedInv(t) by {
      hide Critical, MayHoldRow, LockOf, FlagOk;
    }
  }

  ghost predicate Spawned(s: State, t: State, q: nat, request: Request) {
    q !in s.requests && q !in s.phases
    && t == s.(requests := s.requests[q := request], phases := s.phases[q := Received])
  }

  lemma SpawnKeepsLock(config: Config, s: State, t: State, q: nat, request: Request)
    requires LockInv(config, s) && Spawned(s, t, q, request)
    ensures LockInv(config, t)
  {
    forall name | name in t.recordLocks ensures HolderOk(config, t, name) {
      assert HolderOk(config, s, name);
    }
  }

  lemma SpawnKeepsRows(s: State, t: State, q: nat, request: Request)
    requires RowInv(s) && Spawned(s, t, q, request)
    ensures RowInv(t)
  {
  }

  lemma StepKeepsLocks(config: Config, s: State, a: Action)
    requires LocksInv(config, s) && Step(config, s, a).Some?
    ensures LocksInv(config, Step(config, s, a).value)
  {
    match a
    case Spawn(q, request) => SpawnKeeps(config, s, q, request);
    case Do(q, move) =>
      var t := Step(config, s, a).value;
      StepMoves(config, s, q, move);
      StepMovesRows(config, s, q, move);
      StepMovesRecords(config, s, q, move);
      StepMovesLogs(config, s, q, move);
      StepShape(config, s, q, move);
      MovedFlag(config, s, q, t);
      MovedLock(config, s, q, t);
      MovedRow(config, s, q, t);
      MovedReached(config, s, q, t);
  }

  lemma {:induction false} RunKeepsLocks(config: Config, s: State, actions: seq<Action>)
    requires LocksInv(config, s) && Run(config, s, actions).Some?
    ensures LocksInv(config, Run(config, s, actions).value)
    decreases |actions|
  {
    hide Step;
    if actions != [] {
      StepKeepsLocks(config, s, actions[0]);
      RunKeepsLocks(config, Step(config, s, actions[0]).value, actions[1..]);
    }
  }

  lemma InitLocks(config: Config, upstream: map<string, Stored>)
    ensures LocksInv(config, Init(upstream))
  {
  }

  /** Mutual exclusion: in every run, at most one request that is not exempt is between fetch
      and forward for any one record. */
  lemma MutualExclusion(config: Config, upstream: map<string, Stored>, actions: seq<Action>, q: nat, q2: nat)
    requires Run(config, Init(upstream), actions).Some?
    requires var s := Run(config, Init(upstream), actions).value;
      && q in s.requests && q in s.phases && Critical(s.phases[q]) && !s.phases[q].exempt
      && q2 in s.requests && q2 in s.phases && Critical(s.phases[q2]) && !s.phases[q2].exempt
      && s.requests[q].zoneId == s.requests[q2].zoneId && s.requests[q].recordId == s.requests[q2].recordId
    ensures q == q2
  {
    InitLocks(config, upstream);
    RunKeepsLocks(config, Init(upstream), actions);
  }

  /** Failing closed and cleaning up: in every run, a request that could not get the record
      lock has neither fetched nor forwarded, and a finished request, whichever way it ended,
      holds neither a record lock nor a row lock. */
  lemma FailClosed(config: Config, upstream: map<string, Stored>, actions: seq<Action>, q: nat)
    requires Run(config, Init(upstream), actions).Some?
    requires var s := Run(config, Init(upstream), actions).value; q in s.phases && s.phases[q].Finished?
    ensures var s := Run(config, Init(upstream), actions).value;
      && (s.phases[q].reply.Unavailable? ==>
            q !in s.fetched && forall k | 0 <= k < |s.events| :: s.events[k].q != q)
      && (forall name | name in s.recordLocks :: s.recordLocks[name] != q)
      && (forall credential | credential in s.rowLocks :: s.rowLocks[credential] != q)
  {
    InitLocks(config, upstream);
    RunKeepsLocks(config, Init(upstream), actions);
    var s := Run(config, Init(upstream), actions).value;
    forall name | name in s.recordLocks ensures s.recordLocks[name] != q {
      assert HolderOk(config, s, name);
    }
  }
}
