/** Progress in the mutation protocol: no reachable state is stuck, and every request is over
    after a bounded number of its own steps. */
module MutationProgress {
  import opened Text
  import opened Authorizer
  import opened MutationProtocol
  import opened MutationLocks

  /** The steps of a request that nothing goes wrong for, and that always asks for the row
      lock: no timeout, no failure, no cached credential. */
  predicate Orderly(move: Move) {
    match move
    case UseCachedAuth => false
    case RowTimeOut => false
    case RowRefreshed => false
    case RowFailed => false
    case TimeOut => false
    case Fetch(fails) => !fails
    case Forward(applied, answered, _) => applied && answered
    case _ => true
  }

  function Zeros(n: nat): string {
    seq(n, i => '0')
  }

  /** Some id has never been used: among `|ids| + 1` strings of distinct lengths one is new. */
  lemma {:induction false} FreshId(ids: set<string>, n: nat) returns (id: string)
    ensures id !in ids && |id| >= n
    decreases |ids|
  {
    id := Zeros(n);
    if id in ids {
      id := FreshId(ids - {id}, n + 1);
      assert |id| != n;
    }
  }

  /** The orderly step that a request is ready for, given that no lock is in its way. */
  function NextMove(phase: Phase, newId: string): Move {
    match phase
    case Received => Decide
    case Resolving(_) => LockRow
    case RowLocked(_) => RowStillFresh
    case Resolved(_) => Enter
    case Inside(_) => Fetch(false)
    case Forwarding(_, _) => Forward(true, true, newId)
    case Leaving(_, _) => Leave
    case Closing(_) => Close
    case Finished(_) => Close
  }

  ghost predicate Unblocked(config: Config, s: State, q: nat)
    requires q in s.requests && q in s.phases
  {
    && !s.phases[q].Finished?
    && (s.phases[q].Resolving? ==> s.requests[q].credentialId !in s.rowLocks)
    && (s.phases[q].Resolved? && !s.phases[q].exempt ==> LockOf(config, s.requests[q]) !in s.recordLocks)
  }

  lemma UnblockedMoves(config: Config, s: State, q: nat, newId: string)
    requires q in s.requests && q in s.phases && Unblocked(config, s, q) && newId !in s.usedIds
    ensures Step(config, s, Do(q, NextMove(s.phases[q], newId))).Some?
    ensures Orderly(NextMove(s.phases[q], newId))
  {
  }

  /** Among the unfinished requests one is unblocked: the holder of a record lock never waits,
      and the holder of a row lock waits at most for a record lock. */
  lemma SomeUnblocked(config: Config, s: State, waiting: nat) returns (q: nat)
    requires LocksInv(config, s)
    requires waiting in s.phases && !s.phases[waiting].Finished?
    ensures q in s.requests && q in s.phases && Unblocked(config, s, q)
  {
    q := waiting;
    if s.phases[q].Resolving? && s.requests[q].credentialId in s.rowLocks {
      q := s.rowLocks[s.requests[q].credentialId];
    }
    if s.phases[q].Resolved? && !s.phases[q].exempt && LockOf(config, s.requests[q]) in s.recordLocks {
      var name := LockOf(config, s.requests[q]);
      assert HolderOk(config, s, name);
      q := s.recordLocks[name];
    }
  }

  /** Deadlock freedom: in every reachable state with an unfinished request some request has an
      orderly step, even if every request has to take the row lock and none may time out. */
  lemma DeadlockFree(config: Config, upstream: map<string, Stored>, actions: seq<Action>, waiting: nat)
    returns (a: Action)
    requires Run(config, Init(upstream), actions).Some?
    requires var s := Run(config, Init(upstream), actions).value;
      waiting in s.phases && !s.phases[waiting].Finished?
    ensures a.Do? && Orderly(a.move)
    ensures Step(config, Run(config, Init(upstream), actions).value, a).Some?
  {
    InitLocks(config, upstream);
    RunKeepsLocks(config, Init(upstream), actions);
    var s := Run(config, Init(upstream), actions).value;
    var q := SomeUnblocked(config, s, waiting);
    var newId := FreshId(s.usedIds, 0);
    UnblockedMoves(config, s, q, newId);
    a := Do(q, NextMove(s.phases[q], newId));
  }

  function Rank(phase: Phase): nat {
    match phase
    case Received => 8
    case Resolving(_) => 7
    case RowLocked(_) => 6
    case Resolved(_) => 5
    case Inside(_) => 4
    case Forwarding(_, _) => 3
    case Leaving(_, _) => 2
    case Closing(_) => 1
    case Finished(_) => 0
  }

  function RankOf(s: State, q: nat): nat {
    if q in s.phases then Rank(s.phases[q]) else 8
  }

  function MovesOf(actions: seq<Action>, q: nat): nat {
    if actions == [] then 0
    else (if actions[0].Do? && actions[0].q == q then 1 else 0) + MovesOf(actions[1..], q)
  }

  lemma StepRank(config: Config, s: State, a: Action, q: nat)
    requires s.phases.Keys == s.requests.Keys && Step(config, s, a).Some?
    ensures var t := Step(config, s, a).value;
      && t.phases.Keys == t.requests.Keys
      && RankOf(t, q) + (if a.Do? && a.q == q then 1 else 0) <= RankOf(s, q)
  {
    if a.Do? {
      StepMoves(config, s, a.q, a.move);
    }
  }

  /** Every request is over after at most eight steps of its own, whatever the others do. */
  lemma {:induction false} StepsBounded(config: Config, s: State, actions: seq<Action>, q: nat)
    requires s.phases.Keys == s.requests.Keys && Run(config, s, actions).Some?
    ensures MovesOf(actions, q) + RankOf(Run(config, s, actions).value, q) <= RankOf(s, q) <= 8
    decreases |actions|
  {
    if actions != [] {
      StepRank(config, s, actions[0], q);
      StepsBounded(config, Step(config, s, actions[0]).value, actions[1..], q);
    }
  }

  ghost function Total(phases: map<nat, Phase>): nat
    decreases |phases|
  {
    if phases == map[] then 0
    else
      var q :| q in phases;
      Rank(phases[q]) + Total(phases - {q})
  }

  lemma {:induction false} TotalSplit(phases: map<nat, Phase>, q: nat)
    requires q in phases
    ensures Total(phases) == Rank(phases[q]) + Total(phases - {q})
    decreases |phases|
  {
    var p :| p in phases && Total(phases) == Rank(phases[p]) + Total(phases - {p});
    if p != q {
      TotalSplit(phases - {p}, q);
      TotalSplit(phases - {q}, p);
      assert phases - {p} - {q} == phases - {q} - {p};
    }
  }

  lemma TotalFalls(phases: map<nat, Phase>, q: nat, to: Phase)
    requires q in phases && Rank(to) < Rank(phases[q])
    ensures Total(phases[q := to]) < Total(phases)
  {
    TotalSplit(phases, q);
    TotalSplit(phases[q := to], q);
    assert phases[q := to] - {q} == phases - {q};
  }

  ghost predicate AllFinished(s: State) {
    forall q | q in s.phases :: s.phases[q].Finished?
  }

  ghost predicate AllOrderly(actions: seq<Action>) {
    forall i | 0 <= i < |actions| :: actions[i].Do? && Orderly(actions[i].move)
  }

  /** From every state that satisfies the locking invariant, orderly steps alone can bring every
      request to its end: no request is ever doomed to a timeout. */
  lemma {:induction false} CanDrain(config: Config, s: State) returns (actions: seq<Action>)
    requires LocksInv(config, s)
    ensures AllOrderly(actions)
    ensures Run(config, s, actions).Some? && AllFinished(Run(config, s, actions).value)
    decreases Total(s.phases)
  {
    hide Step, LocksInv, Total, Orderly;
    actions := [];
    if waiting :| waiting in s.phases && !s.phases[waiting].Finished? {
      var q := SomeUnblocked(config, s, waiting);
      var newId := FreshId(s.usedIds, 0);
      UnblockedMoves(config, s, q, newId);
      var a := Do(q, NextMove(s.phases[q], newId));
      var t := Step(config, s, a).value;
      StepKeepsLocks(config, s, a);
      StepMoves(config, s, q, a.move);
      TotalFalls(s.phases, q, t.phases[q]);
      var rest := CanDrain(config, t);
      actions := [a] + rest;
      assert actions[1..] == rest;
    }
  }
}
