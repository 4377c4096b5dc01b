/** The mutation endpoints as sequential code with an await at every call that leaves the
    process. At each await other requests move; the endpoint's code together with them is a
    run of the protocol, whose own steps are the ones that the outside world's doings leave
    the request no choice about. */
module MutationRouter {
  import Traces
  import opened Text
  import opened Authorizer
  import opened MutationProtocol
  import opened MutationLocks
  import opened MutationReplies

  /** What the outside world does to one request. */
  datatype Fate = Fate(
    needsRow: bool,
    rowRefreshes: bool,
    rowFails: bool,
    fetchFails: bool,
    applied: bool,
    answered: bool)

  /** The request's own move is the one its fate and the locks call for: it gives up on a lock
      only when another request holds it. */
  predicate Justified(config: Config, s: State, q: nat, move: Move, fate: Fate)
    requires q in s.requests
  {
    var request := s.requests[q];
    match move
    case UseCachedAuth => !fate.needsRow
    case LockRow => fate.needsRow
    case RowTimeOut => fate.needsRow && request.credentialId in s.rowLocks
    case RowStillFresh => !fate.rowRefreshes
    case RowRefreshed => fate.rowRefreshes && !fate.rowFails
    case RowFailed => fate.rowRefreshes && fate.rowFails
    case TimeOut => LockOf(config, request) in s.recordLocks
    case Fetch(fails) => fails == fate.fetchFails
    case Forward(applied, answered, _) => applied == fate.applied && answered == fate.answered
    case _ => true
  }

  predicate Allows(config: Config, q: nat, fate: Fate, s: State, a: Action) {
    a.Do? && a.q == q ==> q in s.requests && Justified(config, s, q, a.move, fate)
  }

  function Permits(config: Config, q: nat, fate: Fate): (State, Action) -> bool {
    (s: State, a: Action) => Allows(config, q, fate, s, a)
  }

  /** A run from `s` to `t` in which every move of request `q` is justified. */
  ghost predicate Executed(config: Config, s: State, trace: seq<Action>, q: nat, fate: Fate, t: State) {
    Traces.Executed(Steps(config), Permits(config, q, fate), s, trace, t)
  }

  /** The moves of request `q` in a trace. */
  ghost function OwnMoves(trace: seq<Action>, q: nat): seq<Move> {
    if trace == [] then [] else OwnHead(trace[0], q) + OwnMoves(trace[1..], q)
  }

  function OwnHead(a: Action, q: nat): seq<Move> {
    if a.Do? && a.q == q then [a.move] else []
  }

  lemma {:induction false} OwnAppend(first: seq<Action>, second: seq<Action>, q: nat)
    ensures OwnMoves(first + second, q) == OwnMoves(first, q) + OwnMoves(second, q)
  {
    hide OwnHead;
    if first == [] {
      assert first + second == second;
      assert OwnMoves([], q) == [];
    } else {
      OwnAppend(first[1..], second, q);
      var whole := first + second;
      assert whole[0] == first[0] && whole[1..] == first[1..] + second;
      var head := OwnHead(first[0], q);
      assert OwnMoves(whole, q) == head + OwnMoves(whole[1..], q);
      assert OwnMoves(first, q) == head + OwnMoves(first[1..], q);
      ConcatAssociates(head, OwnMoves(first[1..], q), OwnMoves(second, q));
    }
  }

  lemma ConcatAssociates<T>(a: seq<T>, b: seq<T>, c: seq<T>)
    ensures a + (b + c) == a + b + c
  {
  }

  lemma OwnOne(a: Action, q: nat)
    ensures OwnMoves([a], q) == if a.Do? && a.q == q then [a.move] else []
  {
    assert [a][1..] == [];
    assert OwnMoves([], q) == [];
  }

  /** What a request does about its credential, given whether the row lock is free. */
  function AuthMoves(fate: Fate, free: bool): seq<Move> {
    if !fate.needsRow then [UseCachedAuth] else if !free then [RowTimeOut] else [LockRow, RowOutcome(fate)]
  }

  function RowOutcome(fate: Fate): Move {
    if !fate.rowRefreshes then RowStillFresh else if fate.rowFails then RowFailed else RowRefreshed
  }

  predicate AuthResolves(fate: Fate, free: bool) {
    !fate.needsRow || (free && !(fate.rowRefreshes && fate.rowFails))
  }

  class Proxy {
    const config: Config
    var upstream: map<string, Stored>
    var usedIds: set<string>
    var rowLocks: map<string, nat>
    var recordLocks: map<string, nat>
    var requests: map<nat, Request>
    var phases: map<nat, Phase>
    var fetched: set<nat>
    var events: seq<Event>
    var audits: seq<Audit>

    constructor (config: Config, upstream: map<string, Stored>)
      ensures this.config == config && View() == Init(upstream)
    {
      this.config := config;
      this.upstream := upstream;
      usedIds, rowLocks, recordLocks := upstream.Keys, map[], map[];
      requests, phases, fetched, events, audits := map[], map[], {}, [], [];
    }

    function View(): State
      reads this
    {
      State(upstream, usedIds, rowLocks, recordLocks, requests, phases, fetched, events, audits)
    }

    method Load(s: State)
      modifies this
      ensures View() == s
    {
      upstream, usedIds, rowLocks, recordLocks := s.upstream, s.usedIds, s.rowLocks, s.recordLocks;
      requests, phases, fetched, events, audits := s.requests, s.phases, s.fetched, s.events, s.audits;
    }

    /** What other requests do while request `q` awaits: of the proposed actions, those that are
        theirs and are enabled. */
    method Interfere(q: nat, fate: Fate, schedule: seq<Action>) returns (ghost done: seq<Action>)
      requires q in requests && q in phases
      modifies this
      ensures Executed(config, old(View()), done, q, fate, View()) && OwnMoves(done, q) == []
      ensures q in requests && requests[q] == old(requests[q])
      ensures q in phases && phases[q] == old(phases[q])
    {
      done := [];
      for i := 0 to |schedule|
        invariant Executed(config, old(View()), done, q, fate, View()) && OwnMoves(done, q) == []
        invariant q in requests && requests[q] == old(requests[q])
        invariant q in phases && phases[q] == old(phases[q])
      {
        var a := schedule[i];
        if a.q != q {
          var next := Step(config, View(), a);
          if next.Some? {
            ghost var mid := View();
            OthersKeep(config, mid, q, a);
            Traces.ExecutedOne(Steps(config), Permits(config, q, fate), mid, a);
            Load(next.value);
            OwnOne(a, q);
            OwnAppend(done, [a], q);
            Traces.Then(Steps(config), Permits(config, q, fate), old(View()), done, mid, [a], View());
            done := done + [a];
          }
        }
      }
    }

    /** `resolve_upstream_auth` when the access token is cached or needs none. */
    method UseCached(q: nat, fate: Fate)
      requires q in requests && q in phases && phases[q].Resolving? && !fate.needsRow
      modifies this`phases
      ensures Executed(config, old(View()), [Do(q, UseCachedAuth)], q, fate, View())
      ensures q in phases && phases[q] == Resolved(old(phases[q].exempt))
    {
      Traces.ExecutedOne(Steps(config), Permits(config, q, fate), View(), Do(q, UseCachedAuth));
      phases := phases[q := Resolved(phases[q].exempt)];
    }

    /** The locked read of the credential row, or the end of the wait for it. */
    method AcquireRowLock(q: nat, fate: Fate) returns (acquired: bool)
      requires q in requests && q in phases && phases[q].Resolving? && fate.needsRow
      modifies this`rowLocks, this`phases
      ensures acquired <==> requests[q].credentialId !in old(rowLocks)
      ensures Executed(config, old(View()), [Do(q, if acquired then LockRow else RowTimeOut)], q, fate, View())
      ensures q in phases
      ensures phases[q] == if acquired then RowLocked(old(phases[q].exempt)) else Closing(Broken)
    {
      var credential := requests[q].credentialId;
      acquired := credential !in rowLocks;
      ghost var move := if acquired then LockRow else RowTimeOut;
      Traces.ExecutedOne(Steps(config), Permits(config, q, fate), View(), Do(q, move));
      if acquired {
        rowLocks := rowLocks[credential := q];
        phases := phases[q := RowLocked(phases[q].exempt)];
      } else {
        phases := phases[q := Closing(Broken)];
      }
    }

    /** What happens under the row lock: the token is still good, or is refreshed and committed,
        or the refresh fails. */
    method UseRow(q: nat, fate: Fate)
      requires q in requests && q in phases && phases[q].RowLocked?
      modifies this`rowLocks, this`phases
      ensures Executed(config, old(View()), [Do(q, RowOutcome(fate))], q, fate, View())
      ensures q in phases
      ensures phases[q]
        == if fate.rowRefreshes && fate.rowFails then Closing(Broken) else Resolved(old(phases[q].exempt))
    {
      var exempt := phases[q].exempt;
      Traces.ExecutedOne(Steps(config), Permits(config, q, fate), View(), Do(q, RowOutcome(fate)));
      if !fate.rowRefreshes {
        phases := phases[q := Resolved(exempt)];
      } else if fate.rowFails {
        phases := phases[q := Closing(Broken)];
      } else {
        rowLocks := map name | name in rowLocks && rowLocks[name] != q :: rowLocks[name];
        phases := phases[q := Resolved(exempt)];
      }
    }

    /** `get_lock`: taken if free, otherwise the wait has timed out. An exempt request takes no
        lock. */
    method AcquireRecordLock(q: nat, fate: Fate) returns (acquired: bool, ghost move: Move)
      requires q in requests && requests[q].m != Post && q in phases && phases[q].Resolved?
      modifies this`recordLocks, this`phases
      ensures acquired <==> old(phases[q].exempt) || LockOf(config, requests[q]) !in old(recordLocks)
      ensures Executed(config, old(View()), [Do(q, move)], q, fate, View())
      ensures q in phases
      ensures phases[q] == if acquired then Inside(old(phases[q].exempt)) else Closing(Unavailable)
    {
      var exempt := phases[q].exempt;
      var name := config.lockName(requests[q].zoneId, requests[q].recordId);
      acquired := exempt || name !in recordLocks;
      move := if acquired then Enter else TimeOut;
      Traces.ExecutedOne(Steps(config), Permits(config, q, fate), View(), Do(q, move));
      if acquired {
        if !exempt {
          recordLocks := recordLocks[name := q];
        }
        phases := phases[q := Inside(exempt)];
      } else {
        phases := phases[q := Closing(Unavailable)];
      }
    }

    method ReleaseRecordLock(q: nat, fate: Fate)
      requires q in requests && q in phases && phases[q].Leaving?
      modifies this`recordLocks, this`phases
      ensures Executed(config, old(View()), [Do(q, Leave)], q, fate, View())
      ensures q in phases && phases[q] == Closing(old(phases[q].reply))
    {
      Traces.ExecutedOne(Steps(config), Permits(config, q, fate), View(), Do(q, Leave));
      recordLocks := map name | name in recordLocks && recordLocks[name] != q :: recordLocks[name];
      phases := phases[q := Closing(phases[q].reply)];
    }

    /** `_authorize_by_id`: the live fetch and the decision on what it returned. */
    method FetchAndAuthorize(q: nat, fate: Fate) returns (outcome: Outcome)
      requires q in requests && q in phases && phases[q].Inside?
      modifies this`phases, this`fetched
      ensures Executed(config, old(View()), [Do(q, Fetch(fate.fetchFails))], q, fate, View())
      ensures outcome == config.authorizeById(requests[q],
        if fate.fetchFails then FetchFailed else LookupStored(upstream, requests[q].zoneId, requests[q].recordId))
      ensures q in phases && PhaseFollows(outcome, phases[q])
      ensures if Allowed(outcome) then phases[q].Forwarding? else phases[q].Leaving?
    {
      Traces.ExecutedOne(Steps(config), Permits(config, q, fate), View(), Do(q, Fetch(fate.fetchFails)));
      var request, exempt := requests[q], phases[q].exempt;
      var record := if fate.fetchFails then FetchFailed else LookupStored(upstream, request.zoneId, request.recordId);
      outcome := config.authorizeById(request, record);
      fetched := fetched + {q};
      match outcome
      case Crashed => phases := phases[q := Leaving(exempt, Broken)];
      case Decided(d) =>
        if d.allowed {
          phases := phases[q := Forwarding(exempt, d.preImage)];
        } else {
          phases := phases[q := Leaving(exempt, Denied(d.error, d.preImage))];
        }
    }

    method ForwardRequest(q: nat, fate: Fate)
      requires q in requests && requests[q].m != Post && q in phases && phases[q].Forwarding?
      modifies this`upstream, this`events, this`phases
      ensures Executed(config, old(View()), [Do(q, Forward(fate.applied, fate.answered, ""))], q, fate, View())
      ensures q in phases && phases[q].Leaving? && Answered(fate.answered, old(phases[q].pre), |old(events)|, phases[q])
      ensures if fate.applied then AppliedTo(old(upstream), requests[q], "", upstream) else upstream == old(upstream)
    {
      Traces.ExecutedOne(Steps(config), Permits(config, q, fate), View(),
                         Do(q, Forward(fate.applied, fate.answered, "")));
      var request, exempt, pre := requests[q], phases[q].exempt, phases[q].pre;
      var reply := if fate.answered then Sent(pre, |events|) else Broken;
      events := events + [Event(q, pre, FoundRecord(upstream, request), fate.applied)];
      if fate.applied {
        upstream := Effect(upstream, request, "");
      }
      phases := phases[q := Leaving(exempt, reply)];
    }

    /** The audit entry, if the way the request ended has one, and the end of the session. */
    method AuditAndClose(q: nat, fate: Fate) returns (reply: Reply)
      requires q in requests && q in phases && phases[q].Closing?
      modifies this`audits, this`rowLocks, this`phases
      ensures Executed(config, old(View()), [Do(q, Close)], q, fate, View())
      ensures q in phases && phases[q] == Finished(reply) && reply == old(phases[q].reply)
    {
      hide DecideStep, EnterStep, FetchStep, ForwardStep;
      Traces.ExecutedOne(Steps(config), Permits(config, q, fate), View(), Do(q, Close));
      reply := phases[q].reply;
      match reply {
        case Denied(_, pre) => audits := audits + [Audit(q, false, pre)];
        case Sent(pre, _) => audits := audits + [Audit(q, true, pre)];
        case _ =>
      }
      rowLocks := map credential | credential in rowLocks && rowLocks[credential] != q :: rowLocks[credential];
      phases := phases[q := Finished(reply)];
    }

    /** `resolve_upstream_auth`, with the row lock when the credential needs it. */
    method ResolveAuth(q: nat, fate: Fate, schedule: seq<Action>) returns (resolved: bool, ghost trace: seq<Action>)
      requires q in requests && q in phases && phases[q].Resolving?
      modifies this
      ensures Executed(config, old(View()), trace, q, fate, View())
      ensures q in requests && requests[q] == old(requests[q]) && q in phases
      ensures var free := requests[q].credentialId !in old(rowLocks);
        OwnMoves(trace, q) == AuthMoves(fate, free) && (resolved <==> AuthResolves(fate, free))
      ensures phases[q] == if resolved then Resolved(old(phases[q].exempt)) else Closing(Broken)
    {
      hide Traces.Executed;
      ghost var start := View();
      if !fate.needsRow {
        UseCached(q, fate);
        OwnOne(Do(q, UseCachedAuth), q);
        return true, [Do(q, UseCachedAuth)];
      }
      resolved := AcquireRowLock(q, fate);
      if !resolved {
        OwnOne(Do(q, RowTimeOut), q);
        return false, [Do(q, RowTimeOut)];
      }
      trace := [Do(q, LockRow)];
      OwnOne(Do(q, LockRow), q);
      ghost var mid := View();
      ghost var others := Interfere(q, fate, schedule);
      Traces.Then(Steps(config), Permits(config, q, fate), start, trace, mid, others, View());
      OwnAppend(trace, others, q);
      trace := trace + others;
      mid := View();
      UseRow(q, fate);
      ghost var last := [Do(q, RowOutcome(fate))];
      Traces.Then(Steps(config), Permits(config, q, fate), start, trace, mid, last, View());
      OwnOne(Do(q, RowOutcome(fate)), q);
      OwnAppend(trace, last, q);
      trace := trace + last;
      resolved := !(fate.rowRefreshes && fate.rowFails);
    }

    /** `_authorize_and_forward`: one fetch, and a forward exactly when the decision on what it
        returned allows the request. */
    method AuthorizeAndForward(q: nat, fate: Fate, schedule: seq<Action>) returns (outcome: Outcome,
                               ghost trace: seq<Action>)
      requires q in requests && requests[q].m != Post && q in phases && phases[q].Inside?
      modifies this
      ensures Executed(config, old(View()), trace, q, fate, View())
      ensures q in requests && requests[q] == old(requests[q])
      ensures outcome == config.authorizeById(requests[q],
        if fate.fetchFails then FetchFailed
        else LookupStored(old(upstream), requests[q].zoneId, requests[q].recordId))
      ensures OwnMoves(trace, q)
        == [Fetch(fate.fetchFails)] + if Allowed(outcome) then [Forward(fate.applied, fate.answered, "")] else []
      ensures q in phases && phases[q].Leaving?
    {
      hide Traces.Executed;
      ghost var start := View();
      outcome := FetchAndAuthorize(q, fate);
      trace := [Do(q, Fetch(fate.fetchFails))];
      OwnOne(Do(q, Fetch(fate.fetchFails)), q);
      ghost var mid := View();
      ghost var others := Interfere(q, fate, schedule);
      Traces.Then(Steps(config), Permits(config, q, fate), start, trace, mid, others, View());
      OwnAppend(trace, others, q);
      trace := trace + others;
      if Allowed(outcome) {
        mid := View();
        ForwardRequest(q, fate);
        ghost var last := [Do(q, Forward(fate.applied, fate.answered, ""))];
        Traces.Then(Steps(config), Permits(config, q, fate), start, trace, mid, last, View());
        OwnOne(Do(q, Forward(fate.applied, fate.answered, "")), q);
        OwnAppend(trace, last, q);
        trace := trace + last;
      }
    }

    /** Registers the request and computes its exemption, before any await. */
    method Begin(q: nat, request: Request, fate: Fate) returns (ghost trace: seq<Action>)
      requires q !in requests && Mutating(request.m) && request.m != Post
      modifies this`requests, this`phases
      ensures Executed(config, old(View()), trace, q, fate, View())
      ensures q in requests && requests[q] == request
      ensures q in phases && phases[q] == Resolving(config.exempt(request))
    {
      ghost var start := View();
      Traces.ExecutedOne(Steps(config), Permits(config, q, fate), start, Spawn(q, request));
      requests := requests[q := request];
      phases := phases[q := Received];
      ghost var mid := View();
      Traces.ExecutedOne(Steps(config), Permits(config, q, fate), mid, Do(q, Decide));
      phases := phases[q := Resolving(config.exempt(request))];
      Traces.Then(Steps(config), Permits(config, q, fate), start, [Spawn(q, request)], mid, [Do(q, Decide)], View());
      trace := [Spawn(q, request)] + [Do(q, Decide)];
    }

    /** The critical section, from entering to releasing the record lock. */
    method RunCriticalSection(q: nat, fate: Fate, schedules: seq<seq<Action>>) returns (ghost trace: seq<Action>)
      requires q in requests && requests[q].m != Post && q in phases && phases[q].Inside?
      requires |schedules| == 3
      modifies this
      ensures Executed(config, old(View()), trace, q, fate, View())
      ensures q in requests && requests[q] == old(requests[q])
      ensures q in phases && phases[q].Closing?
    {
      hide Traces.Executed;
      ghost var start := View();
      trace := Interfere(q, fate, schedules[0]);
      ghost var mid := View();
      ghost var more;
      var outcome;
      outcome, more := AuthorizeAndForward(q, fate, schedules[1]);
      Traces.Then(Steps(config), Permits(config, q, fate), start, trace, mid, more, View());
      trace := trace + more;
      mid := View();
      more := Interfere(q, fate, schedules[2]);
      Traces.Then(Steps(config), Permits(config, q, fate), start, trace, mid, more, View());
      trace := trace + more;
      mid := View();
      ReleaseRecordLock(q, fate);
      Traces.Then(Steps(config), Permits(config, q, fate), start, trace, mid, [Do(q, Leave)], View());
      trace := trace + [Do(q, Leave)];
    }

    /** Everything before the record lock: exemption, then the upstream credential. */
    method Prepare(q: nat, request: Request, fate: Fate, schedules: seq<seq<Action>>)
      returns (resolved: bool, ghost trace: seq<Action>)
      requires q !in requests && Mutating(request.m) && request.m != Post
      requires |schedules| == 3
      modifies this
      ensures Executed(config, old(View()), trace, q, fate, View())
      ensures q in requests && requests[q] == request
      ensures q in phases && phases[q] == if resolved then Resolved(config.exempt(request)) else Closing(Broken)
      ensures !fate.needsRow ==> resolved
    {
      hide Traces.Executed;
      ghost var start := View();
      trace := Begin(q, request, fate);
      ghost var mid := View();
      ghost var more := Interfere(q, fate, schedules[0]);
      Traces.Then(Steps(config), Permits(config, q, fate), start, trace, mid, more, View());
      trace := trace + more;
      mid := View();
      resolved, more := ResolveAuth(q, fate, schedules[1]);
      Traces.Then(Steps(config), Permits(config, q, fate), start, trace, mid, more, View());
      trace := trace + more;
      mid := View();
      more := Interfere(q, fate, schedules[2]);
      Traces.Then(Steps(config), Permits(config, q, fate), start, trace, mid, more, View());
      trace := trace + more;
    }

    /** From the record lock to its release. */
    method LockAndForward(q: nat, fate: Fate, schedules: seq<seq<Action>>) returns (ghost trace: seq<Action>)
      requires q in requests && requests[q].m != Post && q in phases && phases[q].Resolved?
      requires |schedules| == 3
      modifies this
      ensures Executed(config, old(View()), trace, q, fate, View())
      ensures q in requests && requests[q] == old(requests[q])
      ensures q in phases && phases[q].Closing?
    {
      hide Traces.Executed;
      ghost var start := View();
      var acquired;
      ghost var move;
      acquired, move := AcquireRecordLock(q, fate);
      trace := [Do(q, move)];
      if acquired {
        ghost var mid := View();
        ghost var more := RunCriticalSection(q, fate, schedules);
        Traces.Then(Steps(config), Permits(config, q, fate), start, trace, mid, more, View());
        trace := trace + more;
      }
    }

    /** `_mutate_dns_record_by_id`: whatever the other requests do at the awaits, what happened
        is a run of the protocol in which this request's moves are justified and it is over. It
        answers what the decision on its live fetch calls for; with the proxy's decisions, what
        the rules say of the record that it fetched. */
    method MutateDnsRecordById(q: nat, request: Request, fate: Fate, schedules: seq<seq<Action>>)
      returns (reply: Reply, ghost trace: seq<Action>)
      requires q !in requests && Mutating(request.m) && request.m != Post
      requires |schedules| == 6
      modifies this
      ensures Run(config, old(View()), trace) == Some(View())
      ensures Executed(config, old(View()), trace, q, fate, View())
      ensures q in requests && requests[q] == request
      ensures q in phases && phases[q] == Finished(reply)
      ensures forall i: nat, fetched | FetchedAt(config, old(View()), trace, i, q, fetched) ::
        && ReplyFollows(config.authorizeById(request, fetched), reply)
        && (config == ProxyConfig(config.lockName) ==> Answers(request, fetched, reply))
      ensures reply.Denied? || reply.Sent? ==> HasFetched(config, old(View()), trace, q)
    {
      hide Traces.Executed;
      ghost var start := View();
      var resolved;
      resolved, trace := Prepare(q, request, fate, schedules[..3]);
      ghost var mid := View();
      if resolved {
        ghost var more := LockAndForward(q, fate, schedules[3..]);
        Traces.Then(Steps(config), Permits(config, q, fate), start, trace, mid, more, View());
        trace := trace + more;
      }
      mid := View();
      reply := AuditAndClose(q, fate);
      Traces.Then(Steps(config), Permits(config, q, fate), start, trace, mid, [Do(q, Close)], View());
      trace := trace + [Do(q, Close)];
      Traces.ExecutedRuns(Steps(config), Permits(config, q, fate), start, trace, View());
      ReplyOfRun(config, start, trace, q, request, reply);
    }

    /** The decision on a create, before any await. */
    method AuthorizeCreation(q: nat, request: Request, fate: Fate) returns (allowed: bool, ghost trace: seq<Action>)
      requires q !in requests && request.m == Post
      modifies this`requests, this`phases
      ensures Executed(config, old(View()), trace, q, fate, View())
      ensures q in requests && requests[q] == request
      ensures allowed <==> Allowed(config.authorizeCreate(request))
      ensures q in phases && (if allowed then phases[q] == Resolving(true) else phases[q].Closing?)
    {
      ghost var start := View();
      Traces.ExecutedOne(Steps(config), Permits(config, q, fate), start, Spawn(q, request));
      requests := requests[q := request];
      phases := phases[q := Received];
      ghost var mid := View();
      Traces.ExecutedOne(Steps(config), Permits(config, q, fate), mid, Do(q, Decide));
      var outcome := config.authorizeCreate(request);
      allowed := outcome.Decided? && outcome.decision.allowed;
      if allowed {
        phases := phases[q := Resolving(true)];
      } else if outcome.Crashed? {
        phases := phases[q := Closing(Broken)];
      } else {
        phases := phases[q := Closing(Denied(outcome.decision.error, None))];
      }
      Traces.Then(Steps(config), Permits(config, q, fate), start, [Spawn(q, request)], mid, [Do(q, Decide)], View());
      trace := [Spawn(q, request)] + [Do(q, Decide)];
    }

    /** The upstream creates the record under an id that it draws, new to it. */
    method ForwardCreation(q: nat, newId: string, fate: Fate)
      requires q in requests && requests[q].m == Post && q in phases && phases[q] == Forwarding(true, None)
      requires newId !in usedIds
      modifies this`upstream, this`usedIds, this`events, this`phases
      ensures Executed(config, old(View()), [Do(q, Forward(fate.applied, fate.answered, newId))], q, fate, View())
      ensures q in phases && phases[q].Leaving?
    {
      Traces.ExecutedOne(Steps(config), Permits(config, q, fate), View(),
                         Do(q, Forward(fate.applied, fate.answered, newId)));
      var reply := if fate.answered then Sent(None, |events|) else Broken;
      events := events + [Event(q, None, FoundRecord(upstream, requests[q]), fate.applied)];
      if fate.applied {
        upstream := Effect(upstream, requests[q], newId);
      }
      usedIds := usedIds + {newId};
      phases := phases[q := Leaving(true, reply)];
    }

    /** A create goes on to forwarding without a record lock. */
    method EnterCreation(q: nat, fate: Fate)
      requires q in requests && requests[q].m == Post && q in phases && phases[q] == Resolved(true)
      modifies this`phases
      ensures Executed(config, old(View()), [Do(q, Enter)], q, fate, View())
      ensures q in phases && phases[q] == Forwarding(true, None)
    {
      Traces.ExecutedOne(Steps(config), Permits(config, q, fate), View(), Do(q, Enter));
      phases := phases[q := Forwarding(true, None)];
    }

    /** From the resolved credential to the end of the upstream call. */
    method CreateUpstream(q: nat, fate: Fate, draw: set<string> -> string, schedule: seq<Action>)
      returns (ghost trace: seq<Action>)
      requires q in requests && requests[q].m == Post && q in phases && phases[q] == Resolved(true)
      requires forall ids :: draw(ids) !in ids
      modifies this
      ensures Executed(config, old(View()), trace, q, fate, View())
      ensures q in requests && requests[q] == old(requests[q])
      ensures q in phases && phases[q].Closing?
    {
      hide Traces.Executed;
      ghost var start := View();
      EnterCreation(q, fate);
      trace := [Do(q, Enter)];
      ghost var mid := View();
      var newId := draw(usedIds);
      ForwardCreation(q, newId, fate);
      ghost var more := [Do(q, Forward(fate.applied, fate.answered, newId))];
      Traces.Then(Steps(config), Permits(config, q, fate), start, trace, mid, more, View());
      trace := trace + more;
      mid := View();
      more := Interfere(q, fate, schedule);
      Traces.Then(Steps(config), Permits(config, q, fate), start, trace, mid, more, View());
      trace := trace + more;
      mid := View();
      ReleaseRecordLock(q, fate);
      Traces.Then(Steps(config), Permits(config, q, fate), start, trace, mid, [Do(q, Leave)], View());
      trace := trace + [Do(q, Leave)];
    }

    /** From the credential to the answer of the upstream. */
    method ResolveAndCreate(q: nat, fate: Fate, draw: set<string> -> string, schedules: seq<seq<Action>>)
      returns (ghost trace: seq<Action>)
      requires q in requests && requests[q].m == Post && q in phases && phases[q] == Resolving(true)
      requires (forall ids :: draw(ids) !in ids) && |schedules| == 3
      modifies this
      ensures Executed(config, old(View()), trace, q, fate, View())
      ensures q in requests && requests[q] == old(requests[q])
      ensures q in phases && phases[q].Closing?
    {
      hide Traces.Executed;
      ghost var start := View();
      var resolved;
      resolved, trace := ResolveAuth(q, fate, schedules[0]);
      ghost var mid := View();
      ghost var more := Interfere(q, fate, schedules[1]);
      Traces.Then(Steps(config), Permits(config, q, fate), start, trace, mid, more, View());
      trace := trace + more;
      if resolved {
        mid := View();
        more := CreateUpstream(q, fate, draw, schedules[2]);
        Traces.Then(Steps(config), Permits(config, q, fate), start, trace, mid, more, View());
        trace := trace + more;
      }
    }

    /** `create_dns_record`: a run of the protocol in which this request is over. Only an allowed
        create gets past its decision, and its client is told what the decision calls for. */
    method CreateDnsRecord(q: nat, request: Request, fate: Fate, draw: set<string> -> string,
                           schedules: seq<seq<Action>>)
      returns (reply: Reply, ghost trace: seq<Action>)
      requires q !in requests && request.m == Post
      requires (forall ids :: draw(ids) !in ids) && |schedules| == 3
      modifies this
      ensures Run(config, old(View()), trace) == Some(View())
      ensures Executed(config, old(View()), trace, q, fate, View())
      ensures q in requests && requests[q] == request
      ensures q in phases && phases[q] == Finished(reply)
      ensures CreateReplyFollows(config.authorizeCreate(request), reply)
      ensures config == ProxyConfig(config.lockName) ==> CreateAnswers(request, reply)
    {
      hide Traces.Executed, Step, MutationReplies.CreateAnswers;
      ghost var start := View();
      var allowed;
      allowed, trace := AuthorizeCreation(q, request, fate);
      ghost var mid := View();
      if allowed {
        ghost var more := ResolveAndCreate(q, fate, draw, schedules);
        Traces.Then(Steps(config), Permits(config, q, fate), start, trace, mid, more, View());
        trace := trace + more;
      }
      mid := View();
      reply := AuditAndClose(q, fate);
      Traces.Then(Steps(config), Permits(config, q, fate), start, trace, mid, [Do(q, Close)], View());
      trace := trace + [Do(q, Close)];
      Traces.ExecutedRuns(Steps(config), Permits(config, q, fate), start, trace, View());
      RunKeepsCreate(config, start, trace, q);
      if config == ProxyConfig(config.lockName) {
        FollowingCreateAnswers(config.lockName, request, reply);
      }
    }
  }

  /** The steps of others leave a request where it is. */
  lemma OthersKeep(config: Config, s: State, q: nat, a: Action)
    requires q in s.requests && q in s.phases && a.q != q && Step(config, s, a).Some?
    ensures var t := Step(config, s, a).value;
      q in t.requests && t.requests[q] == s.requests[q] && q in t.phases && t.phases[q] == s.phases[q]
  {
    if a.Do? {
      StepMoves(config, s, a.q, a.move);
    }
  }

  /** What a run of the protocol, in which the request begins and ends, says of its reply. */
  lemma ReplyOfRun(config: Config, s0: State, trace: seq<Action>, q: nat, request: Request, reply: Reply)
    requires q !in s0.requests && Run(config, s0, trace).Some? && Mutating(request.m) && request.m != Post
    requires var t := Run(config, s0, trace).value;
      q in t.requests && t.requests[q] == request && q in t.phases && t.phases[q] == Finished(reply)
    ensures forall i: nat, fetched | FetchedAt(config, s0, trace, i, q, fetched) ::
      && ReplyFollows(config.authorizeById(request, fetched), reply)
      && (config == ProxyConfig(config.lockName) ==> Answers(request, fetched, reply))
    ensures reply.Denied? || reply.Sent? ==> HasFetched(config, s0, trace, q)
  {
    hide Step, Answers, ReplyFollows, FetchedAt;
    DecisionsAreFollowed(config, s0, trace, q);
    forall i: nat, fetched | FetchedAt(config, s0, trace, i, q, fetched)
      ensures ReplyFollows(config.authorizeById(request, fetched), reply)
      ensures config == ProxyConfig(config.lockName) ==> Answers(request, fetched, reply)
    {
      if config == ProxyConfig(config.lockName) {
        FollowingAnswers(config.lockName, request, fetched, reply);
      }
    }
    if reply.Denied? || reply.Sent? {
      PastMeansFetched(config, s0, trace, q);
    }
  }
}
