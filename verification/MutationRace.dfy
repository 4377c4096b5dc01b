/** Why the lock matters: with a lock-exempt token, fetch and forward are not atomic, so the
    atomicity theorem's condition is exact. */
module MutationRace {
  import Traces
  import opened Text
  import opened Fqdn
  import opened Scope
  import opened RuleTheorems
  import opened Authorizer
  import opened MutationProtocol
  import opened MutationLocks
  import opened MutationRuns

  /** A request that the upstream record lets through as it stands. */
  ghost predicate Forwardable(config: Config, upstream: map<string, Stored>, r: Request, record: Record) {
    && r.m != Post
    && FoundRecord(upstream, r) == Some(record)
    && Allowed(config.authorizeById(r, Found(record)))
    && config.authorizeById(r, Found(record)).decision.preImage == Some(record)
  }

  function Preparation(q: nat): seq<Action> {
    [Do(q, Decide), Do(q, UseCachedAuth), Do(q, Enter), Do(q, Fetch(false))]
  }

  /** The request after its preparation: inside, with the record fetched, and with its record
      lock unless it is exempt. */
  ghost function Prepared(config: Config, s: State, q: nat, r: Request, record: Record): State {
    s.(phases := s.phases[q := Forwarding(config.exempt(r), Some(record))],
       fetched := s.fetched + {q},
       recordLocks := if config.exempt(r) then s.recordLocks else s.recordLocks[LockOf(config, r) := q])
  }

  lemma FourSteps(config: Config, s: State, a: Action, b: Action, c: Action, d: Action,
                  s1: State, s2: State, s3: State, t: State)
    requires Step(config, s, a) == Some(s1) && Step(config, s1, b) == Some(s2)
    requires Step(config, s2, c) == Some(s3) && Step(config, s3, d) == Some(t)
    ensures Run(config, s, [a, b, c, d]) == Some(t)
  {
    hide Step;
    assert [a, b, c, d] == [a] + ([b] + ([c] + ([d] + [])));
    Traces.RunCons(Steps(config), s, a, [b] + ([c] + ([d] + [])));
    Traces.RunCons(Steps(config), s1, b, [c] + ([d] + []));
    Traces.RunCons(Steps(config), s2, c, [d] + []);
    Traces.RunCons(Steps(config), s3, d, []);
  }

  lemma Prepare(config: Config, s: State, q: nat, r: Request, record: Record)
    requires q in s.requests && s.requests[q] == r && q in s.phases && s.phases[q] == Received
    requires Forwardable(config, s.upstream, r, record)
    requires config.exempt(r) || LockOf(config, r) !in s.recordLocks
    ensures Run(config, s, Preparation(q)) == Some(Prepared(config, s, q, r, record))
  {
    var x := config.exempt(r);
    var s1, s2 := Goto(s, q, Resolving(x)), Goto(s, q, Resolved(x));
    var s3 := Goto(s, q, Inside(x)).(recordLocks := if x then s.recordLocks else s.recordLocks[LockOf(config, r) := q]);
    var t := Prepared(config, s, q, r, record);
    assert Step(config, s, Do(q, Decide)) == Some(s1);
    assert s1.phases[q := Resolved(x)] == s2.phases;
    assert Step(config, s1, Do(q, UseCachedAuth)) == Some(s2);
    assert s2.phases[q := Inside(x)] == s3.phases;
    assert Step(config, s2, Do(q, Enter)) == Some(s3);
    FetchPrepared(config, s3, q, r, record);
    assert s3.phases[q := Forwarding(x, Some(record))] == t.phases;
    FourSteps(config, s, Do(q, Decide), Do(q, UseCachedAuth), Do(q, Enter), Do(q, Fetch(false)), s1, s2, s3, t);
  }

  lemma FetchPrepared(config: Config, s: State, q: nat, r: Request, record: Record)
    requires q in s.requests && s.requests[q] == r && q in s.phases && s.phases[q] == Inside(config.exempt(r))
    requires Forwardable(config, s.upstream, r, record)
    ensures Step(config, s, Do(q, Fetch(false)))
      == Some(Goto(s, q, Forwarding(config.exempt(r), Some(record))).(fetched := s.fetched + {q}))
  {
    assert LookupStored(s.upstream, r.zoneId, r.recordId) == Found(record);
  }

  /** Requests 1 and 2 both fetch; then 2 is forwarded, and then 1. */
  function RaceActions(one: Request, two: Request): seq<Action> {
    [Spawn(1, one), Spawn(2, two)] + Preparation(1) + Preparation(2)
    + [Do(2, Forward(true, true, "")), Do(1, Forward(true, true, ""))]
  }

  function BothSpawned(upstream: map<string, Stored>, one: Request, two: Request): State {
    Init(upstream).(requests := map[1 := one, 2 := two], phases := map[1 := Received, 2 := Received])
  }

  lemma SpawnBoth(config: Config, upstream: map<string, Stored>, one: Request, two: Request)
    requires Mutating(one.m) && Mutating(two.m)
    ensures Run(config, Init(upstream), [Spawn(1, one), Spawn(2, two)]) == Some(BothSpawned(upstream, one, two))
  {
    var s0 := Init(upstream);
    var s1 := s0.(requests := map[1 := one], phases := map[1 := Received]);
    var s2 := BothSpawned(upstream, one, two);
    assert Step(config, s0, Spawn(1, one)) == Some(s1);
    assert Step(config, s1, Spawn(2, two)) == Some(s2);
    assert [Spawn(1, one), Spawn(2, two)] == [Spawn(1, one)] + ([Spawn(2, two)] + []);
    Traces.RunCons(Steps(config), s0, Spawn(1, one), [Spawn(2, two)] + []);
    Traces.RunCons(Steps(config), s1, Spawn(2, two), []);
  }

  /** Two forwards in a row: the second finds what the first left. */
  lemma ForwardBoth(config: Config, s: State, one: Request, two: Request, record: Record)
    requires s.requests == map[1 := one, 2 := two] && s.events == [] && one.m != Post && two.m != Post
    requires s.phases
      == map[1 := Forwarding(config.exempt(one), Some(record)), 2 := Forwarding(config.exempt(two), Some(record))]
    ensures Run(config, s, [Do(2, Forward(true, true, "")), Do(1, Forward(true, true, ""))]).Some?
    ensures var t := Run(config, s, [Do(2, Forward(true, true, "")), Do(1, Forward(true, true, ""))]).value;
      && t.requests == s.requests && |t.events| == 2
      && t.events[1] == Event(1, Some(record), FoundRecord(Effect(s.upstream, two, ""), one), true)
  {
    var a, b := Do(2, Forward(true, true, "")), Do(1, Forward(true, true, ""));
    var s1 := Step(config, s, a).value;
    assert s1.phases[1] == Forwarding(config.exempt(one), Some(record)) && s1.upstream == Effect(s.upstream, two, "");
    assert [a, b] == [a] + ([b] + []);
    Traces.RunCons(Steps(config), s, a, [b] + []);
    Traces.RunCons(Steps(config), s1, b, []);
  }

  /** When request 2 is exempt it can be forwarded between the fetch and the forward of request
      1, which then acts on what request 2 left. */
  lemma RaceRun(config: Config, upstream: map<string, Stored>, one: Request, two: Request, record: Record)
    requires Mutating(one.m) && Mutating(two.m) && config.exempt(two)
    requires Forwardable(config, upstream, one, record) && Forwardable(config, upstream, two, record)
    ensures Run(config, Init(upstream), RaceActions(one, two)).Some?
    ensures var t := Run(config, Init(upstream), RaceActions(one, two)).value;
      && t.requests == map[1 := one, 2 := two] && |t.events| == 2
      && t.events[1] == Event(1, Some(record), FoundRecord(Effect(upstream, two, ""), one), true)
  {
    hide Step, Effect;
    var s0, s2 := Init(upstream), BothSpawned(upstream, one, two);
    var s3 := Prepared(config, s2, 1, one, record);
    var s4 := Prepared(config, s3, 2, two, record);
    var last := [Do(2, Forward(true, true, "")), Do(1, Forward(true, true, ""))];
    SpawnBoth(config, upstream, one, two);
    Prepare(config, s2, 1, one, record);
    Prepare(config, s3, 2, two, record);
    Traces.RunAppend(Steps(config), s0, [Spawn(1, one), Spawn(2, two)], Preparation(1));
    Traces.RunAppend(Steps(config), s0, [Spawn(1, one), Spawn(2, two)] + Preparation(1), Preparation(2));
    Traces.RunAppend(Steps(config), s0, [Spawn(1, one), Spawn(2, two)] + Preparation(1) + Preparation(2), last);
    assert s4.phases
        == map[1 := Forwarding(config.exempt(one), Some(record)), 2 := Forwarding(config.exempt(two), Some(record))];
    ForwardBoth(config, s4, one, two, record);
  }

  function RaceRequest(rules: seq<Rule>, need: Need, zoneId: string, recordId: string, content: string): Request {
    Request(rules, if need == Delete then DeleteMethod else Patch, zoneId, recordId,
            Some(Body(Absent, Absent, Present(Some(content)))), "")
  }

  /** For any record that its rules grant it on, a token that is exempt for writing or deleting
      the record has a run in which one of its forwards acts on an image that was not the one
      fetched. */
  lemma ExemptTokensRace(lockName: LockName, upstream: map<string, Stored>, rules: seq<Rule>, need: Need,
                         zoneId: string, recordId: string) returns (r: Request)
    requires need == Write || need == Delete
    requires IsLockExempt(rules, zoneId, recordId, need)
    requires recordId in upstream && upstream[recordId].zone == zoneId
    requires upstream[recordId].record.zoneId == None || upstream[recordId].record.zoneId == Some(zoneId)
    requires var image := upstream[recordId].record.image;
      MatchRules(rules, zoneId, image.name, image.rtype, Some(recordId), need) == Granted
    ensures r.rules == rules
    ensures Run(ProxyConfig(lockName), Init(upstream), RaceActions(r, r)).Some?
    ensures var t := Run(ProxyConfig(lockName), Init(upstream), RaceActions(r, r)).value;
      t.requests == map[1 := r, 2 := r] && !ActsOnFetched(t, zoneId, recordId)
  {
    hide MatchRules, IsLockExempt, RaceActions;
    var record := upstream[recordId].record;
    r := RaceRequest(rules, need, zoneId, recordId, if record.content == Some("") then "x" else "");
    AllowedMeaning(rules, r.m, zoneId, recordId, r.body, (zone, id) => Found(record));
    RaceRun(ProxyConfig(lockName), upstream, r, r, record);
    var t := Run(ProxyConfig(lockName), Init(upstream), RaceActions(r, r)).value;
    assert t.events[1].q in t.requests;
  }

  ghost predicate UsesOnly(s: State, tokens: set<seq<Rule>>) {
    forall q | q in s.requests :: s.requests[q].rules in tokens
  }

  ghost predicate AtomicRun(lockName: LockName, tokens: set<seq<Rule>>, zoneId: string, recordId: string,
                            upstream: map<string, Stored>, actions: seq<Action>)
  {
    var end := Run(ProxyConfig(lockName), Init(upstream), actions);
    end.Some? && UsesOnly(end.value, tokens) ==> ActsOnFetched(end.value, zoneId, recordId)
  }

  /** The token holds a lock-exempt rule for writing or deleting the record. */
  predicate HoldsExemption(rules: seq<Rule>, zoneId: string, recordId: string) {
    IsLockExempt(rules, zoneId, recordId, Write) || IsLockExempt(rules, zoneId, recordId, Delete)
  }

  /** Fetch-to-forward atomicity, exactly: every run of these tokens acts on what it fetched if
      and only if none of them holds a lock-exempt write or delete rule on the record. */
  lemma AtomicityExactly(lockName: LockName, tokens: set<seq<Rule>>, zoneId: string, recordId: string)
    ensures (forall upstream, actions :: AtomicRun(lockName, tokens, zoneId, recordId, upstream, actions))
      <==> forall rules | rules in tokens :: !HoldsExemption(rules, zoneId, recordId)
  {
    hide IsLockExempt, Run, ActsOnFetched, RaceActions;
    if forall rules | rules in tokens :: !HoldsExemption(rules, zoneId, recordId) {
      forall upstream, actions
        ensures AtomicRun(lockName, tokens, zoneId, recordId, upstream, actions)
      {
        WithoutExemption(lockName, tokens, zoneId, recordId, upstream, actions);
      }
    }
    if rules :| rules in tokens && HoldsExemption(rules, zoneId, recordId) {
      var need := if IsLockExempt(rules, zoneId, recordId, Write) then Write else Delete;
      var upstream := map[recordId := SampleRecord(zoneId, recordId)];
      SampleGranted(rules, zoneId, recordId, need);
      var r := ExemptTokensRace(lockName, upstream, rules, need, zoneId, recordId);
      assert !AtomicRun(lockName, tokens, zoneId, recordId, upstream, RaceActions(r, r));
    }
  }

  /** A record without a name: no pattern is tried on it. */
  function SampleRecord(zoneId: string, recordId: string): Stored {
    Stored(zoneId, Record(Some(recordId), Some(zoneId), Image(None, Some("A")), Some("1.2.3.4")))
  }

  lemma SampleGranted(rules: seq<Rule>, zoneId: string, recordId: string, need: Need)
    requires IsLockExempt(rules, zoneId, recordId, need)
    ensures MatchRules(rules, zoneId, None, Some("A"), Some(recordId), need) == Granted
  {
    ExemptNeverRefused(rules, zoneId, recordId, need, None, Some("A"));
  }

  lemma WithoutExemption(lockName: LockName, tokens: set<seq<Rule>>, zoneId: string, recordId: string,
                         upstream: map<string, Stored>, actions: seq<Action>)
    requires forall rules | rules in tokens :: !HoldsExemption(rules, zoneId, recordId)
    ensures AtomicRun(lockName, tokens, zoneId, recordId, upstream, actions)
  {
    var end := Run(ProxyConfig(lockName), Init(upstream), actions);
    if end.Some? && UsesOnly(end.value, tokens) {
      InitLocks(ProxyConfig(lockName), upstream);
      RunKeepsLocks(ProxyConfig(lockName), Init(upstream), actions);
      assert NoneExempt(end.value.requests, zoneId, recordId);
      AtomicOverRuns(lockName, upstream, actions, zoneId, recordId);
    }
  }
}
