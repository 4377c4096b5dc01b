/** When a forward leaves its own token's scope: the condition of `KeepsToScope` is exact. */
module MutationEscape {
  import opened Text
  import opened Fqdn
  import opened Scope
  import opened RuleTheorems
  import opened Raising
  import opened Granting
  import opened Authorizer
  import opened MutationProtocol
  import opened MutationLocks
  import opened MutationSafety
  import opened MutationTheorems
  import opened MutationRuns
  import opened MutationScope
  import opened MutationRace

  /** The rule covers the operation on the record whatever its name and type. */
  predicate FullRule(rule: Rule, zoneId: string, recordId: string, op: Need) {
    && rule.zoneId == zoneId && rule.namePattern == None && "*" in rule.recordTypes
    && (rule.recordIds == None || rule.recordIds.value == [] || recordId in rule.recordIds.value)
    && rule.Allows(op)
  }

  predicate CoversFully(rules: seq<Rule>, zoneId: string, recordId: string, op: Need) {
    exists i | 0 <= i < |rules| :: FullRule(rules[i], zoneId, recordId, op)
  }

  lemma FullCovers(rules: seq<Rule>, zoneId: string, recordId: string, op: Need, image: Image)
    requires CoversFully(rules, zoneId, recordId, op)
    ensures Covers(rules, zoneId, image, Some(recordId), op)
  {
    var i :| 0 <= i < |rules| && FullRule(rules[i], zoneId, recordId, op);
    assert rules[i].Admits(zoneId, image.rtype, Some(recordId)) && rules[i].Allows(op);
  }

  function TypeLists(rules: seq<Rule>): seq<seq<string>> {
    seq(|rules|, i requires 0 <= i < |rules| => rules[i].recordTypes)
  }

  /** A type that no rule lists, and none that DNS knows. */
  function UnlistedType(rules: seq<Rule>): string {
    Unlisted(Concat(TypeLists(rules)))
  }

  lemma TypeUnlisted(rules: seq<Rule>, i: nat)
    requires i < |rules|
    ensures UnlistedType(rules) !in rules[i].recordTypes
  {
    UnlistedIsNew(Concat(TypeLists(rules)));
    ConcatHolds(TypeLists(rules), i);
  }

  /** An image that only full rules cover. */
  function Foreign(rules: seq<Rule>): Image {
    Image(Some(Unmatched(rules)), Some(UnlistedType(rules)))
  }

  /** A token covers its operation on every image of the record exactly when it has a full rule. */
  lemma CoversFullyExactly(rules: seq<Rule>, zoneId: string, recordId: string, op: Need)
    ensures Covers(rules, zoneId, Foreign(rules), Some(recordId), op) <==> CoversFully(rules, zoneId, recordId, op)
    ensures (forall image :: Covers(rules, zoneId, image, Some(recordId), op))
      <==> CoversFully(rules, zoneId, recordId, op)
  {
    hide Unmatched, UnlistedType, Grants, CanonicalName;
    if CoversFully(rules, zoneId, recordId, op) {
      forall image ensures Covers(rules, zoneId, image, Some(recordId), op) {
        FullCovers(rules, zoneId, recordId, op, image);
      }
    } else {
      UnmatchedName(rules);
      forall i | 0 <= i < |rules|
        ensures !CoversAt(rules[i], zoneId, Foreign(rules), recordId, op)
      {
        NotCoveredAt(rules, i, zoneId, recordId, op);
      }
      NoneCovers(rules, zoneId, Foreign(rules), recordId, op);
    }
  }

  ghost predicate CoversAt(rule: Rule, zoneId: string, image: Image, recordId: string, op: Need) {
    && rule.Admits(zoneId, image.rtype, Some(recordId)) && rule.Allows(op)
    && (rule.namePattern == None
        || (CanonicalName(image.name).Some?
            && Grants(rule, zoneId, CanonicalName(image.name).value, image.rtype, Some(recordId), op)))
  }

  lemma NoneCovers(rules: seq<Rule>, zoneId: string, image: Image, recordId: string, op: Need)
    requires forall i | 0 <= i < |rules| :: !CoversAt(rules[i], zoneId, image, recordId, op)
    ensures !Covers(rules, zoneId, image, Some(recordId), op)
  {
    hide Grants, CanonicalName;
    forall i | 0 <= i < |rules|
      ensures !(&& rules[i].Admits(zoneId, image.rtype, Some(recordId)) && rules[i].Allows(op)
                && (rules[i].namePattern == None
                    || (CanonicalName(image.name).Some?
                        && Grants(rules[i], zoneId, CanonicalName(image.name).value, image.rtype, Some(recordId), op))))
    {
      assert !CoversAt(rules[i], zoneId, image, recordId, op);
    }
  }

  lemma NotCoveredAt(rules: seq<Rule>, i: nat, zoneId: string, recordId: string, op: Need)
    requires i < |rules| && !FullRule(rules[i], zoneId, recordId, op)
    ensures !CoversAt(rules[i], zoneId, Foreign(rules), recordId, op)
  {
    hide Unmatched, UnlistedType, NameMatches;
    UnmatchedName(rules);
    TypeUnlisted(rules, i);
    OnlyNamelessGrants(rules, i, zoneId, Some(UnlistedType(rules)), Some(recordId), op);
  }

  /** A request that keeps the record's name and type: an empty update, or a delete. */
  function Victim(rules: seq<Rule>, op: Need, zoneId: string, recordId: string): Request {
    Request(rules, if op == Delete then DeleteMethod else Patch, zoneId, recordId, None, "")
  }

  /** A request that gives the record another name and type. */
  function Renaming(rules: seq<Rule>, zoneId: string, recordId: string, image: Image): Request {
    Request(rules, Patch, zoneId, recordId, Some(Body(Present(image.name), Present(image.rtype), Absent)), "")
  }

  lemma VictimAllowed(lockName: LockName, upstream: map<string, Stored>, rules: seq<Rule>, op: Need, zoneId: string,
                      recordId: string, record: Record)
    requires op == Write || op == Delete
    requires record.zoneId == None && upstream == map[recordId := Stored(zoneId, record)]
    requires MatchRules(rules, zoneId, record.image.name, record.image.rtype, Some(recordId), op) == Granted
    ensures Forwardable(ProxyConfig(lockName), upstream, Victim(rules, op, zoneId, recordId), record)
  {
    hide MatchRules;
    var r := Victim(rules, op, zoneId, recordId);
    assert PostImage(r.m, r.body, record.image) == record.image;
    AllowedMeaning(rules, r.m, zoneId, recordId, r.body, (zone, id) => Found(record));
  }

  lemma RenamingAllowed(lockName: LockName, upstream: map<string, Stored>, rules: seq<Rule>, zoneId: string,
                        recordId: string, record: Record, image: Image)
    requires record.zoneId == None && upstream == map[recordId := Stored(zoneId, record)]
    requires MatchRules(rules, zoneId, record.image.name, record.image.rtype, Some(recordId), Write) == Granted
    requires MatchRules(rules, zoneId, image.name, image.rtype, Some(recordId), Write) == Granted
    ensures var r := Renaming(rules, zoneId, recordId, image);
      && Forwardable(ProxyConfig(lockName), upstream, r, record)
      && (forall other: Request | other.zoneId == zoneId && other.recordId == recordId ::
            var found := FoundRecord(Effect(upstream, r, ""), other); found.Some? && found.value.image == image)
  {
    hide MatchRules;
    var r := Renaming(rules, zoneId, recordId, image);
    assert PostImage(r.m, r.body, record.image) == image;
    AllowedMeaning(rules, r.m, zoneId, recordId, r.body, (zone, id) => Found(record));
  }

  /** The lock-exempt token is granted writing the record throughout: for every type that its
      rules list, each rule that would raise stands behind a nameless one that grants. */
  predicate GrantedThroughout(rules: seq<Rule>, zoneId: string, recordId: string) {
    && IsLockExempt(rules, zoneId, recordId, Write)
    && forall k, rtype | 0 <= k < |rules| && rtype in rules[k].recordTypes ::
         Shielded(rules, zoneId, Some(rtype), Some(recordId), Write)
  }

  /** The listed types speak for all others. */
  lemma ShieldedThroughout(rules: seq<Rule>, zoneId: string, recordId: string, rtype: Option<string>)
    requires GrantedThroughout(rules, zoneId, recordId)
    ensures Shielded(rules, zoneId, rtype, Some(recordId), Write)
  {
    hide NormalizeFqdn, IsLockExempt;
    forall i | 0 <= i < |rules| && RuleTheorems.Broken(rules[i], zoneId, rtype, Some(recordId))
      ensures exists j | 0 <= j < i :: Nameless(rules[j], zoneId, rtype, Some(recordId), Write)
    {
      var listed := if "*" in rules[i].recordTypes then "*" else rtype.value;
      assert Shielded(rules, zoneId, Some(listed), Some(recordId), Write);
      var j :| 0 <= j < i && Nameless(rules[j], zoneId, Some(listed), Some(recordId), Write);
      assert Nameless(rules[j], zoneId, rtype, Some(recordId), Write);
    }
  }

  lemma GrantedOnNames(rules: seq<Rule>, zoneId: string, recordId: string, image: Image)
    requires GrantedThroughout(rules, zoneId, recordId) && CanonicalName(image.name).Some?
    ensures MatchRules(rules, zoneId, image.name, image.rtype, Some(recordId), Write) == Granted
  {
    hide MatchRules, Shielded, CanonicalName, IsLockExempt;
    ExemptGrantedExactly(rules, zoneId, recordId, Write, image.rtype);
    ShieldedThroughout(rules, zoneId, recordId, image.rtype);
  }

  /** Being granted throughout is being granted on every image whose name normalizes. */
  lemma GrantedThroughoutExactly(rules: seq<Rule>, zoneId: string, recordId: string)
    requires IsLockExempt(rules, zoneId, recordId, Write)
    ensures GrantedThroughout(rules, zoneId, recordId)
      <==> forall image: Image | CanonicalName(image.name).Some? ::
             MatchRules(rules, zoneId, image.name, image.rtype, Some(recordId), Write) == Granted
  {
    hide MatchRules, Shielded, CanonicalName, IsLockExempt;
    if GrantedThroughout(rules, zoneId, recordId) {
      forall image: Image | CanonicalName(image.name).Some?
        ensures MatchRules(rules, zoneId, image.name, image.rtype, Some(recordId), Write) == Granted
      {
        GrantedOnNames(rules, zoneId, recordId, image);
      }
    }
    if forall image: Image | CanonicalName(image.name).Some? ::
         MatchRules(rules, zoneId, image.name, image.rtype, Some(recordId), Write) == Granted {
      forall k, rtype | 0 <= k < |rules| && rtype in rules[k].recordTypes
        ensures Shielded(rules, zoneId, Some(rtype), Some(recordId), Write)
      {
        forall name | CanonicalName(name).Some?
          ensures MatchRules(rules, zoneId, name, Some(rtype), Some(recordId), Write) == Granted
        {
          assert CanonicalName(Image(name, Some(rtype)).name).Some?;
        }
        ExemptGrantedExactly(rules, zoneId, recordId, Write, Some(rtype));
      }
    }
  }

  /** A token that is granted throughout races on the record under whatever name it has. */
  lemma NamedRecordsRace(lockName: LockName, upstream: map<string, Stored>, rules: seq<Rule>, zoneId: string,
                         recordId: string) returns (r: Request)
    requires GrantedThroughout(rules, zoneId, recordId)
    requires recordId in upstream && upstream[recordId].zone == zoneId
    requires upstream[recordId].record.zoneId == None || upstream[recordId].record.zoneId == Some(zoneId)
    requires CanonicalName(upstream[recordId].record.image.name).Some?
    ensures r.rules == rules
    ensures Run(ProxyConfig(lockName), Init(upstream), RaceActions(r, r)).Some?
    ensures var t := Run(ProxyConfig(lockName), Init(upstream), RaceActions(r, r)).value;
      t.requests == map[1 := r, 2 := r] && !ActsOnFetched(t, zoneId, recordId)
  {
    hide MatchRules, IsLockExempt, RaceActions, Shielded, CanonicalName, ActsOnFetched, Run;
    GrantedOnNames(rules, zoneId, recordId, upstream[recordId].record.image);
    r := ExemptTokensRace(lockName, upstream, rules, Write, zoneId, recordId);
  }

  lemma GrantedNormalizes(rules: seq<Rule>, zoneId: string, image: Image, recordId: string, op: Need)
    requires MatchRules(rules, zoneId, image.name, image.rtype, Some(recordId), op) == Granted
    ensures CanonicalName(image.name).Some?
  {
  }

  /** The escape. A token has its request granted on one image of the record; a lock-exempt token
      then gives the record another image that the first token's rules do not cover; and the
      first token's forward, which holds the lock, acts on a record out of its scope. */
  lemma EscapesTo(lockName: LockName, rules: seq<Rule>, op: Need, exempt: seq<Rule>, zoneId: string, recordId: string,
                  image: Image, away: Image) returns (upstream: map<string, Stored>, actions: seq<Action>)
    requires op == Write || op == Delete
    requires MatchRules(rules, zoneId, image.name, image.rtype, Some(recordId), op) == Granted
    requires !Covers(rules, zoneId, away, Some(recordId), op)
    requires IsLockExempt(exempt, zoneId, recordId, Write)
    requires MatchRules(exempt, zoneId, image.name, image.rtype, Some(recordId), Write) == Granted
    requires MatchRules(exempt, zoneId, away.name, away.rtype, Some(recordId), Write) == Granted
    ensures Run(ProxyConfig(lockName), Init(upstream), actions).Some?
    ensures var t := Run(ProxyConfig(lockName), Init(upstream), actions).value;
      && UsesOnly(t, {rules, exempt})
      && !AllInScope(t, zoneId, recordId)
  {
    hide MatchRules, IsLockExempt, RaceActions, Effect, Forwardable, Covers;
    var config := ProxyConfig(lockName);
    var record := Record(Some(recordId), None, image, None);
    upstream := map[recordId := Stored(zoneId, record)];
    var one, two := Victim(rules, op, zoneId, recordId), Renaming(exempt, zoneId, recordId, away);
    VictimAllowed(lockName, upstream, rules, op, zoneId, recordId, record);
    RenamingAllowed(lockName, upstream, exempt, zoneId, recordId, record, away);
    actions := RaceActions(one, two);
    RaceRun(config, upstream, one, two, record);
    OutsideItsScope(Run(config, Init(upstream), actions).value, one, rules, op, zoneId, recordId, away);
  }

  /** So it is with every token that may write or delete the record under some names and types but
      not under all of them, next to a lock-exempt token that is granted throughout. */
  lemma EscapesScope(lockName: LockName, rules: seq<Rule>, op: Need, exempt: seq<Rule>, zoneId: string,
                     recordId: string)
    returns (upstream: map<string, Stored>, actions: seq<Action>)
    requires op == Write || op == Delete
    requires Grantable(rules, zoneId, Some(recordId), op) && !CoversFully(rules, zoneId, recordId, op)
    requires GrantedThroughout(exempt, zoneId, recordId)
    ensures Run(ProxyConfig(lockName), Init(upstream), actions).Some?
    ensures var t := Run(ProxyConfig(lockName), Init(upstream), actions).value;
      && UsesOnly(t, {rules, exempt})
      && !AllInScope(t, zoneId, recordId)
  {
    hide MatchRules, IsLockExempt, Shielded, CoversFully, Foreign, Covers, Grantable, Run, AllInScope;
    GrantableExactly(rules, zoneId, Some(recordId), op);
    var image: Image :| MatchRules(rules, zoneId, image.name, image.rtype, Some(recordId), op) == Granted;
    GrantedNormalizes(rules, zoneId, image, recordId, op);
    ForeignNormalizes(rules);
    GrantedOnNames(exempt, zoneId, recordId, image);
    GrantedOnNames(exempt, zoneId, recordId, Foreign(rules));
    CoversFullyExactly(rules, zoneId, recordId, op);
    upstream, actions := EscapesTo(lockName, rules, op, exempt, zoneId, recordId, image, Foreign(rules));
  }

  lemma ForeignNormalizes(rules: seq<Rule>)
    ensures CanonicalName(Foreign(rules).name).Some?
  {
    hide Unmatched, CanonicalName;
    UnmatchedName(rules);
  }

  lemma OutsideItsScope(t: State, one: Request, rules: seq<Rule>, op: Need, zoneId: string, recordId: string,
                        away: Image)
    requires op == Write || op == Delete
    requires one == Victim(rules, op, zoneId, recordId)
    requires !Covers(rules, zoneId, away, Some(recordId), op)
    requires |t.events| == 2 && t.events[1].q in t.requests && t.requests[t.events[1].q] == one && t.events[1].applied
    requires t.events[1].found.Some? && t.events[1].found.value.image == away
    ensures !AllInScope(t, zoneId, recordId)
  {
    hide Covers;
    assert !InOwnScope(one, t.events[1].found.value.image);
  }

  /** Every forward that the upstream applied to the record was in its own token's scope. */
  ghost predicate AllInScope(s: State, zoneId: string, recordId: string) {
    forall k | 0 <= k < |s.events| && s.events[k].q in s.requests ::
      var request, e := s.requests[s.events[k].q], s.events[k];
      request.m != Post && request.zoneId == zoneId && request.recordId == recordId && e.applied && e.found.Some? ==>
        InOwnScope(request, e.found.value.image)
  }

  ghost predicate ScopedRun(lockName: LockName, tokens: set<seq<Rule>>, zoneId: string, recordId: string,
                            upstream: map<string, Stored>, actions: seq<Action>)
  {
    var end := Run(ProxyConfig(lockName), Init(upstream), actions);
    end.Some? && UsesOnly(end.value, tokens) ==> AllInScope(end.value, zoneId, recordId)
  }

  /** The token's rules cover the operation on the record always or never grant it. */
  predicate AllOrNothing(rules: seq<Rule>, zoneId: string, recordId: string, op: Need) {
    CoversFully(rules, zoneId, recordId, op) || !Grantable(rules, zoneId, Some(recordId), op)
  }

  /** No token is lock-exempt for writing the record, or every token may write it, and may delete
      it, under all names and types or under none. */
  predicate Separated(tokens: set<seq<Rule>>, zoneId: string, recordId: string) {
    || (forall rules | rules in tokens :: !IsLockExempt(rules, zoneId, recordId, Write))
    || (forall rules | rules in tokens ::
          AllOrNothing(rules, zoneId, recordId, Write) && AllOrNothing(rules, zoneId, recordId, Delete))
  }

  lemma SeparatedRun(lockName: LockName, tokens: set<seq<Rule>>, zoneId: string, recordId: string,
                     upstream: map<string, Stored>, actions: seq<Action>)
    requires Separated(tokens, zoneId, recordId)
    ensures ScopedRun(lockName, tokens, zoneId, recordId, upstream, actions)
  {
    hide Run, MatchRules, Covers, IsLockExempt, CoversFully, KeptToScope;
    var end := Run(ProxyConfig(lockName), Init(upstream), actions);
    if end.Some? && UsesOnly(end.value, tokens) {
      var t := end.value;
      ProxyRun(lockName, upstream, actions);
      forall k | 0 <= k < |t.events| && t.events[k].q in t.requests && t.requests[t.events[k].q].m != Post
                 && t.requests[t.events[k].q].zoneId == zoneId && t.requests[t.events[k].q].recordId == recordId
                 && t.events[k].found.Some?
        ensures InOwnScope(t.requests[t.events[k].q], t.events[k].found.value.image)
      {
        KeepsToScope(lockName, upstream, actions, k);
        SeparatedEvent(t.requests, t.events[k], tokens, zoneId, recordId);
      }
    }
  }

  lemma SeparatedEvent(requests: map<nat, Request>, e: Event, tokens: set<seq<Rule>>, zoneId: string, recordId: string)
    requires Separated(tokens, zoneId, recordId) && forall q | q in requests :: requests[q].rules in tokens
    requires KeptToScope(requests, e) && Mutating(requests[e.q].m) && requests[e.q].m != Post && e.found.Some?
    requires requests[e.q].zoneId == zoneId && requests[e.q].recordId == recordId
    ensures InOwnScope(requests[e.q], e.found.value.image)
  {
    hide MatchRules, Covers, IsLockExempt, CoversFully, Grantable;
    var request, found := requests[e.q], e.found.value.image;
    if OtherWritesExempt(requests, e.q, zoneId, recordId) {
      var p :| p in requests && p != e.q && requests[p].m != Post && requests[p].zoneId == zoneId
        && requests[p].recordId == recordId && Op(requests[p]) == Write
        && IsLockExempt(requests[p].rules, zoneId, recordId, Write);
      assert AllOrNothing(request.rules, zoneId, recordId, Op(request));
      var pre := e.pre.value.image;
      assert MatchRules(request.rules, zoneId, pre.name, pre.rtype, Some(recordId), Op(request)) == Granted;
      GrantableExactly(request.rules, zoneId, Some(recordId), Op(request));
      FullCovers(request.rules, zoneId, recordId, Op(request), found);
      FullCovers(request.rules, zoneId, recordId, Op(request), PostOf(request, found));
    }
  }

  /** Each token's own scope, exactly: in every run of these tokens all that is applied to the
      record is in the scope of the token that asked for it, if and only if the tokens are
      separated on the record. */
  lemma OwnScopeExactly(lockName: LockName, tokens: set<seq<Rule>>, zoneId: string, recordId: string)
    requires (exists rules | rules in tokens :: IsLockExempt(rules, zoneId, recordId, Write)) ==>
      exists rules | rules in tokens :: GrantedThroughout(rules, zoneId, recordId)
    ensures (forall upstream, actions :: ScopedRun(lockName, tokens, zoneId, recordId, upstream, actions))
      <==> Separated(tokens, zoneId, recordId)
  {
    hide IsLockExempt, Run, GrantedThroughout, AllInScope, CoversFully, Grantable;
    if Separated(tokens, zoneId, recordId) {
      forall upstream, actions
        ensures ScopedRun(lockName, tokens, zoneId, recordId, upstream, actions)
      {
        SeparatedRun(lockName, tokens, zoneId, recordId, upstream, actions);
      }
    } else {
      var exempt :| exempt in tokens && GrantedThroughout(exempt, zoneId, recordId);
      var rules :| rules in tokens
        && !(AllOrNothing(rules, zoneId, recordId, Write) && AllOrNothing(rules, zoneId, recordId, Delete));
      var op := if AllOrNothing(rules, zoneId, recordId, Write) then Delete else Write;
      var upstream, actions := EscapesScope(lockName, rules, op, exempt, zoneId, recordId);
      assert UsesOnly(Run(ProxyConfig(lockName), Init(upstream), actions).value, tokens);
      assert !ScopedRun(lockName, tokens, zoneId, recordId, upstream, actions);
    }
  }
}
