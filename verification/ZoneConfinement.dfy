/** Zone confinement from mint to upstream: what validating the rules of a token buys for every
    forward that it ever brings about. */
module ZoneConfinement {
  import opened Text
  import opened Scope
  import opened Authorizer
  import opened RulesCache
  import Raising
  import L = TokenLifecycle
  import TokenSafety
  import P = MutationProtocol
  import MutationSafety
  import MutationScope
  import Minting
  import opened Composition
  import EndToEnd

  ghost predicate RulesValid(rules: seq<Rule>, zoneNames: map<string, string>) {
    forall i | 0 <= i < |rules| :: Minting.RuleValid(rules[i], zoneNames)
  }

  /** The action leaves stored rules alone, or mints rules that are valid for the zone names. */
  ghost predicate WritesValid(a: L.Action, zoneNames: map<string, string>) {
    a.Serve? ==>
      && !a.service.EditRules?
      && (a.service.Mint? && a.service.valid ==> RulesValid(RulesOf(a.service.rows), zoneNames))
  }

  ghost predicate AllWriteValid(actions: seq<Action>, zoneNames: map<string, string>) {
    forall i | 0 <= i < |actions| && actions[i].Life? :: WritesValid(actions[i].life, zoneNames)
  }

  ghost predicate StoredValid(s: L.State, zoneNames: map<string, string>) {
    forall x | x in s.rules :: RulesValid(RulesOf(s.rules[x]), zoneNames)
  }

  lemma ServedRules(s: L.State, service: L.Service)
    requires L.ServeStep(s, service).Some? && !service.EditRules?
    ensures L.ServeStep(s, service).value.rules
      == if service.Mint? then s.rules[service.tokenId := service.rows] else s.rules
    ensures service.Mint? ==> service.valid
  {
    hide L.Noted, L.CascadeRows, L.MintRow, L.RotateRow, L.FreshlyDrawn;
    match service
    case Mint(_, _, _, _, _, _, _, _) =>
    case Rotate(_, _, _, _) =>
    case Revoke(_, _) =>
    case DeleteCredential(_, _) =>
  }

  lemma StepKeepsValid(s: L.State, a: L.Action, zoneNames: map<string, string>)
    requires StoredValid(s, zoneNames) && L.Step(s, a).Some? && WritesValid(a, zoneNames)
    ensures StoredValid(L.Step(s, a).value, zoneNames)
  {
    hide RulesOf, RulesValid, L.ServeStep, L.Advance;
    match a
    case Serve(service) => ServedRules(s, service);
    case CacheLose(_) =>
    case Begin(_, _) =>
    case Do(rid, move) => TokenSafety.AdvanceSummary(s, rid, move);
  }

  lemma {:induction false} RunKeepsValid(config: P.Config, w: Whole, actions: seq<Action>,
                                         zoneNames: map<string, string>)
    requires StoredValid(w.life, zoneNames) && Run(config, w, actions).Some? && AllWriteValid(actions, zoneNames)
    ensures StoredValid(Run(config, w, actions).value.life, zoneNames)
    decreases |actions|
  {
    hide StoredValid, WritesValid, L.Step, P.Step, Admitted;
    if actions != [] {
      if actions[0].Life? {
        StepKeepsValid(w.life, actions[0].life, zoneNames);
      }
      RunKeepsValid(config, Step(config, w, actions[0]).value, actions[1..], zoneNames);
    }
  }

  /** A rule of the request's lists the record's id, or the name lies in the request's zone. */
  ghost predicate Placed(request: P.Request, zoneNames: map<string, string>, name: Option<string>,
                         recordId: Option<string>)
  {
    exists i | 0 <= i < |request.rules| ::
      Minting.PinnedOrInZone(request.rules[i], zoneNames, request.zoneId, name, recordId)
  }

  ghost predicate KeptInZone(request: P.Request, e: P.Event, zoneNames: map<string, string>) {
    if request.m == Post then Placed(request, zoneNames, MutationSafety.CreatedImage(request).name, None)
    else
      && e.pre.Some?
      && Placed(request, zoneNames, e.pre.value.image.name, Some(request.recordId))
      && Placed(request, zoneNames, MutationSafety.PostOf(request, e.pre.value.image).name, Some(request.recordId))
  }

  lemma GrantedInZone(request: P.Request, e: P.Event, requests: map<nat, P.Request>, zoneNames: map<string, string>)
    requires e.q in requests && requests[e.q] == request && MutationScope.KeptToScope(requests, e)
    requires RulesValid(request.rules, zoneNames)
    requires !Minting.Strays(request.rules, zoneNames, request.zoneId, P.Op(request))
    ensures KeptInZone(request, e, zoneNames)
  {
    hide MatchRules, Minting.Strays, Minting.RuleValid, Minting.PinnedOrInZone, MutationScope.InOwnScope,
         MutationScope.OtherWritesExempt;
    if request.m == Post {
      var image := MutationSafety.CreatedImage(request);
      Minting.GrantConfined(request.rules, zoneNames, request.zoneId, image.name, image.rtype, None, P.Op(request));
    } else {
      var pre, id := e.pre.value.image, Some(request.recordId);
      var post := MutationSafety.PostOf(request, pre);
      Minting.GrantConfined(request.rules, zoneNames, request.zoneId, pre.name, pre.rtype, id, P.Op(request));
      Minting.GrantConfined(request.rules, zoneNames, request.zoneId, post.name, post.rtype, id, P.Op(request));
    }
  }

  /** From mint to upstream. In every run whose rules were all validated when they were minted,
      every forward of a request none of whose rules strays was asked for on a record that is
      pinned by id or lies in the zone by name, and leaves its name there. */
  lemma ForwardsStayInZone(lockName: P.LockName, brand: string, credentials: map<string, string>,
                           upstream: map<string, P.Stored>, zoneNames: map<string, string>, actions: seq<Action>,
                           k: nat)
    requires Run(P.ProxyConfig(lockName), Init(brand, credentials, upstream), actions).Some?
    requires AllWriteValid(actions, zoneNames)
    requires var t := Run(P.ProxyConfig(lockName), Init(brand, credentials, upstream), actions).value;
      && k < |t.proxy.events| && t.proxy.events[k].q in t.proxy.requests
      && var request := t.proxy.requests[t.proxy.events[k].q];
      !Minting.Strays(request.rules, zoneNames, request.zoneId, P.Op(request))
    ensures var t := Run(P.ProxyConfig(lockName), Init(brand, credentials, upstream), actions).value;
      KeptInZone(t.proxy.requests[t.proxy.events[k].q], t.proxy.events[k], zoneNames)
  {
    hide Step, MutationScope.KeptToScope, KeptInZone, Minting.Strays, RulesValid, ReadWhenUsable, RulesOf;
    var config, w0 := P.ProxyConfig(lockName), Init(brand, credentials, upstream);
    var t := Run(config, w0, actions).value;
    ForwardsAreAuthorized(lockName, brand, credentials, upstream, actions, k);
    ValidIsNoEdit(actions, zoneNames);
    RunKeepsValid(config, w0, actions, zoneNames);
    var e := t.proxy.events[k];
    GrantedInZone(t.proxy.requests[e.q], e, t.proxy.requests, zoneNames);
  }

  lemma ValidIsNoEdit(actions: seq<Action>, zoneNames: map<string, string>)
    requires AllWriteValid(actions, zoneNames)
    ensures NoEdits(actions)
  {
    forall i | 0 <= i < |actions|
      ensures !(actions[i].Life? && actions[i].life.Serve? && actions[i].life.service.EditRules?)
    {
      assert actions[i].Life? ==> WritesValid(actions[i].life, zoneNames);
    }
  }

  /** A request that a straying rule grants on a record, or for a creation, outside its zone. */
  lemma StrayRequest(rules: seq<Rule>, zoneNames: map<string, string>, zoneId: string, op: Need)
    returns (request: P.Request, record: Record)
    requires op != Read && RulesValid(rules, zoneNames) && Minting.Strays(rules, zoneNames, zoneId, op)
    ensures request.rules == rules && request.zoneId == zoneId && P.Mutating(request.m) && P.Op(request) == op
    ensures EndToEnd.GrantedTo(request, record)
    ensures var image := if request.m == Post then MutationSafety.CreatedImage(request) else record.image;
      !Placed(request, zoneNames, image.name, if request.m == Post then None else Some(request.recordId))
  {
    hide MatchRules, Minting.RuleValid, Minting.StraysAt, Minting.PinnedOrInZone, Raising.UnlistedId;
    var k :| 0 <= k < |rules| && Minting.StraysAt(rules, k, zoneNames, zoneId, op);
    var id := Raising.UnlistedId(rules);
    forall i | 0 <= i < |rules| ensures rules[i].recordIds.Some? ==> id !in rules[i].recordIds.value {
      Raising.IdUnlisted(rules, i);
    }
    var name, rtype := Minting.StrayGrant(rules, k, zoneNames, zoneId, op, if op == Create then None else Some(id));
    record := Record(Some(id), None, Image(Some(name), Some(rtype)), None);
    request :=
      if op == Create then
        P.Request(rules, Post, zoneId, "", Some(Body(Present(Some(name)), Present(Some(rtype)), Absent)), "")
      else P.Request(rules, if op == Delete then DeleteMethod else Patch, zoneId, id, None, "");
    if op != Create {
      assert MutationSafety.PostOf(request, record.image) == record.image;
    }
  }

  lemma StraightWritesValid(brand: string, rows: seq<RuleRow>, request: P.Request, zoneNames: map<string, string>)
    requires RulesValid(RulesOf(rows), zoneNames)
    ensures AllWriteValid(EndToEnd.Straight(brand, rows, request), zoneNames)
  {
    hide RulesOf, RulesValid;
    var issuing := EndToEnd.Issuing(brand, request.credentialId, rows);
    forall i | 0 <= i < |issuing| ensures WritesValid(issuing[i], zoneNames) {
    }
  }

  /** All that the run forwards for the operation with these rules is kept in the zone. */
  ghost predicate RunKeptInZone(config: P.Config, w0: Whole, actions: seq<Action>, rules: seq<Rule>,
                                zoneNames: map<string, string>, zoneId: string, op: Need)
  {
    Run(config, w0, actions).Some? && AllWriteValid(actions, zoneNames) ==>
      var proxy := Run(config, w0, actions).value.proxy;
      forall e | e in proxy.events && e.q in proxy.requests ::
        var request := proxy.requests[e.q];
        (request.rules == rules && request.zoneId == zoneId && P.Op(request) == op ==>
           KeptInZone(request, e, zoneNames))
  }

  lemma StrayLeavesZone(lockName: P.LockName, brand: string, rows: seq<RuleRow>, zoneNames: map<string, string>,
                        zoneId: string, op: Need)
    returns (credentials: map<string, string>, upstream: map<string, P.Stored>, actions: seq<Action>)
    requires '_' !in brand && op != Read && RulesValid(RulesOf(rows), zoneNames)
    requires Minting.Strays(RulesOf(rows), zoneNames, zoneId, op)
    ensures !RunKeptInZone(P.ProxyConfig(lockName), Init(brand, credentials, upstream), actions, RulesOf(rows),
                           zoneNames, zoneId, op)
  {
    hide RulesOf, RulesValid, Minting.Strays, EndToEnd.GrantedTo, EndToEnd.Straight, Placed, Step;
    var request, record := StrayRequest(RulesOf(rows), zoneNames, zoneId, op);
    credentials := map[request.credentialId := EndToEnd.OWNER];
    upstream := if request.m == Post then map[] else EndToEnd.OneRecord(request, record);
    actions := EndToEnd.Straight(brand, rows, request);
    EndToEnd.GrantedIsForwarded(lockName, brand, rows, request, record);
    StraightWritesValid(brand, rows, request, zoneNames);
  }

  /** Zone confinement, exactly. For rules that minting accepts: in every run in which all stored
      rules were validated when they were minted, all that is forwarded with these rules is
      pinned by id or stays in the zone, if and only if none of the rules strays. */
  lemma ConfinedExactly(lockName: P.LockName, brand: string, rows: seq<RuleRow>, zoneNames: map<string, string>,
                        zoneId: string, op: Need)
    requires '_' !in brand && op != Read && RulesValid(RulesOf(rows), zoneNames)
    ensures (forall credentials, upstream, actions ::
               RunKeptInZone(P.ProxyConfig(lockName), Init(brand, credentials, upstream), actions, RulesOf(rows),
                             zoneNames, zoneId, op))
      <==> !Minting.Strays(RulesOf(rows), zoneNames, zoneId, op)
  {
    hide RulesOf, RulesValid, Minting.Strays, RunKeptInZone;
    if Minting.Strays(RulesOf(rows), zoneNames, zoneId, op) {
      var credentials, upstream, actions := StrayLeavesZone(lockName, brand, rows, zoneNames, zoneId, op);
    } else {
      forall credentials, upstream, actions
        ensures RunKeptInZone(P.ProxyConfig(lockName), Init(brand, credentials, upstream), actions, RulesOf(rows),
                              zoneNames, zoneId, op)
      {
        RunStaysInZone(lockName, brand, credentials, upstream, actions, RulesOf(rows), zoneNames, zoneId, op);
      }
    }
  }

  lemma RunStaysInZone(lockName: P.LockName, brand: string, credentials: map<string, string>,
                       upstream: map<string, P.Stored>, actions: seq<Action>, rules: seq<Rule>,
                       zoneNames: map<string, string>, zoneId: string, op: Need)
    requires !Minting.Strays(rules, zoneNames, zoneId, op)
    ensures RunKeptInZone(P.ProxyConfig(lockName), Init(brand, credentials, upstream), actions, rules, zoneNames,
                          zoneId, op)
  {
    hide Minting.Strays, KeptInZone, AllWriteValid, Step;
    var config, w0 := P.ProxyConfig(lockName), Init(brand, credentials, upstream);
    if Run(config, w0, actions).Some? && AllWriteValid(actions, zoneNames) {
      var proxy := Run(config, w0, actions).value.proxy;
      forall e | e in proxy.events && e.q in proxy.requests && proxy.requests[e.q].rules == rules
                 && proxy.requests[e.q].zoneId == zoneId && P.Op(proxy.requests[e.q]) == op
        ensures KeptInZone(proxy.requests[e.q], e, zoneNames)
      {
        var k :| 0 <= k < |proxy.events| && proxy.events[k] == e;
        ForwardsStayInZone(lockName, brand, credentials, upstream, zoneNames, actions, k);
      }
    }
  }
}
