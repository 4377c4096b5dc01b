/** Validation of scope rules before a token is minted, and what it buys: when every grant of a
    minted token is pinned to a listed record id or to a name in the rule's zone. */
module Minting {
  import opened Text
  import opened Fqdn
  import opened Scope
  import opened NameTheorems
  import opened RuleTheorems
  import opened Granting

  /** Python truth of an optional string or list. */
  predicate Truthy<T>(value: Option<seq<T>>) {
    value.Some? && |value.value| > 0
  }

  /** One rule on its own, against the upstream's zone names by zone id. */
  predicate RuleValid(rule: Rule, zoneNames: map<string, string>) {
    && (Truthy(rule.namePattern) || Truthy(rule.recordIds))
    && (Truthy(rule.namePattern) ==>
          && rule.zoneId in zoneNames
          && AcceptsPattern(rule.namePattern.value, rule.Mode(), zoneNames[rule.zoneId]))
  }

  /** The same, column by column: the rule has a pattern or record ids, and a pattern that it has
      is accepted for the name of its zone, which the upstream knows. */
  predicate MayBeStored(rule: Rule, zoneNames: map<string, string>) {
    var named := rule.namePattern.Some? && rule.namePattern.value != "";
    && (named || (rule.recordIds.Some? && rule.recordIds.value != []))
    && (named ==>
          && rule.zoneId in zoneNames
          && AcceptsPattern(rule.namePattern.value,
                            if rule.nameMatch == "exact" then Exact
                            else if rule.nameMatch == "wildcard" then Wildcard else UnknownMatch,
                            zoneNames[rule.zoneId]))
  }

  lemma ValidIsStored(rules: seq<Rule>, zoneNames: map<string, string>)
    ensures (forall i | 0 <= i < |rules| :: RuleValid(rules[i], zoneNames))
      <==> forall rule | rule in rules :: MayBeStored(rule, zoneNames)
  {
    hide AcceptsPattern;
    forall i | 0 <= i < |rules| ensures RuleValid(rules[i], zoneNames) <==> MayBeStored(rules[i], zoneNames) {
    }
    forall rule | rule in rules ensures exists i :: 0 <= i < |rules| && rules[i] == rule {
    }
  }

  ghost predicate Distinct<T>(s: seq<T>) {
    forall i, j | 0 <= i < j < |s| :: s[i] != s[j]
  }

  /** Some rule with a name pattern belongs to the zone. */
  predicate NeedsZone(rules: seq<Rule>, zone: string) {
    exists i | 0 <= i < |rules| :: Truthy(rules[i].namePattern) && rules[i].zoneId == zone
  }

  lemma NeedsZoneNext(rules: seq<Rule>, i: nat)
    requires i < |rules|
    ensures forall zone :: (NeedsZone(rules[..i + 1], zone)
      <==> NeedsZone(rules[..i], zone) || (Truthy(rules[i].namePattern) && rules[i].zoneId == zone))
  {
    forall zone | NeedsZone(rules[..i], zone)
      ensures NeedsZone(rules[..i + 1], zone)
    {
      var j :| 0 <= j < i && Truthy(rules[j].namePattern) && rules[j].zoneId == zone;
      assert rules[..i + 1][j] == rules[j];
    }
    assert rules[..i + 1][i] == rules[i];
  }

  /** `_validate_scope_rules`: scans the rules in order, remembers each zone name that it has
      asked for, and stops at the first rule that is not valid. `requests` lists the zone ids
      it asks the upstream about. */
  method ValidateScopeRules(rules: seq<Rule>, zoneNames: map<string, string>)
    returns (valid: bool, requests: seq<string>)
    ensures valid <==> rules != [] && forall i | 0 <= i < |rules| :: RuleValid(rules[i], zoneNames)
    ensures valid <==> rules != [] && forall rule | rule in rules :: MayBeStored(rule, zoneNames)
    ensures Distinct(requests)
    ensures valid ==> forall zone ::
      (zone in requests <==> NeedsZone(rules, zone))
  {
    ValidIsStored(rules, zoneNames);
    requests := [];
    if rules == [] {
      return false, requests;
    }
    var zoneNameCache: map<string, string> := map[];
    for i := 0 to |rules|
      invariant forall j | 0 <= j < i :: RuleValid(rules[j], zoneNames)
      invariant Distinct(requests)
      invariant forall zone :: zone in requests <==> zone in zoneNameCache
      invariant forall zone | zone in zoneNameCache :: zone in zoneNames && zoneNameCache[zone] == zoneNames[zone]
      invariant forall zone :: (zone in requests <==> NeedsZone(rules[..i], zone))
    {
      NeedsZoneNext(rules, i);
      var rule := rules[i];
      if !Truthy(rule.namePattern) && !Truthy(rule.recordIds) {
        return false, requests;
      }
      if Truthy(rule.namePattern) {
        if rule.zoneId !in zoneNameCache {
          requests := requests + [rule.zoneId];
          if rule.zoneId !in zoneNames {
            return false, requests;
          }
          zoneNameCache := zoneNameCache[rule.zoneId := zoneNames[rule.zoneId]];
        }
        if !AcceptsPattern(rule.namePattern.value, rule.Mode(), zoneNameCache[rule.zoneId]) {
          return false, requests;
        }
      }
    }
    assert rules[..|rules|] == rules;
    valid := true;
  }

  /** Where an accepted pattern stays inside the zone it was accepted for: an exact pattern
      other than the apex marker (unless the zone is named so), or a wildcard that cannot be
      normalized, has no star label, or has the zone's labels right of its star. */
  predicate StaysInZone(pattern: string, mode: NameMatch, zone: string) {
    match mode
    case Exact => pattern != "@" || zone == "@"
    case UnknownMatch => true
    case Wildcard =>
      match NormalizeFqdn(pattern)
      case None => true
      case Some(p) => StarIndex(Split(p, '.')) == None || IsSuffix(Split(zone, '.'), RightOfStar(p))
  }

  /** An accepted pattern matches only names in its zone exactly when it stays in the zone. */
  lemma AcceptedConfined(pattern: string, mode: NameMatch, zoneName: string)
    requires AcceptsPattern(pattern, mode, zoneName)
    requires NormalizeFqdn(zoneName).Some?
    ensures var zone := NormalizeFqdn(zoneName).value;
      Confined(pattern, mode, zone) <==> StaysInZone(pattern, mode, zone)
  {
    hide NormalizeFqdn, Confined, AcceptsPattern, Split, IsSuffix, RightOfStar;
    var zone := NormalizeFqdn(zoneName).value;
    match mode
    case Exact => ExactConfined(pattern, zoneName);
    case UnknownMatch => UnknownConfined(pattern, zone);
    case Wildcard =>
      if NormalizeFqdn(pattern) == None || StarIndex(Split(NormalizeFqdn(pattern).value, '.')) == None {
        WildcardVacuous(pattern, zone);
      } else {
        WildcardConfined(pattern, zone);
      }
  }

  lemma UnknownConfined(pattern: string, zone: string)
    ensures Confined(pattern, UnknownMatch, zone)
  {
    hide NormalizeFqdn;
  }

  lemma AcceptedZoneNormalizes(pattern: string, mode: NameMatch, zoneName: string)
    requires AcceptsPattern(pattern, mode, zoneName)
    ensures NormalizeFqdn(zoneName).Some?
  {
  }

  /** The record is one that the rule lists by id, or its name lies in the rule's zone. */
  ghost predicate PinnedOrInZone(rule: Rule, zoneNames: map<string, string>, zoneId: string,
                                 name: Option<string>, recordId: Option<string>)
  {
    && rule.zoneId == zoneId
    && ((Truthy(rule.recordIds) && recordId.Some? && recordId.value in rule.recordIds.value)
        || (&& zoneId in zoneNames && NormalizeFqdn(zoneNames[zoneId]).Some?
            && CanonicalName(name).Some? && CanonicalName(name).value.Some?
            && var compared := NormalizeFqdn(CanonicalName(name).value.value);
            && compared.Some?
            && InZone(compared.value, NormalizeFqdn(zoneNames[zoneId]).value)))
  }

  /** Rule `k` grants the operation outside its zone: no id pins it, its pattern does not stay in
      the zone, and for some type that it lists no rule ahead of it raises. */
  predicate StraysAt(rules: seq<Rule>, k: nat, zoneNames: map<string, string>, zoneId: string, need: Need) {
    && k < |rules| && rules[k].zoneId == zoneId && rules[k].Allows(need)
    && Truthy(rules[k].namePattern) && !Truthy(rules[k].recordIds)
    && zoneId in zoneNames && NormalizeFqdn(zoneNames[zoneId]).Some?
    && !StaysInZone(rules[k].namePattern.value, rules[k].Mode(), NormalizeFqdn(zoneNames[zoneId]).value)
    && exists rtype | rtype in rules[k].recordTypes ::
         forall j | 0 <= j < k :: !Broken(rules[j], zoneId, Some(rtype), None)
  }

  predicate Strays(rules: seq<Rule>, zoneNames: map<string, string>, zoneId: string, need: Need) {
    exists k | 0 <= k < |rules| :: StraysAt(rules, k, zoneNames, zoneId, need)
  }

  /** A rule that grants on some record of a type grants on one of a listed type without an id. */
  lemma NoBreakAhead(rules: seq<Rule>, k: nat, zoneId: string, n: string, rtype: Option<string>,
                     recordId: Option<string>, need: Need) returns (listed: string)
    requires NormalizeFqdn(n).Some? && GrantedAt(rules, k, zoneId, Some(n), rtype, recordId, need)
    ensures listed in rules[k].recordTypes
    ensures forall j | 0 <= j < k :: !Broken(rules[j], zoneId, Some(listed), None)
  {
    hide NormalizeFqdn, NameMatches;
    listed := ListedType(rules, k, zoneId, rtype, recordId);
    forall j | 0 <= j < k ensures !Broken(rules[j], zoneId, Some(listed), None) {
      StumblesIsBroken(rules[j], zoneId, n, rtype, recordId);
      AlsoWithId(rules[j], zoneId, listed, recordId);
    }
  }

  lemma AlsoWithId(rule: Rule, zoneId: string, rtype: string, recordId: Option<string>)
    ensures Broken(rule, zoneId, Some(rtype), None) ==> Broken(rule, zoneId, Some(rtype), recordId)
  {
    hide NormalizeFqdn;
  }

  lemma GrantConfined(rules: seq<Rule>, zoneNames: map<string, string>, zoneId: string, name: Option<string>,
                      rtype: Option<string>, recordId: Option<string>, need: Need)
    requires forall i | 0 <= i < |rules| :: RuleValid(rules[i], zoneNames)
    requires !Strays(rules, zoneNames, zoneId, need)
    requires MatchRules(rules, zoneId, name, rtype, recordId, need) == Granted
    ensures exists i | 0 <= i < |rules| :: PinnedOrInZone(rules[i], zoneNames, zoneId, name, recordId)
  {
    hide NormalizeFqdn, NameMatches, ScanRules, Confined, StaysInZone, AcceptsPattern;
    var n := CanonicalName(name).value;
    ScanMeaning(rules, zoneId, n, rtype, recordId, need);
    var k: nat :| GrantedAt(rules, k, zoneId, n, rtype, recordId, need);
    var rule := rules[k];
    if Truthy(rule.namePattern) && !Truthy(rule.recordIds) {
      CanonicalNameNormalizes(name);
      var listed := NoBreakAhead(rules, k, zoneId, n.value, rtype, recordId, need);
      AcceptedZoneNormalizes(rule.namePattern.value, rule.Mode(), zoneNames[zoneId]);
      assert !StraysAt(rules, k, zoneNames, zoneId, need);
      AcceptedConfined(rule.namePattern.value, rule.Mode(), zoneNames[zoneId]);
      InsideByPattern(rule, NormalizeFqdn(zoneNames[zoneId]).value, n.value);
    }
    assert PinnedOrInZone(rule, zoneNames, zoneId, name, recordId);
  }

  lemma InsideByPattern(rule: Rule, zone: string, n: string)
    requires rule.namePattern.Some? && Confined(rule.namePattern.value, rule.Mode(), zone)
    requires NameMatches(rule.namePattern.value, rule.Mode(), n) == Some(true)
    ensures NormalizeFqdn(n).Some? && InZone(NormalizeFqdn(n).value, zone)
  {
    RaisesOnlyOnNames(rule.namePattern.value, rule.Mode(), n);
  }

  /** No rule pins the record by its id. */
  predicate UnpinnedBy(rules: seq<Rule>, recordId: Option<string>) {
    forall i | 0 <= i < |rules| && rules[i].recordIds.Some? && recordId.Some? ::
      recordId.value !in rules[i].recordIds.value
  }

  lemma UnpinnedIsNone(rules: seq<Rule>, j: nat, zoneId: string, rtype: string, recordId: Option<string>)
    requires UnpinnedBy(rules, recordId) && j < |rules|
    ensures Broken(rules[j], zoneId, Some(rtype), recordId) ==> Broken(rules[j], zoneId, Some(rtype), None)
  {
    hide NormalizeFqdn;
  }

  /** A record outside the zone on which the straying rule grants, under any id that none pins. */
  lemma StrayGrant(rules: seq<Rule>, k: nat, zoneNames: map<string, string>, zoneId: string, need: Need,
                   recordId: Option<string>) returns (name: string, rtype: string)
    requires k < |rules| && RuleValid(rules[k], zoneNames) && StraysAt(rules, k, zoneNames, zoneId, need)
    requires UnpinnedBy(rules, recordId)
    ensures MatchRules(rules, zoneId, Some(name), Some(rtype), recordId, need) == Granted
    ensures forall i | 0 <= i < |rules| :: !PinnedOrInZone(rules[i], zoneNames, zoneId, Some(name), recordId)
  {
    hide NormalizeFqdn, NameMatches, MatchRules, StaysInZone, AcceptsPattern, InZone, CanonicalName;
    var rule, zone := rules[k], NormalizeFqdn(zoneNames[zoneId]).value;
    AcceptedConfined(rule.namePattern.value, rule.Mode(), zoneNames[zoneId]);
    var target :| NameMatches(rule.namePattern.value, rule.Mode(), target) == Some(true)
      && !(NormalizeFqdn(target).Some? && InZone(NormalizeFqdn(target).value, zone));
    rtype :| rtype in rule.recordTypes && forall j | 0 <= j < k :: !Broken(rules[j], zoneId, Some(rtype), None);
    name := PresentedMatches(rule.namePattern.value, rule.Mode(), target);
    forall j | 0 <= j < k ensures !Broken(rules[j], zoneId, Some(rtype), recordId) {
      UnpinnedIsNone(rules, j, zoneId, rtype, recordId);
    }
    GrantedByPattern(rules, k, zoneId, Some(rtype), recordId, need, name);
  }

  /** From mint to match, exactly: all that a validated rule set grants is pinned by id, or its
      name, as the rules compare it, lies in the zone, if and only if no rule strays. */
  lemma MintedGrantsConfined(rules: seq<Rule>, zoneNames: map<string, string>, zoneId: string, need: Need)
    requires forall i | 0 <= i < |rules| :: RuleValid(rules[i], zoneNames)
    ensures (forall name, rtype, recordId | MatchRules(rules, zoneId, name, rtype, recordId, need) == Granted ::
               exists i | 0 <= i < |rules| :: PinnedOrInZone(rules[i], zoneNames, zoneId, name, recordId))
      <==> !Strays(rules, zoneNames, zoneId, need)
  {
    hide MatchRules, PinnedOrInZone, StraysAt, RuleValid;
    if !Strays(rules, zoneNames, zoneId, need) {
      forall name, rtype, recordId | MatchRules(rules, zoneId, name, rtype, recordId, need) == Granted
        ensures exists i | 0 <= i < |rules| :: PinnedOrInZone(rules[i], zoneNames, zoneId, name, recordId)
      {
        GrantConfined(rules, zoneNames, zoneId, name, rtype, recordId, need);
      }
    }
    if k :| 0 <= k < |rules| && StraysAt(rules, k, zoneNames, zoneId, need) {
      var name, rtype := StrayGrant(rules, k, zoneNames, zoneId, need, None);
      assert MatchRules(rules, zoneId, Some(name), Some(rtype), None, need) == Granted;
    }
  }
}
