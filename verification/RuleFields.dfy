/** What rules say, column by column: the reference that matching and lock exemption are held
    against. Nothing here goes through the methods of `Rule`. */
module RuleFields {
  import opened Text
  import opened Fqdn
  import opened Scope
  import opened NameTheorems
  import opened RuleTheorems

  /** The column that grants the operation is set. */
  predicate Flagged(rule: Rule, need: Need) {
    || (need == Read && rule.allowRead)
    || (need == Create && rule.allowCreate)
    || (need == Write && rule.allowWrite)
    || (need == Delete && rule.allowDelete)
  }

  /** The rule is for records of this zone and type, and for this id if it lists any. */
  predicate IsFor(rule: Rule, zoneId: string, rtype: Option<string>, recordId: Option<string>) {
    && rule.zoneId == zoneId
    && ("*" in rule.recordTypes || exists t | t in rule.recordTypes :: rtype == Some(t))
    && (rule.recordIds.Some? && rule.recordIds.value != [] ==>
          exists id | id in rule.recordIds.value :: recordId == Some(id))
  }

  /** The canonical pattern is the canonical name, or is it but for its first "*" label. Other
      modes match nothing. */
  ghost predicate PatternFits(pattern: string, nameMatch: string, name: string) {
    || (nameMatch == "exact" && pattern == name)
    || (nameMatch == "wildcard" && exists piece :: ReplacesStar(pattern, piece, name))
  }

  /** The rule has no pattern, or there is a name and it fits. */
  ghost predicate NameFits(rule: Rule, name: Option<string>) {
    match rule.namePattern
    case None => true
    case Some(pattern) =>
      && name.Some? && NormalizeFqdn(pattern).Some? && NormalizeFqdn(name.value).Some?
      && PatternFits(NormalizeFqdn(pattern).value, rule.nameMatch, NormalizeFqdn(name.value).value)
  }

  /** The rule grants the operation on the record. */
  ghost predicate Says(rule: Rule, zoneId: string, name: Option<string>, rtype: Option<string>,
                       recordId: Option<string>, need: Need)
  {
    IsFor(rule, zoneId, rtype, recordId) && NameFits(rule, name) && Flagged(rule, need)
  }

  /** The rule raises on the record: its pattern is tried and cannot be normalized. */
  predicate Breaks(rule: Rule, zoneId: string, name: Option<string>, rtype: Option<string>, recordId: Option<string>) {
    && IsFor(rule, zoneId, rtype, recordId)
    && name.Some? && rule.namePattern.Some? && NormalizeFqdn(rule.namePattern.value) == None
  }

  lemma AdmitsIsFor(rule: Rule, zoneId: string, rtype: Option<string>, recordId: Option<string>)
    ensures rule.Admits(zoneId, rtype, recordId) <==> IsFor(rule, zoneId, rtype, recordId)
  {
  }

  lemma AllowsIsFlagged(rule: Rule, need: Need)
    ensures rule.Allows(need) <==> Flagged(rule, need)
  {
  }

  lemma NamesFit(pattern: string, nameMatch: string, mode: NameMatch, name: string)
    requires mode == if nameMatch == "exact" then Exact else if nameMatch == "wildcard" then Wildcard else UnknownMatch
    ensures NameMatches(pattern, mode, name) == Some(true)
      <==> NormalizeFqdn(pattern).Some? && NormalizeFqdn(name).Some?
           && PatternFits(NormalizeFqdn(pattern).value, nameMatch, NormalizeFqdn(name).value)
  {
    hide NormalizeFqdn, LabelsMatch, ReplacesStar, Split;
    if NormalizeFqdn(pattern).Some? && NormalizeFqdn(name).Some? {
      WildcardMeaning(pattern, name);
      ModesDiffer(nameMatch);
    }
  }

  lemma ModesDiffer(nameMatch: string)
    ensures !(nameMatch == "exact" && nameMatch == "wildcard")
  {
    assert "exact"[0] != "wildcard"[0];
  }

  lemma GrantsSays(rule: Rule, zoneId: string, name: Option<string>, rtype: Option<string>, recordId: Option<string>,
                   need: Need)
    ensures Grants(rule, zoneId, name, rtype, recordId, need) <==> Says(rule, zoneId, name, rtype, recordId, need)
  {
    hide NormalizeFqdn, NameMatches, PatternFits, IsFor, Flagged;
    AdmitsIsFor(rule, zoneId, rtype, recordId);
    AllowsIsFlagged(rule, need);
    if rule.namePattern.Some? && name.Some? {
      NamesFit(rule.namePattern.value, rule.nameMatch, rule.Mode(), name.value);
    }
  }

  lemma StumblesBreaks(rule: Rule, zoneId: string, name: Option<string>, rtype: Option<string>,
                       recordId: Option<string>)
    requires name.Some? ==> NormalizeFqdn(name.value).Some?
    ensures Stumbles(rule, zoneId, name, rtype, recordId) <==> Breaks(rule, zoneId, name, rtype, recordId)
  {
    hide NormalizeFqdn, NameMatches, IsFor;
    AdmitsIsFor(rule, zoneId, rtype, recordId);
    if rule.namePattern.Some? && name.Some? {
      RaisesOnlyOnNames(rule.namePattern.value, rule.Mode(), name.value);
    }
  }

  /** Rule `k` grants, and none ahead of it raises. */
  ghost predicate SaysAt(rules: seq<Rule>, k: nat, zoneId: string, name: Option<string>, rtype: Option<string>,
                         recordId: Option<string>, need: Need)
  {
    && k < |rules| && Says(rules[k], zoneId, name, rtype, recordId, need)
    && forall j | 0 <= j < k :: !Breaks(rules[j], zoneId, name, rtype, recordId)
  }

  ghost predicate BreaksAt(rules: seq<Rule>, k: nat, zoneId: string, name: Option<string>, rtype: Option<string>,
                           recordId: Option<string>, need: Need)
  {
    && k < |rules| && Breaks(rules[k], zoneId, name, rtype, recordId)
    && forall j | 0 <= j < k :: !Says(rules[j], zoneId, name, rtype, recordId, need)
  }

  /** The canonical name of a record: none for a missing or an empty one. */
  predicate IsNameOf(name: Option<string>, n: Option<string>) {
    if name == None || name == Some("") then n == None
    else n.Some? && NormalizeFqdn(name.value) == n
  }

  lemma CanonicalIsName(name: Option<string>, n: Option<string>)
    ensures CanonicalName(name) == Some(n) <==> IsNameOf(name, n)
  {
    hide NormalizeFqdn;
  }

  /** Matching, column by column. It grants exactly when the name can be normalized and some rule
      for the record has the operation's own column set, has no pattern or one that fits, and no
      rule ahead of it raises; it raises exactly when the name cannot be normalized, or some rule
      raises and none ahead of it grants. */
  lemma MatchMeaning(rules: seq<Rule>, zoneId: string, name: Option<string>, rtype: Option<string>,
                     recordId: Option<string>, need: Need)
    ensures MatchRules(rules, zoneId, name, rtype, recordId, need) == Granted
      <==> exists n, k: nat :: IsNameOf(name, n) && SaysAt(rules, k, zoneId, n, rtype, recordId, need)
    ensures MatchRules(rules, zoneId, name, rtype, recordId, need) == Raised
      <==> (forall n :: !IsNameOf(name, n))
           || exists n, k: nat :: IsNameOf(name, n) && BreaksAt(rules, k, zoneId, n, rtype, recordId, need)
  {
    hide NormalizeFqdn, NameMatches, ScanRules, Grants, Stumbles, Says, Breaks, IsNameOf;
    forall n ensures CanonicalName(name) == Some(n) <==> IsNameOf(name, n) {
      CanonicalIsName(name, n);
    }
    if CanonicalName(name).Some? {
      var n := CanonicalName(name).value;
      if n.Some? {
        CanonicalNameNormalizes(name);
      }
      ScanMeaning(rules, zoneId, n, rtype, recordId, need);
      forall k: nat
        ensures GrantedAt(rules, k, zoneId, n, rtype, recordId, need)
          <==> SaysAt(rules, k, zoneId, n, rtype, recordId, need)
        ensures RaisedAt(rules, k, zoneId, n, rtype, recordId, need)
          <==> BreaksAt(rules, k, zoneId, n, rtype, recordId, need)
      {
        forall j | 0 <= j < |rules|
          ensures Grants(rules[j], zoneId, n, rtype, recordId, need)
            <==> Says(rules[j], zoneId, n, rtype, recordId, need)
          ensures Stumbles(rules[j], zoneId, n, rtype, recordId) <==> Breaks(rules[j], zoneId, n, rtype, recordId)
        {
          GrantsSays(rules[j], zoneId, n, rtype, recordId, need);
          StumblesBreaks(rules[j], zoneId, n, rtype, recordId);
        }
      }
    }
  }

  /** Lock exemption, column by column: a rule of the zone that lists the record's id, lists all
      types as its only entry, has no pattern and has the operation's own column set. */
  lemma ExemptMeaning(rules: seq<Rule>, zoneId: string, recordId: string, op: Need)
    ensures IsLockExempt(rules, zoneId, recordId, op)
      <==> exists rule | rule in rules ::
             && rule.zoneId == zoneId && rule.namePattern == None && rule.recordTypes == ["*"]
             && rule.recordIds.Some? && recordId in rule.recordIds.value && Flagged(rule, op)
  {
    if IsLockExempt(rules, zoneId, recordId, op) {
      var i :| 0 <= i < |rules| && ExemptRule(rules[i], zoneId, recordId, op);
      AllowsIsFlagged(rules[i], op);
      assert rules[i] in rules;
    }
    if rule :| rule in rules && rule.zoneId == zoneId && rule.namePattern == None && rule.recordTypes == ["*"]
               && rule.recordIds.Some? && recordId in rule.recordIds.value && Flagged(rule, op) {
      AllowsIsFlagged(rule, op);
      var i :| 0 <= i < |rules| && rules[i] == rule;
      assert ExemptRule(rules[i], zoneId, recordId, op);
    }
  }

  /** The rules differ at most in the columns of other operations. */
  predicate AlikeFor(one: Rule, two: Rule, need: Need) {
    && one.zoneId == two.zoneId && one.namePattern == two.namePattern && one.nameMatch == two.nameMatch
    && one.recordTypes == two.recordTypes && one.recordIds == two.recordIds
    && (need == Read ==> one.allowRead == two.allowRead)
    && (need == Create ==> one.allowCreate == two.allowCreate)
    && (need == Write ==> one.allowWrite == two.allowWrite)
    && (need == Delete ==> one.allowDelete == two.allowDelete)
  }

  /** Operations are granted apart: changing the columns of other operations, in any rules,
      changes no answer about this one. */
  lemma OtherColumnsDoNotCount(one: seq<Rule>, two: seq<Rule>, zoneId: string, name: Option<string>,
                               rtype: Option<string>, recordId: Option<string>, need: Need)
    requires |one| == |two| && forall i | 0 <= i < |one| :: AlikeFor(one[i], two[i], need)
    ensures MatchRules(one, zoneId, name, rtype, recordId, need) == MatchRules(two, zoneId, name, rtype, recordId, need)
    ensures recordId.Some? ==>
      IsLockExempt(one, zoneId, recordId.value, need) == IsLockExempt(two, zoneId, recordId.value, need)
  {
    hide ScanRules, NormalizeFqdn;
    if CanonicalName(name).Some? {
      AlikeScan(one, two, zoneId, CanonicalName(name).value, rtype, recordId, need);
    }
    if recordId.Some? {
      forall i | 0 <= i < |one|
        ensures ExemptRule(one[i], zoneId, recordId.value, need) == ExemptRule(two[i], zoneId, recordId.value, need)
      {
        assert AlikeFor(one[i], two[i], need);
      }
    }
  }

  lemma AlikeVerdict(one: Rule, two: Rule, zoneId: string, name: Option<string>, rtype: Option<string>,
                     recordId: Option<string>, need: Need)
    requires AlikeFor(one, two, need)
    ensures RuleVerdict(one, zoneId, name, rtype, recordId, need)
      == RuleVerdict(two, zoneId, name, rtype, recordId, need)
  {
    hide NameMatches;
  }

  lemma {:induction false} AlikeScan(one: seq<Rule>, two: seq<Rule>, zoneId: string, name: Option<string>,
                                     rtype: Option<string>, recordId: Option<string>, need: Need)
    requires |one| == |two| && forall i | 0 <= i < |one| :: AlikeFor(one[i], two[i], need)
    ensures ScanRules(one, zoneId, name, rtype, recordId, need) == ScanRules(two, zoneId, name, rtype, recordId, need)
  {
    hide RuleVerdict, AlikeFor;
    if one != [] {
      AlikeVerdict(one[0], two[0], zoneId, name, rtype, recordId, need);
      AlikeScan(one[1..], two[1..], zoneId, name, rtype, recordId, need);
    }
  }
}
