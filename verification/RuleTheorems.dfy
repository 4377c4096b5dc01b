/** What `match_rules` and `is_lock_exempt` mean, stated over rules one at a time. */
module RuleTheorems {
  import opened Text
  import opened Fqdn
  import opened Scope
  import opened NameTheorems

  /** One rule on its own allows the operation. `name` is the canonical name, if any. */
  ghost predicate Grants(rule: Rule, zoneId: string, name: Option<string>, rtype: Option<string>,
                         recordId: Option<string>, need: Need)
  {
    && rule.Admits(zoneId, rtype, recordId)
    && rule.Allows(need)
    && (rule.namePattern == None
        || (name.Some? && NameMatches(rule.namePattern.value, rule.Mode(), name.value) == Some(true)))
  }

  /** Reaching this rule raises an error: its pattern is tried and cannot be normalized. */
  ghost predicate Stumbles(rule: Rule, zoneId: string, name: Option<string>, rtype: Option<string>,
                           recordId: Option<string>)
  {
    && rule.Admits(zoneId, rtype, recordId)
    && rule.namePattern.Some? && name.Some?
    && NameMatches(rule.namePattern.value, rule.Mode(), name.value) == None
  }

  /** The rule tries its pattern on records of this type and id, and the pattern raises. */
  predicate Broken(rule: Rule, zoneId: string, rtype: Option<string>, recordId: Option<string>) {
    && rule.Admits(zoneId, rtype, recordId)
    && rule.namePattern.Some? && NormalizeFqdn(rule.namePattern.value) == None
  }

  ghost predicate GrantedAt(rules: seq<Rule>, k: nat, zoneId: string, name: Option<string>,
                            rtype: Option<string>, recordId: Option<string>, need: Need)
  {
    && k < |rules|
    && Grants(rules[k], zoneId, name, rtype, recordId, need)
    && forall j | 0 <= j < k :: !Stumbles(rules[j], zoneId, name, rtype, recordId)
  }

  ghost predicate RaisedAt(rules: seq<Rule>, k: nat, zoneId: string, name: Option<string>,
                           rtype: Option<string>, recordId: Option<string>, need: Need)
  {
    && k < |rules|
    && Stumbles(rules[k], zoneId, name, rtype, recordId)
    && forall j | 0 <= j < k :: !Grants(rules[j], zoneId, name, rtype, recordId, need)
  }

  lemma VerdictMeaning(rule: Rule, zoneId: string, name: Option<string>, rtype: Option<string>,
                       recordId: Option<string>, need: Need)
    ensures RuleVerdict(rule, zoneId, name, rtype, recordId, need)
      == if Grants(rule, zoneId, name, rtype, recordId, need) then Granted
         else if Stumbles(rule, zoneId, name, rtype, recordId) then Raised
         else Refused
  {
    hide NameMatches;
  }

  function Verdicts(rules: seq<Rule>, zoneId: string, name: Option<string>, rtype: Option<string>,
                    recordId: Option<string>, need: Need): seq<Verdict>
  {
    seq(|rules|, i requires 0 <= i < |rules| => RuleVerdict(rules[i], zoneId, name, rtype, recordId, need))
  }

  function FirstDecisive(verdicts: seq<Verdict>): Verdict {
    if verdicts == [] then Refused
    else if verdicts[0] == Refused then FirstDecisive(verdicts[1..])
    else verdicts[0]
  }

  lemma {:induction false} ScanIsFirstDecisive(rules: seq<Rule>, zoneId: string, name: Option<string>,
                                               rtype: Option<string>, recordId: Option<string>, need: Need)
    ensures ScanRules(rules, zoneId, name, rtype, recordId, need)
      == FirstDecisive(Verdicts(rules, zoneId, name, rtype, recordId, need))
  {
    hide RuleVerdict;
    if rules != [] {
      ScanIsFirstDecisive(rules[1..], zoneId, name, rtype, recordId, need);
      assert Verdicts(rules, zoneId, name, rtype, recordId, need)[1..]
          == Verdicts(rules[1..], zoneId, name, rtype, recordId, need);
    }
  }

  ghost predicate DecidedAt(verdicts: seq<Verdict>, k: nat, verdict: Verdict) {
    k < |verdicts| && verdicts[k] == verdict && forall j | 0 <= j < k :: verdicts[j] == Refused
  }

  lemma {:induction false} FirstDecisiveMeaning(verdicts: seq<Verdict>) returns (k: nat)
    ensures FirstDecisive(verdicts) == Refused ==> forall i | 0 <= i < |verdicts| :: verdicts[i] == Refused
    ensures FirstDecisive(verdicts) != Refused ==> DecidedAt(verdicts, k, FirstDecisive(verdicts))
  {
    k := 0;
    if verdicts != [] && verdicts[0] == Refused {
      var rest := FirstDecisiveMeaning(verdicts[1..]);
      forall i | 0 < i < |verdicts| ensures verdicts[i] == verdicts[1..][i - 1] {}
      k := rest + 1;
    }
  }

  /** The scan is decided by the first rule that grants or raises: it grants exactly when some
      rule grants with no raising rule before it, and raises exactly when some rule raises
      with no granting rule before it. */
  lemma ScanMeaning(rules: seq<Rule>, zoneId: string, name: Option<string>,
                    rtype: Option<string>, recordId: Option<string>, need: Need)
    ensures ScanRules(rules, zoneId, name, rtype, recordId, need) == Granted
      <==> exists k: nat :: GrantedAt(rules, k, zoneId, name, rtype, recordId, need)
    ensures ScanRules(rules, zoneId, name, rtype, recordId, need) == Raised
      <==> exists k: nat :: RaisedAt(rules, k, zoneId, name, rtype, recordId, need)
  {
    hide ScanRules, RuleVerdict, FirstDecisive, NormalizeFqdn, NameMatches;
    var verdicts := Verdicts(rules, zoneId, name, rtype, recordId, need);
    ScanIsFirstDecisive(rules, zoneId, name, rtype, recordId, need);
    forall i | 0 <= i < |rules|
      ensures verdicts[i] == Granted <==> Grants(rules[i], zoneId, name, rtype, recordId, need)
      ensures verdicts[i] == Raised <==> Stumbles(rules[i], zoneId, name, rtype, recordId)
    {
      VerdictMeaning(rules[i], zoneId, name, rtype, recordId, need);
    }
    var k := FirstDecisiveMeaning(verdicts);
    if FirstDecisive(verdicts) == Granted {
      assert GrantedAt(rules, k, zoneId, name, rtype, recordId, need);
    }
    if FirstDecisive(verdicts) == Raised {
      assert RaisedAt(rules, k, zoneId, name, rtype, recordId, need);
    }
    if i: nat :| GrantedAt(rules, i, zoneId, name, rtype, recordId, need) {
      assert verdicts[i] == Granted;
    }
    if i: nat :| RaisedAt(rules, i, zoneId, name, rtype, recordId, need) {
      assert verdicts[i] == Raised;
    }
  }

  /** Every pattern that the rules carry can be normalized. */
  predicate PatternsNormalize(rules: seq<Rule>) {
    forall i | 0 <= i < |rules| ::
      rules[i].namePattern.Some? ==> NormalizeFqdn(rules[i].namePattern.value).Some?
  }

  /** When names normalize, the answer is the disjunction of the rules' own answers: the
      order and the repetition of rules do not matter, and more rules never grant less. */
  lemma MatchBySet(rules: seq<Rule>, zoneId: string, name: Option<string>, rtype: Option<string>,
                   recordId: Option<string>, need: Need)
    requires PatternsNormalize(rules) && CanonicalName(name).Some?
    ensures MatchRules(rules, zoneId, name, rtype, recordId, need)
      == if exists rule | rule in rules :: Grants(rule, zoneId, CanonicalName(name).value, rtype, recordId, need)
         then Granted else Refused
  {
    var n := CanonicalName(name).value;
    ScanMeaning(rules, zoneId, n, rtype, recordId, need);
    forall i | 0 <= i < |rules|
      ensures !Stumbles(rules[i], zoneId, n, rtype, recordId)
    {
      NeverStumbles(rules[i], zoneId, name, rtype, recordId);
    }
    if rule :| rule in rules && Grants(rule, zoneId, n, rtype, recordId, need) {
      var k :| 0 <= k < |rules| && rules[k] == rule;
      assert GrantedAt(rules, k, zoneId, n, rtype, recordId, need);
    }
    if k: nat :| GrantedAt(rules, k, zoneId, n, rtype, recordId, need) {
      assert rules[k] in rules;
    }
  }

  lemma NeverStumbles(rule: Rule, zoneId: string, name: Option<string>, rtype: Option<string>,
                      recordId: Option<string>)
    requires rule.namePattern.Some? ==> NormalizeFqdn(rule.namePattern.value).Some?
    requires CanonicalName(name).Some?
    ensures !Stumbles(rule, zoneId, CanonicalName(name).value, rtype, recordId)
  {
    if CanonicalName(name).value.Some? && rule.namePattern.Some? {
      CanonicalNormalizes(name.value);
      RaisesOnlyOnNames(rule.namePattern.value, rule.Mode(), CanonicalName(name).value.value);
    }
  }

  lemma RaisesOnlyOnNames(pattern: string, mode: NameMatch, target: string)
    ensures NameMatches(pattern, mode, target) == None
      <==> NormalizeFqdn(pattern) == None || NormalizeFqdn(target) == None
  {
  }

  /** On a record with a canonical name, raising is being broken. */
  lemma StumblesIsBroken(rule: Rule, zoneId: string, n: string, rtype: Option<string>, recordId: Option<string>)
    requires NormalizeFqdn(n).Some?
    ensures Stumbles(rule, zoneId, Some(n), rtype, recordId) <==> Broken(rule, zoneId, rtype, recordId)
  {
    if rule.namePattern.Some? {
      RaisesOnlyOnNames(rule.namePattern.value, rule.Mode(), n);
    }
  }

  lemma CanonicalNameNormalizes(name: Option<string>)
    requires CanonicalName(name).Some? && CanonicalName(name).value.Some?
    ensures NormalizeFqdn(CanonicalName(name).value.value).Some?
  {
    CanonicalNormalizes(name.value);
  }

  /** A larger rule set grants at least as much. */
  lemma MatchMonotone(fewer: seq<Rule>, more: seq<Rule>, zoneId: string, name: Option<string>,
                      rtype: Option<string>, recordId: Option<string>, need: Need)
    requires PatternsNormalize(more) && CanonicalName(name).Some?
    requires forall rule | rule in fewer :: rule in more
    requires MatchRules(fewer, zoneId, name, rtype, recordId, need) == Granted
    ensures MatchRules(more, zoneId, name, rtype, recordId, need) == Granted
  {
    MatchBySet(more, zoneId, name, rtype, recordId, need);
    var n := CanonicalName(name).value;
    ScanMeaning(fewer, zoneId, n, rtype, recordId, need);
    var k: nat :| GrantedAt(fewer, k, zoneId, n, rtype, recordId, need);
    assert fewer[k] in fewer;
  }

  /** Some rule of the set covers the operation on an image. Unlike a verdict this does not
      depend on what an earlier rule does. */
  ghost predicate Covers(rules: seq<Rule>, zoneId: string, image: Image, recordId: Option<string>, need: Need) {
    exists i | 0 <= i < |rules| ::
      && rules[i].Admits(zoneId, image.rtype, recordId)
      && rules[i].Allows(need)
      && (rules[i].namePattern == None
          || (CanonicalName(image.name).Some?
              && Grants(rules[i], zoneId, CanonicalName(image.name).value, image.rtype, recordId, need)))
  }

  lemma GrantedCovers(rules: seq<Rule>, zoneId: string, image: Image, recordId: Option<string>, need: Need)
    requires MatchRules(rules, zoneId, image.name, image.rtype, recordId, need) == Granted
    ensures Covers(rules, zoneId, image, recordId, need)
  {
    var n := CanonicalName(image.name).value;
    ScanMeaning(rules, zoneId, n, image.rtype, recordId, need);
    var k: nat :| GrantedAt(rules, k, zoneId, n, image.rtype, recordId, need);
  }

  /** A lock-exempt token is covered for every image that the record may have. */
  lemma ExemptCovers(rules: seq<Rule>, zoneId: string, recordId: string, op: Need, image: Image)
    requires IsLockExempt(rules, zoneId, recordId, op)
    ensures Covers(rules, zoneId, image, Some(recordId), op)
  {
    var i :| 0 <= i < |rules| && ExemptRule(rules[i], zoneId, recordId, op);
    assert rules[i].Admits(zoneId, image.rtype, Some(recordId));
  }

  /** Exemption is sound for every image: an exempt operation is never refused. It is granted
      exactly when the name normalizes and, if there is one, every broken rule stands behind a
      rule that grants. */
  lemma ExemptNeverRefused(rules: seq<Rule>, zoneId: string, recordId: string, op: Need,
                           name: Option<string>, rtype: Option<string>)
    requires IsLockExempt(rules, zoneId, recordId, op)
    ensures MatchRules(rules, zoneId, name, rtype, Some(recordId), op) != Refused
    ensures MatchRules(rules, zoneId, name, rtype, Some(recordId), op) == Granted
      <==> CanonicalName(name).Some?
           && (CanonicalName(name).value.Some? ==>
                 EveryBreakShadowed(rules, zoneId, CanonicalName(name).value, rtype, Some(recordId), op))
  {
    hide NormalizeFqdn, NameMatches, ScanRules, Grants;
    if CanonicalName(name).Some? {
      var n := CanonicalName(name).value;
      var i :| 0 <= i < |rules| && ExemptRule(rules[i], zoneId, recordId, op);
      ExemptRuleGrants(rules[i], zoneId, recordId, op, n, rtype);
      ScanMeaning(rules, zoneId, n, rtype, Some(recordId), op);
      NoSilentGrant(rules, i, zoneId, n, rtype, Some(recordId), op);
      if n.Some? {
        CanonicalNameNormalizes(name);
        forall k: nat | k < |rules|
          ensures Stumbles(rules[k], zoneId, n, rtype, Some(recordId))
            <==> Broken(rules[k], zoneId, rtype, Some(recordId))
        {
          StumblesIsBroken(rules[k], zoneId, n.value, rtype, Some(recordId));
        }
        ShadowedOrRaised(rules, zoneId, n, rtype, Some(recordId), op);
      }
    }
  }

  /** Every broken rule for records of this type and id stands behind a rule that grants the
      operation on this name. */
  ghost predicate EveryBreakShadowed(rules: seq<Rule>, zoneId: string, name: Option<string>,
                                     rtype: Option<string>, recordId: Option<string>, need: Need)
  {
    forall k | 0 <= k < |rules| && Broken(rules[k], zoneId, rtype, recordId) ::
      exists j | 0 <= j < k :: Grants(rules[j], zoneId, name, rtype, recordId, need)
  }

  lemma ShadowedOrRaised(rules: seq<Rule>, zoneId: string, name: Option<string>,
                         rtype: Option<string>, recordId: Option<string>, need: Need)
    requires forall k: nat | k < |rules| ::
      (Stumbles(rules[k], zoneId, name, rtype, recordId) <==> Broken(rules[k], zoneId, rtype, recordId))
    ensures EveryBreakShadowed(rules, zoneId, name, rtype, recordId, need)
      <==> !exists k: nat :: RaisedAt(rules, k, zoneId, name, rtype, recordId, need)
  {
    hide Stumbles, Broken, Grants;
    if k: nat :| k < |rules| && Broken(rules[k], zoneId, rtype, recordId)
                 && forall j | 0 <= j < k :: !Grants(rules[j], zoneId, name, rtype, recordId, need) {
      assert RaisedAt(rules, k, zoneId, name, rtype, recordId, need);
    }
  }

  lemma ExemptRuleGrants(rule: Rule, zoneId: string, recordId: string, op: Need, name: Option<string>,
                         rtype: Option<string>)
    requires ExemptRule(rule, zoneId, recordId, op)
    ensures Grants(rule, zoneId, name, rtype, Some(recordId), op)
  {
  }

  /** A rule that grants keeps the scan from running through to a refusal. */
  lemma {:induction false} NoSilentGrant(rules: seq<Rule>, i: nat, zoneId: string, name: Option<string>,
                                         rtype: Option<string>, recordId: Option<string>, need: Need)
    requires i < |rules| && Grants(rules[i], zoneId, name, rtype, recordId, need)
    ensures ScanRules(rules, zoneId, name, rtype, recordId, need) != Refused
  {
    VerdictMeaning(rules[0], zoneId, name, rtype, recordId, need);
    if i > 0 {
      NoSilentGrant(rules[1..], i - 1, zoneId, name, rtype, recordId, need);
    }
  }

  /** With patterns that normalize, an exempt operation is granted for every name that
      normalizes and every type. */
  lemma ExemptGranted(rules: seq<Rule>, zoneId: string, recordId: string, op: Need,
                      name: Option<string>, rtype: Option<string>)
    requires IsLockExempt(rules, zoneId, recordId, op)
    requires PatternsNormalize(rules) && CanonicalName(name).Some?
    ensures MatchRules(rules, zoneId, name, rtype, Some(recordId), op) == Granted
  {
    ExemptNeverRefused(rules, zoneId, recordId, op, name, rtype);
    MatchBySet(rules, zoneId, name, rtype, Some(recordId), op);
  }
}
