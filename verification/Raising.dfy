/** When matching raises: minting accepts rules whose pattern cannot be normalized, and whether
    such a rule ever raises is decided by the rules in front of it. */
module Raising {
  import opened Text
  import opened Fqdn
  import opened Scope
  import opened NameTheorems
  import opened RuleTheorems

  /** The rule grants the operation on records of this type and id, whatever their name. */
  predicate Nameless(rule: Rule, zoneId: string, rtype: Option<string>, recordId: Option<string>, need: Need) {
    rule.Admits(zoneId, rtype, recordId) && rule.namePattern == None && rule.Allows(need)
  }

  /** Every broken rule stands behind a nameless one that grants. */
  predicate Shielded(rules: seq<Rule>, zoneId: string, rtype: Option<string>, recordId: Option<string>, need: Need) {
    forall i | 0 <= i < |rules| && Broken(rules[i], zoneId, rtype, recordId) ::
      exists j | 0 <= j < i :: Nameless(rules[j], zoneId, rtype, recordId, need)
  }

  /** A name of many labels: "a", "a.a", and so on. */
  function LongName(k: nat): string {
    if k == 0 then ['a'] else ['a'] + ['.'] + LongName(k - 1)
  }

  lemma {:induction false} LongNameChars(k: nat)
    ensures |LongName(k)| == 2 * k + 1
    ensures forall i | 0 <= i < |LongName(k)| :: LongName(k)[i] == if i % 2 == 0 then 'a' else '.'
  {
    if k > 0 {
      LongNameChars(k - 1);
      forall i | 0 <= i < |LongName(k)| ensures LongName(k)[i] == if i % 2 == 0 then 'a' else '.' {
        if i >= 2 {
          assert LongName(k)[i] == LongName(k - 1)[i - 2];
        }
      }
    }
  }

  lemma {:induction false} LongNameLabels(k: nat)
    ensures Split(LongName(k), '.') == seq(k + 1, i => ['a'])
  {
    SplitFree(['a'], '.');
    if k > 0 {
      LongNameLabels(k - 1);
      SplitConcat(['a'], '.', LongName(k - 1));
    }
  }

  lemma LongNameNormal(k: nat)
    ensures NormalizeFqdn(LongName(k)) == Some(LongName(k)) && LongName(k) != ""
  {
    hide NormalizeFqdn, LongName, Split;
    LongNameChars(k);
    LongNameLabels(k);
    assert Lower(LongName(k)) == LongName(k);
    assert LongName(k)[2 * k] == 'a';
    CanonicalFixed(LongName(k));
  }

  lemma {:induction false} FewPieces(s: string)
    ensures |Split(s, '.')| <= |s| + 1
  {
    if s != "" {
      FewPieces(s[1..]);
    }
  }

  lemma StripShortens(s: string)
    ensures |Strip(s)| <= |s|
  {
  }

  /** A pattern matches no name with more labels than it has characters. */
  lemma TooLong(pattern: string, mode: NameMatch, k: nat)
    requires k > |pattern|
    ensures NameMatches(pattern, mode, LongName(k)) != Some(true)
  {
    hide NormalizeFqdn, Strip, Split, LongName;
    if NormalizeFqdn(pattern).Some? {
      var p := NormalizeFqdn(pattern).value;
      NormalizeShrinks(pattern);
      StripShortens(pattern);
      FewPieces(p);
      LongNameNormal(k);
      LongNameChars(k);
      LongNameLabels(k);
    }
  }

  function LongestPattern(rules: seq<Rule>): nat {
    if rules == [] then 0
    else
      var rest := LongestPattern(rules[1..]);
      if rules[0].namePattern.Some? && |rules[0].namePattern.value| > rest then |rules[0].namePattern.value| else rest
  }

  lemma {:induction false} LongestIsLongest(rules: seq<Rule>, i: nat)
    requires i < |rules| && rules[i].namePattern.Some?
    ensures |rules[i].namePattern.value| <= LongestPattern(rules)
  {
    if i > 0 {
      LongestIsLongest(rules[1..], i - 1);
    }
  }

  /** A name that none of the rules' patterns matches. */
  function Unmatched(rules: seq<Rule>): string {
    LongName(LongestPattern(rules) + 1)
  }

  lemma UnmatchedName(rules: seq<Rule>)
    ensures CanonicalName(Some(Unmatched(rules))) == Some(Some(Unmatched(rules)))
    ensures forall i | 0 <= i < |rules| && rules[i].namePattern.Some? ::
      NameMatches(rules[i].namePattern.value, rules[i].Mode(), Unmatched(rules)) != Some(true)
  {
    hide NameMatches, NormalizeFqdn, LongName, LongestPattern;
    LongNameNormal(LongestPattern(rules) + 1);
    forall i | 0 <= i < |rules| && rules[i].namePattern.Some?
      ensures NameMatches(rules[i].namePattern.value, rules[i].Mode(), Unmatched(rules)) != Some(true)
    {
      LongestIsLongest(rules, i);
      TooLong(rules[i].namePattern.value, rules[i].Mode(), LongestPattern(rules) + 1);
    }
  }

  function IdLists(rules: seq<Rule>): seq<seq<string>> {
    seq(|rules|, i requires 0 <= i < |rules| => if rules[i].recordIds.Some? then rules[i].recordIds.value else [])
  }

  /** A record id that no rule lists. */
  function UnlistedId(rules: seq<Rule>): string {
    Unlisted(Concat(IdLists(rules)))
  }

  lemma IdUnlisted(rules: seq<Rule>, i: nat)
    requires i < |rules|
    ensures rules[i].recordIds.Some? ==> UnlistedId(rules) !in rules[i].recordIds.value
  {
    UnlistedIsNew(Concat(IdLists(rules)));
    ConcatHolds(IdLists(rules), i);
  }

  /** On a name that no pattern matches only nameless rules grant. */
  lemma OnlyNamelessGrants(rules: seq<Rule>, i: nat, zoneId: string, rtype: Option<string>, recordId: Option<string>,
                           need: Need)
    requires i < |rules|
    ensures Grants(rules[i], zoneId, Some(Unmatched(rules)), rtype, recordId, need)
      <==> Nameless(rules[i], zoneId, rtype, recordId, need)
  {
    hide NameMatches, Unmatched;
    UnmatchedName(rules);
  }

  lemma StumbleIsShielded(rules: seq<Rule>, k: nat, zoneId: string, n: string, rtype: Option<string>,
                          recordId: Option<string>, need: Need)
    requires Shielded(rules, zoneId, rtype, recordId, need) && NormalizeFqdn(n).Some? && k < |rules|
    ensures Stumbles(rules[k], zoneId, Some(n), rtype, recordId) ==>
      exists j | 0 <= j < k :: Grants(rules[j], zoneId, Some(n), rtype, recordId, need)
  {
    hide NormalizeFqdn, NameMatches;
    StumblesIsBroken(rules[k], zoneId, n, rtype, recordId);
    if Broken(rules[k], zoneId, rtype, recordId) {
      var j :| 0 <= j < k && Nameless(rules[j], zoneId, rtype, recordId, need);
      assert Grants(rules[j], zoneId, Some(n), rtype, recordId, need);
    }
  }

  lemma ShieldedNeverRaises(rules: seq<Rule>, zoneId: string, rtype: Option<string>, recordId: Option<string>,
                            need: Need, name: Option<string>)
    requires Shielded(rules, zoneId, rtype, recordId, need) && CanonicalName(name).Some?
    ensures MatchRules(rules, zoneId, name, rtype, recordId, need) != Raised
  {
    hide NormalizeFqdn, NameMatches, ScanRules, Grants, Shielded;
    var n := CanonicalName(name).value;
    ScanMeaning(rules, zoneId, n, rtype, recordId, need);
    if n.Some? {
      CanonicalNameNormalizes(name);
      forall k: nat ensures !RaisedAt(rules, k, zoneId, n, rtype, recordId, need) {
        if k < |rules| {
          StumbleIsShielded(rules, k, zoneId, n.value, rtype, recordId, need);
        }
      }
    }
  }

  lemma UnshieldedRaises(rules: seq<Rule>, zoneId: string, rtype: Option<string>, recordId: Option<string>, need: Need)
    requires !Shielded(rules, zoneId, rtype, recordId, need)
    ensures MatchRules(rules, zoneId, Some(Unmatched(rules)), rtype, recordId, need) == Raised
  {
    hide NormalizeFqdn, NameMatches, ScanRules, Unmatched;
    var name := Unmatched(rules);
    UnmatchedName(rules);
    CanonicalNameNormalizes(Some(name));
    var k: nat :| k < |rules| && Broken(rules[k], zoneId, rtype, recordId)
      && forall j | 0 <= j < k :: !Nameless(rules[j], zoneId, rtype, recordId, need);
    StumblesIsBroken(rules[k], zoneId, name, rtype, recordId);
    forall j | 0 <= j < k ensures !Grants(rules[j], zoneId, Some(name), rtype, recordId, need) {
      OnlyNamelessGrants(rules, j, zoneId, rtype, recordId, need);
    }
    assert RaisedAt(rules, k, zoneId, Some(name), rtype, recordId, need);
    ScanMeaning(rules, zoneId, Some(name), rtype, recordId, need);
  }

  /** Matching records of a type and id never raises, whatever their name, exactly when every
      broken rule for them stands behind a nameless rule that grants. */
  lemma NeverRaisesExactly(rules: seq<Rule>, zoneId: string, rtype: Option<string>, recordId: Option<string>,
                           need: Need)
    ensures (forall name | CanonicalName(name).Some? ::
               MatchRules(rules, zoneId, name, rtype, recordId, need) != Raised)
      <==> Shielded(rules, zoneId, rtype, recordId, need)
  {
    hide CanonicalName, MatchRules, Shielded;
    if Shielded(rules, zoneId, rtype, recordId, need) {
      forall name | CanonicalName(name).Some?
        ensures MatchRules(rules, zoneId, name, rtype, recordId, need) != Raised
      {
        ShieldedNeverRaises(rules, zoneId, rtype, recordId, need, name);
      }
    } else {
      UnmatchedName(rules);
      UnshieldedRaises(rules, zoneId, rtype, recordId, need);
    }
  }

  /** Where matching never raises, it grants exactly when some rule grants on its own. */
  lemma ShieldedMeaning(rules: seq<Rule>, zoneId: string, name: Option<string>, rtype: Option<string>,
                        recordId: Option<string>, need: Need)
    requires Shielded(rules, zoneId, rtype, recordId, need) && CanonicalName(name).Some?
    ensures MatchRules(rules, zoneId, name, rtype, recordId, need)
      == if exists rule | rule in rules :: Grants(rule, zoneId, CanonicalName(name).value, rtype, recordId, need)
         then Granted else Refused
  {
    hide NormalizeFqdn, NameMatches, ScanRules, Shielded, Grants;
    var n := CanonicalName(name).value;
    ShieldedNeverRaises(rules, zoneId, rtype, recordId, need, name);
    ScanMeaning(rules, zoneId, n, rtype, recordId, need);
    if rule :| rule in rules && Grants(rule, zoneId, n, rtype, recordId, need) {
      var k :| 0 <= k < |rules| && rules[k] == rule;
      NoSilentGrant(rules, k, zoneId, n, rtype, recordId, need);
    }
    if k: nat :| GrantedAt(rules, k, zoneId, n, rtype, recordId, need) {
      assert rules[k] in rules;
    }
  }

  /** Exemption is sound for every image: an exempt operation is granted on the record under
      every name that normalizes exactly when every broken rule for the record's type stands
      behind a nameless one that grants. */
  lemma ExemptGrantedExactly(rules: seq<Rule>, zoneId: string, recordId: string, op: Need, rtype: Option<string>)
    requires IsLockExempt(rules, zoneId, recordId, op)
    ensures (forall name | CanonicalName(name).Some? ::
               MatchRules(rules, zoneId, name, rtype, Some(recordId), op) == Granted)
      <==> Shielded(rules, zoneId, rtype, Some(recordId), op)
  {
    hide CanonicalName, MatchRules, Shielded, IsLockExempt;
    NeverRaisesExactly(rules, zoneId, rtype, Some(recordId), op);
    forall name ensures MatchRules(rules, zoneId, name, rtype, Some(recordId), op) != Refused {
      ExemptNeverRefused(rules, zoneId, recordId, op, name, rtype);
    }
  }

  /** Records that a broken rule is for are granted by some nameless rule, wherever it stands. */
  predicate Compensated(rules: seq<Rule>, zoneId: string, rtype: Option<string>, recordId: Option<string>, need: Need) {
    (exists i | 0 <= i < |rules| :: Broken(rules[i], zoneId, rtype, recordId)) ==>
      exists j | 0 <= j < |rules| :: Nameless(rules[j], zoneId, rtype, recordId, need)
  }

  /** Some rule on its own grants the operation on the image. */
  ghost predicate InReach(rules: seq<Rule>, zoneId: string, image: Image, recordId: Option<string>, need: Need) {
    CanonicalName(image.name).Some?
    && exists rule | rule in rules :: Grants(rule, zoneId, CanonicalName(image.name).value, image.rtype, recordId, need)
  }

  lemma InReachNotRefused(rules: seq<Rule>, zoneId: string, image: Image, recordId: Option<string>, need: Need)
    requires InReach(rules, zoneId, image, recordId, need)
    ensures MatchRules(rules, zoneId, image.name, image.rtype, recordId, need) != Refused
  {
    hide NormalizeFqdn, NameMatches, ScanRules, Grants;
    var n := CanonicalName(image.name).value;
    var rule :| rule in rules && Grants(rule, zoneId, n, image.rtype, recordId, need);
    var k :| 0 <= k < |rules| && rules[k] == rule;
    NoSilentGrant(rules, k, zoneId, n, image.rtype, recordId, need);
  }

  lemma OutOfReachNotGranted(rules: seq<Rule>, zoneId: string, image: Image, recordId: Option<string>, need: Need)
    requires CanonicalName(image.name).Some? && !InReach(rules, zoneId, image, recordId, need)
    ensures MatchRules(rules, zoneId, image.name, image.rtype, recordId, need) != Granted
  {
    hide NormalizeFqdn, NameMatches, ScanRules, Grants;
    var n := CanonicalName(image.name).value;
    ScanMeaning(rules, zoneId, n, image.rtype, recordId, need);
    forall k: nat ensures !GrantedAt(rules, k, zoneId, n, image.rtype, recordId, need) {
      if k < |rules| {
        assert rules[k] in rules;
      }
    }
  }

  lemma BreakIsCompensated(rules: seq<Rule>, k: nat, zoneId: string, n: string, rtype: Option<string>,
                           recordId: Option<string>, need: Need)
    requires Compensated(rules, zoneId, rtype, recordId, need) && NormalizeFqdn(n).Some? && k < |rules|
    ensures Stumbles(rules[k], zoneId, Some(n), rtype, recordId) ==>
      exists rule | rule in rules :: Grants(rule, zoneId, Some(n), rtype, recordId, need)
  {
    hide NormalizeFqdn, NameMatches;
    StumblesIsBroken(rules[k], zoneId, n, rtype, recordId);
    if Broken(rules[k], zoneId, rtype, recordId) {
      var j :| 0 <= j < |rules| && Nameless(rules[j], zoneId, rtype, recordId, need);
      assert rules[j] in rules && Grants(rules[j], zoneId, Some(n), rtype, recordId, need);
    }
  }

  lemma OutOfReachRefused(rules: seq<Rule>, zoneId: string, image: Image, recordId: Option<string>, need: Need)
    requires Compensated(rules, zoneId, image.rtype, recordId, need)
    requires CanonicalName(image.name).Some? && !InReach(rules, zoneId, image, recordId, need)
    ensures MatchRules(rules, zoneId, image.name, image.rtype, recordId, need) == Refused
  {
    hide NormalizeFqdn, NameMatches, ScanRules, Grants, Compensated;
    var n := CanonicalName(image.name).value;
    OutOfReachNotGranted(rules, zoneId, image, recordId, need);
    ScanMeaning(rules, zoneId, n, image.rtype, recordId, need);
    if n.Some? {
      CanonicalNameNormalizes(image.name);
      forall k: nat ensures !RaisedAt(rules, k, zoneId, n, image.rtype, recordId, need) {
        if k < |rules| {
          BreakIsCompensated(rules, k, zoneId, n.value, image.rtype, recordId, need);
        }
      }
    }
  }

  /** An image out of reach on which matching raises nevertheless. */
  function Revealing(rules: seq<Rule>, rtype: Option<string>): Image {
    Image(Some(Unmatched(rules)), rtype)
  }

  lemma UncompensatedReveals(rules: seq<Rule>, zoneId: string, rtype: Option<string>, recordId: Option<string>,
                             need: Need)
    requires !Compensated(rules, zoneId, rtype, recordId, need)
    ensures CanonicalName(Revealing(rules, rtype).name).Some?
    ensures !InReach(rules, zoneId, Revealing(rules, rtype), recordId, need)
    ensures MatchRules(rules, zoneId, Revealing(rules, rtype).name, rtype, recordId, need) == Raised
  {
    hide NormalizeFqdn, NameMatches, ScanRules, Unmatched, Grants;
    UnmatchedName(rules);
    UnshieldedRaises(rules, zoneId, rtype, recordId, need);
    forall rule | rule in rules
      ensures !Grants(rule, zoneId, Some(Unmatched(rules)), rtype, recordId, need)
    {
      var i :| 0 <= i < |rules| && rules[i] == rule;
      OnlyNamelessGrants(rules, i, zoneId, rtype, recordId, need);
    }
  }

  /** Records out of reach are refused like any other, whatever their name, exactly when those
      that a broken rule is for are granted by some nameless rule. */
  lemma OutOfReachExactly(rules: seq<Rule>, zoneId: string, rtype: Option<string>, recordId: Option<string>, need: Need)
    ensures (forall name | CanonicalName(name).Some? && !InReach(rules, zoneId, Image(name, rtype), recordId, need) ::
               MatchRules(rules, zoneId, name, rtype, recordId, need) == Refused)
      <==> Compensated(rules, zoneId, rtype, recordId, need)
  {
    hide CanonicalName, MatchRules, Compensated, InReach, Unmatched;
    if Compensated(rules, zoneId, rtype, recordId, need) {
      forall name | CanonicalName(name).Some? && !InReach(rules, zoneId, Image(name, rtype), recordId, need)
        ensures MatchRules(rules, zoneId, name, rtype, recordId, need) == Refused
      {
        OutOfReachRefused(rules, zoneId, Image(name, rtype), recordId, need);
      }
    } else {
      UncompensatedReveals(rules, zoneId, rtype, recordId, need);
    }
  }
}
