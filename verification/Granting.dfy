/** Whether a rule set ever grants an operation: a question about all names and types, answered
    from the rules. */
module Granting {
  import opened Text
  import opened Fqdn
  import opened Scope
  import opened NameTheorems
  import opened RuleTheorems
  import opened Raising

  /** A record name that is compared as `t`: after one normalization it still ends in a dot and a
      blank, which the second one takes away. */
  function Presented(t: string): string {
    if t == "" then ['.'] else Padded(t) + "."
  }

  function Padded(t: string): string {
    t + ['.'] + [' ']
  }

  lemma PaddedCanonical(t: string)
    requires Canonical(t)
    ensures Canonical(Padded(t))
  {
    hide Split;
    SplitConcat(t, '.', [' ']);
    SplitFree([' '], '.');
    LowerConcatFixed(t, ['.'], [' ']);
  }

  lemma PaddedStrips(t: string)
    requires t != "" && !IsSpace(t[0])
    ensures Strip(Padded(t)) == Strip(t + ".")
  {
    assert LStrip(Padded(t)) == Padded(t);
    assert LStrip(t + ".") == t + ".";
    assert Padded(t)[..|Padded(t)| - 1] == t + ".";
  }

  lemma NothingLeft(name: string)
    requires RStripDots(Strip(name)) == ""
    ensures NormalizeFqdn(name) == Some("")
  {
    hide Strip, RStripDots, IdnaAccepts;
  }

  lemma DotVanishes(dot: string)
    requires |dot| == 1 && dot[0] == '.'
    ensures RStripDots(Strip(dot)) == ""
  {
    hide IdnaAccepts, Split;
    RStripStops(dot);
    assert dot[..0] == "";
  }

  /** Every normal form is what some record name is compared as. */
  lemma PresentedCompares(t: string)
    requires t == "" || Canonical(t)
    ensures CanonicalName(Some(Presented(t))).Some? && CanonicalName(Some(Presented(t))).value.Some?
    ensures NormalizeFqdn(CanonicalName(Some(Presented(t))).value.value) == Some(t)
  {
    hide NormalizeFqdn, Canonical, Padded;
    if t == "" {
      DotVanishes(['.']);
      NothingLeft(['.']);
      EmptyNormalizes();
    } else {
      PaddedCompares(t);
    }
  }

  lemma PaddedCompares(t: string)
    requires Canonical(t)
    ensures NormalizeFqdn(Padded(t) + ".") == Some(Padded(t)) && NormalizeFqdn(Padded(t)) == Some(t)
  {
    hide NormalizeFqdn, Canonical, Padded, Strip;
    CanonicalStart(t);
    PaddedCanonical(t);
    NormalizeDotted(Padded(t));
    PaddedStrips(t);
    SameStrip(Padded(t), t + ".");
    NormalizeDotted(t);
  }

  /** For every name that a pattern matches there is a record name that is compared as it is. */
  lemma PresentedMatches(pattern: string, mode: NameMatch, target: string) returns (name: string)
    requires NameMatches(pattern, mode, target) == Some(true)
    ensures NormalizeFqdn(target).Some? && name != ""
    ensures CanonicalName(Some(name)).Some? && CanonicalName(Some(name)).value.Some?
    ensures NormalizeFqdn(CanonicalName(Some(name)).value.value) == NormalizeFqdn(target)
    ensures NameMatches(pattern, mode, CanonicalName(Some(name)).value.value) == Some(true)
  {
    hide NormalizeFqdn, CanonicalMatches, Canonical, Presented;
    var t := NormalizeFqdn(target).value;
    NormalizeImage(target, t);
    PresentedCompares(t);
    name := Presented(t);
    PresentedNotEmpty(t);
  }

  lemma PresentedNotEmpty(t: string)
    ensures Presented(t) != ""
  {
  }

  /** The pattern matches some name. */
  predicate MatchesSome(pattern: string, mode: NameMatch) {
    NormalizeFqdn(pattern).Some?
    && match mode
       case Exact => true
       case Wildcard => StarIndex(Split(NormalizeFqdn(pattern).value, '.')).Some?
       case UnknownMatch => false
  }

  lemma MatchingTarget(pattern: string, mode: NameMatch) returns (target: string)
    requires MatchesSome(pattern, mode)
    ensures NameMatches(pattern, mode, target) == Some(true)
  {
    hide NormalizeFqdn, Split;
    match mode
    case Exact =>
      target := pattern;
      ExactMatches(pattern, pattern);
    case Wildcard =>
      var t;
      OneLetter();
      target, t := StarTakes(pattern, ['a']);
  }

  lemma OneLetter()
    ensures '.' !in ['a'] && Lower(['a']) == ['a'] && !IsSpace('a')
  {
  }

  lemma MatchedMatchesSome(pattern: string, mode: NameMatch, target: string)
    requires NameMatches(pattern, mode, target) == Some(true)
    ensures MatchesSome(pattern, mode)
  {
    hide NormalizeFqdn, Split;
  }

  /** Rule `k` grants the operation on some record of the type and id: a nameless rule on one
      without a name, any other one on a name that its pattern matches, unless a rule ahead of it
      raises. */
  predicate GrantableAt(rules: seq<Rule>, k: nat, zoneId: string, rtype: Option<string>, recordId: Option<string>,
                        op: Need)
  {
    && k < |rules| && rules[k].Admits(zoneId, rtype, recordId) && rules[k].Allows(op)
    && (rules[k].namePattern == None
        || (&& MatchesSome(rules[k].namePattern.value, rules[k].Mode())
            && forall j | 0 <= j < k :: !Broken(rules[j], zoneId, rtype, recordId)))
  }

  /** Some rule grants the operation on some record of the id, of one of the types that it lists.
      The mark "*" stands for a type that no rule lists. */
  predicate Grantable(rules: seq<Rule>, zoneId: string, recordId: Option<string>, op: Need) {
    exists k, rtype | 0 <= k < |rules| && rtype in rules[k].recordTypes ::
      GrantableAt(rules, k, zoneId, Some(rtype), recordId, op)
  }

  /** The rules grant the operation on the record under some name and type. */
  ghost predicate CanBeGranted(rules: seq<Rule>, zoneId: string, recordId: Option<string>, op: Need) {
    exists image: Image :: MatchRules(rules, zoneId, image.name, image.rtype, recordId, op) == Granted
  }

  lemma GrantedWithoutName(rules: seq<Rule>, k: nat, zoneId: string, rtype: Option<string>, recordId: Option<string>,
                           op: Need)
    requires GrantableAt(rules, k, zoneId, rtype, recordId, op) && rules[k].namePattern == None
    ensures MatchRules(rules, zoneId, None, rtype, recordId, op) == Granted
  {
    hide NameMatches, ScanRules;
    assert Grants(rules[k], zoneId, None, rtype, recordId, op);
    NoSilentGrant(rules, k, zoneId, None, rtype, recordId, op);
    ScanMeaning(rules, zoneId, None, rtype, recordId, op);
  }

  /** A record name on which rule `k` grants, when no rule ahead of it raises. */
  lemma GrantedByPattern(rules: seq<Rule>, k: nat, zoneId: string, rtype: Option<string>, recordId: Option<string>,
                         op: Need, name: string)
    requires k < |rules| && rules[k].Admits(zoneId, rtype, recordId) && rules[k].Allows(op)
    requires rules[k].namePattern.Some?
    requires forall j | 0 <= j < k :: !Broken(rules[j], zoneId, rtype, recordId)
    requires CanonicalName(Some(name)).Some? && CanonicalName(Some(name)).value.Some?
    requires var n := CanonicalName(Some(name)).value.value;
      NameMatches(rules[k].namePattern.value, rules[k].Mode(), n) == Some(true)
    ensures MatchRules(rules, zoneId, Some(name), rtype, recordId, op) == Granted
  {
    hide NormalizeFqdn, NameMatches, ScanRules;
    var n := CanonicalName(Some(name)).value;
    CanonicalNameNormalizes(Some(name));
    forall j | 0 <= j < k ensures !Stumbles(rules[j], zoneId, n, rtype, recordId) {
      StumblesIsBroken(rules[j], zoneId, n.value, rtype, recordId);
    }
    assert GrantedAt(rules, k, zoneId, n, rtype, recordId, op);
    ScanMeaning(rules, zoneId, n, rtype, recordId, op);
  }

  lemma GrantableIsGranted(rules: seq<Rule>, k: nat, zoneId: string, rtype: Option<string>, recordId: Option<string>,
                           op: Need) returns (image: Image)
    requires GrantableAt(rules, k, zoneId, rtype, recordId, op)
    ensures MatchRules(rules, zoneId, image.name, image.rtype, recordId, op) == Granted
  {
    hide NormalizeFqdn, NameMatches, MatchRules, MatchesSome, CanonicalName;
    if rules[k].namePattern == None {
      image := Image(None, rtype);
      GrantedWithoutName(rules, k, zoneId, rtype, recordId, op);
    } else {
      var target := MatchingTarget(rules[k].namePattern.value, rules[k].Mode());
      var name := PresentedMatches(rules[k].namePattern.value, rules[k].Mode(), target);
      image := Image(Some(name), rtype);
      GrantedByPattern(rules, k, zoneId, rtype, recordId, op, name);
    }
  }

  /** A type that the rule lists and that brings no more broken rules with it. */
  lemma ListedType(rules: seq<Rule>, k: nat, zoneId: string, rtype: Option<string>, recordId: Option<string>)
    returns (listed: string)
    requires k < |rules| && rules[k].Admits(zoneId, rtype, recordId)
    ensures listed in rules[k].recordTypes && rules[k].Admits(zoneId, Some(listed), recordId)
    ensures forall j | 0 <= j < |rules| && Broken(rules[j], zoneId, Some(listed), recordId) ::
      Broken(rules[j], zoneId, rtype, recordId)
  {
    hide NormalizeFqdn;
    listed := if "*" in rules[k].recordTypes then "*" else rtype.value;
  }

  lemma GrantedIsGrantable(rules: seq<Rule>, zoneId: string, image: Image, recordId: Option<string>, op: Need)
    requires MatchRules(rules, zoneId, image.name, image.rtype, recordId, op) == Granted
    ensures Grantable(rules, zoneId, recordId, op)
  {
    hide NormalizeFqdn, NameMatches, ScanRules, MatchesSome, Broken;
    var n := CanonicalName(image.name).value;
    ScanMeaning(rules, zoneId, n, image.rtype, recordId, op);
    var k: nat :| GrantedAt(rules, k, zoneId, n, image.rtype, recordId, op);
    var listed := ListedType(rules, k, zoneId, image.rtype, recordId);
    if rules[k].namePattern.Some? {
      CanonicalNameNormalizes(image.name);
      MatchedMatchesSome(rules[k].namePattern.value, rules[k].Mode(), n.value);
      forall j | 0 <= j < k ensures !Broken(rules[j], zoneId, Some(listed), recordId) {
        StumblesIsBroken(rules[j], zoneId, n.value, image.rtype, recordId);
      }
    }
    assert GrantableAt(rules, k, zoneId, Some(listed), recordId, op);
  }

  /** Whether the rules ever grant the operation on the record, under some name and type, is read
      off the rules. */
  lemma GrantableExactly(rules: seq<Rule>, zoneId: string, recordId: Option<string>, op: Need)
    ensures CanBeGranted(rules, zoneId, recordId, op) <==> Grantable(rules, zoneId, recordId, op)
  {
    hide MatchRules, GrantableAt;
    if image: Image :| MatchRules(rules, zoneId, image.name, image.rtype, recordId, op) == Granted {
      GrantedIsGrantable(rules, zoneId, image, recordId, op);
    }
    if k, rtype :| 0 <= k < |rules| && rtype in rules[k].recordTypes
                   && GrantableAt(rules, k, zoneId, Some(rtype), recordId, op) {
      var image := GrantableIsGranted(rules, k, zoneId, Some(rtype), recordId, op);
    }
  }
}
