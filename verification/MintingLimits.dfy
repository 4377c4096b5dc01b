/** Rules that are accepted when a token is minted and yet do what one might not expect. */
module MintingLimits {
  import opened Text
  import opened Fqdn
  import opened Scope
  import opened NameTheorems
  import opened PatternTheorems
  import opened RuleTheorems
  import opened Raising
  import opened Minting

  /** Lower-case labels of the right lengths, without white space at the end. */
  predicate Tail(s: string) {
    && s != "" && !IsSpace(s[|s| - 1]) && Lower(s) == s
    && forall i | 0 <= i < |Split(s, '.')| :: 0 < |Split(s, '.')[i]| < 64
  }

  /** A zone name in normal form. */
  predicate Zone(z: string) {
    Tail(z) && !IsSpace(z[0]) && '*' !in z
  }

  function Dot(a: string, b: string): string {
    a + ['.'] + b
  }

  const STAR: string := ['*']

  lemma SplitDot(a: string, b: string)
    ensures Split(Dot(a, b), '.') == Split(a, '.') + Split(b, '.')
  {
    SplitConcat(a, '.', b);
  }

  lemma TailNormal(s: string)
    requires Tail(s) && !IsSpace(s[0])
    ensures NormalizeFqdn(s) == Some(s)
  {
    hide Split, NormalizeFqdn;
    CanonicalFixed(s);
  }

  lemma TailDot(a: string, b: string)
    requires Tail(a) && Tail(b)
    ensures Tail(Dot(a, b))
  {
    hide Split;
    SplitDot(a, b);
    LowerConcatFixed(a, ['.'], b);
  }

  lemma StarTail()
    ensures Tail(STAR) && !IsSpace(STAR[0]) && Split(STAR, '.') == [STAR]
  {
    SplitFree(STAR, '.');
  }

  lemma {:induction false} PiecesStarFree(s: string)
    requires '*' !in s
    ensures forall i | 0 <= i < |Split(s, '.')| :: '*' !in Split(s, '.')[i]
  {
    if s != "" {
      PiecesStarFree(s[1..]);
    }
  }

  lemma OneStar(a: string, b: string)
    requires '*' !in a && '*' !in b
    ensures multiset(a + STAR + b)['*'] == 1
  {
    assert multiset(a + STAR + b) == multiset(a) + multiset(STAR) + multiset(b);
  }

  lemma FirstStarredIs(labels: seq<string>, star: nat)
    requires star < |labels| && '*' in labels[star]
    requires forall i | 0 <= i < star :: '*' !in labels[i]
    ensures FirstStarred(labels) == star
  {
  }

  /** A pattern whose star is a label of its own, with what stands left and right of it. */
  lemma RemainderByParts(pattern: string, before: seq<string>, after: seq<string>, remainder: string)
    requires Split(pattern, '.') == before + [STAR] + after
    requires forall i | 0 <= i < |before| :: '*' !in before[i]
    requires Join(before + after, '.') == remainder
    ensures StarIsWholeLabel(pattern) && Remainder(pattern) == remainder
  {
    hide Split, Join, FirstStarred;
    var labels := before + [STAR] + after;
    FirstStarredIs(labels, |before|);
    assert labels[..|before|] == before && labels[|before| + 1..] == after;
  }

  lemma AcceptedWhen(pattern: string, zoneName: string, zone: string)
    requires NormalizeFqdn(zoneName) == Some(zone)
    requires multiset(pattern)['*'] == 1
    requires StarIsWholeLabel(pattern) && NormalizeFqdn(Remainder(pattern)) == Some(zone)
    ensures AcceptsPattern(pattern, Wildcard, zoneName)
  {
    hide NormalizeFqdn, StarIsWholeLabel, Remainder;
  }

  lemma ConfinedByLabels(pattern: string, before: seq<string>, after: seq<string>, zone: string)
    requires NormalizeFqdn(pattern) == Some(pattern) && Split(pattern, '.') == before + [STAR] + after
    requires forall i | 0 <= i < |before| :: before[i] != STAR
    ensures Confined(pattern, Wildcard, zone) <==> IsSuffix(Split(zone, '.'), after)
  {
    hide NormalizeFqdn, Split, Confined, IsSuffix;
    var labels := before + [STAR] + after;
    FirstStarIs(labels, |before|);
    assert labels[|before| + 1..] == after;
    WildcardConfined(pattern, zone);
  }

  /** The apex marker is accepted for every zone name that normalizes, and unless that is the
      zone's name, it matches a name outside the zone. */
  lemma ApexMarkerNotConfined(zoneName: string)
    requires NormalizeFqdn(zoneName).Some?
    ensures AcceptsPattern("@", Exact, zoneName)
    ensures Confined("@", Exact, NormalizeFqdn(zoneName).value) <==> NormalizeFqdn(zoneName).value == "@"
  {
    hide NormalizeFqdn, Confined;
    assert '*' !in "@";
    ExactConfined("@", zoneName);
  }

  function StarInside(z: string, y: string): string {
    Dot(z, Dot(STAR, y))
  }

  lemma StarInsideNormal(z: string, y: string)
    requires Zone(z) && Zone(y)
    ensures Split(StarInside(z, y), '.') == Split(z, '.') + [STAR] + Split(y, '.')
    ensures NormalizeFqdn(StarInside(z, y)) == Some(StarInside(z, y))
  {
    hide Split, NormalizeFqdn, Tail;
    StarTail();
    SplitDot(STAR, y);
    SplitDot(z, Dot(STAR, y));
    TailDot(STAR, y);
    TailDot(z, Dot(STAR, y));
    TailNonEmpty(z);
    assert StarInside(z, y)[0] == z[0];
    TailNormal(StarInside(z, y));
  }

  lemma TailNonEmpty(s: string)
    requires Tail(s)
    ensures s != ""
  {
  }

  lemma ZoneDot(z: string, y: string)
    requires Zone(z) && Zone(y)
    ensures NormalizeFqdn(Dot(z, y)) == Some(Dot(z, y))
  {
    hide Split, NormalizeFqdn, Tail;
    TailDot(z, y);
    TailNonEmpty(z);
    assert Dot(z, y)[0] == z[0];
    TailNormal(Dot(z, y));
  }

  lemma StarInsideAccepted(z: string, y: string)
    requires Zone(z) && Zone(y)
    ensures AcceptsPattern(StarInside(z, y), Wildcard, Dot(z, y))
  {
    hide Split, NormalizeFqdn, Tail, Join, StarIsWholeLabel, Remainder, AcceptsPattern;
    ZoneDot(z, y);
    StarInsideNormal(z, y);
    PiecesStarFree(z);
    SplitDot(z, y);
    JoinSplit(Dot(z, y), '.');
    RemainderByParts(StarInside(z, y), Split(z, '.'), Split(y, '.'), Dot(z, y));
    OneStar(z + ['.'], ['.'] + y);
    assert StarInside(z, y) == (z + ['.']) + STAR + (['.'] + y);
    AcceptedWhen(StarInside(z, y), Dot(z, y), Dot(z, y));
  }

  /** A star inside the zone's own labels: between any two parts z and y of a zone z.y, it is
      accepted for the zone and matches names outside it. */
  lemma StarInsideZoneNotConfined(z: string, y: string)
    requires Zone(z) && Zone(y)
    ensures AcceptsPattern(StarInside(z, y), Wildcard, Dot(z, y))
    ensures !Confined(StarInside(z, y), Wildcard, Dot(z, y))
  {
    hide Split, NormalizeFqdn, Tail, AcceptsPattern, Confined, StarInside, Dot;
    StarInsideAccepted(z, y);
    StarInsideNormal(z, y);
    PiecesStarFree(z);
    SplitDot(z, y);
    ConfinedByLabels(StarInside(z, y), Split(z, '.'), Split(y, '.'), Dot(z, y));
  }

  function Indented(z: string): string {
    [' '] + z
  }

  lemma IndentedLabels(z: string)
    requires Zone(z)
    ensures Split(Indented(z), '.') == [[' '] + Split(z, '.')[0]] + Split(z, '.')[1..]
    ensures '*' !in Indented(z) && NormalizeFqdn(Indented(z)) == NormalizeFqdn(z) == Some(z)
  {
    assert Indented(z)[1..] == z;
    IndentedStrips(z);
    SameStrip(Indented(z), z);
    TailNormal(z);
  }

  lemma IndentedStrips(z: string)
    ensures Strip(Indented(z)) == Strip(z)
  {
    assert Indented(z)[1..] == z;
  }

  lemma StarThen(w: string)
    ensures Split(Dot(STAR, w), '.') == [] + [STAR] + Split(w, '.')
  {
    hide Split;
    StarTail();
    SplitDot(STAR, w);
  }

  /** What normalizes to the zone may stand right of the star, in normal form or not. */
  lemma StarThenAccepted(w: string, z: string)
    requires NormalizeFqdn(w) == Some(z) && NormalizeFqdn(z) == Some(z) && '*' !in w
    ensures AcceptsPattern(Dot(STAR, w), Wildcard, z)
  {
    hide Split, NormalizeFqdn, Join, StarIsWholeLabel, Remainder, AcceptsPattern;
    StarThen(w);
    JoinSplit(w, '.');
    assert [] + Split(w, '.') == Split(w, '.');
    RemainderByParts(Dot(STAR, w), [], Split(w, '.'), w);
    OneStar("", ['.'] + w);
    assert Dot(STAR, w) == "" + STAR + (['.'] + w);
    AcceptedWhen(Dot(STAR, w), z, z);
  }

  lemma IndentedTail(z: string)
    requires Zone(z) && |Split(z, '.')[0]| < 63
    ensures Tail(Indented(z))
  {
    hide Split, NormalizeFqdn;
    IndentedLabels(z);
    assert Lower(Indented(z)) == Indented(z) by {
      LowerConcatFixed([], [' '], z);
      assert [] + [' '] + z == Indented(z);
    }
  }

  lemma StarThenIndentedNormal(z: string)
    requires Zone(z) && |Split(z, '.')[0]| < 63
    ensures NormalizeFqdn(Dot(STAR, Indented(z))) == Some(Dot(STAR, Indented(z)))
  {
    hide Split, NormalizeFqdn, Tail;
    IndentedTail(z);
    StarTail();
    TailDot(STAR, Indented(z));
    TailNormal(Dot(STAR, Indented(z)));
  }

  /** What a name looks like that normalization takes as it is, up to its labels. */
  predicate Untouched(p: string) {
    p != "" && !IsSpace(p[0]) && !IsSpace(p[|p| - 1]) && p[|p| - 1] != '.' && Lower(p) == p
  }

  lemma TailEnd(z: string)
    requires Tail(z)
    ensures z[|z| - 1] != '.'
  {
    LastPiece(z, '.');
  }

  lemma StarThenIndentedUntouched(z: string)
    requires Zone(z)
    ensures Untouched(Dot(STAR, Indented(z)))
  {
    hide Split;
    TailEnd(z);
    LowerConcatFixed(['*', '.'], [' '], z);
    assert Dot(STAR, Indented(z)) == ['*', '.'] + [' '] + z;
  }

  /** With a blank before a label of 63 characters the pattern cannot be normalized. */
  lemma StarThenIndentedRaises(z: string)
    requires Zone(z) && |Split(z, '.')[0]| == 63
    ensures NormalizeFqdn(Dot(STAR, Indented(z))) == None
  {
    hide Split, NormalizeFqdn, Untouched, Dot, Indented, Tail;
    var p := Dot(STAR, Indented(z));
    IndentedLabels(z);
    StarThen(Indented(z));
    StarThenIndentedUntouched(z);
    assert |Split(p, '.')[1]| == 64;
    if NormalizeFqdn(p).Some? {
      KeepsLabels(p);
    }
  }

  /** A lower-case name without white space at its ends that normalizes has short labels. */
  lemma KeepsLabels(p: string)
    requires Untouched(p) && NormalizeFqdn(p).Some?
    ensures forall i | 0 <= i < |Split(p, '.')| :: |Split(p, '.')[i]| < 64
  {
    hide Split;
    RStripStops(p);
    assert LStrip(p) == p;
    assert RStripDots(p) == p;
  }

  /** White space before a label: the star, a dot, a blank and z is accepted for every zone z,
      and matches names outside it exactly when the blank leaves z's first label short enough
      for the pattern to be normalized at all. */
  lemma InnerSpaceNotConfined(z: string)
    requires Zone(z)
    ensures AcceptsPattern(Dot(STAR, Indented(z)), Wildcard, z)
    ensures !Confined(Dot(STAR, Indented(z)), Wildcard, z) <==> |Split(z, '.')[0]| < 63
  {
    hide Split, NormalizeFqdn, AcceptsPattern, Confined, Indented;
    IndentedLabels(z);
    StarThenAccepted(Indented(z), z);
    FirstLabelShort(z);
    if |Split(z, '.')[0]| < 63 {
      StarThenIndentedNormal(z);
      StarThen(Indented(z));
      ConfinedByLabels(Dot(STAR, Indented(z)), [], Split(Indented(z), '.'), z);
      assert Split(Indented(z), '.')[0] != Split(z, '.')[0];
    } else {
      StarThenIndentedRaises(z);
      WildcardVacuous(Dot(STAR, Indented(z)), z);
    }
  }

  lemma FirstLabelShort(z: string)
    requires Zone(z)
    ensures 0 < |Split(z, '.')[0]| < 64
  {
  }

  /** The pattern z..* with an empty label. */
  function Gapped(z: string): string {
    Dot(z, Dot([], STAR))
  }

  lemma GappedPieces(z: string)
    ensures Split(Gapped(z), '.') == (Split(z, '.') + [[]]) + [STAR] + []
  {
    hide Split;
    StarTail();
    EmptyPiece();
    SplitDot([], STAR);
    SplitDot(z, Dot([], STAR));
  }

  lemma EmptyPiece()
    ensures Split([], '.') == [[]]
  {
  }

  lemma GappedRaises(z: string)
    requires Zone(z)
    ensures NormalizeFqdn(Gapped(z)) == None
  {
    hide Split, Tail;
    var p := Gapped(z);
    TailNonEmpty(z);
    GappedPieces(z);
    LowerOfTail(z);
    LowerConcatFixed(z, ['.', '.'], STAR);
    assert p == z + ['.', '.'] + STAR;
    RStripStops(p);
    assert LStrip(p) == p;
    assert RStripDots(p) == p;
    var k := |Split(z, '.')|;
    assert Split(p, '.')[k] == [] && k < |Split(p, '.')| - 1;
  }

  lemma LowerOfTail(z: string)
    requires Tail(z)
    ensures Lower(z) == z && Lower(['.', '.']) == ['.', '.'] && Lower(STAR) == STAR
  {
  }

  /** The zone with a trailing dot. */
  lemma DottedNormal(z: string)
    requires Zone(z)
    ensures NormalizeFqdn(Dot(z, [])) == Some(z) && NormalizeFqdn(z) == Some(z)
    ensures Split(Dot(z, []), '.') == Split(z, '.') + [[]]
  {
    hide Split, NormalizeFqdn;
    TailNormal(z);
    NormalizeDotted(z);
    assert Dot(z, []) == z + ".";
    SplitDot(z, []);
    EmptyPiece();
  }

  /** A pattern that is accepted for its zone although it cannot be normalized itself, for every
      zone: only what is left of it without the starred label is checked. */
  lemma RaisingPatternAccepted(z: string)
    requires Zone(z)
    ensures AcceptsPattern(Gapped(z), Wildcard, z) && NormalizeFqdn(Gapped(z)) == None
  {
    hide Split, NormalizeFqdn, Tail, Join, StarIsWholeLabel, Remainder, AcceptsPattern;
    DottedNormal(z);
    GappedPieces(z);
    PiecesStarFree(z);
    JoinSplit(Dot(z, []), '.');
    assert Split(z, '.') + [[]] + [] == Split(z, '.') + [[]];
    RemainderByParts(Gapped(z), Split(z, '.') + [[]], [], Dot(z, []));
    OneStar(z + ['.', '.'], []);
    assert Gapped(z) == (z + ['.', '.']) + STAR + [];
    AcceptedWhen(Gapped(z), z, z);
    GappedRaises(z);
  }

  lemma RaisesOnAnyName(rule: Rule, n: string, rtype: string, recordId: string)
    requires rule.namePattern.Some? && NormalizeFqdn(rule.namePattern.value) == None
    requires rule.Admits(rule.zoneId, Some(rtype), Some(recordId))
    ensures RuleVerdict(rule, rule.zoneId, Some(n), Some(rtype), Some(recordId), Write) == Raised
  {
    hide NormalizeFqdn, NameMatches;
    RaisesOnlyOnNames(rule.namePattern.value, rule.Mode(), n);
  }

  lemma FirstDecides(rules: seq<Rule>, zoneId: string, name: string, rtype: string, recordId: string)
    requires rules != [] && name != "" && NormalizeFqdn(name).Some?
    requires RuleVerdict(rules[0], zoneId, Some(NormalizeFqdn(name).value), Some(rtype), Some(recordId), Write)
      != Refused
    ensures MatchRules(rules, zoneId, Some(name), Some(rtype), Some(recordId), Write)
      == RuleVerdict(rules[0], zoneId, Some(NormalizeFqdn(name).value), Some(rtype), Some(recordId), Write)
  {
  }

  /** A rule with a pattern that cannot be normalized, ahead of an exempt rule. */
  lemma RaisesFirst(raising: Rule, exempt: Rule, name: string, rtype: string, recordId: string)
    requires NormalizeFqdn(name).Some? && name != ""
    requires raising.namePattern.Some? && NormalizeFqdn(raising.namePattern.value) == None
    requires raising.zoneId == exempt.zoneId && raising.Admits(raising.zoneId, Some(rtype), Some(recordId))
    requires ExemptRule(exempt, exempt.zoneId, recordId, Write)
    ensures IsLockExempt([raising, exempt], exempt.zoneId, recordId, Write)
    ensures MatchRules([raising, exempt], exempt.zoneId, Some(name), Some(rtype), Some(recordId), Write) == Raised
    ensures MatchRules([exempt], exempt.zoneId, Some(name), Some(rtype), Some(recordId), Write) == Granted
  {
    assert ExemptRule([raising, exempt][1], exempt.zoneId, recordId, Write);
    RaisesOnAnyName(raising, NormalizeFqdn(name).value, rtype, recordId);
    FirstDecides([raising, exempt], exempt.zoneId, name, rtype, recordId);
    FirstDecides([exempt], exempt.zoneId, name, rtype, recordId);
  }

  /** So a rule set that can be minted can be exempt and still fail: the rule with that pattern
      comes first and raises on every name, where the exempt rule alone grants. */
  lemma ExemptCanRaise(zoneId: string, z: string, name: string, rtype: string, recordId: string)
    requires Zone(z) && NormalizeFqdn(name).Some? && name != ""
    ensures var raising := Rule(zoneId, Some(Gapped(z)), "wildcard", ["*"], None, false, false, true, false);
      var exempt := Rule(zoneId, None, "exact", ["*"], Some([recordId]), false, false, true, false);
      && RuleValid(raising, map[zoneId := z]) && RuleValid(exempt, map[zoneId := z])
      && IsLockExempt([raising, exempt], zoneId, recordId, Write)
      && MatchRules([raising, exempt], zoneId, Some(name), Some(rtype), Some(recordId), Write) == Raised
      && MatchRules([exempt], zoneId, Some(name), Some(rtype), Some(recordId), Write) == Granted
  {
    var raising := Rule(zoneId, Some(Gapped(z)), "wildcard", ["*"], None, false, false, true, false);
    var exempt := Rule(zoneId, None, "exact", ["*"], Some([recordId]), false, false, true, false);
    RaisingPatternAccepted(z);
    RaisesFirst(raising, exempt, name, rtype, recordId);
  }

  /** A rule that can be minted and gives existence away: it allows reading, raises on every
      record of its type, and no other rule makes up for it. */
  lemma LeakyRuleAccepted(zoneId: string, z: string, recordId: string)
    requires Zone(z)
    ensures var leaky := Rule(zoneId, Some(Gapped(z)), "wildcard", ["A"], None, true, false, false, false);
      && RuleValid(leaky, map[zoneId := z])
      && !Compensated([leaky], zoneId, Some("A"), Some(recordId), Read)
  {
    hide NormalizeFqdn, AcceptsPattern;
    var leaky := Rule(zoneId, Some(Gapped(z)), "wildcard", ["A"], None, true, false, false, false);
    RaisingPatternAccepted(z);
    assert Broken([leaky][0], zoneId, Some("A"), Some(recordId));
  }
}
