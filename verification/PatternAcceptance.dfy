/** Which name patterns may be minted for a zone, told by labels. */
module PatternAcceptance {
  import opened Text
  import opened Fqdn
  import opened Scope
  import opened NameTheorems

  /** The labels that a name normalizes to end in those of the zone. */
  predicate EndsInZone(name: string, zoneName: string) {
    && NormalizeFqdn(name).Some? && NormalizeFqdn(zoneName).Some?
    && IsSuffix(Split(NormalizeFqdn(zoneName).value, '.'), Split(NormalizeFqdn(name).value, '.'))
  }

  /** An exact pattern is accepted exactly when it has no star, the zone's name normalizes, and it
      is the apex marker or its labels end in the zone's. Patterns of unknown modes never are. */
  lemma ExactAccepted(pattern: string, zoneName: string)
    ensures !AcceptsPattern(pattern, UnknownMatch, zoneName)
    ensures AcceptsPattern(pattern, Exact, zoneName)
      <==> '*' !in pattern && NormalizeFqdn(zoneName).Some? && (pattern == "@" || EndsInZone(pattern, zoneName))
  {
    hide NormalizeFqdn, InZone, IsSuffix, Split;
    if NormalizeFqdn(zoneName).Some? {
      var zone := NormalizeFqdn(zoneName).value;
      InZoneItself(zone);
      if NormalizeFqdn(pattern).Some? {
        InZoneByLabels(NormalizeFqdn(pattern).value, zone);
      }
    }
  }

  lemma InZoneItself(zone: string)
    ensures InZone(zone, zone)
  {
  }

  predicate StarFree(parts: seq<string>) {
    forall i | 0 <= i < |parts| :: '*' !in parts[i]
  }

  predicate DotFree(parts: seq<string>) {
    forall i | 0 <= i < |parts| :: '.' !in parts[i]
  }

  /** The pattern is one whole-label star with other labels left and right of it. */
  ghost predicate OneStarBetween(pattern: string, left: seq<string>, right: seq<string>) {
    && StarFree(left) && StarFree(right) && DotFree(left) && DotFree(right)
    && pattern == Join(left + [['*']] + right, '.')
  }

  lemma JoinLonger(part: string, rest: seq<string>)
    requires rest != []
    ensures Join([part] + rest, '.') == part + ['.'] + Join(rest, '.')
  {
    assert ([part] + rest)[1..] == rest;
  }

  function Stars(s: string): nat {
    multiset(s)['*']
  }

  lemma StarsAdd(a: string, b: string)
    ensures Stars(a + b) == Stars(a) + Stars(b)
  {
    assert multiset(a + b) == multiset(a) + multiset(b);
  }

  lemma NoStars(s: string)
    ensures Stars(s) == 0 <==> '*' !in s
  {
  }

  lemma {:induction false} JoinStars(parts: seq<string>)
    ensures Stars(Join(parts, '.')) == 0 <==> StarFree(parts)
  {
    if |parts| == 1 {
      NoStars(parts[0]);
    } else if |parts| > 1 {
      JoinStars(parts[1..]);
      NoStars(parts[0]);
      StarsAdd(parts[0], ['.']);
      StarsAdd(parts[0] + ['.'], Join(parts[1..], '.'));
      assert parts == [parts[0]] + parts[1..];
    }
  }

  /** How often the star occurs in a pattern with a whole-label star. */
  lemma {:induction false} StarsAround(left: seq<string>, right: seq<string>)
    ensures Stars(Join(left + [['*']] + right, '.')) == 1 + Stars(Join(left, '.')) + Stars(Join(right, '.'))
    decreases |left|
  {
    hide Join;
    if left == [] {
      assert left + [['*']] + right == [['*']] + right;
      StarFirst(right);
      JoinNothing();
    } else {
      StarsAround(left[1..], right);
      assert left + [['*']] + right == [left[0]] + (left[1..] + [['*']] + right);
      JoinLonger(left[0], left[1..] + [['*']] + right);
      StarsAdd(left[0], ['.']);
      StarsAdd(left[0] + ['.'], Join(left[1..] + [['*']] + right, '.'));
      StarsOfJoin(left);
    }
  }

  lemma JoinNothing()
    ensures Stars(Join([], '.')) == 0
  {
  }

  lemma StarFirst(right: seq<string>)
    ensures Stars(Join([['*']] + right, '.')) == 1 + Stars(Join(right, '.'))
  {
    if right != [] {
      JoinLonger(['*'], right);
      StarsAdd(['*'], ['.']);
      StarsAdd(['*'] + ['.'], Join(right, '.'));
    } else {
      assert [['*']] + right == [['*']];
    }
  }

  lemma StarsOfJoin(parts: seq<string>)
    requires parts != []
    ensures Stars(Join(parts, '.')) == Stars(parts[0]) + Stars(Join(parts[1..], '.'))
  {
    if |parts| > 1 {
      StarsAdd(parts[0], ['.']);
      StarsAdd(parts[0] + ['.'], Join(parts[1..], '.'));
    }
  }

  lemma FirstStarIs(labels: seq<string>, star: nat)
    requires star < |labels| && '*' in labels[star] && StarFree(labels[..star])
    ensures FirstStarred(labels) == star
  {
    forall i | 0 <= i < star ensures '*' !in labels[i] {
      assert labels[i] == labels[..star][i];
    }
  }

  /** A pattern in which one star stands between other labels passes the tests on its star, and
      the others are what is left of it. */
  lemma BetweenPasses(pattern: string, left: seq<string>, right: seq<string>)
    requires OneStarBetween(pattern, left, right)
    ensures Stars(pattern) == 1 && StarIsWholeLabel(pattern) && Remainder(pattern) == Join(left + right, '.')
  {
    hide Join, Split, Stars, FirstStarred;
    var labels := left + [['*']] + right;
    SplitJoin(labels, '.');
    assert labels[..|left|] == left && labels[|left| + 1..] == right;
    FirstStarIs(labels, |left|);
    StarsAround(left, right);
    JoinStars(left);
    JoinStars(right);
  }

  /** And every pattern that passes them is one. */
  lemma PassesBetween(pattern: string) returns (left: seq<string>, right: seq<string>)
    requires Stars(pattern) == 1 && StarIsWholeLabel(pattern)
    ensures OneStarBetween(pattern, left, right) && Remainder(pattern) == Join(left + right, '.')
  {
    hide Join, Split, Stars;
    var labels := Split(pattern, '.');
    var star := FirstStarred(labels);
    left, right := labels[..star], labels[star + 1..];
    assert labels == left + [['*']] + right;
    JoinSplit(pattern, '.');
    PiecesFree(pattern, '.');
    StarsAround(left, right);
    JoinStars(right);
  }

  /** A wildcard pattern is accepted exactly when it has one star, a label of its own, and the
      labels that the others normalize to end in the zone's. */
  lemma WildcardAccepted(pattern: string, zoneName: string)
    ensures AcceptsPattern(pattern, Wildcard, zoneName)
      <==> exists left, right :: OneStarBetween(pattern, left, right) && EndsInZone(Join(left + right, '.'), zoneName)
  {
    hide NormalizeFqdn, IsSuffix, Split, Join, InZone, StarIsWholeLabel, Remainder, OneStarBetween;
    if AcceptsPattern(pattern, Wildcard, zoneName) {
      assert Stars(pattern) == 1;
      var left, right := PassesBetween(pattern);
      InZoneByLabels(NormalizeFqdn(Remainder(pattern)).value, NormalizeFqdn(zoneName).value);
      assert EndsInZone(Join(left + right, '.'), zoneName);
    }
    if left, right :| OneStarBetween(pattern, left, right) && EndsInZone(Join(left + right, '.'), zoneName) {
      BetweenPasses(pattern, left, right);
      InZoneByLabels(NormalizeFqdn(Remainder(pattern)).value, NormalizeFqdn(zoneName).value);
    }
  }

  /** Whatever name a zone has, all its names can be minted: every canonical name without a star
      whose labels end in the zone's is an accepted exact pattern, and every way to put one more
      label, a star, left of the zone's is an accepted wildcard. */
  lemma ZoneNamesAccepted(y: string, zoneName: string)
    requires Canonical(y) && '*' !in y && NormalizeFqdn(zoneName).Some?
    requires IsSuffix(Split(NormalizeFqdn(zoneName).value, '.'), Split(y, '.'))
    ensures AcceptsPattern(y + ".", Exact, zoneName)
    ensures forall k | 0 <= k <= |Split(y, '.')| - |Split(NormalizeFqdn(zoneName).value, '.')| ::
      AcceptsPattern(Join(Split(y, '.')[..k] + [['*']] + Split(y, '.')[k..], '.') + ".", Wildcard, zoneName)
  {
    hide NormalizeFqdn, IsSuffix, Canonical, AcceptsPattern, EndsInZone;
    var labels := Split(y, '.');
    NormalizeDotted(y);
    NoStarDotted(y);
    EndsDotted(y, zoneName);
    ExactAccepted(y + ".", zoneName);
    forall k | 0 <= k <= |labels| - |Split(NormalizeFqdn(zoneName).value, '.')|
      ensures AcceptsPattern(Join(labels[..k] + [['*']] + labels[k..], '.') + ".", Wildcard, zoneName)
    {
      StarredAccepted(y, k, zoneName);
    }
  }

  lemma NoStarDotted(y: string)
    requires '*' !in y
    ensures '*' !in y + "."
  {
  }

  lemma EndsDotted(y: string, zoneName: string)
    requires Canonical(y) && NormalizeFqdn(zoneName).Some?
    requires IsSuffix(Split(NormalizeFqdn(zoneName).value, '.'), Split(y, '.'))
    ensures EndsInZone(y + ".", zoneName)
  {
    hide NormalizeFqdn, IsSuffix, Canonical, Split;
    NormalizeDotted(y);
  }

  lemma {:induction false} PiecesStarFree(s: string)
    requires '*' !in s
    ensures StarFree(Split(s, '.'))
  {
    if s != "" {
      PiecesStarFree(s[1..]);
    }
  }

  /** A last empty label is a trailing dot. */
  lemma JoinDotted(parts: seq<string>)
    requires parts != []
    ensures Join(parts + [""], '.') == Join(parts, '.') + "."
  {
    JoinConcat(parts, [""], '.');
  }

  lemma StarredAccepted(y: string, k: nat, zoneName: string)
    requires Canonical(y) && '*' !in y && NormalizeFqdn(zoneName).Some? && k <= |Split(y, '.')|
    requires IsSuffix(Split(NormalizeFqdn(zoneName).value, '.'), Split(y, '.'))
    ensures AcceptsPattern(Join(Split(y, '.')[..k] + [['*']] + Split(y, '.')[k..], '.') + ".", Wildcard, zoneName)
  {
    hide NormalizeFqdn, IsSuffix, Canonical, AcceptsPattern, EndsInZone, Split, Join;
    var labels := Split(y, '.');
    var left, right := labels[..k], labels[k..] + [""];
    var pattern := Join(left + [['*']] + labels[k..], '.') + ".";
    PiecesFree(y, '.');
    PiecesStarFree(y);
    JoinDotted(left + [['*']] + labels[k..]);
    assert left + [['*']] + labels[k..] + [""] == left + [['*']] + right;
    assert OneStarBetween(pattern, left, right);
    JoinDotted(labels);
    assert left + right == labels + [""];
    JoinSplit(y, '.');
    EndsDotted(y, zoneName);
    WildcardAccepted(pattern, zoneName);
  }
}
