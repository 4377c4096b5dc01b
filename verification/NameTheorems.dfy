/** What name matching and pattern validation mean: the wildcard law, and when an accepted
    pattern is confined to its zone. */
module NameTheorems {
  import opened Text
  import opened Fqdn
  import opened Scope

  /** `target` is `pattern` with its first "*" label replaced by the one label `piece`. */
  ghost predicate ReplacesStar(pattern: string, piece: string, target: string) {
    var labels := Split(pattern, '.');
    && StarIndex(labels).Some?
    && '.' !in piece
    && target == Join(labels[StarIndex(labels).value := piece], '.')
  }

  lemma LabelsMatchMeaning(p: string, t: string)
    ensures LabelsMatch(Split(p, '.'), Split(t, '.')) <==> exists piece :: ReplacesStar(p, piece, t)
  {
    var labels, target := Split(p, '.'), Split(t, '.');
    PiecesFree(p, '.');
    PiecesFree(t, '.');
    if LabelsMatch(labels, target) {
      var star := StarIndex(labels).value;
      assert labels[star := target[star]] == target;
      JoinSplit(t, '.');
      assert ReplacesStar(p, target[star], t);
    }
    if piece :| ReplacesStar(p, piece, t) {
      SplitJoin(labels[StarIndex(labels).value := piece], '.');
    }
  }

  /** Wildcard matching holds exactly when the canonical target is the canonical pattern with
      its first "*" label replaced by one dot-free label. */
  lemma WildcardMeaning(pattern: string, target: string)
    requires NormalizeFqdn(pattern).Some? && NormalizeFqdn(target).Some?
    ensures NameMatches(pattern, Wildcard, target) == Some(true)
      <==> exists piece :: ReplacesStar(NormalizeFqdn(pattern).value, piece, NormalizeFqdn(target).value)
  {
    hide NormalizeFqdn, Split, LabelsMatch, ReplacesStar;
    LabelsMatchMeaning(NormalizeFqdn(pattern).value, NormalizeFqdn(target).value);
  }

  lemma LeadingStarLabels(base: string)
    ensures Split("*." + base, '.') == ["*"] + Split(base, '.')
    ensures StarIndex(Split("*." + base, '.')) == Some(0)
  {
    SplitFree("*", '.');
    assert "*." + base == "*" + ['.'] + base;
    SplitConcat("*", '.', base);
  }

  lemma LeadingStarJoin(base: string, piece: string)
    ensures Join(Split("*." + base, '.')[0 := piece], '.') == piece + "." + base
  {
    LeadingStarLabels(base);
    JoinSplit(base, '.');
    var rest := Split(base, '.');
    assert (["*"] + rest)[0 := piece] == [piece] + rest;
    assert ([piece] + rest)[1..] == rest;
  }

  /** A leading "*" stands for one label: it never crosses a dot and never vanishes. */
  lemma LeadingStarIsOneLabel(base: string, target: string)
    ensures LabelsMatch(Split("*." + base, '.'), Split(target, '.'))
      <==> exists piece :: '.' !in piece && target == piece + "." + base
    ensures !LabelsMatch(Split("*." + base, '.'), Split(base, '.'))
  {
    var p := "*." + base;
    LeadingStarLabels(base);
    LabelsMatchMeaning(p, target);
    if piece :| ReplacesStar(p, piece, target) {
      LeadingStarJoin(base, piece);
    }
    if piece: string :| '.' !in piece && target == piece + "." + base {
      LeadingStarJoin(base, piece);
      assert ReplacesStar(p, piece, target);
    }
  }

  /** `cut` keeps the earlier pieces of `whole` and shortens the last one that it keeps. */
  ghost predicate CutsShort(cut: seq<string>, whole: seq<string>) {
    && 0 < |cut| <= |whole|
    && cut[|cut| - 1] <= whole[|cut| - 1]
    && forall i | 0 <= i < |cut| - 1 :: cut[i] == whole[i]
  }

  lemma CutsShortStep(c: char, cut: seq<string>, whole: seq<string>)
    requires CutsShort(cut, whole)
    ensures CutsShort([""] + cut, [""] + whole)
    ensures CutsShort([[c] + cut[0]] + cut[1..], [[c] + whole[0]] + whole[1..])
  {
  }

  /** Cutting a string short cuts its pieces short. */
  lemma {:induction false} SplitPrefix(s: string, m: nat, sep: char)
    requires m <= |s|
    ensures CutsShort(Split(s[..m], sep), Split(s, sep))
  {
    if m > 0 {
      hide CutsShort;
      SplitPrefix(s[1..], m - 1, sep);
      assert s[..m][1..] == s[1..][..m - 1];
      assert s[..m][0] == s[0];
      CutsShortStep(s[0], Split(s[1..][..m - 1], sep), Split(s[1..], sep));
    }
  }

  lemma CanonicalPrefix(y: string, t: string)
    requires Canonical(y) && t <= y
    ensures IdnaAccepts(t) && Lower(t) == t
  {
    assert t == y[..|t|];
    forall i | 0 <= i < |t| ensures Lower(t)[i] == t[i] {
      assert Lower(y)[i] == y[i];
    }
    SplitPrefix(y, |t|, '.');
  }

  /** A canonical name never fails to normalize again. */
  lemma CanonicalNormalizes(name: string)
    requires NormalizeFqdn(name).Some?
    ensures NormalizeFqdn(NormalizeFqdn(name).value).Some?
  {
    var y := NormalizeFqdn(name).value;
    if y != "" {
      NormalizeImage(name, y);
      LeadingKept(y);
      CanonicalPrefix(y, RStripDots(Strip(y)));
    }
  }

  lemma LeadingKept(y: string)
    requires y == "" || !IsSpace(y[0])
    ensures Strip(y) <= y
  {
  }

  /** Every name that the pattern matches is the zone or one of its subdomains. */
  ghost predicate Confined(pattern: string, mode: NameMatch, zone: string) {
    forall target :: NameMatches(pattern, mode, target) == Some(true)
                     ==> InZone(NormalizeFqdn(target).value, zone)
  }

  lemma InZoneByLabels(name: string, zone: string)
    ensures InZone(name, zone) <==> IsSuffix(Split(zone, '.'), Split(name, '.'))
  {
    SuffixByPieces(name, zone, '.');
    assert ['.'] + zone == "." + zone;
  }

  lemma AtNormalizes()
    ensures NormalizeFqdn("@") == Some("@")
  {
    assert LStrip("@") == "@" && RStrip("@") == "@" && RStripDots("@") == "@";
    assert Lower("@") == "@";
    SplitFree("@", '.');
  }

  lemma AtOutsideZone(zone: string)
    requires zone != "@"
    ensures !InZone("@", zone)
  {
    assert |"." + zone| == 1 + |zone|;
    assert ("." + zone)[0] == '.';
  }

  lemma ExactMatches(pattern: string, target: string)
    ensures NameMatches(pattern, Exact, target) == Some(true)
      <==> NormalizeFqdn(pattern).Some? && NormalizeFqdn(target) == NormalizeFqdn(pattern)
  {
  }

  lemma ExactReach(pattern: string, zone: string)
    requires NormalizeFqdn(pattern).Some?
    ensures Confined(pattern, Exact, zone) <==> InZone(NormalizeFqdn(pattern).value, zone)
  {
    ExactMatches(pattern, pattern);
    forall target | NameMatches(pattern, Exact, target) == Some(true)
      ensures NormalizeFqdn(target) == NormalizeFqdn(pattern)
    {
      ExactMatches(pattern, target);
    }
  }

  /** An accepted exact pattern is confined to its zone unless it is the apex marker "@",
      which validation reads as the zone but matching reads as a name of its own. */
  lemma ExactConfined(pattern: string, zoneName: string)
    requires AcceptsPattern(pattern, Exact, zoneName)
    ensures Confined(pattern, Exact, NormalizeFqdn(zoneName).value)
      <==> (pattern != "@" || NormalizeFqdn(zoneName).value == "@")
  {
    var zone := NormalizeFqdn(zoneName).value;
    if pattern == "@" {
      AtNormalizes();
      ExactReach("@", zone);
      if zone != "@" {
        AtOutsideZone(zone);
      }
    } else {
      AcceptedInZone(pattern, zoneName);
      ExactReach(pattern, zone);
    }
  }

  lemma AcceptedInZone(pattern: string, zoneName: string)
    requires AcceptsPattern(pattern, Exact, zoneName) && pattern != "@"
    ensures NormalizeFqdn(pattern).Some?
    ensures InZone(NormalizeFqdn(pattern).value, NormalizeFqdn(zoneName).value)
  {
  }

  /** The labels right of the star in the canonical pattern. */
  function RightOfStar(canonical: string): seq<string> {
    var labels := Split(canonical, '.');
    match StarIndex(labels)
    case None => []
    case Some(star) => labels[star + 1..]
  }

  lemma LowerJoin(parts: seq<string>, i: nat, piece: string)
    requires i < |parts|
    requires Lower(piece) == piece && Lower(Join(parts, '.')) == Join(parts, '.')
    ensures Lower(Join(parts[i := piece], '.')) == Join(parts[i := piece], '.')
    decreases |parts|
  {
    if |parts| > 1 {
      var rest := Join(parts[1..], '.');
      LowerConcat(parts[0], ['.'], rest);
      if i > 0 {
        LowerJoin(parts[1..], i - 1, piece);
        assert parts[i := piece][1..] == parts[1..][i - 1 := piece];
        LowerConcatFixed(parts[0], ['.'], Join(parts[1..][i - 1 := piece], '.'));
      } else {
        assert parts[i := piece][1..] == parts[1..];
        LowerConcatFixed(piece, ['.'], rest);
      }
    }
  }

  lemma LowerConcat(a: string, b: string, c: string)
    requires Lower(a + b + c) == a + b + c
    ensures Lower(a) == a && Lower(c) == c
  {
    forall i | 0 <= i < |a| ensures Lower(a)[i] == a[i] {
      assert Lower(a + b + c)[i] == LowerChar(a[i]);
    }
    forall i | 0 <= i < |c| ensures Lower(c)[i] == c[i] {
      assert Lower(a + b + c)[|a| + |b| + i] == LowerChar(c[i]);
    }
  }

  lemma LowerConcatFixed(a: string, b: string, c: string)
    requires Lower(a) == a && Lower(b) == b && Lower(c) == c
    ensures Lower(a + b + c) == a + b + c
  {
    forall i | 0 <= i < |a + b + c| ensures Lower(a + b + c)[i] == (a + b + c)[i] {
      if i < |a| {
        assert Lower(a)[i] == a[i];
      } else if i < |a| + |b| {
        assert Lower(b)[i - |a|] == b[i - |a|];
      } else {
        assert Lower(c)[i - |a| - |b|] == c[i - |a| - |b|];
      }
    }
  }

  lemma StarFilled(p: string, piece: string) returns (t: string)
    requires Canonical(p) && StarIndex(Split(p, '.')).Some?
    requires '.' !in piece && 0 < |piece| < 64 && Lower(piece) == piece && !IsSpace(piece[0])
    ensures Canonical(t)
    ensures Split(t, '.') == Split(p, '.')[StarIndex(Split(p, '.')).value := piece]
    ensures ReplacesStar(p, piece, t)
  {
    var labels := Split(p, '.');
    var star := StarIndex(labels).value;
    var filled := labels[star := piece];
    t := Join(filled, '.');
    PiecesFree(p, '.');
    SplitJoin(filled, '.');
    JoinSplit(p, '.');
    LowerJoin(labels, star, piece);
    HeadOfJoin(filled);
    HeadOfJoin(labels);
  }

  lemma HeadOfJoin(parts: seq<string>)
    requires parts != [] && parts[0] != ""
    ensures Join(parts, '.') != "" && Join(parts, '.')[0] == parts[0][0]
  {
  }

  lemma StarInCanonical(pattern: string)
    requires NormalizeFqdn(pattern).Some?
    requires StarIndex(Split(NormalizeFqdn(pattern).value, '.')).Some?
    ensures Canonical(NormalizeFqdn(pattern).value)
  {
    var p := NormalizeFqdn(pattern).value;
    if p != "" {
      NormalizeImage(pattern, p);
    }
  }

  lemma MatchesByCanonical(pattern: string, target: string, p: string, t: string)
    requires NormalizeFqdn(pattern) == Some(p) && NormalizeFqdn(target) == Some(t)
    ensures NameMatches(pattern, Wildcard, target) == Some(LabelsMatch(Split(p, '.'), Split(t, '.')))
  {
    BothCanonicalWildcard(p, t);
  }

  lemma BothCanonicalWildcard(p: string, t: string)
    ensures BothCanonical(Some(p), Wildcard, Some(t)) == Some(LabelsMatch(Split(p, '.'), Split(t, '.')))
  {
  }

  /** Every choice of a short lower-case label for the star is a name the pattern matches. */
  lemma StarTakes(pattern: string, piece: string) returns (target: string, t: string)
    requires NormalizeFqdn(pattern).Some?
    requires StarIndex(Split(NormalizeFqdn(pattern).value, '.')).Some?
    requires '.' !in piece && 0 < |piece| < 64 && Lower(piece) == piece && !IsSpace(piece[0])
    ensures NameMatches(pattern, Wildcard, target) == Some(true)
    ensures NormalizeFqdn(target) == Some(t)
    ensures var labels := Split(NormalizeFqdn(pattern).value, '.');
      Split(t, '.') == labels[StarIndex(labels).value := piece]
  {
    var p := NormalizeFqdn(pattern).value;
    StarInCanonical(pattern);
    t := StarFilled(p, piece);
    target := t + ".";
    NormalizeDotted(t);
    LabelsMatchMeaning(p, t);
    MatchesByCanonical(pattern, target, p, t);
  }

  lemma SuffixOfRight(labels: seq<string>, found: seq<string>, star: nat, z: seq<string>)
    requires star < |labels| == |found|
    requires forall i | 0 <= i < |labels| :: i == star || labels[i] == found[i]
    requires IsSuffix(z, labels[star + 1..])
    ensures IsSuffix(z, found)
  {
    assert found[star + 1..] == labels[star + 1..];
    assert found[|found| - |z|..] == found[star + 1..][|found| - star - 1 - |z|..];
  }

  /** A suffix that reaches back to the filled star has the filling there. */
  lemma SuffixAtStar(labels: seq<string>, star: nat, z: seq<string>, piece: string)
    requires star < |labels| && IsSuffix(z, labels[star := piece])
    ensures var at := |z| - (|labels| - star); at >= 0 ==> z[at] == piece
  {
    var at := |z| - (|labels| - star);
    if at >= 0 {
      assert z[at] == labels[star := piece][|labels| - |z|..][at];
    }
  }

  /** Filling the star with a label that is not the zone's own label at that place. */
  lemma SuffixForcesRight(labels: seq<string>, star: nat, z: seq<string>, piece: string)
    requires star < |labels|
    requires IsSuffix(z, labels[star := piece])
    requires var at := |z| - (|labels| - star); at < 0 || z[at] != piece
    ensures IsSuffix(z, labels[star + 1..])
  {
    var filled := labels[star := piece];
    SuffixAtStar(labels, star, z, piece);
    assert filled[|labels| - |z|..] == labels[star + 1..][|labels| - star - 1 - |z|..];
  }

  /** One name that the pattern matches lies in the zone. */
  lemma MatchLiesInZone(pattern: string, target: string, p: string, t: string, star: nat, zone: string)
    requires NormalizeFqdn(pattern) == Some(p) && NormalizeFqdn(target) == Some(t)
    requires StarIndex(Split(p, '.')) == Some(star)
    requires NameMatches(pattern, Wildcard, target) == Some(true)
    requires IsSuffix(Split(zone, '.'), Split(p, '.')[star + 1..])
    ensures InZone(t, zone)
  {
    hide NormalizeFqdn, Split, IsSuffix, InZone, NameMatches, StarIndex;
    MatchesByCanonical(pattern, target, p, t);
    SuffixOfRight(Split(p, '.'), Split(t, '.'), star, Split(zone, '.'));
    InZoneByLabels(t, zone);
  }

  lemma SuffixConfines(pattern: string, p: string, star: nat, zone: string)
    requires NormalizeFqdn(pattern) == Some(p) && StarIndex(Split(p, '.')) == Some(star)
    requires IsSuffix(Split(zone, '.'), Split(p, '.')[star + 1..])
    ensures Confined(pattern, Wildcard, zone)
  {
    hide NormalizeFqdn, Split, IsSuffix, InZone, CanonicalMatches, StarIndex;
    forall target | NameMatches(pattern, Wildcard, target) == Some(true)
      ensures NormalizeFqdn(target).Some? && InZone(NormalizeFqdn(target).value, zone)
    {
      MatchLiesInZone(pattern, target, p, NormalizeFqdn(target).value, star, zone);
    }
  }

  lemma ConfinedForcesSuffix(pattern: string, p: string, star: nat, zone: string)
    requires NormalizeFqdn(pattern) == Some(p) && StarIndex(Split(p, '.')) == Some(star) && star < |Split(p, '.')|
    requires Confined(pattern, Wildcard, zone)
    ensures IsSuffix(Split(zone, '.'), Split(p, '.')[star + 1..])
  {
    hide NormalizeFqdn, Split, IsSuffix, InZone, NameMatches, StarIndex;
    var labels, z := Split(p, '.'), Split(zone, '.');
    var at := |z| - (|labels| - star);
    var piece := if 0 <= at < |z| && z[at] == "a" then "b" else "a";
    PieceFits(piece);
    var target, t := StarTakes(pattern, piece);
    InZoneByLabels(t, zone);
    SuffixForcesRight(labels, star, z, piece);
  }

  lemma PieceFits(piece: string)
    requires piece == "a" || piece == "b"
    ensures '.' !in piece && 0 < |piece| < 64 && Lower(piece) == piece && !IsSpace(piece[0])
  {
  }

  /** A wildcard pattern is confined to a zone exactly when what lies right of its star ends
      in the zone (or when it matches nothing at all). */
  lemma WildcardConfined(pattern: string, zone: string)
    requires NormalizeFqdn(pattern).Some?
    requires StarIndex(Split(NormalizeFqdn(pattern).value, '.')).Some?
    ensures Confined(pattern, Wildcard, zone)
      <==> IsSuffix(Split(zone, '.'), RightOfStar(NormalizeFqdn(pattern).value))
  {
    hide NormalizeFqdn, Split, IsSuffix, Confined;
    var p := NormalizeFqdn(pattern).value;
    var star := StarIndex(Split(p, '.')).value;
    if IsSuffix(Split(zone, '.'), RightOfStar(p)) {
      SuffixConfines(pattern, p, star, zone);
    }
    if Confined(pattern, Wildcard, zone) {
      ConfinedForcesSuffix(pattern, p, star, zone);
    }
  }

  /** A pattern that cannot be normalized, or that has no "*" label, matches nothing in
      wildcard mode, so it is confined to every zone. */
  lemma WildcardVacuous(pattern: string, zone: string)
    requires NormalizeFqdn(pattern) == None || StarIndex(Split(NormalizeFqdn(pattern).value, '.')) == None
    ensures Confined(pattern, Wildcard, zone)
  {
  }
}
