/** Zone confinement of accepted wildcard patterns: for patterns without white space it is
    decided by where the star stands relative to the zone's own labels. */
module PatternTheorems {
  import opened Text
  import opened Fqdn
  import opened Scope
  import opened NameTheorems

  predicate SpaceFree(s: string) {
    forall i | 0 <= i < |s| :: !IsSpace(s[i])
  }

  /** How many pieces are left when empty pieces are dropped from the end, keeping one. */
  function Kept(parts: seq<string>): (k: nat)
    requires parts != []
    ensures 1 <= k <= |parts|
    ensures k == 1 || parts[k - 1] != ""
    ensures forall i | k <= i < |parts| :: parts[i] == ""
  {
    if |parts| > 1 && parts[|parts| - 1] == "" then Kept(parts[..|parts| - 1]) else |parts|
  }

  lemma {:induction false} SplitRStripDots(s: string)
    ensures Split(RStripDots(s), '.') == Split(s, '.')[..Kept(Split(s, '.'))]
  {
    LastPiece(s, '.');
    if s != "" && s[|s| - 1] == '.' {
      var u := s[..|s| - 1];
      assert s == u + ['.'] + "";
      SplitConcat(u, '.', "");
      assert Split(s, '.')[..|Split(s, '.')| - 1] == Split(u, '.');
      SplitRStripDots(u);
    }
  }

  function LowerAll(parts: seq<string>): seq<string> {
    seq(|parts|, i requires 0 <= i < |parts| => Lower(parts[i]))
  }

  lemma {:induction false} SplitLower(s: string)
    ensures Split(Lower(s), '.') == LowerAll(Split(s, '.'))
  {
    if s != "" {
      SplitLower(s[1..]);
      assert Lower(s)[1..] == Lower(s[1..]);
      var rest := Split(s[1..], '.');
      if s[0] != '.' {
        assert Lower([s[0]] + rest[0]) == [LowerChar(s[0])] + Lower(rest[0]);
      }
    }
  }

  /** The labels of a canonical name, from the labels of a name without white space. */
  lemma CanonicalLabels(name: string)
    requires SpaceFree(name) && NormalizeFqdn(name).Some?
    ensures Split(NormalizeFqdn(name).value, '.')
      == LowerAll(Split(name, '.')[..Kept(Split(name, '.'))])
  {
    StripFree(name);
    SplitRStripDots(name);
    SplitLower(RStripDots(name));
  }

  lemma LowerStar(piece: string)
    ensures Lower(piece) == "*" <==> piece == "*"
  {
    if Lower(piece) == "*" {
      assert Lower(piece)[0] == '*' && Lower(piece)[0] == LowerChar(piece[0]);
      assert piece == [piece[0]];
    }
  }

  lemma FirstStarIs(labels: seq<string>, star: nat)
    requires star < |labels| && labels[star] == "*"
    requires forall i | 0 <= i < star :: labels[i] != "*"
    ensures StarIndex(labels) == Some(star)
  {
  }

  lemma StarSurvives(labels: seq<string>)
    requires labels != []
    requires FirstStarred(labels) < |labels| && labels[FirstStarred(labels)] == "*"
    ensures FirstStarred(labels) < Kept(labels)
    ensures StarIndex(LowerAll(labels[..Kept(labels)])) == Some(FirstStarred(labels))
  {
    var star, lowered := FirstStarred(labels), LowerAll(labels[..Kept(labels)]);
    forall i | 0 <= i <= star
      ensures lowered[i] == "*" <==> i == star
    {
      LowerStar(labels[i]);
    }
    FirstStarIs(lowered, star);
  }

  lemma KeptIs(parts: seq<string>, k: nat)
    requires 1 <= k <= |parts| && parts[k - 1] != ""
    requires forall i | k <= i < |parts| :: parts[i] == ""
    ensures Kept(parts) == k
  {
  }

  /** Dropping the star drops one label of the canonical pattern, when the star is not last. */
  lemma RemainderLabels(labels: seq<string>, star: nat)
    requires labels != [] && star + 1 < Kept(labels)
    ensures var rest := labels[..star] + labels[star + 1..];
      && rest != []
      && rest[..Kept(rest)] == labels[..star] + labels[star + 1..Kept(labels)]
  {
    var rest, k := labels[..star] + labels[star + 1..], Kept(labels);
    assert rest[k - 2] == labels[k - 1];
    KeptIs(rest, k - 1);
  }

  lemma JoinSpaceFree(parts: seq<string>)
    requires forall i | 0 <= i < |parts| :: SpaceFree(parts[i])
    ensures SpaceFree(Join(parts, '.'))
  {
  }

  lemma {:induction false} PiecesSpaceFree(s: string)
    requires SpaceFree(s)
    ensures forall i | 0 <= i < |Split(s, '.')| :: SpaceFree(Split(s, '.')[i])
  {
    if s != "" {
      PiecesSpaceFree(s[1..]);
    }
  }

  lemma AcceptedRemainder(pattern: string, zoneName: string)
    requires AcceptsPattern(pattern, Wildcard, zoneName)
    ensures NormalizeFqdn(Remainder(pattern)).Some?
    ensures NormalizeFqdn(zoneName).Some?
    ensures IsSuffix(Split(NormalizeFqdn(zoneName).value, '.'), Split(NormalizeFqdn(Remainder(pattern)).value, '.'))
    ensures var labels := Split(pattern, '.');
      FirstStarred(labels) < |labels| && labels[FirstStarred(labels)] == "*"
  {
    InZoneByLabels(NormalizeFqdn(Remainder(pattern)).value, NormalizeFqdn(zoneName).value);
  }

  lemma SuffixAfterStar(labels: seq<string>, star: nat, k: nat, z: seq<string>)
    requires star < k <= |labels| && |z| + star < k
    requires IsSuffix(z, LowerAll(labels[..star] + labels[star + 1..k]))
    ensures IsSuffix(z, LowerAll(labels[..k])[star + 1..])
  {
    var rest, all := LowerAll(labels[..star] + labels[star + 1..k]), LowerAll(labels[..k]);
    forall i | 0 <= i < |z|
      ensures z[i] == all[star + 1..][k - star - 1 - |z| + i]
    {
      assert z[i] == rest[k - 1 - |z|..][i];
    }
  }

  /** For an accepted wildcard pattern without white space, confinement to the zone is a
      matter of counting labels: the star stands left of the zone's own labels. */
  lemma WildcardConfinedByPosition(pattern: string, zoneName: string)
    requires AcceptsPattern(pattern, Wildcard, zoneName) && SpaceFree(pattern)
    requires NormalizeFqdn(pattern).Some? && NormalizeFqdn(zoneName).Some?
    ensures var zone, p := NormalizeFqdn(zoneName).value, NormalizeFqdn(pattern).value;
      var labels := Split(p, '.');
      && StarIndex(labels).Some?
      && (Confined(pattern, Wildcard, zone)
          <==> StarIndex(labels).value + |Split(zone, '.')| < |labels|)
  {
    hide NormalizeFqdn, Split, Confined, AcceptsPattern, Remainder, InZone;
    AcceptedRemainder(pattern, zoneName);
    var raw, z := Split(pattern, '.'), Split(NormalizeFqdn(zoneName).value, '.');
    var star, k := FirstStarred(raw), Kept(raw);
    CanonicalLabels(pattern);
    StarSurvives(raw);
    WildcardConfined(pattern, NormalizeFqdn(zoneName).value);
    if star + |z| < k {
      RemainderByLabels(pattern, star, k);
      SuffixAfterStar(raw, star, k, z);
    }
  }

  lemma RemainderPieces(pattern: string) returns (rest: seq<string>)
    requires SpaceFree(pattern) && |Split(pattern, '.')| > 1
    requires FirstStarred(Split(pattern, '.')) < |Split(pattern, '.')|
    ensures rest == Split(pattern, '.')[..FirstStarred(Split(pattern, '.'))]
      + Split(pattern, '.')[FirstStarred(Split(pattern, '.')) + 1..]
    ensures Split(Remainder(pattern), '.') == rest
    ensures SpaceFree(Remainder(pattern))
  {
    var raw := Split(pattern, '.');
    var star := FirstStarred(raw);
    rest := raw[..star] + raw[star + 1..];
    PiecesSpaceFree(pattern);
    JoinSpaceFree(rest);
    PiecesFree(pattern, '.');
    SplitJoin(rest, '.');
  }

  lemma RemainderByLabels(pattern: string, star: nat, k: nat)
    requires SpaceFree(pattern) && NormalizeFqdn(Remainder(pattern)).Some?
    requires star == FirstStarred(Split(pattern, '.')) && k == Kept(Split(pattern, '.')) && star + 1 < k
    ensures Split(NormalizeFqdn(Remainder(pattern)).value, '.')
      == LowerAll(Split(pattern, '.')[..star] + Split(pattern, '.')[star + 1..k])
  {
    var rest := RemainderPieces(pattern);
    RemainderLabels(Split(pattern, '.'), star);
    CanonicalLabels(Remainder(pattern));
  }
}
