/** The layout of scoped tokens and of rules-cache keys, and how they are read back. */
module TokenLayout {
  import opened Text

  const LOOKUP_ID_LEN := 16
  const SECRET_LEN := 40

  predicate IsAlnum(s: string) {
    s != "" && forall i | 0 <= i < |s| :: '0' <= s[i] <= '9' || 'A' <= s[i] <= 'Z' || 'a' <= s[i] <= 'z'
  }

  /** What the random generator draws: strings over [A-Za-z0-9] of the given length. */
  predicate Drawn(s: string, length: nat) {
    |s| == length && IsAlnum(s)
  }

  function FullToken(brand: string, lookupId: string, secret: string): string {
    brand + "_" + lookupId + "_" + secret
  }

  function ParseScopedToken(full: string): Option<(string, string)> {
    var parts := Split(full, '_');
    if |parts| != 3 then None
    else if |parts[1]| != LOOKUP_ID_LEN || |parts[2]| != SECRET_LEN then None
    else if !IsAlnum(parts[1]) || !IsAlnum(parts[2]) then None
    else Some((parts[1], parts[2]))
  }

  lemma FullTokenPieces(brand: string, lookupId: string, secret: string)
    requires '_' !in lookupId && '_' !in secret
    ensures Split(FullToken(brand, lookupId, secret), '_') == Split(brand, '_') + [lookupId, secret]
  {
    var rest := lookupId + ['_'] + secret;
    assert FullToken(brand, lookupId, secret) == brand + ['_'] + rest;
    SplitConcat(brand, '_', rest);
    SplitConcat(lookupId, '_', secret);
    SplitFree(lookupId, '_');
    SplitFree(secret, '_');
  }

  /** Parsing a generated token returns its lookup id and secret when the configured brand has
      no underscore, and fails when it has one. */
  lemma ParseGenerated(brand: string, lookupId: string, secret: string)
    requires Drawn(lookupId, LOOKUP_ID_LEN) && Drawn(secret, SECRET_LEN)
    ensures ParseScopedToken(FullToken(brand, lookupId, secret))
      == if '_' in brand then None else Some((lookupId, secret))
  {
    FullTokenPieces(brand, lookupId, secret);
    if '_' !in brand {
      SplitFree(brand, '_');
    } else if |Split(brand, '_')| == 1 {
      JoinSplit(brand, '_');
      PiecesFree(brand, '_');
    }
  }

  lemma JoinThree(a: string, b: string, c: string)
    ensures Join([a, b, c], '_') == FullToken(a, b, c)
  {
    assert [a, b, c][1..] == [b, c] && [b, c][1..] == [c];
    assert Join([b, c], '_') == b + ['_'] + c;
  }

  /** Every token that parses has the generated layout. */
  lemma ParseInverts(full: string) returns (brand: string)
    requires ParseScopedToken(full).Some?
    ensures '_' !in brand
    ensures full == FullToken(brand, ParseScopedToken(full).value.0, ParseScopedToken(full).value.1)
  {
    var parts := Split(full, '_');
    JoinSplit(full, '_');
    PiecesFree(full, '_');
    assert parts == [parts[0], parts[1], parts[2]];
    JoinThree(parts[0], parts[1], parts[2]);
    brand := parts[0];
  }

  /** A word of the given length over the ASCII digits and letters. */
  predicate Word(s: string, length: nat) {
    && |s| == length
    && forall i | 0 <= i < |s| ::
         || '0' <= s[i] <= '9'
         || 'A' <= s[i] <= 'Z'
         || 'a' <= s[i] <= 'z'
  }

  /** What parses: a brand without underscore, a word of 16 letters and digits and one of 40, joined
      by underscores; the words are what is returned. */
  lemma ParseExactly(full: string, lookupId: string, secret: string)
    ensures ParseScopedToken(full) == Some((lookupId, secret))
      <==> exists brand | '_' !in brand ::
             full == brand + "_" + lookupId + "_" + secret && Word(lookupId, 16) && Word(secret, 40)
  {
    if ParseScopedToken(full) == Some((lookupId, secret)) {
      var brand := ParseInverts(full);
      assert '_' !in brand && full == brand + "_" + lookupId + "_" + secret;
    }
    if brand: string :| '_' !in brand && full == brand + "_" + lookupId + "_" + secret && Word(lookupId, 16)
                        && Word(secret, 40) {
      ParseGenerated(brand, lookupId, secret);
    }
  }

  function Digit(d: nat): char
    requires d < 10
  {
    '0' + d as char
  }

  /** `str` of an integer. */
  function Decimal(n: int): string
    decreases n < 0, if n < 0 then -n else n
  {
    if n < 0 then "-" + Decimal(-n)
    else if n < 10 then [Digit(n)]
    else Decimal(n / 10) + [Digit(n % 10)]
  }

  lemma {:induction false} DecimalDigits(n: nat)
    ensures Decimal(n) != "" && forall i | 0 <= i < |Decimal(n)| :: '0' <= Decimal(n)[i] <= '9'
  {
    if n >= 10 {
      DecimalDigits(n / 10);
    }
  }

  lemma {:induction false} NaturalsInjective(m: nat, n: nat)
    requires Decimal(m) == Decimal(n)
    ensures m == n
  {
    DecimalDigits(m / 10);
    DecimalDigits(n / 10);
    assert Decimal(m)[|Decimal(m)| - 1] == Digit(m % 10);
    assert Decimal(n)[|Decimal(n)| - 1] == Digit(n % 10);
    if m >= 10 && n >= 10 {
      assert Decimal(m)[..|Decimal(m)| - 1] == Decimal(m / 10);
      assert Decimal(n)[..|Decimal(n)| - 1] == Decimal(n / 10);
      NaturalsInjective(m / 10, n / 10);
    }
  }

  lemma SignsDiffer(m: int, n: int)
    requires m < 0 <= n
    ensures Decimal(m) != Decimal(n)
  {
    DecimalDigits(n);
    assert Decimal(m)[0] == '-';
  }

  lemma DecimalInjective(m: int, n: int)
    requires Decimal(m) == Decimal(n)
    ensures m == n
  {
    if m < 0 <= n {
      SignsDiffer(m, n);
    } else if n < 0 <= m {
      SignsDiffer(n, m);
    } else if m < 0 {
      assert Decimal(m)[1..] == Decimal(-m) && Decimal(n)[1..] == Decimal(-n);
      NaturalsInjective(-m, -n);
    } else {
      NaturalsInjective(m, n);
    }
  }

  lemma DecimalNoColon(n: int)
    ensures ':' !in Decimal(n)
  {
    DecimalDigits(if n < 0 then -n else n);
  }

  function RulesKey(lookupId: string, version: int): string {
    "rules:" + lookupId + ":" + Decimal(version)
  }

  lemma KeyPieces(lookupId: string, version: int)
    ensures Split(RulesKey(lookupId, version), ':') == ["rules"] + Split(lookupId, ':') + [Decimal(version)]
  {
    var rest := lookupId + [':'] + Decimal(version);
    assert RulesKey(lookupId, version) == "rules" + [':'] + rest;
    SplitConcat("rules", ':', rest);
    SplitConcat(lookupId, ':', Decimal(version));
    SplitFree("rules", ':');
    DecimalNoColon(version);
    SplitFree(Decimal(version), ':');
  }

  /** Distinct (lookup id, version) pairs have distinct cache keys, whatever the lookup ids. */
  lemma RulesKeyInjective(lookupId: string, version: int, lookupId2: string, version2: int)
    requires RulesKey(lookupId, version) == RulesKey(lookupId2, version2)
    ensures lookupId == lookupId2 && version == version2
  {
    KeyPieces(lookupId, version);
    KeyPieces(lookupId2, version2);
    var parts := Split(RulesKey(lookupId, version), ':');
    assert parts[|parts| - 1] == Decimal(version) == Decimal(version2);
    assert parts[1..|parts| - 1] == Split(lookupId, ':');
    assert parts[1..|parts| - 1] == Split(lookupId2, ':');
    SplitInjective(lookupId, lookupId2, ':');
    DecimalInjective(version, version2);
  }
}
