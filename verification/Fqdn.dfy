/** Canonical DNS names: `normalize_fqdn` on ASCII names. A `char` stands for one ASCII
    character. */
module Fqdn {
  import opened Text

  /** The ASCII characters that `str.strip` removes. */
  predicate IsSpace(c: char) {
    '\U{9}' <= c <= '\U{D}' || '\U{1C}' <= c <= '\U{20}'
  }

  function LStrip(s: string): (r: string)
    ensures r == "" || !IsSpace(r[0])
    ensures EndsWith(s, r)
  {
    if s != "" && IsSpace(s[0]) then
      var r := LStrip(s[1..]);
      assert s[1..][|s| - 1 - |r|..] == s[|s| - |r|..];
      r
    else s
  }

  function RStrip(s: string): (r: string)
    ensures r == "" || !IsSpace(r[|r| - 1])
    ensures r <= s
  {
    if s != "" && IsSpace(s[|s| - 1]) then RStrip(s[..|s| - 1]) else s
  }

  function Strip(s: string): string {
    RStrip(LStrip(s))
  }

  function RStripDots(s: string): (r: string)
    ensures r == "" || r[|r| - 1] != '.'
    ensures r <= s
  {
    if s != "" && s[|s| - 1] == '.' then RStripDots(s[..|s| - 1]) else s
  }

  function LowerChar(c: char): char {
    if 'A' <= c <= 'Z' then (c as int + 32) as char else c
  }

  function Lower(s: string): (r: string)
    ensures |r| == |s|
  {
    seq(|s|, i requires 0 <= i < |s| => LowerChar(s[i]))
  }

  /** The label lengths that the `idna` codec accepts in an ASCII name: every label but the
      last is non-empty, and no label is longer than 63 octets. */
  predicate IdnaAccepts(s: string) {
    var labels := Split(s, '.');
    && (forall i | 0 <= i < |labels| - 1 :: 0 < |labels[i]| < 64)
    && |labels[|labels| - 1]| < 64
  }

  /** `None` stands for the `UnicodeError` that the codec raises. */
  function NormalizeFqdn(name: string): Option<string> {
    var stripped := Lower(RStripDots(Strip(name)));
    if stripped == "" then Some("")
    else if IdnaAccepts(stripped) then Some(stripped)
    else None
  }

  /** What a non-empty canonical name looks like, without reference to the normalizer. */
  predicate Canonical(y: string) {
    && y != ""
    && !IsSpace(y[0])
    && Lower(y) == y
    && forall i | 0 <= i < |Split(y, '.')| :: 0 < |Split(y, '.')[i]| < 64
  }

  /** The normalizer's image is exactly the empty name and the canonical names. */
  lemma NormalizeImage(name: string, y: string)
    ensures NormalizeFqdn(name) == Some(y) && y != "" ==> Canonical(y)
    ensures Canonical(y) ==> NormalizeFqdn(y + ".") == Some(y)
  {
    hide NormalizeFqdn, Canonical;
    if NormalizeFqdn(name) == Some(y) && y != "" {
      NormalizeIsCanonical(name);
    }
    if Canonical(y) {
      NormalizeDotted(y);
    }
  }

  lemma NormalizeIsCanonical(name: string)
    requires NormalizeFqdn(name).Some? && NormalizeFqdn(name).value != ""
    ensures Canonical(NormalizeFqdn(name).value)
  {
    hide Strip, RStripDots, Split;
    var t, y := RStripDots(Strip(name)), NormalizeFqdn(name).value;
    StrippedEnds(name);
    assert y == Lower(t);
    LowerTwice(t);
    LowerSpace(t[0]);
    LastPiece(y, '.');
  }

  lemma StrippedEnds(name: string)
    requires RStripDots(Strip(name)) != ""
    ensures var t := RStripDots(Strip(name)); !IsSpace(t[0]) && t[|t| - 1] != '.'
  {
    var u := LStrip(name);
    assert RStrip(u) <= u && RStripDots(RStrip(u)) <= RStrip(u);
  }

  lemma LowerTwice(s: string)
    ensures Lower(Lower(s)) == Lower(s)
  {
  }

  lemma SameStrip(a: string, b: string)
    requires Strip(a) == Strip(b)
    ensures NormalizeFqdn(a) == NormalizeFqdn(b)
  {
  }

  lemma RStripStops(s: string)
    requires s == "" || !IsSpace(s[|s| - 1])
    ensures RStrip(s) == s
  {
  }

  lemma NormalizeDotted(y: string)
    requires Canonical(y)
    ensures NormalizeFqdn(y + ".") == Some(y)
  {
    var s := y + ".";
    assert LStrip(s) == s;
    RStripStops(s);
    LastPiece(y, '.');
    assert s[..|s| - 1] == y;
    assert RStripDots(s) == RStripDots(y) == y;
  }

  /** White space right before the trailing dots: what one normalization leaves behind. */
  predicate SpaceBeforeDots(name: string) {
    var t := RStripDots(Strip(name));
    t != "" && IsSpace(t[|t| - 1])
  }

  lemma NormalizeShrinks(name: string)
    ensures NormalizeFqdn(name).Some? ==> |NormalizeFqdn(name).value| <= |Strip(name)|
  {
  }

  lemma LowerSpace(c: char)
    ensures IsSpace(LowerChar(c)) <==> IsSpace(c)
  {
  }

  lemma CanonicalFixed(y: string)
    requires Canonical(y) && !IsSpace(y[|y| - 1])
    ensures NormalizeFqdn(y) == Some(y)
  {
    assert LStrip(y) == y;
    RStripStops(y);
    LastPiece(y, '.');
    assert RStripDots(y) == y;
  }

  lemma TrailingSpaceLost(y: string)
    requires y != "" && IsSpace(y[|y| - 1]) && !IsSpace(y[0])
    ensures NormalizeFqdn(y) != Some(y)
  {
    assert LStrip(y) == y;
    assert |Strip(y)| < |y|;
    NormalizeShrinks(y);
  }

  /** Normalizing twice is normalizing once exactly for the names that carry no white space
      right before their trailing dots. */
  lemma NormalizeIdempotent(name: string)
    requires NormalizeFqdn(name).Some?
    ensures NormalizeFqdn(NormalizeFqdn(name).value) == NormalizeFqdn(name) <==> !SpaceBeforeDots(name)
  {
    var t, y := RStripDots(Strip(name)), NormalizeFqdn(name).value;
    assert y == Lower(t);
    hide NormalizeFqdn, Strip, RStripDots, Canonical, IdnaAccepts;
    if t != "" {
      NormalizeImage(name, y);
      assert y[|y| - 1] == LowerChar(t[|t| - 1]);
      LowerSpace(t[|t| - 1]);
      CanonicalStart(y);
      if IsSpace(y[|y| - 1]) {
        TrailingSpaceLost(y);
      } else {
        CanonicalFixed(y);
      }
    } else {
      EmptyNormalizes();
    }
  }

  lemma CanonicalStart(y: string)
    requires Canonical(y)
    ensures y != "" && !IsSpace(y[0])
  {
  }

  lemma EmptyNormalizes()
    ensures NormalizeFqdn("") == Some("")
  {
  }

  lemma StripFree(s: string)
    requires forall i | 0 <= i < |s| :: !IsSpace(s[i])
    ensures Strip(s) == s
  {
    RStripStops(s);
  }

  /** So on names without white space one normalization is enough. */
  lemma NormalizeIdempotentSpaceFree(name: string)
    requires forall i | 0 <= i < |name| :: !IsSpace(name[i])
    requires NormalizeFqdn(name).Some?
    ensures NormalizeFqdn(NormalizeFqdn(name).value) == NormalizeFqdn(name)
  {
    StripFree(name);
    NormalizeIdempotent(name);
  }

  /** A name for which one normalization is not enough. */
  lemma NormalizeTwiceDiffers()
    ensures NormalizeFqdn("a .") == Some("a ") && NormalizeFqdn("a ") == Some("a")
  {
    var s := "a .";
    assert LStrip(s) == s && RStrip(s) == s;
    assert s[..2] == "a ";
    assert RStripDots(s) == RStripDots("a ") == "a ";
    assert Lower("a ") == "a ";
    SplitFree("a ", '.');
    var u := "a ";
    assert LStrip(u) == u;
    assert u[..1] == "a";
    assert RStrip(u) == RStrip("a") == "a";
    assert Lower("a") == "a";
    SplitFree("a", '.');
  }
}
