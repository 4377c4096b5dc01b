/** What normalizing a name does to it, without the functions that do it. */
module NormalForm {
  import opened Text
  import opened Fqdn

  /** The ASCII white space: tab to carriage return, the four separators, and the blank. */
  predicate Blank(c: char) {
    c in {'\t', '\n', '\U{B}', '\U{C}', '\r', '\U{1C}', '\U{1D}', '\U{1E}', '\U{1F}', ' '}
  }

  predicate AllBlank(s: string) {
    forall i | 0 <= i < |s| :: Blank(s[i])
  }

  predicate Unpadded(s: string) {
    s != "" ==> !Blank(s[0]) && !Blank(s[|s| - 1])
  }

  function Dots(k: nat): string {
    seq(k, i => '.')
  }

  /** The letter in lower case, by the alphabet. */
  predicate LowerOf(c: char, l: char) {
    if 'A' <= c <= 'Z' then l as int - 'a' as int == c as int - 'A' as int else l == c
  }

  /** The name is the core between white space and with dots behind it, and `y` is the core in lower
      case. */
  predicate Pieces(name: string, y: string, a: string, core: string, k: nat, b: string) {
    && name == a + core + Dots(k) + b && AllBlank(a) && AllBlank(b) && Unpadded(core + Dots(k))
    && (core == "" || core[|core| - 1] != '.')
    && |y| == |core| && forall i | 0 <= i < |core| :: LowerOf(core[i], y[i])
  }

  /** Every label is there and has at most 63 characters. */
  predicate LabelsFit(y: string) {
    forall i | 0 <= i < |Split(y, '.')| :: 1 <= |Split(y, '.')[i]| <= 63
  }

  lemma BlankIsSpace(c: char)
    ensures Blank(c) <==> IsSpace(c)
  {
  }

  lemma LowerIs(c: char, l: char)
    ensures LowerOf(c, l) <==> l == LowerChar(c)
  {
  }

  lemma {:induction false} LeftPadding(s: string) returns (a: string)
    ensures s == a + LStrip(s) && AllBlank(a)
  {
    if s != "" && IsSpace(s[0]) {
      var rest := LeftPadding(s[1..]);
      a := [s[0]] + rest;
      BlankIsSpace(s[0]);
    } else {
      a := "";
    }
  }

  lemma {:induction false} RightPadding(s: string) returns (b: string)
    ensures s == RStrip(s) + b && AllBlank(b)
  {
    if s != "" && IsSpace(s[|s| - 1]) {
      var rest := RightPadding(s[..|s| - 1]);
      b := rest + [s[|s| - 1]];
      BlankIsSpace(s[|s| - 1]);
    } else {
      b := "";
    }
  }

  lemma {:induction false} TrailingDots(s: string) returns (k: nat)
    ensures s == RStripDots(s) + Dots(k)
  {
    if s != "" && s[|s| - 1] == '.' {
      var rest := TrailingDots(s[..|s| - 1]);
      k := rest + 1;
      assert Dots(k) == Dots(rest) + ['.'];
    } else {
      k := 0;
    }
  }

  lemma {:induction false} LStripOf(a: string, u: string)
    requires AllBlank(a) && (u == "" || !Blank(u[0]))
    ensures LStrip(a + u) == u
  {
    if a != "" {
      BlankIsSpace(a[0]);
      assert (a + u)[1..] == a[1..] + u;
      LStripOf(a[1..], u);
    } else {
      assert a + u == u;
      if u != "" {
        BlankIsSpace(u[0]);
      }
    }
  }

  lemma {:induction false} RStripOf(u: string, b: string)
    requires AllBlank(b) && (u == "" || !Blank(u[|u| - 1]))
    ensures RStrip(u + b) == u
  {
    if b != "" {
      BlankIsSpace(b[|b| - 1]);
      assert (u + b)[..|u + b| - 1] == u + b[..|b| - 1];
      RStripOf(u, b[..|b| - 1]);
    } else {
      assert u + b == u;
      if u != "" {
        BlankIsSpace(u[|u| - 1]);
      }
    }
  }

  lemma AllBlankVanishes(a: string, b: string)
    requires AllBlank(a) && AllBlank(b)
    ensures LStrip(a + b) == ""
  {
    LStripOf(a + b, "");
    assert a + b + "" == a + b;
  }

  lemma StripOf(a: string, u: string, b: string)
    requires AllBlank(a) && AllBlank(b) && Unpadded(u)
    ensures Strip(a + u + b) == u
  {
    hide Blank;
    if u == "" {
      assert a + u + b == a + b;
      AllBlankVanishes(a, b);
    } else {
      assert a + u + b == a + (u + b) && (u + b)[0] == u[0];
      LStripOf(a, u + b);
      RStripOf(u, b);
    }
  }

  lemma {:induction false} DotsGo(core: string, k: nat)
    requires core == "" || core[|core| - 1] != '.'
    ensures RStripDots(core + Dots(k)) == core
  {
    var s := core + Dots(k);
    if k > 0 {
      assert s[..|s| - 1] == core + Dots(k - 1);
      DotsGo(core, k - 1);
    } else {
      assert s == core;
    }
  }

  lemma LowerByLetters(core: string, y: string)
    ensures y == Lower(core) <==> |y| == |core| && forall i | 0 <= i < |core| :: LowerOf(core[i], y[i])
  {
    forall i | 0 <= i < |core| && i < |y| ensures LowerOf(core[i], y[i]) <==> y[i] == Lower(core)[i] {
      LowerIs(core[i], y[i]);
    }
  }

  lemma FitIsAccepted(y: string)
    requires y != "" && y[|y| - 1] != '.'
    ensures LabelsFit(y) <==> IdnaAccepts(y)
  {
    LastPiece(y, '.');
  }

  lemma NotDot(c: char, l: char)
    requires LowerOf(c, l) && c != '.'
    ensures l != '.'
  {
  }

  /** Whatever pieces a name has, they say what it normalizes to. */
  lemma PiecesNormalize(name: string, y: string, a: string, core: string, k: nat, b: string)
    requires Pieces(name, y, a, core, k, b)
    ensures NormalizeFqdn(name) == if y == "" || LabelsFit(y) then Some(y) else None
  {
    hide Blank, Dots, Split, IdnaAccepts, LabelsFit, LowerOf, Strip, RStripDots;
    assert name == a + (core + Dots(k)) + b;
    StripOf(a, core + Dots(k), b);
    DotsGo(core, k);
    LowerByLetters(core, y);
    if y != "" {
      NotDot(core[|core| - 1], y[|y| - 1]);
      FitIsAccepted(y);
    }
  }

  /** Every name has pieces. */
  lemma HasPieces(name: string) returns (y: string, a: string, core: string, k: nat, b: string)
    ensures Pieces(name, y, a, core, k, b)
  {
    hide Blank, Dots, LowerOf, LStrip, RStrip, RStripDots, AllBlank, Unpadded, Lower;
    a := LeftPadding(name);
    b := RightPadding(LStrip(name));
    var u := Strip(name);
    StripUnpadded(name);
    core := RStripDots(u);
    k := TrailingDots(u);
    y := Lower(core);
    LowerByLetters(core, y);
    assert LStrip(name) == u + b && u == core + Dots(k);
    assert a + (core + Dots(k) + b) == a + core + Dots(k) + b;
  }

  lemma StripUnpadded(name: string)
    ensures Unpadded(Strip(name))
  {
    var u := Strip(name);
    if u != "" {
      assert u[0] == LStrip(name)[0];
      BlankIsSpace(u[0]);
      BlankIsSpace(u[|u| - 1]);
    }
  }

  /** What a name normalizes to: take away the white space around it and then the dots behind it,
      and write the rest in lower case; unless that is empty, every label must be there and have at
      most 63 characters, or it is an error. */
  lemma NormalizeMeaning(name: string)
    ensures forall y :: (NormalizeFqdn(name) == Some(y)
      <==> (exists a, core, k: nat, b :: Pieces(name, y, a, core, k, b)) && (y == "" || LabelsFit(y)))
    ensures NormalizeFqdn(name) == None
      <==> exists y, a, core, k: nat, b :: Pieces(name, y, a, core, k, b) && y != "" && !LabelsFit(y)
  {
    hide NormalizeFqdn, Pieces, LabelsFit;
    var y0, a0, core0, k0, b0 := HasPieces(name);
    forall y, a, core, k: nat, b | Pieces(name, y, a, core, k, b)
      ensures NormalizeFqdn(name) == if y == "" || LabelsFit(y) then Some(y) else None
    {
      PiecesNormalize(name, y, a, core, k, b);
    }
  }
}
