/** Splitting and joining strings on one separator, the string operations that name
    matching, token parsing and cache keys are built from. */
module Text {

  datatype Option<+T> = None | Some(value: T)

  function Split(s: string, sep: char): (parts: seq<string>)
    ensures |parts| >= 1
  {
    if s == "" then [""]
    else
      var rest := Split(s[1..], sep);
      if s[0] == sep then [""] + rest else [[s[0]] + rest[0]] + rest[1..]
  }

  function Join(parts: seq<string>, sep: char): string {
    if parts == [] then ""
    else if |parts| == 1 then parts[0]
    else parts[0] + [sep] + Join(parts[1..], sep)
  }

  predicate EndsWith(s: string, suffix: string) {
    |suffix| <= |s| && s[|s| - |suffix|..] == suffix
  }

  predicate IsSuffix<T(==)>(suffix: seq<T>, s: seq<T>) {
    |suffix| <= |s| && s[|s| - |suffix|..] == suffix
  }

  /** Every piece is free of the separator. */
  lemma {:induction false} PiecesFree(s: string, sep: char)
    ensures forall i | 0 <= i < |Split(s, sep)| :: sep !in Split(s, sep)[i]
  {
    if s != "" {
      PiecesFree(s[1..], sep);
    }
  }

  lemma JoinHead(c: char, parts: seq<string>, sep: char)
    requires parts != []
    ensures Join([[c] + parts[0]] + parts[1..], sep) == [c] + Join(parts, sep)
  {
    assert ([[c] + parts[0]] + parts[1..])[1..] == parts[1..];
  }

  /** Joining undoes splitting. */
  lemma {:induction false} JoinSplit(s: string, sep: char)
    ensures Join(Split(s, sep), sep) == s
  {
    if s != "" {
      JoinSplit(s[1..], sep);
      var rest := Split(s[1..], sep);
      if s[0] == sep {
        assert ([""] + rest)[1..] == rest;
      } else {
        JoinHead(s[0], rest, sep);
      }
    }
  }

  /** A separator in the middle splits a string into the pieces of its two halves. */
  lemma {:induction false} SplitConcat(a: string, sep: char, b: string)
    ensures Split(a + [sep] + b, sep) == Split(a, sep) + Split(b, sep)
  {
    var s := a + [sep] + b;
    if a == "" {
      assert s[1..] == b;
    } else {
      assert s[1..] == a[1..] + [sep] + b;
      SplitConcat(a[1..], sep, b);
    }
  }

  lemma {:induction false} SplitFree(s: string, sep: char)
    requires sep !in s
    ensures Split(s, sep) == [s]
  {
    if s != "" {
      SplitFree(s[1..], sep);
      assert [s[0]] + s[1..] == s;
    }
  }

  /** Splitting undoes joining, for pieces that do not contain the separator. */
  lemma {:induction false} SplitJoin(parts: seq<string>, sep: char)
    requires |parts| >= 1
    requires forall i | 0 <= i < |parts| :: sep !in parts[i]
    ensures Split(Join(parts, sep), sep) == parts
  {
    SplitFree(parts[0], sep);
    if |parts| > 1 {
      SplitJoin(parts[1..], sep);
      SplitConcat(parts[0], sep, Join(parts[1..], sep));
    }
  }

  lemma {:induction false} JoinConcat(a: seq<string>, b: seq<string>, sep: char)
    requires a != [] && b != []
    ensures Join(a + b, sep) == Join(a, sep) + [sep] + Join(b, sep)
  {
    if |a| > 1 {
      assert (a + b)[1..] == a[1..] + b;
      JoinConcat(a[1..], b, sep);
    } else {
      assert (a + b)[1..] == b;
    }
  }

  lemma SplitInjective(s: string, t: string, sep: char)
    requires Split(s, sep) == Split(t, sep)
    ensures s == t
  {
    JoinSplit(s, sep);
    JoinSplit(t, sep);
  }

  /** Being `tail`, or ending in a separator followed by `tail`, is exactly ending in the
      pieces of `tail`: a suffix test with a leading separator never cuts a piece. */
  lemma SuffixByPieces(s: string, tail: string, sep: char)
    ensures (s == tail || EndsWith(s, [sep] + tail)) <==> IsSuffix(Split(tail, sep), Split(s, sep))
  {
    if EndsWith(s, [sep] + tail) {
      EndsWithPieces(s, tail, sep);
    }
    if IsSuffix(Split(tail, sep), Split(s, sep)) && s != tail {
      PiecesEndWith(s, tail, sep);
    }
  }

  lemma EndsWithPieces(s: string, tail: string, sep: char)
    requires EndsWith(s, [sep] + tail)
    ensures IsSuffix(Split(tail, sep), Split(s, sep))
  {
    var a := s[..|s| - |tail| - 1];
    assert s == a + [sep] + tail;
    SplitConcat(a, sep, tail);
  }

  lemma PiecesEndWith(s: string, tail: string, sep: char)
    requires IsSuffix(Split(tail, sep), Split(s, sep)) && s != tail
    ensures EndsWith(s, [sep] + tail)
  {
    var parts, last := Split(s, sep), Split(tail, sep);
    var a := parts[..|parts| - |last|];
    assert parts == a + last;
    JoinSplit(s, sep);
    JoinSplit(tail, sep);
    if a != [] {
      JoinConcat(a, last, sep);
      AppendedEnds(Join(a, sep), [sep], tail);
    }
  }

  lemma AppendedEnds(a: string, b: string, c: string)
    ensures EndsWith(a + b + c, b + c)
  {
    assert a + b + c == a + (b + c);
  }

  /** The last piece is empty exactly when the string is empty or ends in the separator. */
  lemma {:induction false} LastPiece(s: string, sep: char)
    ensures Split(s, sep)[|Split(s, sep)| - 1] == "" <==> (s == "" || s[|s| - 1] == sep)
  {
    if s != "" {
      var rest := Split(s[1..], sep);
      if |s| == 1 {
        assert rest == [""];
      } else {
        LastPiece(s[1..], sep);
      }
      if s[0] == sep {
        assert Split(s, sep) == [""] + rest;
      } else {
        assert Split(s, sep) == [[s[0]] + rest[0]] + rest[1..];
      }
    }
  }

  function Concat(lists: seq<seq<string>>): seq<string> {
    if lists == [] then [] else lists[0] + Concat(lists[1..])
  }

  lemma {:induction false} ConcatHolds(lists: seq<seq<string>>, i: nat)
    requires i < |lists|
    ensures forall word | word in lists[i] :: word in Concat(lists)
  {
    if i > 0 {
      ConcatHolds(lists[1..], i - 1);
    }
  }

  function LongestWord(words: seq<string>): nat {
    if words == [] then 0
    else
      var rest := LongestWord(words[1..]);
      if |words[0]| > rest then |words[0]| else rest
  }

  lemma {:induction false} LongestWordBounds(words: seq<string>)
    ensures forall word | word in words :: |word| <= LongestWord(words)
  {
    if words != [] {
      LongestWordBounds(words[1..]);
    }
  }

  /** A word that is longer than all the given ones. */
  function Unlisted(words: seq<string>): string {
    seq(LongestWord(words) + 1, i => 'T')
  }

  lemma UnlistedIsNew(words: seq<string>)
    ensures Unlisted(words) !in words
  {
    LongestWordBounds(words);
  }
}
