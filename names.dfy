/**
  Name normalisation (scraper/vlr.py `normalize_name`) and the fuzzy name
  equality that the scraper and the slate merger use to compare player and
  team names: equal normal forms, or one normal form inside the other.
*/
module Names {
  import opened Wrappers
  import opened Text

  /** The characters `normalize_name` deletes: space, `.`, `-`, `_` and `@`. */
  predicate IsSeparator(c: char) {
    c == ' ' || c == '.' || c == '-' || c == '_' || c == '@'
  }

  function RemoveSeparators(s: string): (r: string)
    ensures |r| <= |s|
  {
    if s == [] then []
    else (if IsSeparator(s[0]) then [] else [s[0]]) + RemoveSeparators(s[1..])
  }

  /** What is left holds no separator and only characters of `s`. */
  lemma {:induction false} RemoveSeparatorsShape(s: string)
    ensures forall i :: 0 <= i < |RemoveSeparators(s)| ==> !IsSeparator(RemoveSeparators(s)[i])
    ensures forall c :: c in RemoveSeparators(s) ==> c in s
  {
    if s != [] {
      RemoveSeparatorsShape(s[1..]);
    }
  }

  /** `normalize_name(name)`: lower-case, strip, then delete the separators. */
  function NormalizeName(name: string): (r: string)
    ensures name == "" ==> r == ""
  {
    if name == "" then "" else RemoveSeparators(Strip(Lower(name)))
  }

  /** A normal form holds no upper-case letter and no separator. */
  lemma NormalizeNameShape(name: string)
    ensures forall i :: 0 <= i < |NormalizeName(name)| ==> !IsUpper(NormalizeName(name)[i]) && !IsSeparator(NormalizeName(name)[i])
  {
    if name != "" {
      var l := Lower(name);
      var t := Strip(l);
      var r := RemoveSeparators(t);
      RemoveSeparatorsShape(t);
      StripChars(l);
      LowerAt(name);
      forall i | 0 <= i < |r| ensures !IsUpper(r[i]) {
        assert r[i] in t;
        var k :| 0 <= k < |l| && l[k] == r[i];
        assert l[k] == LowerChar(name[k]);
      }
    }
  }

  /** `normalize_name` applied to a value that may be `None`. */
  function NormalizeOptional(name: Option<string>): (r: string)
    ensures name.None? ==> r == ""
  {
    match name
    case None => ""
    case Some(n) => NormalizeName(n)
  }

  /** The permissive equality: the normal forms are equal, or one contains the other. */
  predicate SameNormalized(a: string, b: string) {
    a == b || Contains(a, b) || Contains(b, a)
  }

  /** Two names denote the same player under the permissive rule. */
  predicate FuzzyEqual(a: string, b: string) {
    SameNormalized(NormalizeName(a), NormalizeName(b))
  }

  /** The only whitespace in `s` is the plain space (no tabs, newlines, ...). */
  predicate OnlySpaces(s: string) {
    forall c :: c in s && IsSpace(c) ==> c == ' '
  }

  /** Lower-case with the separators deleted: what is left of a name when case and separators are ignored. */
  function Squash(s: string): string {
    RemoveSeparators(Lower(s))
  }

  lemma {:induction false} RemoveSeparatorsConcat(a: string, b: string)
    ensures RemoveSeparators(a + b) == RemoveSeparators(a) + RemoveSeparators(b)
  {
    if a != [] {
      assert (a + b)[1..] == a[1..] + b;
      RemoveSeparatorsConcat(a[1..], b);
    } else {
      assert a + b == b;
    }
  }

  lemma {:induction false} RemoveAllSeparators(s: string)
    requires forall i :: 0 <= i < |s| ==> IsSeparator(s[i])
    ensures RemoveSeparators(s) == []
  {
    if s != [] {
      RemoveAllSeparators(s[1..]);
    }
  }

  lemma {:induction false} RemoveNoSeparators(s: string)
    requires forall i :: 0 <= i < |s| ==> !IsSeparator(s[i])
    ensures RemoveSeparators(s) == s
  {
    if s != [] {
      RemoveNoSeparators(s[1..]);
    }
  }

  lemma {:induction false} LowerConcat(a: string, b: string)
    ensures Lower(a + b) == Lower(a) + Lower(b)
  {
    LowerAt(a + b);
    LowerAt(a);
    LowerAt(b);
  }

  lemma {:induction false} LowerNoUpper(s: string)
    requires forall i :: 0 <= i < |s| ==> !IsUpper(s[i])
    ensures Lower(s) == s
  {
    LowerAt(s);
  }

  lemma SquashConcat(a: string, b: string)
    ensures Squash(a + b) == Squash(a) + Squash(b)
  {
    LowerConcat(a, b);
    RemoveSeparatorsConcat(Lower(a), Lower(b));
  }

  lemma OnlySpacesConcat(a: string, b: string)
    ensures OnlySpaces(a + b) <==> OnlySpaces(a) && OnlySpaces(b)
  {
    assert forall c :: c in a + b <==> c in a || c in b;
  }

  lemma LowerOnlySpaces(s: string)
    requires OnlySpaces(s)
    ensures OnlySpaces(Lower(s))
  {
    var l := Lower(s);
    forall c | c in l && IsSpace(c) ensures c == ' ' {
      var i :| 0 <= i < |l| && l[i] == c;
      assert s[i] in s;
    }
  }

  lemma {:induction false} OnlySpacesTail(t: string)
    requires t != [] && OnlySpaces(t)
    ensures OnlySpaces(t[1..]) && OnlySpaces(t[..|t| - 1])
  {
    assert forall c :: c in t[1..] ==> c in t;
    assert forall c :: c in t[..|t| - 1] ==> c in t;
  }

  lemma {:induction false} TrimStartThenRemove(t: string)
    requires OnlySpaces(t)
    ensures RemoveSeparators(TrimStart(t)) == RemoveSeparators(t)
  {
    if t != [] && IsSpace(t[0]) {
      assert t[0] in t;
      OnlySpacesTail(t);
      TrimStartThenRemove(t[1..]);
    }
  }

  lemma {:induction false} TrimEndThenRemove(t: string)
    requires OnlySpaces(t)
    ensures RemoveSeparators(TrimEnd(t)) == RemoveSeparators(t)
  {
    if t != [] && IsSpace(t[|t| - 1]) {
      var p := t[..|t| - 1];
      assert t[|t| - 1] in t;
      assert t == p + [' '];
      OnlySpacesTail(t);
      TrimEndThenRemove(p);
      RemoveSeparatorsConcat(p, [' ']);
    }
  }

  /** Stripping a text whose only whitespace is spaces removes nothing the separator deletion keeps. */
  lemma StripThenRemove(t: string)
    requires OnlySpaces(t)
    ensures RemoveSeparators(Strip(t)) == RemoveSeparators(t)
  {
    var u := TrimStart(t);
    TrimStartDrops(t);
    assert forall c :: c in u ==> c in t;
    TrimStartThenRemove(t);
    TrimEndThenRemove(u);
  }

  /** For names whose only whitespace is spaces, normalising is exactly ignoring case and separators. */
  lemma NormalizeIsSquash(name: string)
    requires OnlySpaces(name)
    ensures NormalizeName(name) == Squash(name)
  {
    LowerOnlySpaces(name);
    StripThenRemove(Lower(name));
  }

  lemma SquashSeparator(x: string, y: string, c: char)
    requires IsSeparator(c)
    ensures Squash(x + [c] + y) == Squash(x + y)
  {
    SquashConcat(x + [c], y);
    SquashConcat(x, [c]);
    SquashConcat(x, y);
    assert Lower([c]) == [c];
    assert Squash([c]) == [];
  }

  /** Inserting a separator anywhere does not change the normal form. */
  lemma SeparatorIgnored(x: string, y: string, c: char)
    requires IsSeparator(c) && OnlySpaces(x + y)
    ensures NormalizeName(x + [c] + y) == NormalizeName(x + y)
  {
    assert OnlySpaces(x + [c] + y) by {
      assert forall d :: d in x + [c] + y ==> d in x + y || d == c;
    }
    NormalizeIsSquash(x + y);
    NormalizeIsSquash(x + [c] + y);
    SquashSeparator(x, y, c);
  }

  lemma SquashCase(x: string, y: string, c: char)
    ensures Squash(x + [c] + y) == Squash(x + [LowerChar(c)] + y)
  {
    SquashConcat(x + [c], y);
    SquashConcat(x, [c]);
    SquashConcat(x + [LowerChar(c)], y);
    SquashConcat(x, [LowerChar(c)]);
    assert Lower([c]) == Lower([LowerChar(c)]);
  }

  /** Changing the case of a letter does not change the normal form. */
  lemma CaseIgnored(x: string, y: string, c: char)
    requires OnlySpaces(x + [c] + y)
    ensures NormalizeName(x + [c] + y) == NormalizeName(x + [LowerChar(c)] + y)
  {
    assert OnlySpaces(x + [LowerChar(c)] + y) by {
      assert forall d :: d in x + [LowerChar(c)] + y ==> d in x + [c] + y || d == LowerChar(c);
    }
    NormalizeIsSquash(x + [c] + y);
    NormalizeIsSquash(x + [LowerChar(c)] + y);
    SquashCase(x, y, c);
  }

  /** Names that differ only in case or in separator characters normalise equally. */
  lemma SquashEqualNormalizeEqual(a: string, b: string)
    requires OnlySpaces(a) && OnlySpaces(b) && Squash(a) == Squash(b)
    ensures NormalizeName(a) == NormalizeName(b)
  {
    NormalizeIsSquash(a);
    NormalizeIsSquash(b);
  }

  /** A normal form normalises to itself, provided tabs and newlines are absent. */
  lemma NormalizeIdempotent(name: string)
    requires OnlySpaces(name)
    ensures NormalizeName(NormalizeName(name)) == NormalizeName(name)
  {
    var r := NormalizeName(name);
    NormalizeIsSquash(name);
    LowerOnlySpaces(name);
    NormalizeNameShape(name);
    StripChars(Lower(name));
    if name != "" {
      RemoveSeparatorsShape(Strip(Lower(name)));
    }
    assert forall c :: c in r ==> c in Lower(name) && !IsSeparator(c);
    assert OnlySpaces(r);
    NormalizeIsSquash(r);
    LowerNoUpper(r);
    RemoveNoSeparators(r);
  }

  lemma ContainsEmpty(s: string)
    ensures Contains(s, "")
  {
  }

  /** A name that normalises to nothing matches every name (the permissive rule's widest case). */
  lemma EmptyMatchesEverything(a: string, b: string)
    requires NormalizeName(a) == ""
    ensures FuzzyEqual(a, b) && FuzzyEqual(b, a)
  {
    ContainsEmpty(NormalizeName(b));
  }

  lemma ContainsSelf(s: string)
    ensures Contains(s, s)
  {
  }

  /** The permissive rule is reflexive and symmetric. */
  lemma FuzzyEqualReflexiveSymmetric(a: string, b: string)
    ensures FuzzyEqual(a, a)
    ensures FuzzyEqual(a, b) <==> FuzzyEqual(b, a)
  {
  }
}
