/**
  The string operations of Python's `str` that the scraper relies on, for ASCII
  text: `lower`, `strip`, `strip('/')`, `split()`, `in`, `startswith`,
  `replace`, `split(sep)[k]` and `str(n)` for naturals.
*/
module Text {

  predicate IsUpper(c: char) { 'A' <= c <= 'Z' }

  function LowerChar(c: char): (d: char)
    ensures !IsUpper(d)
    ensures IsUpper(c) ==> d as int == c as int + 32
    ensures !IsUpper(c) ==> d == c
  {
    if IsUpper(c) then (c as int + 32) as char else c
  }

  /** `s.lower()` on ASCII. */
  function Lower(s: string): (r: string)
    ensures |r| == |s|
  {
    if s == [] then [] else [LowerChar(s[0])] + Lower(s[1..])
  }

  /** `lower` works character by character. */
  lemma {:induction false} LowerAt(s: string)
    ensures forall i :: 0 <= i < |s| ==> Lower(s)[i] == LowerChar(s[i])
  {
    if s != [] {
      LowerAt(s[1..]);
    }
  }

  /** The ASCII characters for which Python's `str.isspace()` holds. */
  predicate IsSpace(c: char) {
    c == ' ' || ('\t' <= c <= '\r') || (28 <= c as int <= 31)
  }

  /** The prefix of non-whitespace characters. */
  function TakeWord(s: string): (w: string)
    ensures w <= s
    ensures forall i :: 0 <= i < |w| ==> !IsSpace(w[i])
    ensures |w| < |s| ==> IsSpace(s[|w|])
  {
    if s == [] || IsSpace(s[0]) then [] else [s[0]] + TakeWord(s[1..])
  }

  /** `s.lstrip()`. */
  function TrimStart(s: string): (r: string)
    ensures |r| <= |s|
    ensures r == [] || !IsSpace(r[0])
  {
    if s != [] && IsSpace(s[0]) then TrimStart(s[1..]) else s
  }

  /** `lstrip` removes a prefix made of whitespace only. */
  lemma {:induction false} TrimStartDrops(s: string)
    ensures TrimStart(s) == s[|s| - |TrimStart(s)|..]
    ensures forall i :: 0 <= i < |s| - |TrimStart(s)| ==> IsSpace(s[i])
  {
    if s != [] && IsSpace(s[0]) {
      TrimStartDrops(s[1..]);
      assert s[1..][|s[1..]| - |TrimStart(s)|..] == s[|s| - |TrimStart(s)|..];
    }
  }

  /** `s.rstrip()`. */
  function TrimEnd(s: string): (r: string)
    ensures |r| <= |s|
    ensures r == [] || !IsSpace(r[|r| - 1])
  {
    if s != [] && IsSpace(s[|s| - 1]) then TrimEnd(s[..|s| - 1]) else s
  }

  /** `rstrip` removes a suffix made of whitespace only. */
  lemma {:induction false} TrimEndDrops(s: string)
    ensures TrimEnd(s) <= s
    ensures forall i :: |TrimEnd(s)| <= i < |s| ==> IsSpace(s[i])
  {
    if s != [] && IsSpace(s[|s| - 1]) {
      TrimEndDrops(s[..|s| - 1]);
    }
  }

  /** `s.strip()`. */
  function Strip(s: string): string {
    TrimEnd(TrimStart(s))
  }

  /** `strip()` keeps only characters of the text. */
  lemma StripChars(s: string)
    ensures forall c :: c in Strip(s) ==> c in s
  {
    TrimStartDrops(s);
    var u := TrimStart(s);
    TrimEndDrops(u);
    assert forall c :: c in u ==> c in s;
  }

  /** `strip()` leaves no whitespace at either end. */
  lemma StripEnds(s: string)
    ensures Strip(s) == [] || (!IsSpace(Strip(s)[0]) && !IsSpace(Strip(s)[|Strip(s)| - 1]))
  {
    var u := TrimStart(s);
    TrimEndDrops(u);
    if TrimEnd(u) != [] {
      assert TrimEnd(u)[0] == u[0];
    }
  }

  /** `s.strip('/')`. */
  function StripSlashes(s: string): string
    decreases |s|
  {
    if s != [] && s[0] == '/' then StripSlashes(s[1..])
    else if s != [] && s[|s| - 1] == '/' then StripSlashes(s[..|s| - 1])
    else s
  }

  /** `s.split()`: the maximal runs of non-whitespace characters. */
  function Words(s: string): seq<string>
    decreases |s|
  {
    var t := TrimStart(s);
    if t == [] then []
    else
      var w := TakeWord(t);
      [w] + Words(t[|w|..])
  }

  /** `" ".join(ws)`. */
  function JoinWords(ws: seq<string>): string {
    if ws == [] then ""
    else if |ws| == 1 then ws[0]
    else ws[0] + " " + JoinWords(ws[1..])
  }

  /** `sub in s`. */
  predicate Contains(s: string, sub: string) {
    sub <= s || (s != [] && Contains(s[1..], sub))
  }

  /** `s.startswith(p)`. */
  predicate StartsWith(s: string, p: string) {
    p <= s
  }

  /** The text before the first occurrence of `sep` (all of `s` if there is none):
      `s.split(sep)[0]`. */
  function Before(s: string, sep: string): (r: string)
    requires sep != []
    ensures r <= s
  {
    if s == [] || sep <= s then [] else [s[0]] + Before(s[1..], sep)
  }

  /** The text after the first occurrence of `sep` (empty if there is none). */
  function After(s: string, sep: string): string
    requires sep != []
  {
    if sep <= s then s[|sep|..]
    else if s == [] then []
    else After(s[1..], sep)
  }

  /** `s.replace(pat, rep)`: every non-overlapping occurrence, scanning left to right. */
  function ReplaceAll(s: string, pat: string, rep: string): string
    requires pat != []
  {
    if s == [] then []
    else if pat <= s then rep + ReplaceAll(s[|pat|..], pat, rep)
    else [s[0]] + ReplaceAll(s[1..], pat, rep)
  }

  /** `s.isdigit()` on ASCII: non-empty and all decimal digits. */
  predicate IsDigits(s: string) {
    s != [] && forall i :: 0 <= i < |s| ==> '0' <= s[i] <= '9'
  }

  function DigitChar(d: nat): (c: char)
    requires d < 10
    ensures '0' <= c <= '9'
  {
    ('0' as int + d) as char
  }

  /** `str(n)`. */
  function NatToString(n: nat): (r: string)
    ensures IsDigits(r)
  {
    if n < 10 then [DigitChar(n)] else NatToString(n / 10) + [DigitChar(n % 10)]
  }

  /** `int(s)` on a string of digits. */
  function ParseNat(s: string): nat
    requires forall i :: 0 <= i < |s| ==> '0' <= s[i] <= '9'
  {
    if s == [] then 0 else 10 * ParseNat(s[..|s| - 1]) + (s[|s| - 1] as int - '0' as int)
  }

  lemma {:induction false} ParseNatToString(n: nat)
    ensures ParseNat(NatToString(n)) == n
  {
    if n >= 10 {
      var s := NatToString(n / 10) + [DigitChar(n % 10)];
      assert s[..|s| - 1] == NatToString(n / 10);
      ParseNatToString(n / 10);
    }
  }

  /** `sub in s` holds exactly when `sub` starts at some position of `s`. */
  lemma {:induction false} ContainsAt(s: string, sub: string)
    ensures Contains(s, sub) <==> exists i :: 0 <= i <= |s| && sub <= s[i..]
  {
    assert s[0..] == s;
    if s != [] {
      ContainsAt(s[1..], sub);
      if Contains(s[1..], sub) {
        var i :| 0 <= i <= |s[1..]| && sub <= s[1..][i..];
        assert s[i + 1..] == s[1..][i..];
      }
      if i :| 0 < i <= |s| && sub <= s[i..] {
        assert s[1..][i - 1..] == s[i..];
      }
    }
  }

  lemma ContainsWitness(s: string, sub: string, i: nat)
    requires i <= |s| && sub <= s[i..]
    ensures Contains(s, sub)
  {
    ContainsAt(s, sub);
  }

  lemma {:induction false} NotContainsSuffix(s: string, sub: string)
    requires s != [] && !Contains(s, sub)
    ensures !Contains(s[1..], sub) && !(sub <= s)
  {
  }

  /** Replacing a pattern that does not occur leaves the text unchanged. */
  lemma {:induction false} ReplaceAbsent(s: string, pat: string, rep: string)
    requires pat != [] && !Contains(s, pat)
    ensures ReplaceAll(s, pat, rep) == s
  {
    if s != [] {
      NotContainsSuffix(s, pat);
      ReplaceAbsent(s[1..], pat, rep);
    }
  }

  /** No occurrence of `pat` in `s` starts before position `k`. */
  predicate NoOccurrenceBefore(s: string, pat: string, k: nat) {
    forall i :: 0 <= i < k && i <= |s| ==> !(pat <= s[i..])
  }

  /** Removing a suffix whose first occurrence is where it ends the text gives back the text before it. */
  lemma {:induction false} RemoveSuffix(name: string, suffix: string)
    requires suffix != []
    requires NoOccurrenceBefore(name + suffix, suffix, |name|)
    ensures ReplaceAll(name + suffix, suffix, "") == name
  {
    if name == [] {
      assert suffix[|suffix|..] == [];
      assert ReplaceAll(suffix, suffix, "") == "" + ReplaceAll([], suffix, "");
    } else {
      var s := name + suffix;
      assert !(suffix <= s[0..]) by { assert s[0..] == s; }
      assert s[1..] == name[1..] + suffix;
      forall i | 0 <= i < |name[1..]| && i <= |s[1..]|
        ensures !(suffix <= (name[1..] + suffix)[i..])
      {
        assert s[i + 1..] == (name[1..] + suffix)[i..];
      }
      RemoveSuffix(name[1..], suffix);
    }
  }

  /** Text in front of the first occurrence of `pat` passes through `replace` untouched. */
  lemma {:induction false} ReplaceAfterPrefix(a: string, b: string, pat: string, rep: string)
    requires pat != []
    requires NoOccurrenceBefore(a + b, pat, |a|)
    ensures ReplaceAll(a + b, pat, rep) == a + ReplaceAll(b, pat, rep)
  {
    if a == [] {
      assert a + b == b;
    } else {
      var s := a + b;
      assert !(pat <= s[0..]) by { assert s[0..] == s; }
      assert s[1..] == a[1..] + b;
      forall i | 0 <= i < |a[1..]| && i <= |s[1..]|
        ensures !(pat <= (a[1..] + b)[i..])
      {
        assert s[i + 1..] == (a[1..] + b)[i..];
      }
      ReplaceAfterPrefix(a[1..], b, pat, rep);
    }
  }

  /** The text after the first occurrence of `sep`. */
  lemma {:induction false} AfterFirst(pre: string, sep: string, rest: string)
    requires sep != []
    requires NoOccurrenceBefore(pre + sep + rest, sep, |pre|)
    ensures After(pre + sep + rest, sep) == rest
  {
    var s := pre + sep + rest;
    if pre == [] {
      assert s == sep + rest;
      assert sep <= s;
    } else {
      assert !(sep <= s[0..]) by { assert s[0..] == s; }
      assert s[1..] == pre[1..] + sep + rest;
      forall i | 0 <= i < |pre[1..]| && i <= |s[1..]|
        ensures !(sep <= (pre[1..] + sep + rest)[i..])
      {
        assert s[i + 1..] == (pre[1..] + sep + rest)[i..];
      }
      AfterFirst(pre[1..], sep, rest);
    }
  }

  /** `s.split(sep)[0]` is all of `s` when `sep` does not occur. */
  lemma {:induction false} BeforeAbsent(s: string, sep: string)
    requires sep != [] && !Contains(s, sep)
    ensures Before(s, sep) == s
  {
    if s != [] {
      NotContainsSuffix(s, sep);
      BeforeAbsent(s[1..], sep);
    }
  }

  lemma {:induction false} TrimStartNoSpace(s: string)
    requires s == [] || !IsSpace(s[0])
    ensures TrimStart(s) == s
  {
  }

  lemma {:induction false} TrimEndNoSpace(s: string)
    requires s == [] || !IsSpace(s[|s| - 1])
    ensures TrimEnd(s) == s
  {
  }

  /** A text with no leading or trailing whitespace is its own `strip()`. */
  lemma StripStripped(s: string)
    requires s == [] || (!IsSpace(s[0]) && !IsSpace(s[|s| - 1]))
    ensures Strip(s) == s
  {
    TrimStartNoSpace(s);
    TrimEndNoSpace(s);
  }
}
