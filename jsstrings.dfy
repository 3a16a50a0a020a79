/** The JavaScript string operations the core relies on: `trim`, ASCII
    `toLowerCase`, `includes`, `replace` with a string pattern (first
    occurrence only) and the decimal rendering of a non-negative integer
    inside a template literal. Strings are sequences of code points. */
module JsStrings {
  import opened Types

  /** ECMAScript WhiteSpace and LineTerminator code points: the set both
      `String.prototype.trim` and the regular-expression class `\s` use. */
  predicate IsSpace(c: char)
  {
    || c == '\t' || c == '\n' || c == '\U{B}' || c == '\U{C}' || c == '\r' || c == ' '
    || c == '\U{A0}' || c == '\U{1680}' || ('\U{2000}' <= c <= '\U{200A}')
    || c == '\U{2028}' || c == '\U{2029}' || c == '\U{202F}' || c == '\U{205F}'
    || c == '\U{3000}' || c == '\U{FEFF}'
  }

  /** Leading white space removed: what is dropped is all white space and
      what is kept is a suffix not starting with white space. */
  function TrimStart(s: string): (r: string)
    ensures |r| <= |s| && r == s[|s| - |r|..]
    ensures forall i :: 0 <= i < |s| - |r| ==> IsSpace(s[i])
    ensures r != [] ==> !IsSpace(r[0])
  {
    if s != [] && IsSpace(s[0]) then
      var r := TrimStart(s[1..]);
      assert s[1..][|s| - 1 - |r|..] == s[|s| - |r|..];
      assert forall i :: 1 <= i < |s| ==> s[i] == s[1..][i - 1];
      r
    else s
  }

  /** Trailing white space removed. */
  function TrimEnd(s: string): (r: string)
    ensures |r| <= |s| && r == s[..|r|]
    ensures forall i :: |r| <= i < |s| ==> IsSpace(s[i])
    ensures r != [] ==> !IsSpace(r[|r| - 1])
  {
    if s != [] && IsSpace(s[|s| - 1]) then
      var r := TrimEnd(s[..|s| - 1]);
      assert s[..|s| - 1][..|r|] == s[..|r|];
      assert forall i :: 0 <= i < |s| - 1 ==> s[i] == s[..|s| - 1][i];
      r
    else s
  }

  /** `s.trim()`: the slice of `s` left once the white space at both ends
      is removed; only white space is removed, and none is left at either end. */
  function Trim(s: string): (r: string)
    ensures exists k :: TrimmedAt(r, s, k)
    ensures r != [] ==> !IsSpace(r[0]) && !IsSpace(r[|r| - 1])
    ensures r == [] <==> forall i :: 0 <= i < |s| ==> IsSpace(s[i])
  {
    var t := TrimStart(s);
    TrimEndOfSuffix(s, t);
    TrimEnd(t)
  }

  /** Trimming the end of a suffix left by `TrimStart` removes only white space. */
  lemma TrimEndOfSuffix(s: string, t: string)
    requires |t| <= |s| && t == s[|s| - |t|..]
    requires forall i :: 0 <= i < |s| - |t| ==> IsSpace(s[i])
    ensures TrimmedAt(TrimEnd(t), s, |s| - |t|)
  {
    var r := TrimEnd(t);
    PrefixOfSuffix(s, t, |r|);
    SpaceAfterPrefix(s, t, |r|);
  }

  /** A prefix of the suffix at `k` is the slice of `s` at `k`. */
  lemma PrefixOfSuffix(s: string, t: string, n: int)
    requires |t| <= |s| && t == s[|s| - |t|..] && 0 <= n <= |t|
    ensures SliceAt(t[..n], s, |s| - |t|)
  {
    var k := |s| - |t|;
    assert s[k..k + n] == t[..n];
  }

  /** White space after the first `n` characters of the suffix at `k` is
      white space after position `k + n` of `s`. */
  lemma SpaceAfterPrefix(s: string, t: string, n: int)
    requires |t| <= |s| && t == s[|s| - |t|..] && 0 <= n <= |t|
    requires forall i :: n <= i < |t| ==> IsSpace(t[i])
    ensures forall i :: |s| - |t| + n <= i < |s| ==> IsSpace(s[i])
  {
    var k := |s| - |t|;
    forall i | k + n <= i < |s| ensures IsSpace(s[i]) {
      assert s[i] == t[i - k];
    }
  }

  /** `r` is the slice of `s` starting at `k`. */
  predicate SliceAt(r: string, s: string, k: int)
  {
    0 <= k && k + |r| <= |s| && r == s[k..k + |r|]
  }

  /** Everything in `s` before position `k` and from `k + n` on is white space. */
  predicate SpaceOutside(s: string, k: int, n: int)
  {
    && (forall i :: 0 <= i < k && i < |s| ==> IsSpace(s[i]))
    && (forall i :: 0 <= k + n <= i < |s| ==> IsSpace(s[i]))
  }

  /** `r` is the slice of `s` at `k` with only white space around it. */
  predicate TrimmedAt(r: string, s: string, k: int)
  {
    SliceAt(r, s, k) && SpaceOutside(s, k, |r|)
  }

  /** A slice with only white space around it and none at either end is
      what `trim` returns: the contract of `Trim` determines its result. */
  lemma TrimUnique(s: string, r: string, k: int)
    requires TrimmedAt(r, s, k)
    requires r != [] ==> !IsSpace(r[0]) && !IsSpace(r[|r| - 1])
    ensures r == Trim(s)
  {
    var t := Trim(s);
    if r == [] {
      assert forall i :: 0 <= i < |s| ==> IsSpace(s[i]);
    } else {
      var j :| TrimmedAt(t, s, j);
      assert !IsSpace(s[k]) && !IsSpace(s[k + |r| - 1]);
      assert t != [];
      assert !IsSpace(s[j]) && !IsSpace(s[j + |t| - 1]);
      assert k == j && |r| == |t|;
    }
  }

  /** Trimming a trimmed string changes nothing. */
  lemma TrimIdempotent(s: string)
    ensures Trim(Trim(s)) == Trim(s)
  {
    var r := Trim(s);
    assert TrimStart(r) == r;
    assert TrimEnd(r) == r;
  }

  /** `toLowerCase` on the ASCII letters; other code points are kept. */
  function LowerChar(c: char): char
  {
    if 'A' <= c <= 'Z' then (c as int + 32) as char else c
  }

  function ToLower(s: string): (r: string)
    ensures |r| == |s|
    ensures forall i :: 0 <= i < |s| ==> r[i] == LowerChar(s[i])
  {
    if s == [] then [] else [LowerChar(s[0])] + ToLower(s[1..])
  }

  /** Lowercasing leaves no ASCII capital, is idempotent, and keeps every
      white-space, '@' and '.' position where it was. */
  lemma ToLowerProperties(s: string)
    ensures forall i :: 0 <= i < |s| ==> !('A' <= ToLower(s)[i] <= 'Z')
    ensures ToLower(ToLower(s)) == ToLower(s)
    ensures forall i :: 0 <= i < |s| ==>
              && (IsSpace(ToLower(s)[i]) <==> IsSpace(s[i]))
              && (ToLower(s)[i] == '@' <==> s[i] == '@')
              && (ToLower(s)[i] == '.' <==> s[i] == '.')
  {
    forall i | 0 <= i < |s|
      ensures !('A' <= ToLower(s)[i] <= 'Z')
      ensures ToLower(ToLower(s))[i] == ToLower(s)[i]
      ensures IsSpace(ToLower(s)[i]) <==> IsSpace(s[i])
    {
      LowerCharFacts(s[i]);
    }
  }

  /** The same facts for one character. */
  lemma LowerCharFacts(c: char)
    ensures !('A' <= LowerChar(c) <= 'Z')
    ensures LowerChar(LowerChar(c)) == LowerChar(c)
    ensures IsSpace(LowerChar(c)) <==> IsSpace(c)
  {
  }

  /** `sub` occurs in `s` at position `i`. */
  predicate OccursAt(s: string, sub: string, i: int)
  {
    0 <= i && i + |sub| <= |s| && s[i..i + |sub|] == sub
  }

  /** `s.indexOf(sub)`: the first position where `sub` occurs. */
  function IndexOf(s: string, sub: string): (r: Option<nat>)
    ensures r.None? <==> forall i :: 0 <= i ==> !OccursAt(s, sub, i)
    ensures r.Some? ==> OccursAt(s, sub, r.value)
    ensures r.Some? ==> forall i :: 0 <= i < r.value ==> !OccursAt(s, sub, i)
    decreases |s|
  {
    if |s| < |sub| then None
    else if s[..|sub|] == sub then assert OccursAt(s, sub, 0); Some(0)
    else
      var rest := IndexOf(s[1..], sub);
      assert forall i :: 1 <= i ==> (OccursAt(s, sub, i) <==> OccursAt(s[1..], sub, i - 1)) by {
        forall i | 1 <= i
          ensures OccursAt(s, sub, i) <==> OccursAt(s[1..], sub, i - 1)
        {
          if i + |sub| <= |s| {
            var a, b := s[i..i + |sub|], s[1..][i - 1..i - 1 + |sub|];
            assert forall k :: 0 <= k < |sub| ==> a[k] == s[i + k] == b[k];
            assert a == b;
          }
        }
      }
      match rest
      case None => None
      case Some(j) => assert OccursAt(s, sub, j + 1); Some(j + 1)
  }

  /** `s.includes(sub)` */
  predicate Contains(s: string, sub: string)
  {
    exists i :: 0 <= i <= |s| - |sub| && OccursAt(s, sub, i)
  }

  /** `includes` succeeds exactly when `indexOf` finds a position. */
  lemma ContainsIffIndexOf(s: string, sub: string)
    ensures Contains(s, sub) <==> IndexOf(s, sub).Some?
  {
  }

  /** `s.replace(sub, rep)` with a string pattern: only the first
      occurrence is replaced. */
  function ReplaceFirst(s: string, sub: string, rep: string): (r: string)
    ensures IndexOf(s, sub).None? ==> r == s
    ensures IndexOf(s, sub).Some? ==> r == Splice(s, IndexOf(s, sub).value, |sub|, rep)
  {
    match IndexOf(s, sub)
    case None => s
    case Some(i) => Splice(s, i, |sub|, rep)
  }

  /** `s` with the `n` characters from `i` replaced by `rep`. */
  function Splice(s: string, i: nat, n: nat, rep: string): (r: string)
    requires i + n <= |s|
    ensures |r| == |s| - n + |rep|
    ensures r[..i] == s[..i] && r[i..i + |rep|] == rep && r[i + |rep|..] == s[i + n..]
  {
    s[..i] + rep + s[i + n..]
  }

  // ---------------------------------------------------------------------
  // Decimal rendering
  // ---------------------------------------------------------------------

  function DigitChar(d: nat): char
    requires d < 10
  {
    ('0' as int + d) as char
  }

  predicate IsDigit(c: char)
  {
    '0' <= c <= '9'
  }

  /** The value of a string of decimal digits. */
  function DecimalValue(s: string): nat
    requires forall i :: 0 <= i < |s| ==> IsDigit(s[i])
  {
    if s == [] then 0
    else
      var c := s[|s| - 1];
      assert IsDigit(c);
      10 * DecimalValue(s[..|s| - 1]) + (c as int - '0' as int)
  }

  /** `${n}` for a non-negative integer: its shortest decimal numeral. */
  function NatToString(n: nat): (r: string)
    ensures r != []
    ensures forall i :: 0 <= i < |r| ==> IsDigit(r[i])
    ensures |r| > 1 ==> r[0] != '0'
  {
    if n < 10 then [DigitChar(n)] else NatToString(n / 10) + [DigitChar(n % 10)]
  }

  /** Reading the numeral back gives the number. */
  lemma {:induction false} NatToStringRoundTrip(n: nat)
    ensures DecimalValue(NatToString(n)) == n
    decreases n
  {
    var r := NatToString(n);
    if n >= 10 {
      NatToStringRoundTrip(n / 10);
      assert r[..|r| - 1] == NatToString(n / 10);
    }
  }

  /** Distinct numbers render as distinct numerals. */
  lemma NatToStringInjective(m: nat, n: nat)
    requires m != n
    ensures NatToString(m) != NatToString(n)
  {
    NatToStringRoundTrip(m);
    NatToStringRoundTrip(n);
  }

  /** A fixed prefix followed by distinct numerals gives distinct strings. */
  lemma PrefixedNumeralsDistinct(prefix: string, m: nat, n: nat)
    requires m != n
    ensures prefix + NatToString(m) != prefix + NatToString(n)
  {
    NatToStringInjective(m, n);
    assert (prefix + NatToString(m))[|prefix|..] == NatToString(m);
    assert (prefix + NatToString(n))[|prefix|..] == NatToString(n);
  }

  /** A string missing one of the characters of `sub` does not contain `sub`. */
  lemma NotContainsWithoutChar(s: string, sub: string, j: int)
    requires 0 <= j < |sub| && sub[j] !in s
    ensures !Contains(s, sub)
  {
    forall i | 0 <= i
      ensures !OccursAt(s, sub, i)
    {
      if i + |sub| <= |s| {
        assert s[i..i + |sub|][j] == s[i + j];
      }
    }
  }

  /** Removing the first occurrence of `pat` keeps some occurrence of `sub`
      when the two cannot overlap: neither contains the first character of
      the other. */
  lemma RemoveFirstKeepsOccurrence(s: string, pat: string, sub: string)
    requires |pat| > 0 && |sub| > 0 && sub[0] !in pat && pat[0] !in sub
    requires Contains(s, sub)
    ensures Contains(ReplaceFirst(s, pat, ""), sub)
  {
    var found := IndexOf(s, pat);
    if found.Some? {
      var p := found.value;
      ReplaceFirstWithEmpty(s, pat, p);
      CutPatternKeepsOccurrence(s, pat, sub, p);
    }
  }

  /** Replacing the first occurrence, at `p`, by nothing cuts it out. */
  lemma ReplaceFirstWithEmpty(s: string, pat: string, p: nat)
    requires IndexOf(s, pat) == Some(p)
    ensures ReplaceFirst(s, pat, "") == s[..p] + s[p + |pat|..]
  {
    SpliceNothing(s, p, |pat|);
  }

  lemma SpliceNothing(s: string, i: nat, n: nat)
    requires i + n <= |s|
    ensures Splice(s, i, n, "") == s[..i] + s[i + n..]
  {
    assert s[..i] + "" == s[..i];
  }

  /** Cutting out an occurrence of `pat` keeps some occurrence of `sub`
      when the two cannot overlap. */
  lemma CutPatternKeepsOccurrence(s: string, pat: string, sub: string, p: int)
    requires |pat| > 0 && |sub| > 0 && sub[0] !in pat && pat[0] !in sub
    requires OccursAt(s, pat, p) && Contains(s, sub)
    ensures Contains(s[..p] + s[p + |pat|..], sub)
  {
    var i :| 0 <= i <= |s| - |sub| && OccursAt(s, sub, i);
    NoOverlap(s, pat, sub, p, i);
    CutKeepsOccurrence(s, p, p + |pat|, sub, i);
  }

  /** Cutting `s[p..q]` out keeps an occurrence that does not overlap the cut. */
  lemma CutKeepsOccurrence(s: string, p: int, q: int, sub: string, i: int)
    requires 0 <= p <= q <= |s| && OccursAt(s, sub, i) && (i + |sub| <= p || q <= i)
    ensures Contains(s[..p] + s[q..], sub)
  {
    if i + |sub| <= p {
      OccursBeforeCut(s, p, q, sub, i);
    } else {
      OccursAfterCut(s, p, q, sub, i);
    }
  }

  /** Occurrences of `pat` and `sub` are disjoint when neither contains the
      first character of the other. */
  lemma NoOverlap(s: string, pat: string, sub: string, p: int, i: int)
    requires |pat| > 0 && |sub| > 0 && sub[0] !in pat && pat[0] !in sub
    requires OccursAt(s, pat, p) && OccursAt(s, sub, i)
    ensures i + |sub| <= p || p + |pat| <= i
  {
    forall q | i <= q < i + |sub| ensures s[q] in sub {
      assert s[i..i + |sub|][q - i] == s[q];
    }
    forall q | p <= q < p + |pat| ensures s[q] in pat {
      assert s[p..p + |pat|][q - p] == s[q];
    }
    assert s[p] == pat[0] by { assert s[p..p + |pat|][0] == s[p]; }
    assert s[i] == sub[0] by { assert s[i..i + |sub|][0] == s[i]; }
  }

  /** Cutting `s[p..q]` out keeps an occurrence that ends before `p`. */
  lemma OccursBeforeCut(s: string, p: int, q: int, sub: string, i: int)
    requires 0 <= p <= q <= |s| && OccursAt(s, sub, i) && i + |sub| <= p
    ensures OccursAt(s[..p] + s[q..], sub, i)
  {
    var r := s[..p] + s[q..];
    forall k | 0 <= k < |sub| ensures r[i + k] == sub[k] {
      assert s[i..i + |sub|][k] == s[i + k];
    }
    assert r[i..i + |sub|] == sub;
  }

  /** Cutting `s[p..q]` out moves an occurrence that starts from `q` back by `q - p`. */
  lemma OccursAfterCut(s: string, p: int, q: int, sub: string, i: int)
    requires 0 <= p <= q <= |s| && OccursAt(s, sub, i) && q <= i
    ensures OccursAt(s[..p] + s[q..], sub, i - (q - p))
  {
    var r, j := s[..p] + s[q..], i - (q - p);
    forall k | 0 <= k < |sub| ensures r[j + k] == sub[k] {
      assert s[i..i + |sub|][k] == s[i + k];
    }
    assert r[j..j + |sub|] == sub;
  }
}
