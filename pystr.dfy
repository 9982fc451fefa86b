/**
 * The parts of Python's `str` that the classifiers use: `isspace`, `lower`,
 * `startswith`, the `in` substring test, `strip` and `split`, over Unicode
 * scalar values (Dafny's `char`).
 */
module PyStr {

  /** Exactly the characters for which Python's `str.isspace()` holds; `split()` and `strip()` with no argument use these. */
  predicate IsSpace(c: char)
  {
    ('\t' <= c <= '\r') || ('\U{1C}' <= c <= ' ') || c == '\U{85}' || c == '\U{A0}' || c == '\U{1680}'
    || ('\U{2000}' <= c <= '\U{200A}') || c == '\U{2028}' || c == '\U{2029}' || c == '\U{202F}'
    || c == '\U{205F}' || c == '\U{3000}'
  }

  /** The same characters as a set, for `strip()`. */
  const Whitespace: set<char> := set c: char | '\t' <= c <= '\U{3000}' && IsSpace(c)

  predicate NoSpace(s: string)
  {
    forall i :: 0 <= i < |s| ==> !IsSpace(s[i])
  }

  // ---------------------------------------------------------------------------
  // lower()
  // ---------------------------------------------------------------------------

  /** The upper-case letters this model lowers: ASCII, Latin-1 (without the multiplication sign) and the basic Cyrillic capitals Ѐ–Я. */
  predicate IsUpper(c: char)
  {
    ('A' <= c <= 'Z') || ('\U{C0}' <= c <= '\U{DE}' && c != '\U{D7}') || ('\U{400}' <= c <= '\U{42F}')
  }

  /** Python's `lower()` on one character of the modelled range; every other character is kept. */
  function LowerChar(c: char): (r: char)
    ensures !IsUpper(r)
    ensures !IsUpper(c) ==> r == c
    ensures IsSpace(r) <==> IsSpace(c)
  {
    if ('A' <= c <= 'Z') || ('\U{C0}' <= c <= '\U{DE}' && c != '\U{D7}') || ('\U{410}' <= c <= '\U{42F}') then
      (c as int + 0x20) as char
    else if '\U{400}' <= c <= '\U{40F}' then
      (c as int + 0x50) as char
    else
      c
  }

  /** `s.lower()`: same length, no upper-case letter left, everything else in place. */
  function Lower(s: string): (r: string)
    ensures |r| == |s|
    ensures forall i :: 0 <= i < |r| ==> !IsUpper(r[i]) && (!IsUpper(s[i]) ==> r[i] == s[i])
  {
    seq(|s|, i requires 0 <= i < |s| => LowerChar(s[i]))
  }

  predicate IsLowerCase(s: string)
  {
    forall i :: 0 <= i < |s| ==> !IsUpper(s[i])
  }

  // ---------------------------------------------------------------------------
  // startswith() and `in`
  // ---------------------------------------------------------------------------

  predicate StartsWith(s: string, prefix: string)
  {
    |prefix| <= |s| && s[..|prefix|] == prefix
  }

  /** A string that differs from `prefix` at some position of `prefix` does not start with it. */
  lemma NotStartsWith(s: string, prefix: string, j: nat)
    requires j < |prefix| && (j >= |s| || s[j] != prefix[j])
    ensures !StartsWith(s, prefix)
  {
    if |prefix| <= |s| {
      assert s[..|prefix|][j] == s[j];
    }
  }

  /** `k` sits in `s` at index `i`. */
  predicate MatchesAt(s: string, k: string, i: int)
  {
    0 <= i && i + |k| <= |s| && s[i..i + |k|] == k
  }

  lemma MatchesBetween(a: string, k: string, b: string)
    ensures MatchesAt(a + k + b, k, |a|)
  {
    assert (a + k + b)[|a|..|a| + |k|] == k;
  }

  /** Reference definition of a substring: some index where `k` sits in `s`. */
  ghost predicate Occurs(k: string, s: string)
  {
    exists i :: MatchesAt(s, k, i)
  }

  /** Python's `k in s` on strings, as a left-to-right scan. */
  predicate Contains(s: string, k: string)
    decreases |s|
  {
    StartsWith(s, k) || (s != [] && Contains(s[1..], k))
  }

  lemma {:induction false} ContainsIffOccurs(s: string, k: string)
    ensures Contains(s, k) <==> Occurs(k, s)
    decreases |s|
  {
    if s == [] {
      if Occurs(k, s) {
        var i :| MatchesAt(s, k, i);
        assert s[..|k|] == s[i..i + |k|];
        assert StartsWith(s, k);
      }
      if Contains(s, k) {
        assert MatchesAt(s, k, 0);
      }
    } else {
      ContainsIffOccurs(s[1..], k);
      if Occurs(k, s[1..]) {
        var i :| MatchesAt(s[1..], k, i);
        ShiftMatch(s, k, i);
      }
      if StartsWith(s, k) {
        assert MatchesAt(s, k, 0);
      }
      if Occurs(k, s) {
        var i :| MatchesAt(s, k, i);
        if i == 0 {
          assert s[..|k|] == s[i..i + |k|];
          assert StartsWith(s, k);
        } else {
          assert s[1..][i - 1..i - 1 + |k|] == s[i..i + |k|];
          assert MatchesAt(s[1..], k, i - 1);
          assert Contains(s[1..], k);
        }
        assert Contains(s, k);
      }
    }
  }

  /** A match in `s[1..]` is a match in `s` one position further on. */
  lemma ShiftMatch(s: string, k: string, i: int)
    requires s != [] && MatchesAt(s[1..], k, i)
    ensures MatchesAt(s, k, i + 1)
  {
    assert i + 1 + |k| <= |s|;
    forall t | 0 <= t < |k|
      ensures s[i + 1 + t] == k[t]
    {
      assert s[1..][i..i + |k|][t] == s[1..][i + t];
    }
    assert s[i + 1..i + 1 + |k|] == k;
  }

  /** A string that occurs in a piece of `s` occurs in `s`. */
  lemma OccursTransitive(a: string, b: string, c: string)
    requires Occurs(a, b) && Occurs(b, c)
    ensures Occurs(a, c)
  {
    var i :| MatchesAt(b, a, i);
    var j :| MatchesAt(c, b, j);
    forall t | 0 <= t < |a|
      ensures c[j + i + t] == a[t]
    {
      assert a[t] == b[i + t] == c[j + i + t];
    }
    assert c[j + i..j + i + |a|] == a;
    assert MatchesAt(c, a, j + i);
  }

  /** Every character of a piece is a character of the whole. */
  lemma OccursChars(k: string, s: string)
    requires Occurs(k, s)
    ensures forall j :: 0 <= j < |k| ==> k[j] in s
  {
    var i :| MatchesAt(s, k, i);
    forall j | 0 <= j < |k|
      ensures k[j] in s
    {
      assert k[j] == s[i..i + |k|][j] == s[i + j];
    }
  }

  /** Lowering keeps a piece in place: what occurs in `s` occurs, lowered, in `s.lower()`. */
  lemma OccursLower(k: string, s: string)
    requires Occurs(k, s)
    ensures Occurs(Lower(k), Lower(s))
  {
    var i :| MatchesAt(s, k, i);
    assert Lower(s)[i..i + |k|] == Lower(k);
    assert MatchesAt(Lower(s), Lower(k), i);
  }

  /** `lower()` neither adds nor removes whitespace. */
  lemma LowerNoSpace(s: string)
    requires NoSpace(s)
    ensures NoSpace(Lower(s))
  {
    forall i | 0 <= i < |s|
      ensures !IsSpace(Lower(s)[i])
    {
      assert Lower(s)[i] == LowerChar(s[i]);
    }
  }

  /** A lower-case string is its own `lower()`. */
  lemma LowerKeeps(s: string)
    requires IsLowerCase(s)
    ensures Lower(s) == s
  {
  }

  /** A lower-case piece of `s` is a piece of `s.lower()`. */
  lemma OccursLowered(k: string, s: string, i: int)
    requires MatchesAt(s, k, i) && IsLowerCase(k)
    ensures Occurs(k, Lower(s))
  {
    OccursLower(k, s);
    LowerKeeps(k);
  }

  /** If every character of `s` is in `letters` and `lower()` maps `letters` into `lowered`, every character of `s.lower()` is in `lowered`. */
  lemma LowerLetters(s: string, letters: set<char>, lowered: set<char>)
    requires forall i :: 0 <= i < |s| ==> s[i] in letters
    requires forall c :: c in letters ==> LowerChar(c) in lowered
    ensures forall i :: 0 <= i < |Lower(s)| ==> Lower(s)[i] in lowered
  {
  }

  /** No two neighbours of `s` lower to `c` followed by `d`, so no two neighbours of `s.lower()` are `c` and `d`. */
  lemma LowerNoPair(s: string, c: char, d: char)
    requires forall i :: 0 <= i < |s| - 1 ==> !(LowerChar(s[i]) == c && LowerChar(s[i + 1]) == d)
    ensures forall i :: 0 <= i < |Lower(s)| - 1 ==> !(Lower(s)[i] == c && Lower(s)[i + 1] == d)
  {
  }

  /** A string with a character outside the alphabet of `s` does not occur in `s`. */
  lemma AbsentLetter(k: string, s: string, j: nat, letters: set<char>)
    requires forall i :: 0 <= i < |s| ==> s[i] in letters
    requires j < |k| && k[j] !in letters
    ensures !Occurs(k, s)
  {
  }

  /** A string with two neighbours that are never neighbours in `s` does not occur in `s`. */
  lemma AbsentPair(k: string, s: string, j: nat)
    requires j + 1 < |k|
    requires forall i :: 0 <= i < |s| - 1 ==> !(s[i] == k[j] && s[i + 1] == k[j + 1])
    ensures !Occurs(k, s)
  {
    forall i | MatchesAt(s, k, i)
      ensures false
    {
      MatchesAtPair(s, k, i, j);
    }
  }

  lemma MatchesAtPair(s: string, k: string, i: int, j: nat)
    requires MatchesAt(s, k, i) && j + 1 < |k|
    ensures s[i + j] == k[j] && s[i + j + 1] == k[j + 1]
  {
    assert s[i..i + |k|][j] == s[i + j];
  }

  /** Python's `any(k in s for k in keywords)`. */
  predicate AnyIn(keywords: seq<string>, s: string)
  {
    keywords != [] && (Contains(s, keywords[0]) || AnyIn(keywords[1..], s))
  }

  lemma {:induction false} AnyInIffOccurs(keywords: seq<string>, s: string)
    ensures AnyIn(keywords, s) <==> exists k :: k in keywords && Occurs(k, s)
  {
    if keywords != [] {
      ContainsIffOccurs(s, keywords[0]);
      AnyInIffOccurs(keywords[1..], s);
      assert forall k :: k in keywords <==> k == keywords[0] || k in keywords[1..];
    }
  }

  // ---------------------------------------------------------------------------
  // strip()
  // ---------------------------------------------------------------------------

  /** `s.lstrip(cs)`: the suffix left after dropping leading characters of `cs`. */
  function TrimLeft(s: string, cs: set<char>): (r: string)
    ensures |r| <= |s| && r == s[|s| - |r|..]
    ensures forall i :: 0 <= i < |s| - |r| ==> s[i] in cs
    ensures r == [] || r[0] !in cs
    decreases |s|
  {
    if s != [] && s[0] in cs then TrimLeft(s[1..], cs) else s
  }

  /** `s.rstrip(cs)`: the prefix left after dropping trailing characters of `cs`. */
  function TrimRight(s: string, cs: set<char>): (r: string)
    ensures |r| <= |s| && r == s[..|r|]
    ensures forall i :: |r| <= i < |s| ==> s[i] in cs
    ensures r == [] || r[|r| - 1] !in cs
    decreases |s|
  {
    if s != [] && s[|s| - 1] in cs then TrimRight(s[..|s| - 1], cs) else s
  }

  /** `r` sits in `s` at index `i` with nothing but characters of `cs` around it. */
  predicate Surrounded(s: string, r: string, i: int, cs: set<char>)
  {
    MatchesAt(s, r, i)
    && (forall k :: 0 <= k < i ==> s[k] in cs)
    && (forall k :: i + |r| <= k < |s| ==> s[k] in cs)
  }

  /** `s` neither starts nor ends with a character of `cs`. */
  predicate Trimmed(s: string, cs: set<char>)
  {
    s == [] || (s[0] !in cs && s[|s| - 1] !in cs)
  }

  /**
   * `s.strip(cs)`: the piece of `s` that remains once every leading and
   * trailing character of `cs` is gone; it neither starts nor ends with one.
   */
  function Strip(s: string, cs: set<char>): (r: string)
    ensures exists i :: Surrounded(s, r, i, cs)
    ensures Trimmed(r, cs)
    ensures r == [] <==> forall k :: 0 <= k < |s| ==> s[k] in cs
  {
    TrimBoth(s, cs);
    TrimRight(TrimLeft(s, cs), cs)
  }

  lemma TrimBoth(s: string, cs: set<char>)
    ensures Surrounded(s, TrimRight(TrimLeft(s, cs), cs), |s| - |TrimLeft(s, cs)|, cs)
    ensures TrimRight(TrimLeft(s, cs), cs) == [] ==> forall k :: 0 <= k < |s| ==> s[k] in cs
  {
    var t := TrimLeft(s, cs);
    var r := TrimRight(t, cs);
    assert |t| <= |s| && t == s[|s| - |t|..];
    assert |r| <= |t| && r == t[..|r|];
    SuffixPrefix(s, t, r, cs);
  }

  /** A prefix `r` of a suffix `t` of `s`, where only characters of `cs` were cut off either side. */
  lemma SuffixPrefix(s: string, t: string, r: string, cs: set<char>)
    requires |t| <= |s| && t == s[|s| - |t|..]
    requires forall k :: 0 <= k < |s| - |t| ==> s[k] in cs
    requires |r| <= |t| && r == t[..|r|]
    requires forall k :: |r| <= k < |t| ==> t[k] in cs
    ensures Surrounded(s, r, |s| - |t|, cs)
    ensures r == [] ==> forall k :: 0 <= k < |s| ==> s[k] in cs
  {
    var i := |s| - |t|;
    assert s[i..i + |r|] == t[..|r|];
    assert forall k :: i <= k < |s| ==> s[k] == t[k - i];
  }

  // ---------------------------------------------------------------------------
  // split()
  // ---------------------------------------------------------------------------

  /** `strip` is determined by its contract: a piece with only `cs` around it and no `cs` at its ends is the stripped string. */
  lemma StripUnique(s: string, r: string, i: int, cs: set<char>)
    requires Surrounded(s, r, i, cs)
    requires Trimmed(r, cs)
    ensures Strip(s, cs) == r
  {
    var q := Strip(s, cs);
    var j :| Surrounded(s, q, j, cs);
    SurroundedUnique(s, r, i, q, j, cs);
  }

  lemma SurroundedUnique(s: string, r: string, i: int, q: string, j: int, cs: set<char>)
    requires Surrounded(s, r, i, cs) && Trimmed(r, cs)
    requires Surrounded(s, q, j, cs) && Trimmed(q, cs)
    requires q == [] <==> forall k :: 0 <= k < |s| ==> s[k] in cs
    ensures r == q
  {
    if r == [] {
      forall k | 0 <= k < |s|
        ensures s[k] in cs
      {
        if k >= i {
          assert i + |r| <= k;
        }
      }
    } else {
      assert s[i] == r[0] && s[i + |r| - 1] == r[|r| - 1];
      assert q != [] && s[j] == q[0] && s[j + |q| - 1] == q[|q| - 1];
      assert i == j;
      assert i + |r| == j + |q|;
    }
  }

  /** The longest prefix of `t` without whitespace. */
  function Word(t: string): (w: string)
    ensures |w| <= |t| && w == t[..|w|]
    ensures NoSpace(w)
    ensures |w| == |t| || IsSpace(t[|w|])
  {
    if t == [] || IsSpace(t[0]) then [] else [t[0]] + Word(t[1..])
  }

  /** Every entry is a non-empty run without whitespace. */
  predicate AllTokens(ws: seq<string>)
  {
    forall i :: 0 <= i < |ws| ==> ws[i] != [] && NoSpace(ws[i])
  }

  lemma PrependToken(w: string, tail: seq<string>)
    requires w != [] && NoSpace(w) && AllTokens(tail)
    ensures AllTokens([w] + tail)
  {
  }

  /**
   * `s.split()`: the maximal runs of non-whitespace characters, left to right.
   * Every token is non-empty and holds no whitespace, and there is no token
   * exactly when `s` is all whitespace.
   */
  function Split(s: string): (r: seq<string>)
    ensures AllTokens(r)
    ensures r == [] <==> forall i :: 0 <= i < |s| ==> IsSpace(s[i])
    decreases |s|
  {
    var t := TrimLeft(s, Whitespace);
    if t == [] then []
    else
      assert t[0] !in Whitespace && !IsSpace(s[|s| - |t|]);
      var w := Word(t);
      var tail := Split(t[|w|..]);
      PrependToken(w, tail);
      [w] + tail
  }

  /** `w` starts at index `i` of `s` after nothing but whitespace and ends at whitespace or at the end of `s`. */
  predicate FirstRun(s: string, w: string, i: int)
  {
    MatchesAt(s, w, i)
    && (forall k :: 0 <= k < i ==> IsSpace(s[k]))
    && (i + |w| == |s| || IsSpace(s[i + |w|]))
  }

  /** The first token of `split()`: skip leading whitespace, then run up to the next whitespace or the end. */
  lemma SplitHead(s: string)
    requires Split(s) != []
    ensures exists i :: FirstRun(s, Split(s)[0], i)
  {
    var t := TrimLeft(s, Whitespace);
    assert Split(s)[0] == Word(t);
    LeadingWord(s);
  }

  lemma LeadingWord(s: string)
    ensures FirstRun(s, Word(TrimLeft(s, Whitespace)), |s| - |TrimLeft(s, Whitespace)|)
  {
    var t := TrimLeft(s, Whitespace);
    assert forall k :: 0 <= k < |s| - |t| ==> IsSpace(s[k]);
    RunAfterSpaces(s, t, Word(t));
  }

  /** A whitespace-delimited prefix `w` of the suffix `t` of `s` that follows only whitespace is a first run of `s`. */
  lemma RunAfterSpaces(s: string, t: string, w: string)
    requires |t| <= |s| && t == s[|s| - |t|..]
    requires forall k :: 0 <= k < |s| - |t| ==> IsSpace(s[k])
    requires |w| <= |t| && w == t[..|w|]
    requires |w| == |t| || IsSpace(t[|w|])
    ensures FirstRun(s, w, |s| - |t|)
  {
    var i := |s| - |t|;
    assert s[i..i + |w|] == t[..|w|];
    assert i + |w| < |s| ==> s[i + |w|] == t[|w|];
  }

  /** Two non-empty whitespace-free runs that both start `s` after whitespace only are the same run. */
  lemma FirstRunUnique(s: string, w: string, i: int, v: string, j: int)
    requires w != [] && NoSpace(w) && FirstRun(s, w, i)
    requires v != [] && NoSpace(v) && FirstRun(s, v, j)
    ensures w == v
  {
    assert s[i] == w[0] && s[j] == v[0];
    assert i == j;
    var u := s[i..];
    assert i + |w| < |s| ==> IsSpace(u[|w|]);
    assert i + |v| < |s| ==> IsSpace(u[|v|]);
    assert forall k :: 0 <= k < |w| ==> u[k] == w[k];
    assert forall k :: 0 <= k < |v| ==> u[k] == v[k];
    assert |v| == |w|;
  }

  /** Conversely, a non-empty run without whitespace that starts the string that way is the first token. */
  lemma SplitFirstToken(s: string, w: string, i: int)
    requires w != [] && NoSpace(w) && FirstRun(s, w, i)
    ensures Split(s) != [] && Split(s)[0] == w
  {
    assert s[i] == w[0];
    SplitHead(s);
    var v := Split(s)[0];
    var j :| FirstRun(s, v, j);
    FirstRunUnique(s, w, i, v, j);
  }

  function Concat(ss: seq<string>): string
  {
    if ss == [] then [] else ss[0] + Concat(ss[1..])
  }

  lemma ConcatCons(w: string, tail: seq<string>)
    ensures Concat([w] + tail) == w + Concat(tail)
  {
    assert ([w] + tail)[1..] == tail;
  }

  /** `s` with every whitespace character removed. */
  function DropSpaces(s: string): string
  {
    if s == [] then [] else (if IsSpace(s[0]) then [] else [s[0]]) + DropSpaces(s[1..])
  }

  lemma {:induction false} DropSpacesAppend(a: string, b: string)
    ensures DropSpaces(a + b) == DropSpaces(a) + DropSpaces(b)
  {
    if a != [] {
      assert (a + b)[1..] == a[1..] + b;
      DropSpacesAppend(a[1..], b);
    } else {
      assert a + b == b;
    }
  }

  lemma {:induction false} DropSpacesOfSpaces(s: string)
    requires forall i :: 0 <= i < |s| ==> IsSpace(s[i])
    ensures DropSpaces(s) == []
  {
    if s != [] {
      DropSpacesOfSpaces(s[1..]);
    }
  }

  lemma {:induction false} DropSpacesOfWord(s: string)
    requires NoSpace(s)
    ensures DropSpaces(s) == s
  {
    if s != [] {
      DropSpacesOfWord(s[1..]);
    }
  }

  lemma DropLeadingSpaces(s: string)
    ensures DropSpaces(s) == DropSpaces(TrimLeft(s, Whitespace))
  {
    var t := TrimLeft(s, Whitespace);
    var lead := s[..|s| - |t|];
    assert s == lead + t;
    DropSpacesOfSpaces(lead);
    DropSpacesAppend(lead, t);
  }

  lemma DropLeadingWord(t: string)
    ensures DropSpaces(t) == Word(t) + DropSpaces(t[|Word(t)|..])
  {
    var w := Word(t);
    var rest := t[|w|..];
    assert t == w + rest;
    DropSpacesOfWord(w);
    DropSpacesAppend(w, rest);
  }

  lemma SplitStep(s: string)
    requires TrimLeft(s, Whitespace) != []
    ensures var t := TrimLeft(s, Whitespace);
      Split(s) == [Word(t)] + Split(t[|Word(t)|..])
  {
  }

  /** `split()` loses only whitespace: its tokens, joined, are the non-whitespace characters of `s` in order. */
  lemma {:induction false} SplitKeepsNonSpace(s: string)
    ensures Concat(Split(s)) == DropSpaces(s)
    decreases |s|
  {
    var t := TrimLeft(s, Whitespace);
    DropLeadingSpaces(s);
    if t != [] {
      var w := Word(t);
      var rest := t[|w|..];
      DropLeadingWord(t);
      SplitKeepsNonSpace(rest);
      SplitStep(s);
      ConcatCons(w, Split(rest));
    }
  }
}
