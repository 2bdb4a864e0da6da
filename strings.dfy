/** Python `str` operations used by the loader and the filter options, on `seq<char>`. */
module Strings {

  /** Number of occurrences of `c` in `s`. */
  function Count(c: char, s: string): (n: nat)
    ensures n <= |s|
  {
    if s == [] then 0 else (if s[0] == c then 1 else 0) + Count(c, s[1..])
  }

  lemma {:induction false} CountZero(c: char, s: string)
    ensures Count(c, s) == 0 <==> c !in s
  {
    if s != [] {
      CountZero(c, s[1..]);
      assert c in s <==> s[0] == c || c in s[1..];
    }
  }

  /** `s.replace(c, "")`: every occurrence of `c` deleted, every other character kept in order. */
  function Remove(c: char, s: string): string
  {
    if s == [] then []
    else if s[0] == c then Remove(c, s[1..])
    else [s[0]] + Remove(c, s[1..])
  }

  /** Deleting `c` shortens `s` by its number of `c`s and leaves no `c` behind. */
  lemma {:induction false} RemoveGone(c: char, s: string)
    ensures |Remove(c, s)| == |s| - Count(c, s)
    ensures c !in Remove(c, s)
  {
    if s != [] {
      RemoveGone(c, s[1..]);
    }
  }

  /** Deleting `c` leaves the number of every other character unchanged. */
  lemma {:induction false} RemoveKeeps(c: char, d: char, s: string)
    requires c != d
    ensures Count(d, Remove(c, s)) == Count(d, s)
  {
    if s != [] {
      RemoveKeeps(c, d, s[1..]);
      if s[0] != c {
        var r := [s[0]] + Remove(c, s[1..]);
        assert r[0] == s[0] && r[1..] == Remove(c, s[1..]);
      }
    }
  }

  lemma {:induction false} RemoveAppend(c: char, a: string, b: string)
    ensures Remove(c, a + b) == Remove(c, a) + Remove(c, b)
  {
    if a != [] {
      assert (a + b)[0] == a[0] && (a + b)[1..] == a[1..] + b;
      RemoveAppend(c, a[1..], b);
    } else {
      assert a + b == b;
    }
  }

  /** `s.replace(c, d)` for single characters: every `c` becomes `d`, positions unchanged. */
  function Replace(c: char, d: char, s: string): (r: string)
    requires c != d
    ensures |r| == |s|
    ensures forall i :: 0 <= i < |s| ==> r[i] == if s[i] == c then d else s[i]
  {
    if s == [] then [] else [if s[0] == c then d else s[0]] + Replace(c, d, s[1..])
  }

  /** After `Replace(c, d, _)` no `c` is left and every former `c` is counted as a `d`. */
  lemma {:induction false} ReplaceCounts(c: char, d: char, s: string)
    requires c != d
    ensures c !in Replace(c, d, s)
    ensures Count(d, Replace(c, d, s)) == Count(d, s) + Count(c, s)
  {
    if s != [] {
      ReplaceCounts(c, d, s[1..]);
      assert s == [s[0]] + s[1..];
      assert Replace(c, d, s) == [Replace(c, d, s)[0]] + Replace(c, d, s[1..]);
    }
  }

  /** A string without `c` is left alone by `Remove` and `Replace`. */
  lemma {:induction false} RemoveAbsent(c: char, s: string)
    requires c !in s
    ensures Remove(c, s) == s
  {
    if s != [] {
      RemoveAbsent(c, s[1..]);
    }
  }

  lemma ReplaceAbsent(c: char, d: char, s: string)
    requires c != d && c !in s
    ensures Replace(c, d, s) == s
  {
  }

  /** Replacing `c` by `d` and then `d` by `c` gives back `s` when `s` had no `d`. */
  lemma ReplaceBack(c: char, d: char, s: string)
    requires c != d && d !in s
    ensures Replace(d, c, Replace(c, d, s)) == s
  {
  }

  /** Python `s.split(c)`: the pieces between occurrences of `c`; always at least one piece. */
  function Split(c: char, s: string): (r: seq<string>)
    ensures |r| >= 1
  {
    if s == [] then [[]]
    else
      var rest := Split(c, s[1..]);
      if s[0] == c then [[]] + rest else [[s[0]] + rest[0]] + rest[1..]
  }

  /** Splitting a piece without `c`, followed by `c` and the rest. */
  lemma {:induction false} SplitCons(c: char, a: string, b: string)
    requires c !in a
    ensures Split(c, a + [c] + b) == [a] + Split(c, b)
  {
    if a != [] {
      assert (a + [c] + b)[1..] == a[1..] + [c] + b;
      SplitCons(c, a[1..], b);
      assert [a[0]] + a[1..] == a;
    } else {
      assert a + [c] + b == [c] + b;
    }
  }

  lemma {:induction false} SplitNone(c: char, a: string)
    requires c !in a
    ensures Split(c, a) == [a]
  {
    if a != [] {
      SplitNone(c, a[1..]);
      assert [a[0]] + a[1..] == a;
    }
  }

  /** Python's `str.isspace()` for one character: the characters `str.strip()` removes. */
  predicate IsSpace(c: char)
  {
    || ('\U{9}' <= c <= '\U{D}') || ('\U{1C}' <= c <= '\U{20}') || c == '\U{85}' || c == '\U{A0}'
    || c == '\U{1680}' || ('\U{2000}' <= c <= '\U{200A}') || c == '\U{2028}' || c == '\U{2029}'
    || c == '\U{202F}' || c == '\U{205F}' || c == '\U{3000}'
  }

  /** `s.lstrip()`: the suffix of `s` left after dropping leading whitespace. */
  function TrimStart(s: string): (r: string)
    ensures |r| <= |s| && r == s[|s| - |r|..]
    ensures forall i :: 0 <= i < |s| - |r| ==> IsSpace(s[i])
    ensures r == [] || !IsSpace(r[0])
  {
    if s != [] && IsSpace(s[0]) then
      var r := TrimStart(s[1..]);
      assert forall i :: 0 < i < |s| ==> s[i] == s[1..][i - 1];
      r
    else s
  }

  /** `s.rstrip()`: the prefix of `s` left after dropping trailing whitespace. */
  function TrimEnd(s: string): (r: string)
    ensures |r| <= |s| && r == s[..|r|]
    ensures forall i :: |r| <= i < |s| ==> IsSpace(s[i])
    ensures r == [] || !IsSpace(r[|r| - 1])
  {
    if s != [] && IsSpace(s[|s| - 1]) then TrimEnd(s[..|s| - 1]) else s
  }

  /** `s.strip()`: leading whitespace removed, then trailing whitespace (see `TrimStart`, `TrimEnd`). */
  function Trim(s: string): string
  {
    TrimEnd(TrimStart(s))
  }

  /** `Trim(s)` neither starts nor ends with whitespace. */
  lemma TrimEnds(s: string)
    ensures Trim(s) == [] || (!IsSpace(Trim(s)[0]) && !IsSpace(Trim(s)[|Trim(s)| - 1]))
  {
    var t := TrimStart(s);
    assert Trim(s) != [] ==> Trim(s)[0] == t[0];
  }

  /** Stripping never introduces a character: what `s` lacks, `Trim(s)` lacks. */
  lemma TrimAbsent(c: char, s: string)
    requires c !in s
    ensures c !in Trim(s)
  {
    var t := TrimStart(s);
    SliceAbsent(c, s, |s| - |t|, |s|);
    SliceAbsent(c, t, 0, |TrimEnd(t)|);
  }

  lemma SliceAbsent(c: char, s: string, lo: nat, hi: nat)
    requires c !in s && lo <= hi <= |s|
    ensures c !in s[lo..hi]
  {
    assert forall i :: 0 <= i < hi - lo ==> s[lo..hi][i] == s[lo + i];
  }

  /** Stripping twice is stripping once. */
  lemma TrimIdempotent(s: string)
    ensures Trim(Trim(s)) == Trim(s)
  {
    TrimEnds(s);
    var c := Trim(s);
    assert TrimStart(c) == c;
    assert TrimEnd(c) == c;
  }

  /** Python's `<` on `str`: code-point lexicographic order, a proper prefix coming first. */
  predicate Below(a: string, b: string)
  {
    if a == [] then b != []
    else if b == [] then false
    else a[0] < b[0] || (a[0] == b[0] && Below(a[1..], b[1..]))
  }

  lemma {:induction false} BelowIrreflexive(a: string)
    ensures !Below(a, a)
  {
    if a != [] {
      BelowIrreflexive(a[1..]);
    }
  }

  lemma {:induction false} BelowTransitive(a: string, b: string, c: string)
    requires Below(a, b) && Below(b, c)
    ensures Below(a, c)
  {
    if a != [] && b != [] && c != [] && a[0] == b[0] == c[0] {
      BelowTransitive(a[1..], b[1..], c[1..]);
    }
  }

  lemma {:induction false} BelowTotal(a: string, b: string)
    ensures a == b || Below(a, b) || Below(b, a)
  {
    if a != [] && b != [] && a[0] == b[0] {
      BelowTotal(a[1..], b[1..]);
      if a[1..] == b[1..] {
        assert a == [a[0]] + a[1..] && b == [b[0]] + b[1..];
      }
    }
  }

  predicate IsDigit(c: char) { '0' <= c <= '9' }

  predicate AllDigits(s: string) { forall i :: 0 <= i < |s| ==> IsDigit(s[i]) }

  function DigitValue(c: char): (n: nat)
    requires IsDigit(c)
    ensures n < 10
  {
    (c as int - '0' as int) as nat
  }

  function DigitChar(n: nat): (c: char)
    requires n < 10
    ensures IsDigit(c) && DigitValue(c) == n
  {
    ('0' as int + n) as char
  }

  function Pow10(k: nat): (p: nat)
    ensures p >= 1
  {
    if k == 0 then 1 else 10 * Pow10(k - 1)
  }

  /** The natural number a string of decimal digits denotes (`int(s)` for ASCII digits). */
  function DigitsValue(s: string): (n: nat)
    requires AllDigits(s)
    ensures n < Pow10(|s|)
  {
    if s == [] then 0 else DigitsValue(s[..|s| - 1]) * 10 + DigitValue(s[|s| - 1])
  }
}
