/** String operations the scripts borrow from Python's `str` and `sorted`:
    lower-casing, suffix tests, backslash rewriting, the code-point order on
    strings, `sorted(set(xs))`, and `", ".join` with the split that undoes it. */
module Text {

  // ---------------------------------------------------------------------------
  // Lower-casing and suffixes
  // ---------------------------------------------------------------------------

  /** `str.lower` on one character, for the ASCII letters. */
  function LowerChar(c: char): char
  {
    if 'A' <= c <= 'Z' then (c as int + 32) as char else c
  }

  /** `str.lower`, character by character (ASCII letters only). */
  function Lower(s: string): (r: string)
    ensures |r| == |s|
    ensures forall i :: 0 <= i < |s| ==> r[i] == LowerChar(s[i])
  {
    if |s| == 0 then "" else [LowerChar(s[0])] + Lower(s[1..])
  }

  /** `s.endswith(suffix)`. */
  predicate EndsWith(s: string, suffix: string)
  {
    |suffix| <= |s| && s[|s| - |suffix|..] == suffix
  }

  /** Lower-casing keeps a suffix a suffix. */
  lemma LowerKeepsSuffix(s: string, suffix: string)
    requires EndsWith(s, suffix)
    ensures EndsWith(Lower(s), Lower(suffix))
  {
    var d := |s| - |suffix|;
    var ls, lt := Lower(s), Lower(suffix);
    forall i | 0 <= i < |suffix| ensures ls[d..][i] == lt[i] {
      assert s[d..][i] == suffix[i];
      assert ls[d + i] == LowerChar(s[d + i]);
    }
    assert ls[d..] == lt;
  }

  /** A suffix of a suffix is a suffix. */
  lemma EndsWithTransitive(s: string, t: string, u: string)
    requires EndsWith(s, t) && EndsWith(t, u)
    ensures EndsWith(s, u)
  {
    var d := |s| - |t|;
    forall i | 0 <= i < |u| ensures s[|s| - |u|..][i] == u[i] {
      assert t[|t| - |u|..][i] == u[i];
      assert s[d..][|t| - |u| + i] == t[|t| - |u| + i];
    }
  }

  // ---------------------------------------------------------------------------
  // Backslash rewriting: `s.replace("\\", "/")`
  // ---------------------------------------------------------------------------

  function Slashed(s: string): (r: string)
    ensures |r| == |s|
    ensures '\\' !in r
    ensures forall i :: 0 <= i < |s| && s[i] == '\\' ==> r[i] == '/'
    ensures forall i :: 0 <= i < |s| && s[i] != '\\' ==> r[i] == s[i]
  {
    if |s| == 0 then ""
    else [if s[0] == '\\' then '/' else s[0]] + Slashed(s[1..])
  }

  /** Rewriting a string that has no backslash leaves it as it is. */
  lemma {:induction false} SlashedNoBackslash(s: string)
    requires '\\' !in s
    ensures Slashed(s) == s
  {
    if |s| > 0 {
      assert '\\' !in s[1..] by { assert forall c :: c in s[1..] ==> c in s; }
      SlashedNoBackslash(s[1..]);
      assert s == [s[0]] + s[1..];
    }
  }

  /** Rewriting is idempotent. */
  lemma SlashedIdempotent(s: string)
    ensures Slashed(Slashed(s)) == Slashed(s)
  {
    SlashedNoBackslash(Slashed(s));
  }

  /** Rewriting works piecewise on a concatenation. */
  lemma {:induction false} SlashedAppend(a: string, b: string)
    ensures Slashed(a + b) == Slashed(a) + Slashed(b)
  {
    if |a| > 0 {
      assert (a + b)[1..] == a[1..] + b;
      SlashedAppend(a[1..], b);
    } else {
      assert a + b == b;
    }
  }

  // ---------------------------------------------------------------------------
  // The order Python uses on `str`: lexicographic by code point, a proper
  // prefix first.
  // ---------------------------------------------------------------------------

  predicate Below(a: string, b: string)
  {
    if |a| == 0 then |b| > 0
    else if |b| == 0 then false
    else if a[0] != b[0] then a[0] < b[0]
    else Below(a[1..], b[1..])
  }

  lemma {:induction false} BelowIrreflexive(a: string)
    ensures !Below(a, a)
  {
    if |a| > 0 { BelowIrreflexive(a[1..]); }
  }

  lemma {:induction false} BelowTransitive(a: string, b: string, c: string)
    requires Below(a, b) && Below(b, c)
    ensures Below(a, c)
  {
    if |a| > 0 && |b| > 0 && |c| > 0 && a[0] == b[0] && b[0] == c[0] {
      BelowTransitive(a[1..], b[1..], c[1..]);
    }
  }

  lemma {:induction false} BelowTotal(a: string, b: string)
    requires a != b
    ensures Below(a, b) || Below(b, a)
  {
    if |a| > 0 && |b| > 0 && a[0] == b[0] {
      assert a == [a[0]] + a[1..] && b == [b[0]] + b[1..];
      BelowTotal(a[1..], b[1..]);
    }
  }

  /** Strictly increasing: sorted and free of duplicates. */
  predicate StrictlySorted(s: seq<string>)
  {
    forall i, j :: 0 <= i < j < |s| ==> Below(s[i], s[j])
  }

  lemma StrictlySortedDistinct(s: seq<string>, i: int, j: int)
    requires StrictlySorted(s) && 0 <= i < |s| && 0 <= j < |s| && i != j
    ensures s[i] != s[j]
  {
    if i < j { BelowIrreflexive(s[i]); } else { BelowIrreflexive(s[j]); }
  }

  /** Puts `x` into its place in a strictly sorted sequence, unless it is there already. */
  function Insert(s: seq<string>, x: string): (r: seq<string>)
    requires StrictlySorted(s)
    ensures StrictlySorted(r)
    ensures forall y :: y in r <==> y in s || y == x
  {
    if |s| == 0 then [x]
    else if s[0] == x then s
    else if Below(x, s[0]) then
      assert forall j :: 0 < j < |s| ==> Below(x, s[j]) by {
        forall j | 0 < j < |s| ensures Below(x, s[j]) { BelowTransitive(x, s[0], s[j]); }
      }
      [x] + s
    else
      BelowTotal(x, s[0]);
      var rest := Insert(s[1..], x);
      assert forall y :: y in rest ==> Below(s[0], y);
      [s[0]] + rest
  }

  /** `sorted(set(xs))`: the distinct elements of `xs` in increasing order. */
  function SortedUnique(xs: seq<string>): (r: seq<string>)
    ensures StrictlySorted(r)
    ensures forall y :: y in r <==> y in xs
  {
    if |xs| == 0 then []
    else
      var n := |xs| - 1;
      assert xs == xs[..n] + [xs[n]];
      Insert(SortedUnique(xs[..n]), xs[n])
  }

  /** Two strictly sorted sequences with the same elements are equal, so the
      result of `SortedUnique` is the one `sorted(set(xs))` returns. */
  lemma {:induction false} StrictlySortedUnique(a: seq<string>, b: seq<string>)
    requires StrictlySorted(a) && StrictlySorted(b)
    requires forall y :: y in a <==> y in b
    ensures a == b
  {
    if |b| > 0 {
      assert b[0] in b;
    }
    if |a| == 0 {
    } else {
      assert a[0] in b;
      assert |b| > 0;
      assert b[0] in a;
      if a[0] != b[0] {
        var i :| 0 <= i < |a| && a[i] == b[0];
        var j :| 0 <= j < |b| && b[j] == a[0];
        assert i > 0 && j > 0;
        BelowTransitive(a[0], b[0], a[0]);
        BelowIrreflexive(a[0]);
      }
      forall y ensures y in a[1..] <==> y in b[1..] {
        if y in a[1..] {
          var i :| 1 <= i < |a| && a[i] == y;
          StrictlySortedDistinct(a, 0, i);
          assert y in b;
          var j :| 0 <= j < |b| && b[j] == y;
          assert j != 0;
        }
        if y in b[1..] {
          var j :| 1 <= j < |b| && b[j] == y;
          StrictlySortedDistinct(b, 0, j);
          assert y in a;
          var i :| 0 <= i < |a| && a[i] == y;
          assert i != 0;
        }
      }
      StrictlySortedUnique(a[1..], b[1..]);
      assert a == [a[0]] + a[1..] && b == [b[0]] + b[1..];
    }
  }

  // ---------------------------------------------------------------------------
  // `", ".join(parts)` and the split on the same separator
  // ---------------------------------------------------------------------------

  const Separator: string := ", "

  function Join(parts: seq<string>): (r: string)
  {
    if |parts| == 0 then ""
    else if |parts| == 1 then parts[0]
    else parts[0] + Separator + Join(parts[1..])
  }

  /** Cuts `s` at every occurrence of `", "`, left to right. */
  function Split(s: string): (r: seq<string>)
    ensures |r| > 0
    decreases |s|
  {
    if |s| == 0 then [""]
    else if |s| >= 2 && s[0] == ',' && s[1] == ' ' then [""] + Split(s[2..])
    else
      var rest := Split(s[1..]);
      [[s[0]] + rest[0]] + rest[1..]
  }

  /** A character other than a comma joins the first part. */
  lemma SplitCons(c: char, s: string)
    requires c != ','
    ensures Split([c] + s) == [[c] + Split(s)[0]] + Split(s)[1..]
  {
    assert ([c] + s)[1..] == s;
  }

  /** A leading separator opens an empty first part. */
  lemma SplitSeparator(s: string)
    ensures Split(Separator + s) == [""] + Split(s)
  {
    assert (Separator + s)[2..] == s;
  }

  /** A part without a comma stays whole ahead of what follows it. */
  lemma {:induction false} SplitAfterPart(t: string, s: string)
    requires ',' !in t
    ensures Split(t + s) == [t + Split(s)[0]] + Split(s)[1..]
    decreases |t|
  {
    if |t| > 0 {
      assert ',' !in t[1..] by { assert forall c :: c in t[1..] ==> c in t; }
      assert t[0] != ',' by { assert t[0] in t; }
      assert t + s == [t[0]] + (t[1..] + s);
      SplitCons(t[0], t[1..] + s);
      SplitAfterPart(t[1..], s);
      assert [t[0]] + (t[1..] + Split(s)[0]) == t + Split(s)[0];
    } else {
      var r := Split(s);
      assert t + s == s && t + r[0] == r[0];
      assert r == [r[0]] + r[1..];
    }
  }

  predicate NoComma(parts: seq<string>)
  {
    forall k :: 0 <= k < |parts| ==> ',' !in parts[k]
  }

  /** Splitting on `", "` gives back the parts that were joined, provided no
      part has a comma of its own. */
  lemma {:induction false} SplitJoin(parts: seq<string>)
    requires |parts| > 0 && NoComma(parts)
    ensures Split(Join(parts)) == parts
  {
    assert ',' !in parts[0];
    if |parts| == 1 {
      SplitAfterPart(parts[0], "");
      assert parts[0] + "" == parts[0];
    } else {
      var tail := Join(parts[1..]);
      assert Join(parts) == parts[0] + (Separator + tail);
      SplitAfterPart(parts[0], Separator + tail);
      SplitSeparator(tail);
      assert NoComma(parts[1..]) by {
        forall k | 0 <= k < |parts| - 1 ensures ',' !in parts[1..][k] { assert parts[1..][k] == parts[k + 1]; }
      }
      SplitJoin(parts[1..]);
      assert parts[0] + "" == parts[0];
      assert parts == [parts[0]] + parts[1..];
    }
  }
}
