/** The small part of Python's `str` and `sorted` that the verifier script relies on:
    code-point string order, sorting a list of strings, `rstrip(c)` and `split(sep)`. */
module Text {

  datatype Option<T> = None | Some(value: T)

  /** Python's `a <= b` on `str`: lexicographic by code point, a proper prefix sorting first. */
  predicate Le(a: string, b: string)
    ensures a <= b ==> Le(a, b)
    ensures Le(a, b) && |a| > 0 ==> |b| > 0 && a[0] <= b[0]
    decreases |a|
  {
    |a| == 0 || (|b| > 0 && (a[0] < b[0] || (a[0] == b[0] && Le(a[1..], b[1..]))))
  }

  lemma {:induction false} LeReflexive(a: string)
    ensures Le(a, a)
    decreases |a|
  {
    if |a| > 0 {
      LeReflexive(a[1..]);
    }
  }

  lemma {:induction false} LeAntisymmetric(a: string, b: string)
    requires Le(a, b) && Le(b, a)
    ensures a == b
    decreases |a|
  {
    if |a| > 0 {
      LeAntisymmetric(a[1..], b[1..]);
      assert a == [a[0]] + a[1..] && b == [b[0]] + b[1..];
    }
  }

  lemma {:induction false} LeTransitive(a: string, b: string, c: string)
    requires Le(a, b) && Le(b, c)
    ensures Le(a, c)
    decreases |a|
  {
    if |a| > 0 && a[0] == b[0] && b[0] == c[0] {
      LeTransitive(a[1..], b[1..], c[1..]);
    }
  }

  lemma {:induction false} LeTotal(a: string, b: string)
    ensures Le(a, b) || Le(b, a)
    decreases |a|
  {
    if |a| > 0 && |b| > 0 && a[0] == b[0] {
      LeTotal(a[1..], b[1..]);
    }
  }

  /** Every earlier element is `<=` every later one. */
  predicate Sorted(s: seq<string>)
  {
    forall i, j :: 0 <= i < j < |s| ==> Le(s[i], s[j])
  }

  lemma SortedCons(h: string, t: seq<string>)
    requires Sorted(t)
    requires forall e :: e in t ==> Le(h, e)
    ensures Sorted([h] + t)
  {
    var r := [h] + t;
    forall i, j | 0 <= i < j < |r|
      ensures Le(r[i], r[j])
    {
      assert r[j] == t[j - 1];
      if i > 0 {
        assert r[i] == t[i - 1];
      }
    }
  }

  /** What sorts before the head of a sorted list sorts before all of it. */
  lemma BelowHead(x: string, s: seq<string>)
    requires Sorted(s) && |s| > 0 && Le(x, s[0])
    ensures forall e :: e in s ==> Le(x, e)
  {
    forall e | e in s
      ensures Le(x, e)
    {
      var k :| 0 <= k < |s| && s[k] == e;
      if k > 0 {
        LeTransitive(x, s[0], e);
      }
    }
  }

  /** Inserts `x` into a sorted list, keeping it sorted. */
  function Insert(x: string, s: seq<string>): (r: seq<string>)
    requires Sorted(s)
    ensures Sorted(r)
    ensures multiset(r) == multiset(s) + multiset{x}
  {
    if |s| == 0 then
      [x]
    else if Le(x, s[0]) then
      BelowHead(x, s);
      SortedCons(x, s);
      [x] + s
    else
      LeTotal(x, s[0]);
      var rest := Insert(x, s[1..]);
      assert forall e :: e in rest ==> Le(s[0], e) by {
        forall e | e in rest
          ensures Le(s[0], e)
        {
          assert e in multiset(rest);
          if e != x {
            assert e in s[1..];
          }
        }
      }
      SortedCons(s[0], rest);
      assert s == [s[0]] + s[1..];
      [s[0]] + rest
  }

  /** Python's `sorted` on a list of strings, as an insertion sort: a sorted permutation of the input. */
  function Sort(s: seq<string>): (r: seq<string>)
    ensures Sorted(r)
    ensures multiset(r) == multiset(s)
  {
    if |s| == 0 then
      []
    else
      assert s == [s[0]] + s[1..];
      Insert(s[0], Sort(s[1..]))
  }

  lemma SortedHeadFirst(s: seq<string>, e: string)
    requires Sorted(s) && e in multiset(s)
    ensures Le(s[0], e)
  {
    var k :| 0 <= k < |s| && s[k] == e;
    if k == 0 {
      LeReflexive(e);
    }
  }

  lemma TailMultiset(s: seq<string>)
    requires |s| > 0
    ensures multiset(s[1..]) == multiset(s) - multiset{s[0]}
  {
    assert s == [s[0]] + s[1..];
  }

  /** A list of strings has only one sorted arrangement, so `Sort` is Python's `sorted`
      whatever algorithm computes it. */
  lemma {:induction false} SortedUnique(a: seq<string>, b: seq<string>)
    requires Sorted(a) && Sorted(b)
    requires multiset(a) == multiset(b)
    ensures a == b
    decreases |a|
  {
    assert |a| == |multiset(a)| == |multiset(b)| == |b|;
    if |a| > 0 {
      SortedHeadFirst(a, b[0]);
      SortedHeadFirst(b, a[0]);
      LeAntisymmetric(a[0], b[0]);
      TailMultiset(a);
      TailMultiset(b);
      SortedUnique(a[1..], b[1..]);
      assert a == [a[0]] + a[1..] && b == [b[0]] + b[1..];
    }
  }

  /** Python's `s.rstrip(c)` for a single character: drops every trailing `c`. */
  function RStrip(s: string, c: char): (r: string)
    ensures |r| <= |s| && r == s[..|r|]
    ensures |r| == 0 || r[|r| - 1] != c
    ensures forall i :: |r| <= i < |s| ==> s[i] == c
    decreases |s|
  {
    if |s| > 0 && s[|s| - 1] == c then RStrip(s[..|s| - 1], c) else s
  }

  /** One trailing `c` after a text that does not end in `c` is exactly what `RStrip` removes. */
  lemma RStripOne(s: string, c: char)
    requires |s| > 0 && s[|s| - 1] != c
    ensures RStrip(s + [c], c) == s
  {
    assert (s + [c])[..|s|] == s;
  }

  /** Joins fields with a separator: the inverse of `Split`. */
  function Join(fields: seq<string>, sep: char): string
    requires |fields| >= 1
  {
    if |fields| == 1 then fields[0] else fields[0] + [sep] + Join(fields[1..], sep)
  }

  /** Python's `s.split(sep)` for a one-character separator: at least one field, no field
      holds the separator, and joining the fields back gives `s`. */
  function Split(s: string, sep: char): (r: seq<string>)
    ensures |r| >= 1
    ensures forall k :: 0 <= k < |r| ==> sep !in r[k]
    ensures Join(r, sep) == s
    decreases |s|
  {
    if |s| == 0 then
      [""]
    else
      var rest := Split(s[1..], sep);
      assert s == [s[0]] + s[1..];
      if s[0] == sep then
        assert ([""] + rest)[1..] == rest;
        [""] + rest
      else
        var r := [[s[0]] + rest[0]] + rest[1..];
        assert r[1..] == rest[1..];
        assert |rest| > 1 ==> Join(rest, sep) == rest[0] + [sep] + Join(rest[1..], sep);
        r
  }

  /** With separator-free fields, the separator occurs in the joined text iff there are two
      fields or more, and the first occurrence ends the first field. */
  lemma {:induction false} JoinFirstSep(fs: seq<string>, sep: char)
    requires |fs| >= 1
    requires forall k :: 0 <= k < |fs| ==> sep !in fs[k]
    ensures |fs[0]| <= |Join(fs, sep)| && Join(fs, sep)[..|fs[0]|] == fs[0]
    ensures forall k :: 0 <= k < |fs[0]| ==> Join(fs, sep)[k] != sep
    ensures sep in Join(fs, sep) <==> |fs| >= 2
    ensures |fs| >= 2 ==> |fs[0]| < |Join(fs, sep)| && Join(fs, sep)[|fs[0]|] == sep
    decreases |fs|
  {
    if |fs| >= 2 {
      var tail := fs[1..];
      JoinFirstSep(tail, sep);
      var j := Join(fs, sep);
      assert j == fs[0] + [sep] + Join(tail, sep);
      assert j[|fs[0]|] == sep;
      assert j[..|fs[0]|] == fs[0];
    }
  }

  /** Joining separator-free fields loses nothing: equal joins come from equal field lists. */
  lemma {:induction false} JoinInjective(a: seq<string>, b: seq<string>, sep: char)
    requires |a| >= 1 && |b| >= 1
    requires forall k :: 0 <= k < |a| ==> sep !in a[k]
    requires forall k :: 0 <= k < |b| ==> sep !in b[k]
    requires Join(a, sep) == Join(b, sep)
    ensures a == b
    decreases |a|
  {
    JoinFirstSep(a, sep);
    JoinFirstSep(b, sep);
    var j := Join(a, sep);
    if |a| >= 2 {
      assert |a[0]| == |b[0]|;
      assert a[0] == b[0];
      var ta, tb := a[1..], b[1..];
      assert j == a[0] + [sep] + Join(ta, sep);
      assert j == b[0] + [sep] + Join(tb, sep);
      assert Join(ta, sep) == j[|a[0]| + 1..];
      assert Join(tb, sep) == j[|b[0]| + 1..];
      JoinInjective(ta, tb, sep);
      assert a == [a[0]] + ta && b == [b[0]] + tb;
    }
  }

  /** `Split` inverts `Join` on separator-free fields. */
  lemma SplitJoin(fs: seq<string>, sep: char)
    requires |fs| >= 1
    requires forall k :: 0 <= k < |fs| ==> sep !in fs[k]
    ensures Split(Join(fs, sep), sep) == fs
  {
    JoinInjective(Split(Join(fs, sep), sep), fs, sep);
  }
}
