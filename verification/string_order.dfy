/** The order `Array.prototype.sort()` puts strings in when it is given no comparator:
    character by character by code, a proper prefix before any longer string.
    A `char` here is a whole code point, while JavaScript compares UTF-16 code units;
    the two orders agree on text without characters above U+FFFF, such as the zone ids.
    A sorted permutation under this order is unique, so the insertion sort
    below stands for whatever algorithm the engine uses. */
module StringOrder {

  /** `a` sorts no later than `b`. */
  predicate Below(a: string, b: string)
  {
    a == [] || (b != [] && (a[0] < b[0] || (a[0] == b[0] && Below(a[1..], b[1..]))))
  }

  lemma {:induction false} BelowReflexive(a: string)
    ensures Below(a, a)
  {
    if a != [] { BelowReflexive(a[1..]); }
  }

  lemma {:induction false} BelowTotal(a: string, b: string)
    ensures Below(a, b) || Below(b, a)
  {
    if a != [] && b != [] && a[0] == b[0] { BelowTotal(a[1..], b[1..]); }
  }

  lemma {:induction false} BelowAntisymmetric(a: string, b: string)
    requires Below(a, b) && Below(b, a)
    ensures a == b
  {
    if a != [] && b != [] {
      BelowAntisymmetric(a[1..], b[1..]);
      assert a == [a[0]] + a[1..] && b == [b[0]] + b[1..];
    }
  }

  lemma {:induction false} BelowTransitive(a: string, b: string, c: string)
    requires Below(a, b) && Below(b, c)
    ensures Below(a, c)
  {
    if a != [] && b != [] && c != [] && a[0] == b[0] && b[0] == c[0] {
      BelowTransitive(a[1..], b[1..], c[1..]);
    }
  }

  predicate Sorted(s: seq<string>) {
    forall i, j | 0 <= i < j < |s| :: Below(s[i], s[j])
  }

  /** A sequence whose neighbours are in order is sorted. */
  lemma {:induction false} SortedFromNeighbours(s: seq<string>)
    requires forall i | 0 <= i < |s| - 1 :: Below(s[i], s[i + 1])
    ensures Sorted(s)
  {
    if |s| > 1 {
      SortedFromNeighbours(s[1..]);
      forall j | 1 <= j < |s| ensures Below(s[0], s[j]) {
        if j > 1 {
          assert Below(s[1..][0], s[1..][j - 1]);
          BelowTransitive(s[0], s[1], s[j]);
        }
      }
      forall i, j | 0 <= i < j < |s| ensures Below(s[i], s[j]) {
        if i > 0 { assert Below(s[1..][i - 1], s[1..][j - 1]); }
      }
    }
  }

  /** Putting before a sorted sequence something below all of it keeps it sorted. */
  lemma PrependSorted(x: string, s: seq<string>)
    requires Sorted(s)
    requires forall k | 0 <= k < |s| :: Below(x, s[k])
    ensures Sorted([x] + s)
  {
    var t := [x] + s;
    forall i, j | 0 <= i < j < |t| ensures Below(t[i], t[j]) {
      if i > 0 { assert t[i] == s[i - 1] && t[j] == s[j - 1]; }
      else { assert t[j] == s[j - 1]; }
    }
  }

  /** `x` placed into a sorted sequence at its place in the order. */
  function Insert(x: string, s: seq<string>): (r: seq<string>)
    requires Sorted(s)
    ensures multiset(r) == multiset(s) + multiset{x}
    ensures Sorted(r)
  {
    if s == [] then [x]
    else if Below(x, s[0]) then
      InsertBefore(x, s);
      [x] + s
    else
      BelowTotal(x, s[0]);
      var rest := Insert(x, s[1..]);
      assert s == [s[0]] + s[1..];
      InsertAfter(x, s, rest);
      [s[0]] + rest
  }

  lemma InsertBefore(x: string, s: seq<string>)
    requires Sorted(s) && s != [] && Below(x, s[0])
    ensures Sorted([x] + s)
  {
    forall k | 0 <= k < |s| ensures Below(x, s[k]) {
      if k > 0 { BelowTransitive(x, s[0], s[k]); }
    }
    PrependSorted(x, s);
  }

  lemma InsertAfter(x: string, s: seq<string>, rest: seq<string>)
    requires Sorted(s) && s != [] && Below(s[0], x)
    requires Sorted(rest) && multiset(rest) == multiset(s[1..]) + multiset{x}
    ensures Sorted([s[0]] + rest)
  {
    forall k | 0 <= k < |rest| ensures Below(s[0], rest[k]) {
      assert rest[k] in multiset(rest);
      if rest[k] != x {
        assert rest[k] in multiset(s[1..]);
        var j :| 0 <= j < |s[1..]| && s[1..][j] == rest[k];
        assert s[j + 1] == rest[k];
      }
    }
    PrependSorted(s[0], rest);
  }

  /** The strings of `s` in ascending order: a sorted permutation of `s`. */
  function Sort(s: seq<string>): (r: seq<string>)
    ensures multiset(r) == multiset(s)
    ensures Sorted(r)
  {
    if s == [] then []
    else
      assert s == s[..|s| - 1] + [s[|s| - 1]];
      Insert(s[|s| - 1], Sort(s[..|s| - 1]))
  }

  /** The first string of a sorted sequence is below every string in it. */
  lemma HeadIsLeast(a: seq<string>, x: string)
    requires Sorted(a) && x in multiset(a)
    ensures a != [] && Below(a[0], x)
  {
    var i :| 0 <= i < |a| && a[i] == x;
    if i == 0 { BelowReflexive(x); }
  }

  lemma TailMultiset(a: seq<string>)
    requires a != []
    ensures multiset(a[1..]) == multiset(a) - multiset{a[0]}
  {
    assert a == [a[0]] + a[1..];
  }

  /** Two sorted orderings of the same strings are the same sequence. */
  lemma {:induction false} SortedUnique(a: seq<string>, b: seq<string>)
    requires Sorted(a) && Sorted(b) && multiset(a) == multiset(b)
    ensures a == b
  {
    if a != [] {
      assert a[0] in multiset(a);
      HeadIsLeast(b, a[0]);
      assert b[0] in multiset(b);
      HeadIsLeast(a, b[0]);
      BelowAntisymmetric(a[0], b[0]);
      TailMultiset(a);
      TailMultiset(b);
      SortedUnique(a[1..], b[1..]);
      assert a == [a[0]] + a[1..] && b == [b[0]] + b[1..];
    } else {
      assert |b| == |multiset(b)| == 0;
    }
  }
}
