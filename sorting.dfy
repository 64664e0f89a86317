/**
 * `Vec::sort` and `Vec::dedup` on the loader's edge list of index pairs
 * `(usize, usize)`, which Rust orders lexicographically.
 */
module Sorting {

  type Pair = (nat, nat)

  /** Rust's `<` on tuples: first components, then second components. */
  predicate Below(a: Pair, b: Pair) {
    a.0 < b.0 || (a.0 == b.0 && a.1 < b.1)
  }

  predicate AtMost(a: Pair, b: Pair) {
    Below(a, b) || a == b
  }

  predicate Sorted(s: seq<Pair>) {
    forall i, j :: 0 <= i < j < |s| ==> AtMost(s[i], s[j])
  }

  predicate StrictlyIncreasing(s: seq<Pair>) {
    forall i, j :: 0 <= i < j < |s| ==> Below(s[i], s[j])
  }

  /** `x` placed into the sorted list `s` before the first element not below it. */
  function Insert(x: Pair, s: seq<Pair>): seq<Pair>
  {
    if s == [] || AtMost(x, s[0]) then [x] + s else [s[0]] + Insert(x, s[1..])
  }

  /** Inserting into a sorted list keeps it sorted and adds exactly `x`. */
  lemma InsertSpec(x: Pair, s: seq<Pair>)
    requires Sorted(s)
    ensures Sorted(Insert(x, s))
    ensures multiset(Insert(x, s)) == multiset(s) + multiset{x}
  {
    InsertSorted(x, s);
    InsertCounts(x, s);
  }

  lemma {:induction false} InsertCounts(x: Pair, s: seq<Pair>)
    ensures multiset(Insert(x, s)) == multiset(s) + multiset{x}
  {
    if s != [] && !AtMost(x, s[0]) {
      InsertCounts(x, s[1..]);
      assert s == [s[0]] + s[1..];
    }
  }

  lemma {:induction false} InsertMembers(x: Pair, s: seq<Pair>)
    ensures forall e :: e in Insert(x, s) <==> e == x || e in s
  {
    if s != [] && !AtMost(x, s[0]) {
      InsertMembers(x, s[1..]);
      assert s == [s[0]] + s[1..];
    }
  }

  lemma SortedTail(s: seq<Pair>)
    requires Sorted(s) && s != []
    ensures Sorted(s[1..])
    ensures forall e :: e in s[1..] ==> AtMost(s[0], e)
  {
    forall i, j | 0 <= i < j < |s[1..]| ensures AtMost(s[1..][i], s[1..][j]) {
      assert s[1..][i] == s[i + 1] && s[1..][j] == s[j + 1];
    }
    forall e | e in s[1..] ensures AtMost(s[0], e) {
      var k :| 0 <= k < |s[1..]| && s[1..][k] == e;
      assert s[k + 1] == e;
    }
  }

  /** A list is sorted when its head is at most every later element and its tail is sorted. */
  lemma SortedCons(h: Pair, t: seq<Pair>)
    requires Sorted(t)
    requires forall e :: e in t ==> AtMost(h, e)
    ensures Sorted([h] + t)
  {
    var r := [h] + t;
    forall i, j | 0 <= i < j < |r| ensures AtMost(r[i], r[j]) {
      assert r[j] == t[j - 1];
      if i > 0 { assert r[i] == t[i - 1]; }
    }
  }

  lemma {:induction false} InsertSorted(x: Pair, s: seq<Pair>)
    requires Sorted(s)
    ensures Sorted(Insert(x, s))
  {
    if s == [] {
      assert Insert(x, s) == [x];
    } else if AtMost(x, s[0]) {
      assert Insert(x, s) == [x] + s;
      assert forall e :: e in s ==> e == s[0] || e in s[1..] by {
        assert s == [s[0]] + s[1..];
      }
      SortedTail(s);
      SortedCons(x, s);
    } else {
      SortedTail(s);
      InsertSorted(x, s[1..]);
      InsertMembers(x, s[1..]);
      SortedCons(s[0], Insert(x, s[1..]));
    }
  }

  /** `Vec::sort`: the elements of `s` rearranged in ascending order. */
  function Sort(s: seq<Pair>): (r: seq<Pair>)
    ensures Sorted(r)
    ensures multiset(r) == multiset(s)
  {
    if s == [] then []
    else
      assert s == [s[0]] + s[1..];
      InsertSpec(s[0], Sort(s[1..]));
      Insert(s[0], Sort(s[1..]))
  }

  /**
   * Sorting has exactly one possible outcome: two sorted arrangements of the
   * same elements are equal, so the library's stable sort and the insertion
   * sort above agree.
   */
  lemma {:induction false} SortedUnique(a: seq<Pair>, b: seq<Pair>)
    requires Sorted(a) && Sorted(b)
    requires multiset(a) == multiset(b)
    ensures a == b
  {
    if a == [] {
      assert |multiset(b)| == 0;
    } else {
      SameHeads(a, b);
      SortedTail(a);
      SortedTail(b);
      assert a[0] == b[0];
      SortedUnique(a[1..], b[1..]);
      assert a == [a[0]] + a[1..] && b == [b[0]] + b[1..];
    }
  }

  /** Two arrangements of the same elements: where each head is found in the other, and what is left. */
  lemma SameHeads(a: seq<Pair>, b: seq<Pair>)
    requires multiset(a) == multiset(b) && a != []
    ensures b != []
    ensures a[0] == b[0] || a[0] in b[1..]
    ensures b[0] == a[0] || b[0] in a[1..]
    ensures a[0] == b[0] ==> multiset(a[1..]) == multiset(b[1..])
  {
    assert a[0] in multiset(a);
    assert b != [];
    Uncons(a);
    Uncons(b);
    assert a[0] in multiset(b) && b[0] in multiset(a);
    if a[0] == b[0] {
      Cancel(multiset{a[0]}, multiset(a[1..]), multiset(b[1..]));
    }
  }

  lemma Uncons(s: seq<Pair>)
    requires s != []
    ensures multiset(s) == multiset{s[0]} + multiset(s[1..])
    ensures forall x :: x in s <==> x == s[0] || x in s[1..]
  {
    assert s == [s[0]] + s[1..];
  }

  lemma Cancel(m: multiset<Pair>, p: multiset<Pair>, q: multiset<Pair>)
    requires m + p == m + q
    ensures p == q
  {
    assert p == (m + p) - m;
    assert q == (m + q) - m;
  }

  /** `Vec::dedup`: every run of equal neighbours collapsed to one element. */
  function Dedup(s: seq<Pair>): (r: seq<Pair>)
    ensures |r| <= |s|
    ensures |s| > 0 ==> |r| > 0 && r[0] == s[0]
    ensures forall x :: x in r <==> x in s
    ensures forall i :: 0 <= i < |r| - 1 ==> r[i] != r[i + 1]
  {
    if |s| <= 1 then s
    else
      var rest := Dedup(s[1..]);
      assert s == [s[0]] + s[1..];
      if s[0] == s[1] then rest else [s[0]] + rest
  }

  /** Deduplicating a sorted list leaves it strictly increasing. */
  lemma {:induction false} DedupSorted(s: seq<Pair>)
    requires Sorted(s)
    ensures StrictlyIncreasing(Dedup(s))
  {
    if |s| > 1 {
      var rest := Dedup(s[1..]);
      DedupSorted(s[1..]);
      if s[0] != s[1] {
        forall e | e in rest ensures Below(s[0], e) {
          assert e in s[1..];
        }
      }
    }
  }

  /**
   * A strictly increasing list is determined by its elements: only the set
   * of pairs in the input matters, not their order or repetitions.
   */
  lemma {:induction false} IncreasingUnique(a: seq<Pair>, b: seq<Pair>)
    requires StrictlyIncreasing(a) && StrictlyIncreasing(b)
    requires forall x :: x in a <==> x in b
    ensures a == b
  {
    assert a != [] ==> a[0] in a;
    assert b != [] ==> b[0] in b;
    if a != [] {
      assert AtMost(b[0], a[0]) && AtMost(a[0], b[0]);
      forall x ensures x in a[1..] <==> x in b[1..] {
        if x in a[1..] { assert x in a && x != a[0]; }
        if x in b[1..] { assert x in b && x != b[0]; }
      }
      IncreasingUnique(a[1..], b[1..]);
    }
  }

  /** The loader's `sort` then `dedup`. */
  function Normalise(s: seq<Pair>): seq<Pair> {
    Dedup(Sort(s))
  }

  /** The normalised list is strictly increasing and holds exactly the pairs of the input. */
  lemma NormaliseSpec(s: seq<Pair>)
    ensures StrictlyIncreasing(Normalise(s))
    ensures forall x :: x in Normalise(s) <==> x in s
  {
    DedupSorted(Sort(s));
    forall x ensures x in Sort(s) <==> x in s {
      assert x in Sort(s) <==> x in multiset(Sort(s));
    }
  }

  /** Two edge lists with the same pairs normalise to the same list. */
  lemma NormaliseBySet(s: seq<Pair>, t: seq<Pair>)
    requires forall x :: x in s <==> x in t
    ensures Normalise(s) == Normalise(t)
  {
    NormaliseSpec(s);
    NormaliseSpec(t);
    IncreasingUnique(Normalise(s), Normalise(t));
  }
}
