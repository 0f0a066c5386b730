/** Sorting by a comparator, as `Array.prototype.sort` and `ORDER BY` do it, and why the result
    depends on the elements only when the comparator separates every two of them. */
module Ordering {

  ghost predicate Irreflexive<T(!new)>(before: (T, T) -> bool) {
    forall a :: !before(a, a)
  }

  ghost predicate Transitive<T(!new)>(before: (T, T) -> bool) {
    forall a, b, c :: before(a, b) && before(b, c) ==> before(a, c)
  }

  ghost predicate StrictOrder<T(!new)>(before: (T, T) -> bool) {
    Irreflexive(before) && Transitive(before)
  }

  /** A strict order that also compares every two distinct values. */
  ghost predicate StrictTotalOrder<T(!new)>(before: (T, T) -> bool) {
    && StrictOrder(before)
    && forall a, b :: a == b || before(a, b) || before(b, a)
  }

  /** The comparator tells any two positions of `s` apart; no two rows share their sort keys. */
  ghost predicate Separates<T>(before: (T, T) -> bool, s: seq<T>) {
    forall i, j | 0 <= i < j < |s| :: before(s[i], s[j]) || before(s[j], s[i])
  }

  ghost predicate Ascending<T>(before: (T, T) -> bool, s: seq<T>) {
    forall i, j | 0 <= i < j < |s| :: before(s[i], s[j])
  }

  ghost predicate SameElements<T(!new)>(s: seq<T>, t: seq<T>) {
    forall x :: x in s <==> x in t
  }

  /** Puts `x` before the first element that does not precede it. */
  function Insert<T>(before: (T, T) -> bool, x: T, s: seq<T>): seq<T> {
    if s == [] then [x]
    else if before(s[0], x) then [s[0]] + Insert(before, x, s[1..])
    else [x] + s
  }

  /** A stable sort: elements the comparator does not separate keep their order. */
  function Sort<T>(before: (T, T) -> bool, s: seq<T>): seq<T> {
    if s == [] then [] else Insert(before, s[0], Sort(before, s[1..]))
  }

  function Filter<T>(p: T -> bool, s: seq<T>): seq<T> {
    if s == [] then []
    else (if p(s[0]) then [s[0]] else []) + Filter(p, s[1..])
  }

  lemma {:induction false} InsertPermutes<T>(before: (T, T) -> bool, x: T, s: seq<T>)
    ensures multiset(Insert(before, x, s)) == multiset(s) + multiset{x}
  {
    if s == [] {
    } else {
      assert s == [s[0]] + s[1..];
      if before(s[0], x) {
        InsertPermutes(before, x, s[1..]);
      }
    }
  }

  lemma {:induction false} SortPermutes<T>(before: (T, T) -> bool, s: seq<T>)
    ensures multiset(Sort(before, s)) == multiset(s)
  {
    if s == [] {
    } else {
      SortPermutes(before, s[1..]);
      InsertPermutes(before, s[0], Sort(before, s[1..]));
      assert s == [s[0]] + s[1..];
    }
  }

  lemma SortKeepsElements<T(!new)>(before: (T, T) -> bool, s: seq<T>)
    ensures SameElements(Sort(before, s), s)
    ensures |Sort(before, s)| == |s|
  {
    SortPermutes(before, s);
    var sorted := Sort(before, s);
    assert |multiset(sorted)| == |multiset(s)|;
    forall x
      ensures x in sorted <==> x in s
    {
      assert x in sorted <==> x in multiset(sorted);
      assert x in s <==> x in multiset(s);
    }
  }

  lemma {:induction false} InsertAscends<T(!new)>(before: (T, T) -> bool, x: T, s: seq<T>)
    requires Transitive(before)
    requires Ascending(before, s)
    requires forall y | y in s :: before(x, y) || before(y, x)
    ensures Ascending(before, Insert(before, x, s))
  {
    if s == [] {
    } else if before(s[0], x) {
      InsertAscends(before, x, s[1..]);
      var rest := Insert(before, x, s[1..]);
      InsertPermutes(before, x, s[1..]);
      forall j | 0 <= j < |rest|
        ensures before(s[0], rest[j])
      {
        assert rest[j] in multiset(rest);
        assert rest[j] == x || rest[j] in s[1..];
      }
    } else {
      assert before(x, s[0]);
    }
  }

  /** What a comparator must be for sorting to put nothing before what precedes it; ties are allowed. */
  ghost predicate WeakOrder<T(!new)>(before: (T, T) -> bool) {
    && (forall x, y :: before(x, y) ==> !before(y, x))
    && (forall x, y, z :: !before(x, y) && !before(y, z) ==> !before(x, z))
  }

  ghost predicate NothingInverted<T>(before: (T, T) -> bool, s: seq<T>) {
    forall i, j | 0 <= i < j < |s| :: !before(s[j], s[i])
  }

  lemma {:induction false} InsertInvertsNothing<T(!new)>(before: (T, T) -> bool, x: T, s: seq<T>)
    requires WeakOrder(before) && NothingInverted(before, s)
    ensures NothingInverted(before, Insert(before, x, s))
  {
    if s != [] && before(s[0], x) {
      var rest := Insert(before, x, s[1..]);
      InsertInvertsNothing(before, x, s[1..]);
      InsertPermutes(before, x, s[1..]);
      forall j | 0 <= j < |rest|
        ensures !before(rest[j], s[0])
      {
        assert rest[j] in multiset(rest);
        assert rest[j] == x || rest[j] in s[1..];
      }
    }
  }

  /** A sorted list is a permutation in which nothing comes after what it precedes. */
  lemma {:induction false} SortInvertsNothing<T(!new)>(before: (T, T) -> bool, s: seq<T>)
    requires WeakOrder(before)
    ensures NothingInverted(before, Sort(before, s)) && multiset(Sort(before, s)) == multiset(s)
  {
    SortPermutes(before, s);
    if s != [] {
      SortInvertsNothing(before, s[1..]);
      InsertInvertsNothing(before, s[0], Sort(before, s[1..]));
    }
  }

  /** Sorting separated elements yields a strictly ascending list. */
  lemma {:induction false} SortAscends<T(!new)>(before: (T, T) -> bool, s: seq<T>)
    requires Transitive(before)
    requires Separates(before, s)
    ensures Ascending(before, Sort(before, s))
  {
    if s == [] {
    } else {
      SortAscends(before, s[1..]);
      SortKeepsElements(before, s[1..]);
      forall y | y in Sort(before, s[1..])
        ensures before(s[0], y) || before(y, s[0])
      {
        assert y in s[1..];
        var i :| 1 <= i < |s| && s[i] == y;
      }
      InsertAscends(before, s[0], Sort(before, s[1..]));
    }
  }

  /** A strictly ascending list is determined by its elements. */
  lemma {:induction false} AscendingUnique<T(!new)>(before: (T, T) -> bool, s: seq<T>, t: seq<T>)
    requires StrictOrder(before)
    requires Ascending(before, s) && Ascending(before, t)
    requires SameElements(s, t)
    ensures s == t
  {
    assert t != [] ==> t[0] in s;
    if s == [] {
    } else {
      assert s[0] in t;
      var i :| 0 <= i < |t| && t[i] == s[0];
      assert t[0] in s;
      var j :| 0 <= j < |s| && s[j] == t[0];
      assert s[0] == t[0];
      forall x
        ensures x in s[1..] <==> x in t[1..]
      {
        HeadIsNotInTail(before, s);
        HeadIsNotInTail(before, t);
        assert s == [s[0]] + s[1..] && t == [t[0]] + t[1..];
        assert x in s <==> x in t;
      }
      AscendingUnique(before, s[1..], t[1..]);
    }
  }

  lemma HeadIsNotInTail<T(!new)>(before: (T, T) -> bool, s: seq<T>)
    requires Irreflexive(before)
    requires Ascending(before, s)
    requires s != []
    ensures s[0] !in s[1..]
  {
    forall i | 1 <= i < |s|
      ensures s[i] != s[0]
    {
      assert before(s[0], s[i]);
    }
  }

  /** Any two arrangements of separated elements sort to the same list. */
  lemma SortIgnoresArrangement<T(!new)>(before: (T, T) -> bool, s: seq<T>, t: seq<T>)
    requires StrictOrder(before)
    requires Separates(before, s)
    requires multiset(s) == multiset(t)
    ensures Sort(before, s) == Sort(before, t)
  {
    SortAscends(before, s);
    SeparationIgnoresArrangement(before, s, t);
    SortAscends(before, t);
    SortPermutes(before, s);
    SortPermutes(before, t);
    forall x
      ensures x in Sort(before, s) <==> x in Sort(before, t)
    {
      assert x in Sort(before, s) <==> x in multiset(Sort(before, s));
      assert x in Sort(before, t) <==> x in multiset(Sort(before, t));
    }
    AscendingUnique(before, Sort(before, s), Sort(before, t));
  }

  lemma SeparationIgnoresArrangement<T(!new)>(before: (T, T) -> bool, s: seq<T>, t: seq<T>)
    requires Irreflexive(before)
    requires Separates(before, s)
    requires multiset(s) == multiset(t)
    ensures Separates(before, t)
  {
    forall i, j | 0 <= i < j < |t|
      ensures before(t[i], t[j]) || before(t[j], t[i])
    {
      assert t[i] in multiset(t) && t[j] in multiset(t);
      assert t[i] in multiset(s) && t[j] in multiset(s);
      assert t[i] in s && t[j] in s;
      var k :| 0 <= k < |s| && s[k] == t[i];
      if t[i] == t[j] {
        TwiceInMultiset(t, i, j);
        OnceInSeparated(before, s, k);
      } else {
        var m :| 0 <= m < |s| && s[m] == t[j];
        assert k < m || m < k;
      }
    }
  }

  lemma TwiceInMultiset<T>(t: seq<T>, i: int, j: int)
    requires 0 <= i < j < |t|
    requires t[i] == t[j]
    ensures multiset(t)[t[i]] >= 2
  {
    assert t == t[..j] + t[j..];
    assert t[..j][i] in multiset(t[..j]);
    assert t[j..][0] in multiset(t[j..]);
  }

  lemma OnceInSeparated<T(!new)>(before: (T, T) -> bool, s: seq<T>, k: int)
    requires Irreflexive(before)
    requires Separates(before, s)
    requires 0 <= k < |s|
    ensures multiset(s)[s[k]] == 1
  {
    assert s == s[..k] + [s[k]] + s[k + 1..];
    forall i | 0 <= i < |s| && i != k
      ensures s[i] != s[k]
    {
      assert before(s[i], s[k]) || before(s[k], s[i]);
    }
    assert multiset(s) == multiset(s[..k]) + multiset{s[k]} + multiset(s[k + 1..]);
  }

  lemma {:induction false} FilterElements<T>(p: T -> bool, s: seq<T>, x: T)
    ensures x in Filter(p, s) <==> x in s && p(x)
  {
    if s == [] {
    } else {
      FilterElements(p, s[1..], x);
      assert s == [s[0]] + s[1..];
    }
  }

  lemma {:induction false} FilterAscends<T(!new)>(before: (T, T) -> bool, p: T -> bool, s: seq<T>)
    requires Ascending(before, s)
    ensures Ascending(before, Filter(p, s))
  {
    if s == [] {
    } else {
      FilterAscends(before, p, s[1..]);
      var rest := Filter(p, s[1..]);
      forall j | 0 <= j < |rest|
        ensures before(s[0], rest[j])
      {
        FilterElements(p, s[1..], rest[j]);
        var i :| 1 <= i < |s| && s[i] == rest[j];
      }
    }
  }

  lemma {:induction false} FilterAppend<T>(p: T -> bool, s: seq<T>, t: seq<T>)
    ensures Filter(p, s + t) == Filter(p, s) + Filter(p, t)
  {
    if s == [] {
      assert s + t == t;
    } else {
      assert (s + t)[1..] == s[1..] + t && (s + t)[0] == s[0];
      FilterAppend(p, s[1..], t);
      var head := if p(s[0]) then [s[0]] else [];
      assert Filter(p, s + t) == head + Filter(p, s[1..] + t);
      assert head + (Filter(p, s[1..]) + Filter(p, t)) == (head + Filter(p, s[1..])) + Filter(p, t);
    }
  }

  /** Filtering by a weaker condition first changes nothing. */
  lemma {:induction false} FilterTwice<T>(p: T -> bool, q: T -> bool, s: seq<T>)
    requires forall x | x in s :: p(x) ==> q(x)
    ensures Filter(p, Filter(q, s)) == Filter(p, s)
  {
    if s == [] {
    } else {
      FilterTwice(p, q, s[1..]);
      FilterAppend(p, if q(s[0]) then [s[0]] else [], Filter(q, s[1..]));
    }
  }

  lemma {:induction false} FilterSeparates<T(!new)>(before: (T, T) -> bool, p: T -> bool, s: seq<T>)
    requires Separates(before, s)
    ensures Separates(before, Filter(p, s))
  {
    if s == [] {
    } else {
      FilterSeparates(before, p, s[1..]);
      var rest := Filter(p, s[1..]);
      forall j | 0 <= j < |rest|
        ensures before(s[0], rest[j]) || before(rest[j], s[0])
      {
        FilterElements(p, s[1..], rest[j]);
        var i :| 1 <= i < |s| && s[i] == rest[j];
      }
    }
  }

  /** WHERE and ORDER BY commute when the ordering separates the rows. */
  lemma SortFilterCommute<T(!new)>(before: (T, T) -> bool, p: T -> bool, s: seq<T>)
    requires StrictOrder(before)
    requires Separates(before, s)
    ensures Sort(before, Filter(p, s)) == Filter(p, Sort(before, s))
  {
    FilterSeparates(before, p, s);
    SortAscends(before, Filter(p, s));
    SortAscends(before, s);
    FilterAscends(before, p, Sort(before, s));
    forall x
      ensures x in Sort(before, Filter(p, s)) <==> x in Filter(p, Sort(before, s))
    {
      SortKeepsElements(before, Filter(p, s));
      SortKeepsElements(before, s);
      FilterElements(p, s, x);
      FilterElements(p, Sort(before, s), x);
    }
    AscendingUnique(before, Sort(before, Filter(p, s)), Filter(p, Sort(before, s)));
  }

  /** A rearrangement contains the last element somewhere, and the rest is a rearrangement of the rest. */
  lemma FindInArrangement<T>(s: seq<T>, t: seq<T>) returns (i: nat)
    requires s != []
    requires multiset(s) == multiset(t)
    ensures i < |t| && t[i] == s[|s| - 1]
    ensures t == t[..i] + [t[i]] + t[i + 1..]
    ensures multiset(s[..|s| - 1]) == multiset(t[..i] + t[i + 1..])
  {
    var n := |s| - 1;
    assert s == s[..n] + [s[n]];
    assert s[n] in multiset(t);
    i :| 0 <= i < |t| && t[i] == s[n];
    assert t == t[..i] + [t[i]] + t[i + 1..];
    assert multiset(t) == multiset(t[..i]) + multiset([t[i]]) + multiset(t[i + 1..]);
    assert multiset(s) == multiset(s[..n]) + multiset([s[n]]);
    assert multiset(t[..i] + t[i + 1..]) == multiset(s) - multiset{s[n]};
    assert multiset(s[..n]) == multiset(s) - multiset{s[n]};
  }
}
