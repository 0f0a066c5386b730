/** Reading a sorted list page by page, each page starting after the last row of the one before. */
module Paging {
  import opened Wrappers
  import opened Ordering

  /** Rows past a cursor; no cursor means all rows. */
  predicate Past<R, C>(past: (C, R) -> bool, after: Option<C>, row: R) {
    after.None? || past(after.value, row)
  }

  /** `SELECT ... WHERE past the cursor ORDER BY ...`, before LIMIT. */
  function Remaining<R, C>(table: seq<R>, before: (R, R) -> bool, past: (C, R) -> bool, after: Option<C>): seq<R> {
    Sort(before, Filter((row: R) => Past(past, after, row), table))
  }

  function Take<R>(s: seq<R>, n: nat): seq<R> {
    if |s| <= n then s else s[..n]
  }

  datatype Page<R, C> = Page(rows: seq<R>, nextCursor: Option<C>)

  /** One request: read one row more than the page holds, and hand out the last row's cursor when
      that extra row exists. */
  function PageAfter<R, C>(table: seq<R>, before: (R, R) -> bool, past: (C, R) -> bool, cursorOf: R -> C,
                           after: Option<C>, pageSize: nat): Page<R, C>
  {
    var found := Take(Remaining(table, before, past, after), pageSize + 1);
    var rows := Take(found, pageSize);
    Page(rows, if |found| > pageSize && rows != [] then Some(cursorOf(rows[|rows| - 1])) else None)
  }

  /** The cursor predicate says of a row's cursor what the ordering says of the row, and does not
      stop holding further down the list. */
  ghost predicate Sound<R(!new), C(!new)>(before: (R, R) -> bool, past: (C, R) -> bool, cursorOf: R -> C) {
    && StrictOrder(before)
    && (forall r, x :: past(cursorOf(r), x) <==> before(r, x))
    && (forall c, r, x :: past(c, r) && before(r, x) ==> past(c, x))
  }

  lemma {:induction false} FilterShrinks<R>(p: R -> bool, q: R -> bool, s: seq<R>)
    requires forall x | x in s :: p(x) ==> q(x)
    ensures |Filter(p, s)| <= |Filter(q, s)|
    ensures (exists x :: x in s && q(x) && !p(x)) ==> |Filter(p, s)| < |Filter(q, s)|
  {
    if s != [] {
      FilterShrinks(p, q, s[1..]);
      assert s == [s[0]] + s[1..];
    }
  }

  lemma LastRowIsPast<R(!new), C(!new)>(table: seq<R>, before: (R, R) -> bool, past: (C, R) -> bool, cursorOf: R -> C,
                                        after: Option<C>, pageSize: nat)
    requires var page := PageAfter(table, before, past, cursorOf, after, pageSize); page.nextCursor.Some?
    ensures var rows := PageAfter(table, before, past, cursorOf, after, pageSize).rows;
            rows != [] && rows[|rows| - 1] in table && Past(past, after, rows[|rows| - 1])
  {
    var p := (row: R) => Past(past, after, row);
    var rest := Remaining(table, before, past, after);
    var rows := PageAfter(table, before, past, cursorOf, after, pageSize).rows;
    var last := rows[|rows| - 1];
    assert last == rest[|rows| - 1];
    SortKeepsElements(before, Filter(p, table));
    assert last in Filter(p, table);
    FilterElements(p, table, last);
  }

  /** Every page that offers a cursor leaves strictly fewer rows: following cursors ends. */
  lemma CursorMovesOn<R(!new), C(!new)>(table: seq<R>, before: (R, R) -> bool, past: (C, R) -> bool, cursorOf: R -> C,
                                        after: Option<C>, pageSize: nat)
    requires Sound(before, past, cursorOf)
    requires PageAfter(table, before, past, cursorOf, after, pageSize).nextCursor.Some?
    ensures var next := PageAfter(table, before, past, cursorOf, after, pageSize).nextCursor;
            |Remaining(table, before, past, next)| < |Remaining(table, before, past, after)|
  {
    var page := PageAfter(table, before, past, cursorOf, after, pageSize);
    LastRowIsPast(table, before, past, cursorOf, after, pageSize);
    var last := page.rows[|page.rows| - 1];
    var q, p := (row: R) => Past(past, after, row), (row: R) => Past(past, page.nextCursor, row);
    assert q(last) && !p(last);
    FilterShrinks(p, q, table);
    SortKeepsElements(before, Filter(p, table));
    SortKeepsElements(before, Filter(q, table));
  }

  /** What a client gets by following cursors: the rows, and whether it reached the end. A cursor the
      server refuses ends the walk early. */
  function Follow<R(!new), C(!new)>(table: seq<R>, before: (R, R) -> bool, past: (C, R) -> bool, cursorOf: R -> C,
                                    accepts: C -> bool, after: Option<C>, pageSize: nat): (seq<R>, bool)
    requires Sound(before, past, cursorOf)
    decreases |Remaining(table, before, past, after)|
  {
    var page := PageAfter(table, before, past, cursorOf, after, pageSize);
    if page.nextCursor.None? then (page.rows, true)
    else if !accepts(page.nextCursor.value) then (page.rows, false)
    else
      CursorMovesOn(table, before, past, cursorOf, after, pageSize);
      var (rest, complete) := Follow(table, before, past, cursorOf, accepts, page.nextCursor, pageSize);
      (page.rows + rest, complete)
  }

  lemma {:induction false} FilterNone<R>(p: R -> bool, s: seq<R>)
    requires forall x | x in s :: !p(x)
    ensures Filter(p, s) == []
  {
    if s != [] {
      FilterNone(p, s[1..]);
    }
  }

  lemma {:induction false} FilterAll<R>(p: R -> bool, s: seq<R>)
    requires forall x | x in s :: p(x)
    ensures Filter(p, s) == s
  {
    if s != [] {
      FilterAll(p, s[1..]);
    }
  }

  /** The cursor of the i-th row of the sorted list; none before the first. */
  function CursorAt<R, C>(sorted: seq<R>, cursorOf: R -> C, i: nat): Option<C>
    requires i <= |sorted|
  {
    if i == 0 then None else Some(cursorOf(sorted[i - 1]))
  }

  /** What is past the i-th row is the rest of the sorted list. */
  lemma RemainingIsSuffix<R(!new), C(!new)>(table: seq<R>, before: (R, R) -> bool, past: (C, R) -> bool,
                                            cursorOf: R -> C, i: nat)
    requires Sound(before, past, cursorOf) && Separates(before, table)
    requires i <= |Sort(before, table)|
    ensures Remaining(table, before, past, CursorAt(Sort(before, table), cursorOf, i)) == Sort(before, table)[i..]
  {
    var sorted := Sort(before, table);
    var after := CursorAt(sorted, cursorOf, i);
    var p := (row: R) => Past(past, after, row);
    SortAscends(before, table);
    SortFilterCommute(before, p, table);
    assert sorted == sorted[..i] + sorted[i..];
    FilterAppend(p, sorted[..i], sorted[i..]);
    forall x | x in sorted[..i]
      ensures !p(x)
    {
      var j :| 0 <= j < i && sorted[j] == x;
      assert j == i - 1 || before(sorted[j], sorted[i - 1]);
    }
    FilterNone(p, sorted[..i]);
    FilterAll(p, sorted[i..]);
  }

  /** No cursor between row i and the end, one every `pageSize` rows, is refused. */
  ghost predicate Unbroken<R, C>(sorted: seq<R>, cursorOf: R -> C, accepts: C -> bool, i: nat, pageSize: nat)
    requires pageSize > 0
    decreases |sorted| - i
  {
    i + pageSize < |sorted| ==>
      accepts(cursorOf(sorted[i + pageSize - 1])) && Unbroken(sorted, cursorOf, accepts, i + pageSize, pageSize)
  }

  /** The page after row i is the next stretch of the sorted list. */
  lemma PageIsStretch<R(!new), C(!new)>(table: seq<R>, before: (R, R) -> bool, past: (C, R) -> bool, cursorOf: R -> C,
                                        i: nat, pageSize: nat)
    requires Sound(before, past, cursorOf) && Separates(before, table) && pageSize > 0
    requires i <= |Sort(before, table)|
    ensures var sorted := Sort(before, table);
            var page := PageAfter(table, before, past, cursorOf, CursorAt(sorted, cursorOf, i), pageSize);
            if i + pageSize < |sorted|
            then page == Page(sorted[i..i + pageSize], CursorAt(sorted, cursorOf, i + pageSize))
            else page == Page(sorted[i..], None)
  {
    hide Sort, Remaining, Sound, Separates;
    RemainingIsSuffix(table, before, past, cursorOf, i);
    var sorted := Sort(before, table);
    StretchOfSuffix(sorted, i, pageSize);
  }

  lemma StretchOfSuffix<R>(sorted: seq<R>, i: nat, pageSize: nat)
    requires i <= |sorted|
    ensures Take(Take(sorted[i..], pageSize + 1), pageSize) == Take(sorted[i..], pageSize)
    ensures Take(sorted[i..], pageSize) == if i + pageSize < |sorted| then sorted[i..i + pageSize] else sorted[i..]
  {
  }

  /** The rows from row i on were read to the end, or a proper prefix of them up to a refused cursor. */
  ghost predicate ReadsFrom<R, C>(walk: (seq<R>, bool), sorted: seq<R>, cursorOf: R -> C, accepts: C -> bool, i: nat,
                                  pageSize: nat)
    requires pageSize > 0 && i <= |sorted|
  {
    && (walk.1 <==> Unbroken(sorted, cursorOf, accepts, i, pageSize))
    && walk.0 <= sorted[i..]
    && (walk.1 <==> walk.0 == sorted[i..])
  }

  lemma ReadsOneMorePage<R, C>(walk: (seq<R>, bool), sorted: seq<R>, cursorOf: R -> C, accepts: C -> bool, i: nat,
                               pageSize: nat)
    requires pageSize > 0 && i + pageSize < |sorted|
    requires accepts(cursorOf(sorted[i + pageSize - 1])) ==>
        ReadsFrom(walk, sorted, cursorOf, accepts, i + pageSize, pageSize)
    requires !accepts(cursorOf(sorted[i + pageSize - 1])) ==> walk == ([], false)
    ensures ReadsFrom((sorted[i..i + pageSize] + walk.0, walk.1), sorted, cursorOf, accepts, i, pageSize)
  {
    var stretch, tail := sorted[i..i + pageSize], sorted[i + pageSize..];
    assert sorted[i..] == stretch + tail;
    assert |walk.0| < |tail| ==> |stretch + walk.0| < |stretch + tail|;
  }

  lemma {:induction false} FollowFrom<R(!new), C(!new)>(table: seq<R>, before: (R, R) -> bool, past: (C, R) -> bool,
                                                        cursorOf: R -> C, accepts: C -> bool, i: nat, pageSize: nat)
    requires Sound(before, past, cursorOf) && Separates(before, table) && pageSize > 0
    requires i <= |Sort(before, table)|
    ensures var sorted := Sort(before, table);
            ReadsFrom(Follow(table, before, past, cursorOf, accepts, CursorAt(sorted, cursorOf, i), pageSize),
                      sorted, cursorOf, accepts, i, pageSize)
    decreases |Sort(before, table)| - i
  {
    hide PageAfter, Sort, Sound, Separates;
    var sorted := Sort(before, table);
    PageIsStretch(table, before, past, cursorOf, i, pageSize);
    if i + pageSize < |sorted| {
      var next := CursorAt(sorted, cursorOf, i + pageSize);
      if accepts(next.value) {
        FollowFrom(table, before, past, cursorOf, accepts, i + pageSize, pageSize);
        ReadsOneMorePage(Follow(table, before, past, cursorOf, accepts, next, pageSize), sorted, cursorOf, accepts,
                         i, pageSize);
      } else {
        ReadsOneMorePage(([], false), sorted, cursorOf, accepts, i, pageSize);
        assert sorted[i..i + pageSize] + [] == sorted[i..i + pageSize];
      }
    }
  }

  /** Following cursors from the first page returns every row once, in order, exactly when no cursor on
      the way is refused; a refused cursor leaves a prefix of the list. */
  lemma FollowReadsEverything<R(!new), C(!new)>(table: seq<R>, before: (R, R) -> bool, past: (C, R) -> bool,
                                                cursorOf: R -> C, accepts: C -> bool, pageSize: nat)
    requires Sound(before, past, cursorOf) && Separates(before, table) && pageSize > 0
    ensures var sorted := Sort(before, table);
            var (rows, complete) := Follow(table, before, past, cursorOf, accepts, None, pageSize);
            && (complete <==> Unbroken(sorted, cursorOf, accepts, 0, pageSize))
            && rows <= sorted
            && (complete <==> rows == sorted)
  {
    FollowFrom(table, before, past, cursorOf, accepts, 0, pageSize);
    assert Sort(before, table)[0..] == Sort(before, table);
  }

  lemma {:induction false} AcceptedIsUnbroken<R, C>(sorted: seq<R>, cursorOf: R -> C, accepts: C -> bool, i: nat,
                                                    pageSize: nat)
    requires pageSize > 0
    requires forall row | row in sorted :: accepts(cursorOf(row))
    ensures Unbroken(sorted, cursorOf, accepts, i, pageSize)
    decreases |sorted| - i
  {
    if i + pageSize < |sorted| {
      AcceptedIsUnbroken(sorted, cursorOf, accepts, i + pageSize, pageSize);
    }
  }

  /** A page that holds no rows offers no cursor either, whatever is left to read. */
  lemma EmptyPageEndsTheWalk<R(!new), C(!new)>(table: seq<R>, before: (R, R) -> bool, past: (C, R) -> bool,
                                               cursorOf: R -> C, accepts: C -> bool)
    requires Sound(before, past, cursorOf)
    ensures Follow(table, before, past, cursorOf, accepts, None, 0) == ([], true)
  {
  }
}
