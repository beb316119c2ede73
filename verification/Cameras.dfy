/**
 `one_per_camera`: sort the listeners by later deadline, then smaller listener id,
 and keep the first row of each owner.
 */
module Cameras {
  /** `metadata` stands for the columns that play no part in the choice. */
  datatype Row = Row(listenerId: string, owner: string, expiresAt: string, metadata: string)

  // ----- The order -----

  /** `str` comparison: by the first character that differs, a prefix first. */
  function StrLess(a: string, b: string): bool
  {
    if b == [] then false
    else if a == [] then true
    else a[0] < b[0] || (a[0] == b[0] && StrLess(a[1..], b[1..]))
  }

  /** Whether `a` sorts strictly before `b`: later deadline, then smaller id. */
  predicate Before(a: Row, b: Row)
  {
    StrLess(b.expiresAt, a.expiresAt) || (a.expiresAt == b.expiresAt && StrLess(a.listenerId, b.listenerId))
  }

  predicate SameKey(a: Row, b: Row)
  {
    a.expiresAt == b.expiresAt && a.listenerId == b.listenerId
  }

  lemma {:induction false} StrLessTotal(a: string, b: string)
    ensures (StrLess(a, b) && a != b && !StrLess(b, a)) || (a == b && !StrLess(a, b))
            || (StrLess(b, a) && a != b && !StrLess(a, b))
  {
    if a != [] && b != [] {
      StrLessTotal(a[1..], b[1..]);
      assert a == [a[0]] + a[1..] && b == [b[0]] + b[1..];
    }
  }

  lemma {:induction false} StrLessTransitive(a: string, b: string, c: string)
    requires StrLess(a, b) && StrLess(b, c)
    ensures StrLess(a, c)
  {
    if a != [] && a[0] == b[0] && b[0] == c[0] {
      StrLessTransitive(a[1..], b[1..], c[1..]);
    }
  }

  lemma BeforeTotal(a: Row, b: Row)
    ensures Before(a, b) ==> !Before(b, a) && !SameKey(a, b)
    ensures Before(a, b) || Before(b, a) || SameKey(a, b)
    ensures SameKey(a, b) ==> !Before(a, b)
  {
    StrLessTotal(a.expiresAt, b.expiresAt);
    StrLessTotal(a.listenerId, b.listenerId);
  }

  lemma BeforeTransitive(a: Row, b: Row, c: Row)
    requires Before(a, b) && Before(b, c)
    ensures Before(a, c)
  {
    if StrLess(b.expiresAt, a.expiresAt) && StrLess(c.expiresAt, b.expiresAt) {
      StrLessTransitive(c.expiresAt, b.expiresAt, a.expiresAt);
    }
    if StrLess(a.listenerId, b.listenerId) && StrLess(b.listenerId, c.listenerId) {
      StrLessTransitive(a.listenerId, b.listenerId, c.listenerId);
    }
  }

  /** Not after, chained. */
  lemma NotAfterTransitive(a: Row, b: Row, c: Row)
    requires !Before(b, a) && !Before(c, b)
    ensures !Before(c, a)
  {
    BeforeTotal(a, b);
    BeforeTotal(b, c);
    BeforeTotal(a, c);
    if Before(a, b) && Before(b, c) {
      BeforeTransitive(a, b, c);
    }
  }

  ghost predicate Sorted(rows: seq<Row>)
  {
    forall i, j | 0 <= i < j < |rows| :: !Before(rows[j], rows[i])
  }

  // ----- The stable sort -----

  /** `row` placed after every row it does not precede. */
  function Insert(sorted: seq<Row>, row: Row): (r: seq<Row>)
    ensures multiset(r) == multiset(sorted) + multiset{row}
  {
    if sorted == [] then [row]
    else
      var last := sorted[|sorted| - 1];
      assert sorted == sorted[..|sorted| - 1] + [last];
      if Before(row, last) then Insert(sorted[..|sorted| - 1], row) + [last] else sorted + [row]
  }

  function SortRows(rows: seq<Row>): (r: seq<Row>)
    ensures multiset(r) == multiset(rows)
  {
    if rows == [] then []
    else
      assert rows == rows[..|rows| - 1] + [rows[|rows| - 1]];
      Insert(SortRows(rows[..|rows| - 1]), rows[|rows| - 1])
  }

  lemma {:induction false} InsertKeepsSorted(sorted: seq<Row>, row: Row)
    requires Sorted(sorted)
    ensures Sorted(Insert(sorted, row))
  {
    if sorted != [] {
      var front, last := sorted[..|sorted| - 1], sorted[|sorted| - 1];
      if Before(row, last) {
        InsertKeepsSorted(front, row);
        var r := Insert(front, row);
        BeforeTotal(row, last);
        forall i | 0 <= i < |r|
          ensures !Before(last, r[i])
        {
          assert r[i] in multiset(r);
          assert r[i] in multiset(front) + multiset{row};
          assert r[i] in front || r[i] == row;
        }
      } else {
        forall i | 0 <= i < |sorted|
          ensures !Before(row, sorted[i])
        {
          if i < |sorted| - 1 {
            NotAfterTransitive(sorted[i], last, row);
          }
        }
      }
    }
  }

  lemma {:induction false} SortRowsSorted(rows: seq<Row>)
    ensures Sorted(SortRows(rows))
  {
    if rows != [] {
      SortRowsSorted(rows[..|rows| - 1]);
      InsertKeepsSorted(SortRows(rows[..|rows| - 1]), rows[|rows| - 1]);
    }
  }

  /** The rows that share `key`'s deadline and id, in order. */
  function OfKey(rows: seq<Row>, key: Row): seq<Row>
  {
    if rows == [] then []
    else
      var last := rows[|rows| - 1];
      OfKey(rows[..|rows| - 1], key) + if SameKey(last, key) then [last] else []
  }

  lemma OfKeyPush(rows: seq<Row>, row: Row, key: Row)
    ensures OfKey(rows + [row], key) == OfKey(rows, key) + if SameKey(row, key) then [row] else []
  {
    assert (rows + [row])[..|rows|] == rows;
  }

  lemma {:induction false} InsertIsStable(sorted: seq<Row>, row: Row, key: Row)
    ensures OfKey(Insert(sorted, row), key) == OfKey(sorted + [row], key)
  {
    hide Before, SameKey, OfKey;
    OfKeyPush(sorted, row, key);
    if sorted == [] {
      assert sorted + [row] == [row];
    } else {
      var front, last := sorted[..|sorted| - 1], sorted[|sorted| - 1];
      if Before(row, last) {
        InsertIsStable(front, row, key);
        OfKeyPush(Insert(front, row), last, key);
        OfKeyPush(front, row, key);
        OfKeyPush(front, last, key);
        assert sorted == front + [last];
        DifferentKeys(row, last, key);
      }
    }
  }

  lemma DifferentKeys(row: Row, last: Row, key: Row)
    requires Before(row, last)
    ensures !(SameKey(row, key) && SameKey(last, key))
  {
    BeforeTotal(row, last);
  }

  lemma {:induction false} SortRowsIsStable(rows: seq<Row>, key: Row)
    ensures OfKey(SortRows(rows), key) == OfKey(rows, key)
  {
    hide Insert, SameKey;
    if rows != [] {
      var front, last := rows[..|rows| - 1], rows[|rows| - 1];
      SortRowsIsStable(front, key);
      InsertIsStable(SortRows(front), last, key);
      OfKeyPush(SortRows(front), last, key);
    }
  }

  /** There is one stable sort: whatever algorithm the library uses, a sorted list
      that keeps the order within each key is this one. */
  lemma StableSortIsUnique(rows: seq<Row>, sorted: seq<Row>)
    requires Sorted(sorted) && SameByKey(sorted, rows)
    ensures sorted == SortRows(rows)
  {
    hide OfKey;
    SortRowsSorted(rows);
    forall key
      ensures OfKey(SortRows(rows), key) == OfKey(sorted, key)
    {
      SortRowsIsStable(rows, key);
    }
    SortedByKeyIsDetermined(SortRows(rows), sorted);
  }

  ghost predicate SameByKey(a: seq<Row>, b: seq<Row>)
  {
    forall key :: OfKey(a, key) == OfKey(b, key)
  }

  lemma {:induction false} SortedByKeyIsDetermined(a: seq<Row>, b: seq<Row>)
    requires Sorted(a) && Sorted(b) && SameByKey(a, b)
    ensures a == b
    decreases |a|
  {
    hide Before, SameKey, OfKey;
    if a == [] {
      OfKeyNonEmpty(a, b);
    } else if b == [] {
      OfKeyNonEmpty(b, a);
    } else {
      LastsAgree(a, b);
      DropLast(a, b);
      SortedByKeyIsDetermined(a[..|a| - 1], b[..|b| - 1]);
      assert a == a[..|a| - 1] + [a[|a| - 1]] && b == b[..|b| - 1] + [b[|b| - 1]];
    }
  }

  lemma LastsAgree(a: seq<Row>, b: seq<Row>)
    requires a != [] && b != [] && Sorted(a) && Sorted(b) && SameByKey(a, b)
    ensures a[|a| - 1] == b[|b| - 1]
  {
    hide Before, SameKey, OfKey;
    var x, y := a[|a| - 1], b[|b| - 1];
    LastOfKey(a, x);
    LastOfKey(b, y);
    OfKeyIn(b, x);
    OfKeyIn(a, y);
    LastsShareKey(a, b);
    OfKeySame(a, x, y);
  }

  lemma DropLast(a: seq<Row>, b: seq<Row>)
    requires a != [] && b != [] && a[|a| - 1] == b[|b| - 1] && SameByKey(a, b)
    ensures SameByKey(a[..|a| - 1], b[..|b| - 1])
  {
    hide OfKey, SameKey;
    var front, front', last := a[..|a| - 1], b[..|b| - 1], a[|a| - 1];
    forall key
      ensures OfKey(front, key) == OfKey(front', key)
    {
      OfKeyPush(front, last, key);
      OfKeyPush(front', last, key);
      assert a == front + [last] && b == front' + [last];
      assert OfKey(a, key) == OfKey(b, key);
      var tail := if SameKey(last, key) then [last] else [];
      assert OfKey(front, key) == OfKey(a, key)[..|OfKey(a, key)| - |tail|];
      assert OfKey(front', key) == OfKey(b, key)[..|OfKey(b, key)| - |tail|];
    }
  }

  lemma OfKeyNonEmpty(a: seq<Row>, b: seq<Row>)
    requires a == [] && (SameByKey(a, b) || SameByKey(b, a))
    ensures b == []
  {
    if b != [] {
      LastOfKey(b, b[|b| - 1]);
    }
  }

  lemma LastOfKey(rows: seq<Row>, key: Row)
    requires rows != [] && key == rows[|rows| - 1]
    ensures OfKey(rows, key) != [] && OfKey(rows, key)[|OfKey(rows, key)| - 1] == key
  {}

  lemma {:induction false} OfKeyIn(rows: seq<Row>, key: Row)
    ensures forall r | r in OfKey(rows, key) :: r in rows && SameKey(r, key)
  {
    if rows != [] {
      OfKeyIn(rows[..|rows| - 1], key);
    }
  }

  lemma LastsShareKey(a: seq<Row>, b: seq<Row>)
    requires a != [] && b != [] && Sorted(a) && Sorted(b)
    requires a[|a| - 1] in b && b[|b| - 1] in a
    ensures SameKey(a[|a| - 1], b[|b| - 1])
  {
    var x, y := a[|a| - 1], b[|b| - 1];
    var i :| 0 <= i < |b| && b[i] == x;
    var j :| 0 <= j < |a| && a[j] == y;
    BeforeTotal(x, y);
    BeforeTotal(x, x);
    assert !Before(y, x) && !Before(x, y);
  }

  lemma {:induction false} OfKeySame(rows: seq<Row>, key: Row, other: Row)
    requires SameKey(key, other)
    ensures OfKey(rows, key) == OfKey(rows, other)
  {
    if rows != [] {
      OfKeySame(rows[..|rows| - 1], key, other);
    }
  }

  // ----- One row per owner -----

  /** `retain` with the owners seen so far. */
  function FirstPerOwner(rows: seq<Row>, seen: set<string>): seq<Row>
    decreases |rows|
  {
    if rows == [] then []
    else if rows[0].owner in seen then FirstPerOwner(rows[1..], seen)
    else [rows[0]] + FirstPerOwner(rows[1..], seen + {rows[0].owner})
  }

  function OnePerCamera(rows: seq<Row>): seq<Row>
  {
    FirstPerOwner(SortRows(rows), {})
  }

  /** Both passes as the source makes them, in place on its own vector: a stable
      sort, and `retain` with a set of the owners it has let through. */
  method OnePerCameraInPlace(listeners: seq<Row>) returns (kept: seq<Row>)
    ensures kept == OnePerCamera(listeners)
  {
    hide *;
    var rows := [];
    assert listeners[..0] == [];
    SortRowsSteps([], Row("", "", "", ""));
    for i := 0 to |listeners|
      invariant rows == SortRows(listeners[..i])
    {
      assert listeners[..i + 1] == listeners[..i] + [listeners[i]];
      SortRowsSteps(listeners[..i], listeners[i]);
      rows := Insert(rows, listeners[i]);
    }
    assert listeners[..|listeners|] == listeners;
    var seen: set<string> := {};
    kept := [];
    assert rows[0..] == rows;
    ghost var all := FirstPerOwner(rows, {});
    for i := 0 to |rows|
      invariant kept + FirstPerOwner(rows[i..], seen) == all
    {
      RetainStep(kept, rows, i, seen);
      if rows[i].owner !in seen {
        seen := seen + {rows[i].owner};
        kept := kept + [rows[i]];
      }
    }
    RetainEnd(kept, rows, seen);
    assert kept == OnePerCamera(listeners) by {
      OnePerCameraIs(listeners);
    }
  }

  lemma OnePerCameraIs(rows: seq<Row>)
    ensures OnePerCamera(rows) == FirstPerOwner(SortRows(rows), {})
  {}

  lemma SortRowsSteps(rows: seq<Row>, row: Row)
    ensures SortRows([]) == []
    ensures SortRows(rows + [row]) == Insert(SortRows(rows), row)
  {
    assert (rows + [row])[..|rows|] == rows;
  }

  lemma RetainStep(kept: seq<Row>, rows: seq<Row>, i: nat, seen: set<string>)
    requires i < |rows|
    ensures kept + FirstPerOwner(rows[i..], seen) ==
            if rows[i].owner in seen then kept + FirstPerOwner(rows[i + 1..], seen)
            else (kept + [rows[i]]) + FirstPerOwner(rows[i + 1..], seen + {rows[i].owner})
  {
    assert rows[i..][1..] == rows[i + 1..];
  }

  lemma RetainEnd(kept: seq<Row>, rows: seq<Row>, seen: set<string>)
    ensures kept + FirstPerOwner(rows[|rows|..], seen) == kept
  {}

  /** The rows that come first for their owner: nothing of that owner's precedes them. */
  ghost predicate Keeper(rows: seq<Row>, row: Row)
  {
    row in rows && forall other | other in rows && other.owner == row.owner :: !Before(other, row)
  }

  ghost predicate DistinctOwners(rows: seq<Row>)
  {
    forall i, j | 0 <= i < j < |rows| :: rows[i].owner != rows[j].owner
  }

  ghost predicate Shown(rows: seq<Row>, owner: string)
  {
    exists k | 0 <= k < |rows| :: rows[k].owner == owner
  }

  lemma {:induction false} FirstPerOwnerSelects(rows: seq<Row>, seen: set<string>)
    ensures forall r | r in FirstPerOwner(rows, seen) :: r in rows && r.owner !in seen
    ensures DistinctOwners(FirstPerOwner(rows, seen))
    decreases |rows|
  {
    if rows != [] {
      var head := rows[0];
      if head.owner in seen {
        FirstPerOwnerSelects(rows[1..], seen);
      } else {
        var later := FirstPerOwner(rows[1..], seen + {head.owner});
        FirstPerOwnerSelects(rows[1..], seen + {head.owner});
        assert forall k | 0 <= k < |later| :: later[k] in later;
      }
    }
  }

  lemma {:induction false} FirstPerOwnerCovers(rows: seq<Row>, seen: set<string>, r: Row)
    requires r in rows && r.owner !in seen
    ensures Shown(FirstPerOwner(rows, seen), r.owner)
    decreases |rows|
  {
    var head, tail := rows[0], rows[1..];
    if head.owner in seen {
      FirstPerOwnerCovers(tail, seen, r);
    } else {
      var later := FirstPerOwner(tail, seen + {head.owner});
      assert FirstPerOwner(rows, seen) == [head] + later;
      if r.owner == head.owner {
        assert ([head] + later)[0] == head;
      } else {
        FirstPerOwnerCovers(tail, seen + {head.owner}, r);
        var k :| 0 <= k < |later| && later[k].owner == r.owner;
        assert ([head] + later)[k + 1] == later[k];
      }
    }
  }

  lemma {:induction false} FirstPerOwnerKeeps(rows: seq<Row>, seen: set<string>)
    requires Sorted(rows)
    ensures forall r | r in FirstPerOwner(rows, seen) :: Keeper(rows, r)
    ensures Sorted(FirstPerOwner(rows, seen))
    decreases |rows|
  {
    if rows != [] {
      var head, tail := rows[0], rows[1..];
      var seen' := if head.owner in seen then seen else seen + {head.owner};
      var later := FirstPerOwner(tail, seen');
      FirstPerOwnerKeeps(tail, seen');
      FirstPerOwnerSelects(tail, seen');
      forall r | r in later
        ensures Keeper(rows, r) && !Before(r, head)
      {
        assert Keeper(tail, r) && r.owner != head.owner;
        assert forall other :: other in rows <==> other == head || other in tail;
      }
      BeforeTotal(head, head);
      assert Keeper(rows, head);
      assert forall k | 0 <= k < |later| :: later[k] in later;
    }
  }

  /** What the operator sees: exactly one row for every owner, none of whose
      listeners has a later deadline, nor the same one under a smaller id, in that
      order. */
  lemma OneRowPerOwner(rows: seq<Row>)
    ensures var out := OnePerCamera(rows);
            && Sorted(out)
            && (forall r | r in out :: Keeper(rows, r))
            && (forall r | r in rows :: Shown(out, r.owner))
            && DistinctOwners(out)
  {
    hide SortRows, FirstPerOwner;
    SortRowsSorted(rows);
    FirstPerOwnerSelects(SortRows(rows), {});
    FirstPerOwnerKeeps(SortRows(rows), {});
    SameRows(rows);
    forall r | r in rows
      ensures Shown(OnePerCamera(rows), r.owner)
    {
      FirstPerOwnerCovers(SortRows(rows), {}, r);
    }
    assert forall r :: Keeper(SortRows(rows), r) <==> Keeper(rows, r);
  }

  lemma SameRows(rows: seq<Row>)
    ensures forall r :: r in SortRows(rows) <==> r in rows
  {
    assert forall r :: r in rows <==> r in multiset(rows);
    assert forall r :: r in SortRows(rows) <==> r in multiset(SortRows(rows));
  }

  /** Doing it again changes nothing, ties or not. */
  lemma OnePerCameraIsIdempotent(rows: seq<Row>)
    ensures OnePerCamera(OnePerCamera(rows)) == OnePerCamera(rows)
  {
    hide SortRows, FirstPerOwner;
    var out := OnePerCamera(rows);
    OneRowPerOwner(rows);
    StableSortIsUnique(out, out);
    DistinctOwnersAllKept(out, {});
  }

  lemma {:induction false} DistinctOwnersAllKept(rows: seq<Row>, seen: set<string>)
    requires DistinctOwners(rows)
    requires forall i | 0 <= i < |rows| :: rows[i].owner !in seen
    ensures FirstPerOwner(rows, seen) == rows
    decreases |rows|
  {
    if rows != [] {
      DistinctOwnersAllKept(rows[1..], seen + {rows[0].owner});
    }
  }

  // ----- The answer does not depend on the order it was listed in -----

  /** A sorted list without two rows of one key is determined by its rows. */
  lemma {:induction false} SortedIsDetermined(a: seq<Row>, b: seq<Row>)
    requires Sorted(a) && Sorted(b) && NoKeyTwice(a) && NoKeyTwice(b)
    requires forall r :: r in a <==> r in b
    ensures a == b
    decreases |a|
  {
    if b != [] {
      assert b[0] in b;
    }
    if a != [] {
      assert a[0] in b && b[0] in a;
      HeadsAgree(a, b);
      assert a == [a[0]] + a[1..] && b == [b[0]] + b[1..];
      HeadOnlyOnce(a);
      HeadOnlyOnce(b);
      assert forall r :: r in a[1..] <==> r in a && r != a[0];
      assert forall r :: r in b[1..] <==> r in b && r != b[0];
      SortedIsDetermined(a[1..], b[1..]);
    }
  }

  ghost predicate NoKeyTwice(rows: seq<Row>)
  {
    forall i, j | 0 <= i < j < |rows| :: !SameKey(rows[i], rows[j])
  }

  lemma HeadOnlyOnce(rows: seq<Row>)
    requires rows != [] && NoKeyTwice(rows)
    ensures rows[0] !in rows[1..]
  {}

  lemma HeadsAgree(a: seq<Row>, b: seq<Row>)
    requires Sorted(a) && Sorted(b) && NoKeyTwice(a) && NoKeyTwice(b)
    requires a != [] && b != [] && a[0] in b && b[0] in a
    ensures a[0] == b[0]
  {
    var i :| 0 <= i < |a| && a[i] == b[0];
    var j :| 0 <= j < |b| && b[j] == a[0];
    if i > 0 && j > 0 {
      BeforeTotal(a[0], b[0]);
      assert false;
    }
  }

  /** No two different rows that could be shown share a deadline and an id. */
  ghost predicate KeepersUntied(rows: seq<Row>)
  {
    forall a, b | Keeper(rows, a) && Keeper(rows, b) && SameKey(a, b) :: a == b
  }

  /** The output is decided by its keepers. */
  lemma OutputIsItsKeepers(rows: seq<Row>)
    requires KeepersUntied(rows)
    ensures NoKeyTwice(OnePerCamera(rows))
    ensures forall r :: r in OnePerCamera(rows) <==> Keeper(rows, r)
  {
    hide OnePerCamera;
    var out := OnePerCamera(rows);
    OneRowPerOwner(rows);
    forall r | Keeper(rows, r)
      ensures r in out
    {
      assert Shown(out, r.owner);
      var k :| 0 <= k < |out| && out[k].owner == r.owner;
      assert out[k] in out;
      assert Keeper(rows, out[k]);
      BeforeTotal(r, out[k]);
    }
    forall i, j | 0 <= i < j < |out|
      ensures !SameKey(out[i], out[j])
    {
      assert out[i] in out && out[j] in out;
      assert Keeper(rows, out[i]) && Keeper(rows, out[j]);
    }
  }

  /** Two lists with the same keepers give the same answer. */
  lemma SameKeepersSameAnswer(a: seq<Row>, b: seq<Row>)
    requires KeepersUntied(a)
    requires forall r :: Keeper(a, r) <==> Keeper(b, r)
    ensures OnePerCamera(a) == OnePerCamera(b)
  {
    hide OnePerCamera, Keeper;
    OutputIsItsKeepers(a);
    OutputIsItsKeepers(b);
    OneRowPerOwner(a);
    OneRowPerOwner(b);
    SortedIsDetermined(OnePerCamera(a), OnePerCamera(b));
  }

  lemma PermutedKeepers(a: seq<Row>, b: seq<Row>)
    requires multiset(a) == multiset(b)
    ensures forall r :: Keeper(a, r) <==> Keeper(b, r)
  {
    assert forall r :: r in a <==> r in multiset(a);
    assert forall r :: r in b <==> r in multiset(b);
  }

  lemma {:induction false} OfKeyCons(row: Row, rows: seq<Row>, key: Row)
    ensures OfKey([row] + rows, key) == (if SameKey(row, key) then [row] else []) + OfKey(rows, key)
  {
    hide SameKey;
    if rows == [] {
      assert [row] + rows == [] + [row];
      OfKeyPush([], row, key);
    } else {
      var front, last := rows[..|rows| - 1], rows[|rows| - 1];
      OfKeyCons(row, front, key);
      assert [row] + rows == ([row] + front) + [last];
      OfKeyPush([row] + front, last, key);
    }
  }

  /** The first row of its key, if nothing of its owner precedes it, is let through
      and stays the first of its key. */
  lemma {:induction false} FirstOfKeyIsKept(rows: seq<Row>, seen: set<string>, x: Row)
    requires Sorted(rows) && Keeper(rows, x) && x.owner !in seen
    requires OfKey(rows, x) != [] && OfKey(rows, x)[0] == x
    ensures OfKey(FirstPerOwner(rows, seen), x) != [] && OfKey(FirstPerOwner(rows, seen), x)[0] == x
    decreases |rows|
  {
    hide OfKey;
    var head, tail := rows[0], rows[1..];
    assert rows == [head] + tail;
    OfKeyCons(head, tail, x);
    if SameKey(head, x) {
      OfKeyCons(x, FirstPerOwner(tail, seen + {x.owner}), x);
    } else {
      BeforeTotal(x, x);
      assert x in tail && !Before(x, head);
      BeforeTotal(head, x);
      assert head.owner != x.owner;
      var seen' := if head.owner in seen then seen else seen + {head.owner};
      FirstOfKeyIsKept(tail, seen', x);
      OfKeyCons(head, FirstPerOwner(tail, seen'), x);
    }
  }

  /** Listed first, a row that could be shown is the first of its key shown. */
  lemma ListedFirstShownFirst(x: Row, rest: seq<Row>)
    requires Keeper([x] + rest, x)
    ensures var shown := OfKey(OnePerCamera([x] + rest), x);
            shown != [] && shown[0] == x
  {
    hide OfKey, SortRows, FirstPerOwner;
    var rows := [x] + rest;
    SortRowsIsStable(rows, x);
    OfKeyCons(x, rest, x);
    SortRowsSorted(rows);
    SameRows(rows);
    FirstOfKeyIsKept(SortRows(rows), {}, x);
  }

  lemma BringToFront(rows: seq<Row>, x: Row) returns (rest: seq<Row>)
    requires x in rows
    ensures multiset([x] + rest) == multiset(rows)
  {
    var i :| 0 <= i < |rows| && rows[i] == x;
    rest := rows[..i] + rows[i + 1..];
    assert rows == rows[..i] + [x] + rows[i + 1..];
  }

  /** Every refresh shows the same rows in the same places, however the proxy
      ordered its list, exactly when no two different rows that could be shown tie. */
  lemma ListingOrderIsIrrelevantExactly(a: seq<Row>)
    ensures (forall b | multiset(b) == multiset(a) :: OnePerCamera(b) == OnePerCamera(a)) <==> KeepersUntied(a)
  {
    hide OnePerCamera, Keeper;
    if KeepersUntied(a) {
      forall b | multiset(b) == multiset(a)
        ensures OnePerCamera(b) == OnePerCamera(a)
      {
        PermutedKeepers(a, b);
        SameKeepersSameAnswer(a, b);
      }
    } else {
      var x, y :| Keeper(a, x) && Keeper(a, y) && SameKey(x, y) && x != y;
      TiedRowsShowTheOrder(a, x, y);
    }
  }

  lemma TiedRowsShowTheOrder(a: seq<Row>, x: Row, y: Row)
    requires Keeper(a, x) && Keeper(a, y) && SameKey(x, y) && x != y
    ensures exists b :: multiset(b) == multiset(a) && OnePerCamera(b) != OnePerCamera(a)
  {
    hide OnePerCamera, OfKey;
    var others := BringToFront(a, x);
    assert y in multiset(a) && y in [x] + others;
    var rest := BringToFront(others, y);
    var b, c := [x] + ([y] + rest), [y] + ([x] + rest);
    assert multiset(b) == multiset{x} + multiset([y] + rest) == multiset(a);
    assert multiset(c) == multiset(b);
    PermutedKeepers(a, b);
    PermutedKeepers(a, c);
    ListedFirstShownFirst(x, [y] + rest);
    ListedFirstShownFirst(y, [x] + rest);
    OfKeySame(OnePerCamera(b), x, y);
    assert OnePerCamera(b) != OnePerCamera(c);
  }

  // ----- Partial listings combine, ties or not -----

  /** The owners of the rows that sort strictly before `key`. */
  ghost function Ahead(rows: seq<Row>, key: Row): set<string>
  {
    set r | r in rows && Before(r, key) :: r.owner
  }

  ghost function Owners(rows: seq<Row>): set<string>
  {
    set r | r in rows :: r.owner
  }

  /** Key by key, a sorted list shows the first row of each owner that is not
      already shown further up. */
  lemma {:induction false} KeptOfKey(sorted: seq<Row>, seen: set<string>, key: Row)
    requires Sorted(sorted)
    ensures OfKey(FirstPerOwner(sorted, seen), key) == FirstPerOwner(OfKey(sorted, key), seen + Ahead(sorted, key))
    decreases |sorted|
  {
    hide OfKey, Before, SameKey, FirstPerOwner, Ahead;
    if sorted == [] {
      NothingKept(seen, key);
      NothingKept(seen + Ahead(sorted, key), key);
    } else {
      var head, tail := sorted[0], sorted[1..];
      assert sorted == [head] + tail;
      var seen' := if head.owner in seen then seen else seen + {head.owner};
      KeptOfKey(tail, seen', key);
      FirstPerOwnerCons(head, tail, seen);
      OfKeyCons(head, tail, key);
      OfKeyCons(head, FirstPerOwner(tail, seen'), key);
      AheadCons(head, tail, key);
      if SameKey(head, key) {
        NothingAhead(sorted, key);
        assert Ahead(tail, key) == {};
        assert seen + Ahead(sorted, key) == seen && seen' + Ahead(tail, key) == seen';
        FirstPerOwnerCons(head, OfKey(tail, key), seen);
      } else if Before(head, key) {
        assert OfKey(sorted, key) == OfKey(tail, key);
        assert seen + Ahead(sorted, key) == seen' + Ahead(tail, key);
        assert OfKey(FirstPerOwner(sorted, seen), key) == OfKey(FirstPerOwner(tail, seen'), key);
      } else {
        NoneOfLaterKey(sorted, key);
        NothingKept(seen' + Ahead(tail, key), key);
        NothingKept(seen + Ahead(sorted, key), key);
      }
    }
  }

  lemma NothingKept(seen: set<string>, key: Row)
    ensures FirstPerOwner([], seen) == [] && OfKey([], key) == []
  {}

  lemma FirstPerOwnerCons(head: Row, tail: seq<Row>, seen: set<string>)
    ensures FirstPerOwner([head] + tail, seen) ==
            if head.owner in seen then FirstPerOwner(tail, seen)
            else [head] + FirstPerOwner(tail, seen + {head.owner})
  {
    assert ([head] + tail)[1..] == tail;
  }

  lemma AheadCons(head: Row, tail: seq<Row>, key: Row)
    ensures Ahead([head] + tail, key) == (if Before(head, key) then {head.owner} else {}) + Ahead(tail, key)
  {
    assert forall r :: r in [head] + tail <==> r == head || r in tail;
    assert Before(head, key) ==> head in [head] + tail;
  }

  lemma NothingAhead(sorted: seq<Row>, key: Row)
    requires sorted != [] && Sorted(sorted) && SameKey(sorted[0], key)
    ensures Ahead(sorted, key) == {}
  {
    BeforeTotal(sorted[0], sorted[0]);
    forall r | r in sorted
      ensures !Before(r, key)
    {
      assert !Before(r, sorted[0]);
    }
  }

  lemma NoneOfLaterKey(sorted: seq<Row>, key: Row)
    requires sorted != [] && Sorted(sorted) && !Before(sorted[0], key) && !SameKey(sorted[0], key)
    ensures OfKey(sorted, key) == []
  {
    BeforeTotal(sorted[0], key);
    forall i | 0 <= i < |sorted|
      ensures !SameKey(sorted[i], key)
    {
      assert i > 0 ==> !Before(sorted[i], sorted[0]);
    }
    OfKeyIn(sorted, key);
    assert forall r | r in OfKey(sorted, key) :: r in sorted;
  }

  /** What is shown of one key, read off the listing itself. */
  lemma ShownOfKey(rows: seq<Row>, key: Row)
    ensures OfKey(OnePerCamera(rows), key) == FirstPerOwner(OfKey(rows, key), Ahead(rows, key))
  {
    hide OfKey, FirstPerOwner, SortRows, Before;
    SortRowsSorted(rows);
    SortRowsIsStable(rows, key);
    SameRows(rows);
    KeptOfKey(SortRows(rows), {}, key);
    assert Ahead(SortRows(rows), key) == Ahead(rows, key);
    assert {} + Ahead(rows, key) == Ahead(rows, key);
  }

  lemma {:induction false} FirstPerOwnerConcat(x: seq<Row>, y: seq<Row>, seen: set<string>)
    ensures FirstPerOwner(x + y, seen) == FirstPerOwner(x, seen) + FirstPerOwner(y, seen + Owners(x))
    decreases |x|
  {
    if x == [] {
      assert x + y == y && seen + Owners(x) == seen;
    } else {
      var head, tail := x[0], x[1..];
      var seen' := if head.owner in seen then seen else seen + {head.owner};
      assert (x + y)[1..] == tail + y;
      assert seen' + Owners(tail) == seen + Owners(x) by {
        assert x == [head] + tail;
        SeenCons(head, tail, seen);
      }
      FirstPerOwnerConcat(tail, y, seen');
    }
  }

  lemma SeenCons(head: Row, tail: seq<Row>, seen: set<string>)
    ensures (if head.owner in seen then seen else seen + {head.owner}) + Owners(tail) == seen + Owners([head] + tail)
  {
    hide Owners;
    OwnersCons(head, tail);
  }

  lemma OwnersCons(head: Row, tail: seq<Row>)
    ensures Owners([head] + tail) == {head.owner} + Owners(tail)
  {
    assert forall r :: r in [head] + tail <==> r == head || r in tail;
    assert head in [head] + tail;
  }

  /** Filtering with fewer owners first makes no difference. */
  lemma {:induction false} FilterTwice(x: seq<Row>, few: set<string>, many: set<string>)
    requires few <= many
    ensures FirstPerOwner(FirstPerOwner(x, few), many) == FirstPerOwner(x, many)
    ensures few + Owners(FirstPerOwner(x, few)) == few + Owners(x)
    decreases |x|
  {
    if x != [] {
      var head, tail := x[0], x[1..];
      assert x == [head] + tail;
      OwnersCons(head, tail);
      if head.owner in few {
        FilterTwice(tail, few, many);
      } else {
        var kept := FirstPerOwner(tail, few + {head.owner});
        OwnersCons(head, kept);
        assert ([head] + kept)[1..] == kept;
        FilterTwice(tail, few + {head.owner}, many + {head.owner});
        assert head.owner in many ==> many + {head.owner} == many;
      }
    }
  }

  /** Reducing a listing keeps, for every owner, whether it has a row ahead of a key. */
  lemma ReducingKeepsAhead(rows: seq<Row>, key: Row)
    ensures Ahead(OnePerCamera(rows), key) == Ahead(rows, key)
  {
    hide OnePerCamera, Before;
    OneRowPerOwner(rows);
    forall r | r in rows && Before(r, key)
      ensures r.owner in Ahead(OnePerCamera(rows), key)
    {
      var best := Best(rows, r);
      if !Before(best, key) {
        NotAfterTransitive(key, best, r);
      }
    }
  }

  /** Reducing two listings first and then together is reducing them at once,
      whatever rows they share or tie on. */
  lemma PartialListingsCombine(a: seq<Row>, b: seq<Row>)
    ensures OnePerCamera(a + b) == OnePerCamera(OnePerCamera(a) + OnePerCamera(b))
  {
    hide OnePerCamera, OfKey, Sorted;
    var parts := OnePerCamera(a) + OnePerCamera(b);
    OneRowPerOwner(a + b);
    OneRowPerOwner(parts);
    forall key
      ensures OfKey(OnePerCamera(a + b), key) == OfKey(OnePerCamera(parts), key)
    {
      CombineOfKey(a, b, key);
    }
    SortedByKeyIsDetermined(OnePerCamera(a + b), OnePerCamera(parts));
  }

  lemma CombineOfKey(a: seq<Row>, b: seq<Row>, key: Row)
    ensures OfKey(OnePerCamera(a + b), key) == OfKey(OnePerCamera(OnePerCamera(a) + OnePerCamera(b)), key)
  {
    hide OnePerCamera, OfKey, Ahead, Owners, FirstPerOwner;
    var parts := OnePerCamera(a) + OnePerCamera(b);
    var (x, y) := (OfKey(a, key), OfKey(b, key));
    var (p, q) := (Ahead(a, key), Ahead(b, key));
    ShownOfKey(a, key);
    ShownOfKey(b, key);
    ShownOfKey(a + b, key);
    ShownOfKey(parts, key);
    OfKeyConcat(a, b, key);
    OfKeyConcat(OnePerCamera(a), OnePerCamera(b), key);
    AheadConcat(a, b, key);
    AheadConcat(OnePerCamera(a), OnePerCamera(b), key);
    ReducingKeepsAhead(a, key);
    ReducingKeepsAhead(b, key);
    var kept := FirstPerOwner(x, p);
    FirstPerOwnerConcat(kept, FirstPerOwner(y, q), p + q);
    FirstPerOwnerConcat(x, y, p + q);
    FilterTwice(x, p, p + q);
    assert p + q + Owners(kept) == q + (p + Owners(kept)) == p + q + Owners(x);
    FilterTwice(y, q, p + q + Owners(x));
  }

  lemma {:induction false} OfKeyConcat(a: seq<Row>, b: seq<Row>, key: Row)
    ensures OfKey(a + b, key) == OfKey(a, key) + OfKey(b, key)
    decreases |b|
  {
    if b == [] {
      assert a + b == a;
    } else {
      var front, last := b[..|b| - 1], b[|b| - 1];
      assert a + b == (a + front) + [last] && b == front + [last];
      OfKeyConcat(a, front, key);
      OfKeyPush(a + front, last, key);
    }
  }

  lemma AheadConcat(a: seq<Row>, b: seq<Row>, key: Row)
    ensures Ahead(a + b, key) == Ahead(a, key) + Ahead(b, key)
  {
    assert forall r :: r in a + b <==> r in a || r in b;
  }

  /** The row that stands for `row`'s owner. */
  lemma Best(rows: seq<Row>, row: Row) returns (best: Row)
    requires row in rows
    ensures best in OnePerCamera(rows) && best.owner == row.owner && !Before(row, best)
  {
    OneRowPerOwner(rows);
    var out := OnePerCamera(rows);
    var k :| 0 <= k < |out| && out[k].owner == row.owner;
    assert out[k] in out;
    best := out[k];
  }

  // ----- In figures -----

  /** The first place where two strings part, and what is there. */
  ghost predicate PartsAt(a: string, b: string, k: nat)
  {
    && k <= |a| && k <= |b| && a[..k] == b[..k]
    && (if k < |a| && k < |b| then a[k] < b[k] else k == |a| < |b|)
  }

  /** The order of strings, without recursion: they agree up to some place, and there
      the smaller has the smaller character, or ends. */
  lemma {:induction false} StrLessInFigures(a: string, b: string)
    ensures StrLess(a, b) <==> exists k | 0 <= k <= |a| :: PartsAt(a, b, k)
  {
    if a == [] || b == [] {
      assert b != [] ==> PartsAt(a, b, 0);
    } else if a[0] == b[0] {
      StrLessInFigures(a[1..], b[1..]);
      forall k | 0 <= k < |a|
        ensures PartsAt(a[1..], b[1..], k) <==> PartsAt(a, b, k + 1)
      {
        if k <= |b| - 1 {
          assert a[..k + 1] == [a[0]] + a[1..][..k] && b[..k + 1] == [b[0]] + b[1..][..k];
        }
      }
      assert !PartsAt(a, b, 0);
      if k :| 0 <= k <= |a| && PartsAt(a, b, k) {
        assert PartsAt(a[1..], b[1..], k - 1);
      }
    } else {
      assert a[0] < b[0] ==> PartsAt(a, b, 0);
      forall k | 0 < k <= |a|
        ensures !PartsAt(a, b, k)
      {
        if k <= |b| {
          assert a[..k][0] == a[0] && b[..k][0] == b[0];
        }
      }
    }
  }

  /** The row shown for an owner has the latest deadline of that owner's, and of those
      with that deadline the smallest listener id; and rows come with later deadlines
      first, then smaller ids. */
  lemma LatestDeadlineIsShown(rows: seq<Row>)
    ensures var out := OnePerCamera(rows);
            && (forall r, other | r in out && other in rows && other.owner == r.owner ::
                  && !StrLess(r.expiresAt, other.expiresAt)
                  && (other.expiresAt == r.expiresAt ==> !StrLess(other.listenerId, r.listenerId)))
            && (forall i, j | 0 <= i < j < |out| ::
                  && !StrLess(out[i].expiresAt, out[j].expiresAt)
                  && (out[i].expiresAt == out[j].expiresAt ==> !StrLess(out[j].listenerId, out[i].listenerId)))
  {
    hide OnePerCamera;
    OneRowPerOwner(rows);
    var out := OnePerCamera(rows);
    forall r, other | r in out && other in rows && other.owner == r.owner
      ensures !StrLess(r.expiresAt, other.expiresAt)
      ensures other.expiresAt == r.expiresAt ==> !StrLess(other.listenerId, r.listenerId)
    {
      assert Keeper(rows, r);
    }
  }
}
