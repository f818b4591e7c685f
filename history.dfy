// The abstract behaviour shared by both copies of the bounded history
// `RecentItems`: the list is kept most-recent-first, and the queries look
// items up by rank, optionally skipping an excluded set.
module History {
  import opened Wrappers

  /** The list after `add(item)`: `item` goes in front, and when the list
    * grows past `maxSize` its last (oldest) element is removed. */
  function Added<T>(items: seq<T>, item: T, maxSize: int): (r: seq<T>)
    ensures |r| >= 1 ==> r[0] == item
    ensures |r| == if |items| + 1 > maxSize then |items| else |items| + 1
    ensures forall k :: 1 <= k < |r| ==> r[k] == items[k - 1]
  {
    var grown := [item] + items;
    if |grown| > maxSize then grown[..|grown| - 1] else grown
  }

  /** The items that are not in `excluded`, in their original order. */
  function Without<T>(items: seq<T>, excluded: set<T>): (r: seq<T>)
    ensures |r| <= |items|
  {
    if items == [] then []
    else (if items[0] in excluded then [] else [items[0]]) + Without(items[1..], excluded)
  }

  /** The filtered list holds exactly the items that are not excluded. */
  lemma {:induction false} WithoutMembers<T>(items: seq<T>, excluded: set<T>, x: T)
    ensures x in Without(items, excluded) <==> x in items && x !in excluded
  {
    if items != [] {
      WithoutMembers(items[1..], excluded, x);
      assert items == [items[0]] + items[1..];
    }
  }

  /** Rank `n` (1-based) of a most-recent-first list, if there is one. */
  function Nth<T>(items: seq<T>, n: int): (r: Option<T>)
    ensures r.Some? <==> 1 <= n <= |items|
    ensures r.Some? ==> r.value == items[n - 1]
  {
    if 1 <= n <= |items| then Some(items[n - 1]) else None
  }

  /** Rank `n` among the items that are not excluded. */
  function NthNotIn<T>(items: seq<T>, n: int, excluded: set<T>): Option<T>
  {
    Nth(Without(items, excluded), n)
  }

  /** The length of the history never exceeds its capacity (and is zero for a
    * negative capacity, which TypeScript allows). */
  ghost predicate Bounded<T>(items: seq<T>, maxSize: int)
  {
    |items| <= if maxSize < 0 then 0 else maxSize
  }

  lemma AddedKeepsBound<T>(items: seq<T>, item: T, maxSize: int)
    requires Bounded(items, maxSize)
    ensures Bounded(Added(items, item, maxSize), maxSize)
    ensures maxSize >= 1 ==> Added(items, item, maxSize)[0] == item
  {
  }

  /** Filtering distributes over concatenation. */
  lemma {:induction false} WithoutAppend<T>(a: seq<T>, b: seq<T>, excluded: set<T>)
    ensures Without(a + b, excluded) == Without(a, excluded) + Without(b, excluded)
  {
    if a == [] {
      assert a + b == b;
    } else {
      var head := if a[0] in excluded then [] else [a[0]];
      WithoutAppend(a[1..], b, excluded);
      assert (a + b)[0] == a[0];
      assert (a + b)[1..] == a[1..] + b;
      assert Without(a + b, excluded) == head + Without(a[1..] + b, excluded);
      assert Without(a, excluded) == head + Without(a[1..], excluded);
      assert head + (Without(a[1..], excluded) + Without(b, excluded))
             == (head + Without(a[1..], excluded)) + Without(b, excluded);
    }
  }

  /** Splitting the history at `i` splits its filtered list there too. */
  lemma WithoutPrefix<T>(items: seq<T>, i: nat, excluded: set<T>)
    requires i <= |items|
    ensures Without(items, excluded) == Without(items[..i], excluded) + Without(items[i..], excluded)
  {
    assert items == items[..i] + items[i..];
    WithoutAppend(items[..i], items[i..], excluded);
  }

  /** Scanning one more item extends the filtered prefix by that item,
    * unless it is excluded. */
  lemma WithoutSnoc<T>(items: seq<T>, i: nat, excluded: set<T>)
    requires i < |items|
    ensures Without(items[..i + 1], excluded)
            == Without(items[..i], excluded) + (if items[i] in excluded then [] else [items[i]])
  {
    WithoutPrefix(items[..i + 1], i, excluded);
    assert items[..i + 1][..i] == items[..i];
    assert items[..i + 1][i..] == [items[i]];
    assert Without([items[i]], excluded)
           == (if items[i] in excluded then [] else [items[i]]) + Without([items[i]][1..], excluded);
    assert [items[i]][1..] == [];
  }

  /** A non-excluded item at position `k` of the history is ranked one
    * after the non-excluded items before it: that is what "n-th most recent
    * not in" means. */
  lemma RankAt<T>(items: seq<T>, k: nat, excluded: set<T>)
    requires k < |items| && items[k] !in excluded
    ensures NthNotIn(items, |Without(items[..k], excluded)| + 1, excluded) == Some(items[k])
  {
    WithoutPrefix(items, k, excluded);
    assert items[k..] == [items[k]] + items[k + 1..];
    assert Without(items[k..], excluded) == [items[k]] + Without(items[k + 1..], excluded);
  }

  /** The most recent non-excluded item is rank 1 of the filtered order, and
    * it is the first item of the history that is not excluded. */
  lemma FirstNotInIsRankOne<T>(items: seq<T>, excluded: set<T>, k: nat)
    requires k < |items| && items[k] !in excluded
    requires forall j :: 0 <= j < k ==> items[j] in excluded
    ensures NthNotIn(items, 1, excluded) == Some(items[k])
  {
    WithoutNone(items[..k], excluded);
    RankAt(items, k, excluded);
  }

  lemma {:induction false} WithoutNone<T>(items: seq<T>, excluded: set<T>)
    requires forall j :: 0 <= j < |items| ==> items[j] in excluded
    ensures Without(items, excluded) == []
  {
    if items != [] {
      WithoutNone(items[1..], excluded);
    }
  }

  /** With nothing excluded, rank `n` among the non-excluded items is plain
    * rank `n`. */
  lemma {:induction false} WithoutEmpty<T>(items: seq<T>)
    ensures Without(items, {}) == items
  {
    if items != [] {
      WithoutEmpty(items[1..]);
    }
  }
}
