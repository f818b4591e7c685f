// The Rust bounded history `RecentItems<T>`: the same most-recent-first list
// as the TypeScript copy, with `usize` ranks and `None` instead of a throw.
module RecentItemsRs {
  import opened Wrappers
  import opened History

  class RecentItems<T(==)> {
    var items: seq<T>
    var maxSize: nat

    ghost predicate Valid()
      reads this
    {
      Bounded(items, maxSize)
    }

    /** `RecentItems::new(max_size)`. */
    constructor (maxSize: nat)
      ensures Valid() && items == [] && this.maxSize == maxSize
    {
      items := [];
      this.maxSize := maxSize;
    }

    /** `RecentItems::default()` is `new(5)`. */
    constructor Default()
      ensures Valid() && items == [] && maxSize == 5
    {
      items := [];
      maxSize := 5;
    }

    /** `insert(0, item)`, then `pop` once if the list is over capacity. */
    method Add(item: T)
      requires Valid()
      modifies this
      ensures Valid() && maxSize == old(maxSize)
      ensures items == Added(old(items), item, maxSize)
      ensures maxSize >= 1 ==> items[0] == item
    {
      items := [item] + items;
      if |items| > maxSize {
        items := items[..|items| - 1];
      }
      AddedKeepsBound(old(items), item, maxSize);
    }

    /** A clone of the list, most recent first. */
    method GetItems() returns (r: seq<T>)
      ensures r == items
    {
      r := items;
    }

    /** `items.first()`. */
    function GetMostRecent(): (r: Option<T>)
      reads this
      ensures r.Some? <==> |items| > 0
      ensures r.Some? ==> r.value == items[0]
    {
      if |items| == 0 then None else Some(items[0])
    }

    /** Rank `n`, counted from 1, or `None` outside 1..len. */
    function GetNthMostRecent(n: nat): (r: Option<T>)
      reads this
      ensures r.Some? <==> 1 <= n <= |items|
      ensures r.Some? ==> r.value == items[n - 1]
    {
      if n < 1 || n > |items| then None else Some(items[n - 1])
    }

    /** The first item, scanning from the most recent, that is not excluded. */
    method GetMostRecentNotIn(excluded: set<T>) returns (r: Option<T>)
      ensures r == NthNotIn(items, 1, excluded)
    {
      var i := 0;
      while i < |items|
        invariant 0 <= i <= |items|
        invariant forall j :: 0 <= j < i ==> items[j] in excluded
      {
        if items[i] !in excluded {
          FirstNotInIsRankOne(items, excluded, i);
          return Some(items[i]);
        }
        i := i + 1;
      }
      WithoutNone(items, excluded);
      r := None;
    }

    /** Counts the non-excluded items, most recent first, and returns the
      * `n`-th; rank 0 gives `None` (the TypeScript copy throws there). */
    method GetNthMostRecentNotIn(n: nat, excluded: set<T>) returns (r: Option<T>)
      ensures r == NthNotIn(items, n, excluded)
      ensures n < 1 ==> r.None?
    {
      if n < 1 {
        return None;
      }
      var count := 0;
      var i := 0;
      while i < |items|
        invariant 0 <= i <= |items|
        invariant count == |Without(items[..i], excluded)| < n
      {
        WithoutSnoc(items, i, excluded);
        if items[i] !in excluded {
          count := count + 1;
          if count == n {
            RankAt(items, i, excluded);
            return Some(items[i]);
          }
        }
        i := i + 1;
      }
      assert items[..i] == items;
      r := None;
    }
  }

  /** The capacity-3 history after adding 1, 2, 3, 4 holds 4, 3, 2. */
  lemma MaxSizeExample()
    ensures Added(Added(Added(Added([], 1, 3), 2, 3), 3, 3), 4, 3) == [4, 3, 2]
  {
  }

  /** Excluding {4, 2} from the history 4, 3, 2, 1 leaves ranks 3, 1 and then
    * nothing. */
  lemma NthNotInExample()
    ensures NthNotIn([4, 3, 2, 1], 1, {4, 2}) == Some(3)
    ensures NthNotIn([4, 3, 2, 1], 2, {4, 2}) == Some(1)
    ensures NthNotIn([4, 3, 2, 1], 3, {4, 2}) == None
  {
    assert Without([4, 3, 2, 1], {4, 2}) == [3, 1];
  }
}
