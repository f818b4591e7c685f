// The TypeScript bounded history `RecentItems<T>`: a most-recent-first list
// that the parser uses to remember which delimiter kinds it saw last.
module RecentItemsTs {
  import opened Wrappers
  import opened History

  /** `getNthMostRecentNotIn` throws for a rank below 1. */
  datatype Error = RankNotPositive

  class RecentItems<T(==)> {
    var items: seq<T>
    var maxSize: int

    ghost predicate Valid()
      reads this
    {
      Bounded(items, maxSize)
    }

    /** `new RecentItems(maxSize)`. */
    constructor (maxSize: int)
      ensures Valid() && items == [] && this.maxSize == maxSize
    {
      items := [];
      this.maxSize := maxSize;
    }

    /** `new RecentItems()`: the capacity defaults to 5. */
    constructor Default()
      ensures Valid() && items == [] && maxSize == 5
    {
      items := [];
      maxSize := 5;
    }

    /** `unshift` the item, then `pop` once if the list is over capacity. */
    method Add(item: T)
      requires Valid()
      modifies this
      ensures Valid() && maxSize == old(maxSize)
      ensures items == Added(old(items), item, maxSize)
      ensures maxSize >= 1 ==> items[0] == item
    {
      items := [item] + items;
      if |items| > maxSize {
        items := items[..|items| - 1];
      }
      AddedKeepsBound(old(items), item, maxSize);
    }

    /** A copy of the list, most recent first. */
    method GetItems() returns (r: seq<T>)
      ensures r == items
    {
      r := items;
    }

    /** `items[0]`, which is `undefined` for an empty list. */
    function GetMostRecent(): (r: Option<T>)
      reads this
      ensures r.Some? <==> |items| > 0
      ensures r.Some? ==> r.value == items[0]
    {
      if |items| == 0 then None else Some(items[0])
    }

    /** Rank `n`, counted from 1, or `undefined` outside 1..length. */
    function GetNthMostRecent(n: int): (r: Option<T>)
      reads this
      ensures r.Some? <==> 1 <= n <= |items|
      ensures r.Some? ==> r.value == items[n - 1]
    {
      if n < 1 || n > |items| then None else Some(items[n - 1])
    }

    /** The first item, scanning from the most recent, that is not excluded. */
    method GetMostRecentNotIn(excluded: set<T>) returns (r: Option<T>)
      ensures r == NthNotIn(items, 1, excluded)
    {
      var i := 0;
      while i < |items|
        invariant 0 <= i <= |items|
        invariant forall j :: 0 <= j < i ==> items[j] in excluded
      {
        if items[i] !in excluded {
          FirstNotInIsRankOne(items, excluded, i);
          return Some(items[i]);
        }
        i := i + 1;
      }
      WithoutNone(items, excluded);
      r := None;
    }

    /** Counts the non-excluded items, most recent first, and returns the
      * `n`-th; a rank below 1 is an error. */
    method GetNthMostRecentNotIn(n: int, excluded: set<T>) returns (r: Result<Option<T>, Error>)
      ensures r.Err? <==> n < 1
      ensures r.Ok? ==> r.value == NthNotIn(items, n, excluded)
    {
      if n < 1 {
        return Err(RankNotPositive);
      }
      var count := 0;
      var i := 0;
      while i < |items|
        invariant 0 <= i <= |items|
        invariant count == |Without(items[..i], excluded)| < n
      {
        WithoutSnoc(items, i, excluded);
        if items[i] !in excluded {
          count := count + 1;
          if count == n {
            RankAt(items, i, excluded);
            return Ok(Some(items[i]));
          }
        }
        i := i + 1;
      }
      assert items[..i] == items;
      r := Ok(None);
    }
  }
}
