/**
 * The food-item store of lib/food-store.ts: one list of items, four mutators,
 * the lazy sweep of finished items, and the queries over the list.
 *
 * Every list operation of the source reads the list from local storage. Add,
 * delete and the sweep always write it back; mark and restore write it back
 * only when some item has the identifier; the queries never write. Here the
 * list is the field `items` of a `Store`: a mutator's new list is a function
 * of the old one (unchanged where the source does not write), and the queries
 * are functions of the list. Because the source re-reads a fresh copy on
 * every call, an item it hands out never aliases the stored one, so items are
 * values.
 */
module FoodStore {
  import opened Wrappers
  import opened Types
  import opened Expiration
  import opened Collections

  /** A stored item: active while `finishedAt` is absent, finished once it is set. */
  datatype FoodItem = FoodItem(
    id: string,
    name: string,
    category: FoodCategory,
    expirationDate: int,
    location: StorageLocation,
    finishedAt: Option<int>)

  predicate IsActive(item: FoodItem)
  {
    item.finishedAt.None?
  }

  predicate IsFinished(item: FoodItem)
  {
    item.finishedAt.Some?
  }

  /** Position `j` holds the first item with identifier `id`. */
  predicate FirstWithId(items: seq<FoodItem>, j: int, id: string)
  {
    0 <= j < |items| && items[j].id == id && forall k :: 0 <= k < j ==> items[k].id != id
  }

  /** The position of the first item with identifier `id`, or -1 when there is none (`findIndex`). */
  function IndexOf(items: seq<FoodItem>, id: string): (r: int)
    ensures -1 <= r < |items|
    ensures r == -1 <==> forall k :: 0 <= k < |items| ==> items[k].id != id
    ensures r != -1 ==> FirstWithId(items, r, id)
  {
    if items == [] then -1
    else if items[0].id == id then 0
    else
      var k := IndexOf(items[1..], id);
      if k == -1 then -1 else k + 1
  }

  /**
   * The list after the `finishedAt` field of the first item with identifier
   * `id` is set to `finishedAt`: no other item and no other field changes.
   */
  function WithFinishedAt(items: seq<FoodItem>, id: string, finishedAt: Option<int>): (r: seq<FoodItem>)
    ensures |r| == |items|
    ensures forall j :: 0 <= j < |items| ==>
      r[j] == if FirstWithId(items, j, id) then items[j].(finishedAt := finishedAt) else items[j]
  {
    var idx := IndexOf(items, id);
    if idx == -1 then items else items[idx := items[idx].(finishedAt := finishedAt)]
  }

  /** The predicate "does not have identifier `id`". */
  function IdIsNot(id: string): FoodItem -> bool
  {
    (item: FoodItem) => item.id != id
  }

  /** The list without the items that have identifier `id`: no item has the identifier, and every other item stays. */
  function WithoutId(items: seq<FoodItem>, id: string): (r: seq<FoodItem>)
    ensures |r| <= |items|
    ensures forall x :: x in r <==> x in items && x.id != id
  {
    Filter(items, IdIsNot(id))
  }

  /**
   * Whether the sweep at time `now` keeps `item`: active, or finished less
   * than 24 hours ago. The hour count is a quotient; the contract states the
   * same test on milliseconds.
   */
  predicate KeptAt(now: int, item: FoodItem): (r: bool)
    ensures r <==> IsActive(item) || now - item.finishedAt.value < MS_PER_DAY
  {
    match item.finishedAt
    case None => true
    case Some(finishedAt) => HoursBetween(finishedAt, now) < 24.0
  }

  function KeptAtPredicate(now: int): FoodItem -> bool
  {
    (item: FoodItem) => KeptAt(now, item)
  }

  /**
   * The list after the retention sweep at time `now`: every active item, and
   * exactly the finished items finished less than 24 hours before `now`.
   */
  function Retained(items: seq<FoodItem>, now: int): (r: seq<FoodItem>)
    ensures |r| <= |items|
    ensures forall x :: x in r <==> x in items && (IsActive(x) || now - x.finishedAt.value < MS_PER_DAY)
  {
    Filter(items, KeptAtPredicate(now))
  }

  /** The items in `loc` that are still active. */
  function ActiveIn(loc: StorageLocation): FoodItem -> bool
  {
    (item: FoodItem) => item.location == loc && IsActive(item)
  }

  function ExpirationKey(item: FoodItem): int
  {
    item.expirationDate
  }

  /** The sort key of the finished list: later `finishedAt` sorts first. */
  function FinishedKey(item: FoodItem): int
  {
    if item.finishedAt.Some? then -item.finishedAt.value else 0
  }

  /**
   * `getActiveItems`: the active items stored in `loc`, soonest expiration
   * first; a permutation of exactly those items of the list.
   */
  function ActiveItems(items: seq<FoodItem>, loc: StorageLocation): (r: seq<FoodItem>)
    ensures forall x :: x in r <==> x in items && x.location == loc && IsActive(x)
    ensures multiset(r) == multiset(Filter(items, ActiveIn(loc)))
    ensures forall i, j :: 0 <= i < j < |r| ==> r[i].expirationDate <= r[j].expirationDate
  {
    SortBy(Filter(items, ActiveIn(loc)), ExpirationKey)
  }

  /**
   * `getFinishedItems`: the finished items, most recently finished first; a
   * permutation of exactly those items of the list.
   */
  function FinishedItems(items: seq<FoodItem>): (r: seq<FoodItem>)
    ensures forall x :: x in r <==> x in items && IsFinished(x)
    ensures multiset(r) == multiset(Filter(items, IsFinished))
    ensures forall i :: 0 <= i < |r| ==> IsFinished(r[i])
    ensures forall i, j :: 0 <= i < j < |r| ==> r[i].finishedAt.value >= r[j].finishedAt.value
  {
    SortBy(Filter(items, IsFinished), FinishedKey)
  }

  /** Whether an item's status is Warning or Expired at time `now`: at most 24 hours are left. */
  function ExpiringSoon(now: int): (p: FoodItem -> bool)
    ensures forall item :: p(item) <==> item.expirationDate - now <= MS_PER_DAY
  {
    (item: FoodItem) =>
      var status := GetExpirationStatus(item.expirationDate, now);
      status == Warning || status == Expired
  }

  function AtLocation(loc: StorageLocation): FoodItem -> bool
  {
    (item: FoodItem) => item.location == loc
  }

  /** An item the expiring count counts: active, in `location` if one is given, and at most 24 hours from expiring. */
  predicate CountedAsExpiring(location: Option<StorageLocation>, now: int, item: FoodItem)
  {
    && IsActive(item)
    && (location.Some? ==> item.location == location.value)
    && item.expirationDate - now <= MS_PER_DAY
  }

  function CountedAsExpiringPredicate(location: Option<StorageLocation>, now: int): FoodItem -> bool
  {
    (item: FoodItem) => CountedAsExpiring(location, now, item)
  }

  /**
   * `getExpiringCount`: the source's chain of filters (not finished, in
   * `location` when one is given, Warning or Expired) counts exactly the items
   * of the list that are active, in the location, and at most 24 hours from
   * expiring.
   */
  function ExpiringCount(items: seq<FoodItem>, location: Option<StorageLocation>, now: int): (r: nat)
    ensures r == |Filter(items, CountedAsExpiringPredicate(location, now))|
  {
    var active := Filter(items, IsActive);
    var counted := CountedAsExpiringPredicate(location, now);
    if location.Some? then
      var filtered := Filter(active, AtLocation(location.value));
      FilterFilter(items, IsActive, AtLocation(location.value), ActiveIn(location.value));
      FilterFilter(items, ActiveIn(location.value), ExpiringSoon(now), counted);
      |Filter(filtered, ExpiringSoon(now))|
    else
      FilterFilter(items, IsActive, ExpiringSoon(now), counted);
      |Filter(active, ExpiringSoon(now))|
  }

  /**
   * The active-items query and the expiring count select the same items of a
   * location: one filter by "active and in `loc`" is the count's two filters,
   * not finished and then in `loc`.
   */
  lemma {:induction false} ActiveQueriesAgree(items: seq<FoodItem>, loc: StorageLocation)
    ensures Filter(Filter(items, IsActive), AtLocation(loc)) == Filter(items, ActiveIn(loc))
  {
    FilterFilter(items, IsActive, AtLocation(loc), ActiveIn(loc));
  }

  /** No more items are expiring than are active. */
  lemma {:induction false} ExpiringCountBounded(items: seq<FoodItem>, location: Option<StorageLocation>, now: int)
    ensures ExpiringCount(items, location, now) <= |Filter(items, IsActive)|
  {
    FilterCountMonotone(items, IsActive, CountedAsExpiringPredicate(location, now));
  }

  /** The overall count is the fridge count plus the freezer count. */
  lemma {:induction false} ExpiringCountByLocation(items: seq<FoodItem>, now: int)
    ensures ExpiringCount(items, Some(Fridge), now) + ExpiringCount(items, Some(Freezer), now)
         == ExpiringCount(items, None, now)
  {
    FilterCountSplit(items, CountedAsExpiringPredicate(None, now),
      CountedAsExpiringPredicate(Some(Fridge), now), CountedAsExpiringPredicate(Some(Freezer), now));
  }

  /** Lists with the same identifiers position by position have the same first positions for every identifier. */
  lemma SameIdsSameFirst(a: seq<FoodItem>, b: seq<FoodItem>)
    requires |a| == |b|
    requires forall j :: 0 <= j < |a| ==> a[j].id == b[j].id
    ensures forall j, id :: FirstWithId(a, j, id) <==> FirstWithId(b, j, id)
  {
  }

  /** Setting `finishedAt` keeps every identifier where it was. */
  lemma WithFinishedAtKeepsIds(items: seq<FoodItem>, id: string, finishedAt: Option<int>)
    ensures forall j, id' :: FirstWithId(WithFinishedAt(items, id, finishedAt), j, id') <==> FirstWithId(items, j, id')
  {
    SameIdsSameFirst(WithFinishedAt(items, id, finishedAt), items);
  }

  /** When no item has identifier `id`, marking and restoring leave the list as it was. */
  lemma MissingIdUnchanged(items: seq<FoodItem>, id: string, finishedAt: Option<int>)
    requires forall j :: 0 <= j < |items| ==> items[j].id != id
    ensures WithFinishedAt(items, id, finishedAt) == items
  {
  }

  /**
   * Setting `finishedAt` twice for the same identifier keeps only the second
   * value: re-marking a finished item overwrites its time, and restoring twice
   * is restoring once.
   */
  lemma {:induction false} SecondFinishedAtWins(items: seq<FoodItem>, id: string, first: Option<int>, second: Option<int>)
    ensures WithFinishedAt(WithFinishedAt(items, id, first), id, second) == WithFinishedAt(items, id, second)
  {
    var once := WithFinishedAt(items, id, first);
    WithFinishedAtKeepsIds(items, id, first);
    var twice := WithFinishedAt(once, id, second);
    var direct := WithFinishedAt(items, id, second);
    forall j | 0 <= j < |items| ensures twice[j] == direct[j] {
      assert FirstWithId(once, j, id) <==> FirstWithId(items, j, id);
    }
  }

  /** Setting `finishedAt` to the value the first matching item already has changes nothing. */
  lemma {:induction false} SameFinishedAtUnchanged(items: seq<FoodItem>, id: string, finishedAt: Option<int>)
    requires forall j :: FirstWithId(items, j, id) ==> items[j].finishedAt == finishedAt
    ensures WithFinishedAt(items, id, finishedAt) == items
  {
    var r := WithFinishedAt(items, id, finishedAt);
    forall j | 0 <= j < |items| ensures r[j] == items[j] {
      if FirstWithId(items, j, id) {
        assert items[j].(finishedAt := finishedAt) == items[j];
      }
    }
  }

  /** Marking an active item finished and then restoring it gives back the original list. */
  lemma {:induction false} FinishThenRestore(items: seq<FoodItem>, id: string, now: int)
    requires forall j :: FirstWithId(items, j, id) ==> IsActive(items[j])
    ensures WithFinishedAt(WithFinishedAt(items, id, Some(now)), id, None) == items
  {
    SecondFinishedAtWins(items, id, Some(now), None);
    SameFinishedAtUnchanged(items, id, None);
  }

  /** Deleting keeps the surviving items in their relative order: it deletes from each part of a list separately. */
  lemma {:induction false} DeleteItemKeepsOrder(prefix: seq<FoodItem>, suffix: seq<FoodItem>, id: string)
    ensures WithoutId(prefix + suffix, id) == WithoutId(prefix, id) + WithoutId(suffix, id)
  {
    FilterConcat(prefix, suffix, IdIsNot(id));
  }

  /** Deleting again changes nothing. */
  lemma {:induction false} DeleteItemIdempotent(items: seq<FoodItem>, id: string)
    ensures WithoutId(WithoutId(items, id), id) == WithoutId(items, id)
  {
    FilterIdempotent(items, IdIsNot(id));
  }

  /** The sweep keeps the surviving items in their relative order: it sweeps each part of a list separately. */
  lemma {:induction false} CleanupKeepsOrder(prefix: seq<FoodItem>, suffix: seq<FoodItem>, now: int)
    ensures Retained(prefix + suffix, now) == Retained(prefix, now) + Retained(suffix, now)
  {
    FilterConcat(prefix, suffix, KeptAtPredicate(now));
  }

  /** A second sweep at the same time changes nothing. */
  lemma {:induction false} CleanupIdempotent(items: seq<FoodItem>, now: int)
    ensures Retained(Retained(items, now), now) == Retained(items, now)
  {
    FilterIdempotent(items, KeptAtPredicate(now));
  }

  /**
   * The listing after the sweep holds exactly the finished items of the list
   * that were finished less than 24 hours before `now`.
   */
  lemma {:induction false} SweptFinishedListing(items: seq<FoodItem>, now: int)
    ensures forall x :: x in FinishedItems(Retained(items, now)) <==>
      x in items && IsFinished(x) && now - x.finishedAt.value < MS_PER_DAY
  {
  }

  /** Active items with the same expiration time are listed in the order they were stored. */
  lemma {:induction false} ActiveItemsStable(items: seq<FoodItem>, loc: StorageLocation, expirationDate: int)
    ensures Filter(ActiveItems(items, loc), KeyIs(ExpirationKey, expirationDate))
         == Filter(Filter(items, ActiveIn(loc)), KeyIs(ExpirationKey, expirationDate))
  {
    SortByStable(Filter(items, ActiveIn(loc)), ExpirationKey, expirationDate);
  }

  /** Finished items with the same finishing time (sort key `k`, the negated time) are listed in the order they were stored. */
  lemma {:induction false} FinishedItemsStable(items: seq<FoodItem>, k: int)
    ensures Filter(FinishedItems(items), KeyIs(FinishedKey, k))
         == Filter(Filter(items, IsFinished), KeyIs(FinishedKey, k))
  {
    SortByStable(Filter(items, IsFinished), FinishedKey, k);
  }

  /** An added item is listed among the active items of its location. */
  lemma AddedItemListed(items: seq<FoodItem>, newItem: FoodItem)
    requires IsActive(newItem)
    ensures newItem in ActiveItems(items + [newItem], newItem.location)
  {
  }

  /** The store: the persisted list of items and the operations that replace it. */
  class Store {
    var items: seq<FoodItem>

    /** A store over the list found in storage. */
    constructor (stored: seq<FoodItem>)
      ensures items == stored
    {
      items := stored;
    }

    /**
     * `addItem`: appends a new active item with the given fields; `id` stands
     * for the identifier the source generates, which it does not check for
     * uniqueness.
     */
    method AddItem(id: string, name: string, category: FoodCategory, expirationDate: int, location: StorageLocation)
      returns (newItem: FoodItem)
      modifies this
      ensures newItem == FoodItem(id, name, category, expirationDate, location, None)
      ensures items == old(items) + [newItem]
    {
      newItem := FoodItem(id, name, category, expirationDate, location, None);
      items := items + [newItem];
    }

    /** `markAsFinished`: stamps the first item with identifier `id` as finished at `now`. */
    method MarkAsFinished(id: string, now: int)
      modifies this
      ensures items == WithFinishedAt(old(items), id, Some(now))
    {
      var idx := IndexOf(items, id);
      if idx != -1 {
        items := items[idx := items[idx].(finishedAt := Some(now))];
      }
    }

    /** `deleteItem`: drops every item with identifier `id`. */
    method DeleteItem(id: string)
      modifies this
      ensures items == WithoutId(old(items), id)
    {
      items := Filter(items, IdIsNot(id));
    }

    /** `restoreItem`: makes the first item with identifier `id` active again. */
    method RestoreItem(id: string)
      modifies this
      ensures items == WithFinishedAt(old(items), id, None)
    {
      var idx := IndexOf(items, id);
      if idx != -1 {
        items := items[idx := items[idx].(finishedAt := None)];
      }
    }

    /** `cleanupExpiredFinished`: the retention sweep at time `now`. */
    method CleanupExpiredFinished(now: int)
      modifies this
      ensures items == Retained(old(items), now)
    {
      items := Filter(items, KeptAtPredicate(now));
    }

    /** The finished-items listing: sweep first, then list what is left. */
    method SweepAndListFinished(now: int) returns (r: seq<FoodItem>)
      modifies this
      ensures items == Retained(old(items), now)
      ensures r == FinishedItems(items)
    {
      CleanupExpiredFinished(now);
      r := FinishedItems(items);
    }
  }

  /**
   * A client of the store: an item marked finished and swept more than a day
   * later is gone from the finished listing and from the store, so restoring it
   * changes nothing; a second item that is still active survives the sweep.
   */
  method SweepScenario(now: int)
  {
    var store := new Store([]);
    var milk := store.AddItem("c", "Milk", Dairy, now + 12 * MS_PER_HOUR, Fridge);
    var peas := store.AddItem("p", "Peas", Vegetables, now + 30 * MS_PER_DAY, Freezer);
    assert store.items == [milk, peas];
    assert GetExpirationStatus(milk.expirationDate, now) == Warning;
    store.MarkAsFinished("c", now);
    assert FirstWithId(store.items, 0, "c");
    var finishedMilk := milk.(finishedAt := Some(now));
    assert store.items == [finishedMilk, peas];
    var later := now + 25 * MS_PER_HOUR;
    var keep := KeptAtPredicate(later);
    assert !keep(finishedMilk) && keep(peas);
    FilterConcat([finishedMilk], [peas], keep);
    FilterSingleton(finishedMilk, keep);
    FilterSingleton(peas, keep);
    assert [finishedMilk] + [peas] == [finishedMilk, peas];
    var finished := store.SweepAndListFinished(later);
    assert store.items == [peas];
    FilterSingleton(peas, IsFinished);
    assert finished == [];
    store.RestoreItem("c");
    assert store.items == [peas];
  }
}
