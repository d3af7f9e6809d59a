# FreshTrack food store, modelled in Dafny

FreshTrack tracks perishable food kept in a fridge or a freezer. Its only real
logic is the food-item store in `lib/food-store.ts`. The store keeps one list of
items. Each item has an id, a name, a category, a location, an expiration time
and an optional `finishedAt` time. An item is active while `finishedAt` is
absent and finished once it is set. On that list the store offers:

- four mutators: add, mark as finished, restore, delete;
- a lazy retention sweep that drops items finished 24 hours or more ago;
- queries: active items of one location by expiration, finished items newest first;
- time arithmetic: expiration status, days left, and the count of items expiring soon.

`lib/types.ts` provides the location and category enumerations and the
per-category label, emoji and colour tables.

The model has five modules:

- `Wrappers` (wrappers.dfy): `Option`.
- `Types` (types.dfy): `StorageLocation`, `FoodCategory`, the three category tables, and the item record as `lib/types.ts` declares it.
- `Collections` (collections.dfy): `Filter` and a stable insertion sort `SortBy`. They stand for the `Array.prototype.filter` and `Array.prototype.sort` calls. The sort is stable, as JavaScript's sort has been since ECMAScript 2019.
- `Expiration` (expiration.dfy): expiration status and days left.
- `FoodStore` (food_store.dfy): the stored item, pure functions over the list, the class `Store`, and the lemmas.

Modelling choices:

- Timestamps are integer milliseconds, and the current time `now` is a parameter.
- The source divides millisecond differences in floating point. The model divides exactly, as Dafny reals. Every result is proved equal to an integer comparison on milliseconds. For example, "warning" holds exactly when `0 < expirationDate - now <= 86400000`.
- Every list operation in the source (the four mutators, the sweep and the three queries) reads the list from `localStorage`; `getExpirationStatus` and `getDaysLeft` read only the clock. `addItem`, `deleteItem` and `cleanupExpiredFinished` always write it back. `markAsFinished` and `restoreItem` write it back only when some item has the id (`lib/food-store.ts:43-46`, `:57-60`). The queries `getActiveItems`, `getFinishedItems` and `getExpiringCount` never write. Here the list is the field `Store.items`. The mutators are methods whose `ensures` give the new list as a pure function of the old one; where the source does not write, that function returns the old list. The queries are functions of the list.
- Each call in the source parses a fresh copy of the list, so no item it returns aliases a stored one. Items are therefore datatype values.
- The item fields are the ones `lib/food-store.ts` reads and writes (`category`, `expirationDate`, `finishedAt`). The `FoodItem` interface in `lib/types.ts:16-27` has different fields (`expiry_date`, `is_finished`, `user_id`, `created_at`). The store does not use that interface. It is kept as `Types.DeclaredFoodItem`.
- `getExpirationStatus` takes a required expiration date, so it has no "none" result. The card component tests for "none", but the store never produces it.

Behaviour of the code worth knowing, all of it reflected in the model:

- the finished list is sorted by `finishedAt`, most recent first (`lib/food-store.ts:88-91`);
- the sweep removes an item once `now - finishedAt >= 24 h`, so an item exactly 24 hours old is removed (`lib/food-store.ts:70`);
- no operation reports a missing id: mark, restore and delete do nothing when no item has the id, and deleting twice is the same as deleting once;
- `addItem` does not check that the name is non-empty; only the add-item dialog does (`components/add-item-dialog.tsx:41`);
- no operation is scoped by owner: the stored item has no owner field;
- every stored item has an expiration date.

## Model

| member | source | states |
|---|---|---|
| `Types.ParseLocation` | lib/types.ts:1 | a string is a location exactly when it is "fridge" or "freezer", and it reads back to that literal |
| `Types.LocationRoundTrip` | lib/types.ts:1 | the string literal of a location parses back to that location |
| `Types.CategoriesClosed` | lib/types.ts:3-14 | the category type has exactly eleven values, `Other` among them, and every category is one of them |
| `Types.CategoryTablesTotal` | lib/types.ts:29-69 | the label, emoji and background-colour tables each have an entry for every category, and no entry is empty |
| `Collections.Filter` | lib/food-store.ts:50 | the filter keeps exactly the elements of the input that satisfy the predicate, and never makes the list longer |
| `Collections.FilterConcat` | lib/food-store.ts:65-71 | filtering a concatenation is the concatenation of the filtered parts, so kept elements stay in their relative order |
| `Collections.FilterIdempotent` | lib/food-store.ts:50 | filtering twice by the same predicate equals filtering once |
| `Collections.SortBy` | lib/food-store.ts:78-82 | the sorted list is a permutation of the input and is non-decreasing in the key |
| `Collections.SortByStable` | lib/food-store.ts:78-82 | the sort is stable: elements with equal keys keep their input order |
| `Expiration.GetExpirationStatus` | lib/food-store.ts:94-105 | expired exactly when `expiry - now <= 0`; warning exactly when `0 < expiry - now <= 24 h`; ok exactly when `expiry - now > 24 h` |
| `Expiration.Ceil` | lib/food-store.ts:110-112 | the result is the least integer not below its argument |
| `Expiration.GetDaysLeft` | lib/food-store.ts:107-113 | the result is the least integer `r` with `r` days at least `expiry - now` |
| `Expiration.DaysLeftRounding` | lib/food-store.ts:107-113 | whole days are exact; any part of a day ahead gives one day; a part of a day past expiration rounds toward zero |
| `Expiration.StatusAgreesWithDaysLeft` | lib/food-store.ts:94-113 | expired iff at most 0 days are left; warning iff exactly 1 day is left; ok iff 2 or more days are left |
| `FoodStore.IndexOf` | lib/food-store.ts:42 | -1 exactly when no item has the id; otherwise the position of the first item with that id |
| `FoodStore.WithFinishedAt` | lib/food-store.ts:40-61 | the list keeps its length; only the first item with the id changes, and only in its `finishedAt` field |
| `FoodStore.MissingIdUnchanged` | lib/food-store.ts:43 | when no item has the id, marking and restoring leave the list unchanged |
| `FoodStore.SecondFinishedAtWins` | lib/food-store.ts:40-47 | setting `finishedAt` twice keeps only the second value: re-marking overwrites the time, and restoring twice equals restoring once |
| `FoodStore.SameFinishedAtUnchanged` | lib/food-store.ts:54-61 | restoring an item that is already active changes nothing |
| `FoodStore.FinishThenRestore` | lib/food-store.ts:40-61 | marking an active item finished and then restoring it gives back the original list |
| `FoodStore.WithoutId` | lib/food-store.ts:50 | after delete no item has the id, every other item is still there, and the list never grows |
| `FoodStore.DeleteItemKeepsOrder` | lib/food-store.ts:49-52 | the surviving items keep their relative order: deleting from a concatenation deletes from each part |
| `FoodStore.DeleteItemIdempotent` | lib/food-store.ts:49-52 | deleting twice equals deleting once |
| `FoodStore.KeptAt` | lib/food-store.ts:65-71 | the sweep's test keeps an item exactly when it is active or `now - finishedAt < 24 h`, the hour quotient compared on milliseconds |
| `FoodStore.Retained` | lib/food-store.ts:63-73 | the sweep keeps every active item, keeps a finished one exactly when `now - finishedAt < 24 h`, and never adds an item |
| `FoodStore.CleanupKeepsOrder` | lib/food-store.ts:63-73 | the kept items keep their relative order: sweeping a concatenation sweeps each part |
| `FoodStore.CleanupIdempotent` | lib/food-store.ts:63-73 | a second sweep at the same time changes nothing |
| `FoodStore.ActiveQueriesAgree` | lib/food-store.ts:77 | the active-items filter selects, in stored order, exactly the items that `getExpiringCount`'s two filters (not finished, then in the location) select, so the two queries agree on which items are active in a location |
| `FoodStore.ActiveItems` | lib/food-store.ts:75-83 | the result holds exactly the active items of the location, as a permutation of them, in non-decreasing expiration order |
| `FoodStore.ActiveItemsStable` | lib/food-store.ts:78-82 | active items with equal expiration times are listed in stored order |
| `FoodStore.FinishedItems` | lib/food-store.ts:85-92 | the result holds exactly the finished items, as a permutation of them, in non-increasing `finishedAt` order |
| `FoodStore.FinishedItemsStable` | lib/food-store.ts:88-91 | finished items with equal finishing times are listed in stored order |
| `FoodStore.ExpiringSoon` | lib/food-store.ts:120-122 | the status test (warning or expired) holds exactly when `expiry - now <= 24 h` |
| `FoodStore.ExpiringCount` | lib/food-store.ts:115-124 | the chain of filters counts exactly the active items, in the given location if one is given, with `expiry - now <= 24 h` |
| `FoodStore.ExpiringCountBounded` | lib/food-store.ts:115-124 | the count never exceeds the number of active items |
| `FoodStore.ExpiringCountByLocation` | lib/food-store.ts:115-124 | the fridge count plus the freezer count equals the count without a location |
| `FoodStore.AddedItemListed` | lib/food-store.ts:24-38 | an added item appears among the active items of its location |
| `FoodStore.SweptFinishedListing` | hooks/use-food-items.ts:28-30 | after the sweep, the finished listing holds exactly the finished items with `now - finishedAt < 24 h` |
| `FoodStore.Store.constructor` | lib/food-store.ts:9-18 | the store starts with the stored list |
| `FoodStore.Store.AddItem` | lib/food-store.ts:24-38 | appends exactly one active item with the given fields, leaves earlier items unchanged, and returns the appended item |
| `FoodStore.Store.MarkAsFinished` | lib/food-store.ts:40-47 | the new list sets `finishedAt` to `now` on the first item with the id, and on nothing else |
| `FoodStore.Store.DeleteItem` | lib/food-store.ts:49-52 | the new list is the old one without the items that have the id |
| `FoodStore.Store.RestoreItem` | lib/food-store.ts:54-61 | the new list clears `finishedAt` on the first item with the id, and on nothing else |
| `FoodStore.Store.CleanupExpiredFinished` | lib/food-store.ts:63-73 | the new list is the old one after the retention sweep at `now` |
| `FoodStore.Store.SweepAndListFinished` | hooks/use-food-items.ts:25-34 | the finished query sweeps first, then returns the finished listing of what is left |

## Left out

- Persistence: `getItems` and `saveItems` (`lib/food-store.ts:9-22`) are not modelled. That covers `localStorage`, the JSON encoding, the server-side empty list, and the parse-failure fallback to an empty list. The list is the field `Store.items`, and the constructor takes whatever was stored.
- Id generation (`lib/food-store.ts:5-7`) uses the clock and a random number. The id is a parameter of `Store.AddItem`. Ids are not assumed to be unique, and mark and restore act on the first match, as the source does.
- Date parsing: ISO strings and `new Date` are not modelled. Timestamps are integer milliseconds. A date string that fails to parse gives `NaN` in the source, and `NaN` is not modelled.
- Floating point: divisions are exact reals. For integer millisecond differences, the source's comparisons against 0 and 24 hours give the same answers as exact ones. `Math.ceil` of a rounded quotient can differ from the exact ceiling only for differences of tens of millions of days; the model does not capture that rounding.
- Clock: every `new Date()` / `Date.now()` call is the parameter `now`. In `getExpiringCount` the source reads the clock once per item; the model uses a single `now` for the whole count.
- `FoodStore.ExpiringCount`: states the count in milliseconds (`expiry - now <= 24 h`), because a warning or expired status is exactly that condition (`Expiration.GetExpirationStatus`).
- `FoodStore.FinishedItemsStable`: the lemma's parameter is the sort key, which is the negated finishing time. The finished list is sorted ascending by that key.
- `Types.DeclaredFoodItem`: what `lib/types.ts:16-27` promises (one location; nullable entry time, expiry date and notes; one finished flag) holds by the datatype's own field types, so no lemma states it. The store does not use this record.
- The data hooks (`hooks/use-food-items.ts`) are left out: refresh intervals and cache invalidation. The one exception is that the finished query sweeps before listing, which `Store.SweepAndListFinished` models.
- React components, the add-item dialog's form checks, and the authentication pages and middleware are presentation, routing and network I/O. They are not part of this model.
