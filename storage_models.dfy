/**
 * The storage grid of the wine cellar: a `Storage` (a shelf or rack with `rows` x `columns`
 * slots) and the `StorageItem` rows (one per bottle) that point at it. The item table is one
 * sequence of rows; `storage.items` is the part of it whose foreign key names the storage.
 * Every query of the grid is a function over that sequence.
 */
module StorageModels {
  import opened Common

  /** A storage row. `rows` and `columns` are positive-integer columns defaulting to 0. */
  datatype Storage = Storage(
    id: nat,
    user: Option<nat>,
    name: string,
    description: Option<string>,
    location: string,
    rows: nat,
    columns: nat)

  /** A bottle in a storage. Placement is optional on both axes; deletion is a flag. Prices are in cents. */
  datatype StorageItem = StorageItem(
    id: nat,
    storage: nat,
    wine: nat,
    user: Option<nat>,
    row: Option<nat>,
    column: Option<nat>,
    deleted: bool,
    price: Option<int>)

  /** A freshly created item: `deleted` takes its default, placement and price are whatever was given. */
  function NewStorageItem(id: nat, storage: nat, wine: nat, user: Option<nat>,
                          row: Option<nat>, column: Option<nat>, price: Option<int>): (it: StorageItem)
    ensures !it.deleted
    ensures it.storage == storage && it.wine == wine
    ensures it.row == row && it.column == column && it.price == price
  {
    StorageItem(id, storage, wine, user, row, column, false, price)
  }

  /** `storage.items`: the item rows whose foreign key is `sid`, in table order. */
  function ItemsOf(items: seq<StorageItem>, sid: nat): (r: seq<StorageItem>)
    ensures |r| <= |items|
    ensures forall x :: multiset(r)[x] == if x.storage == sid then multiset(items)[x] else 0
  {
    Filter(items, (x: StorageItem) => x.storage == sid)
  }

  /** The rows not flagged as deleted: `filter(deleted=False)`. */
  function Live(items: seq<StorageItem>): (r: seq<StorageItem>)
    ensures |r| <= |items|
    ensures forall x :: multiset(r)[x] == if x.deleted then 0 else multiset(items)[x]
  {
    Filter(items, (x: StorageItem) => !x.deleted)
  }

  /** The number of slots of the grid. */
  function TotalSlots(s: Storage): (n: nat)
    ensures n == 0 <==> s.rows == 0 || s.columns == 0
    ensures s.columns > 0 ==> n >= s.rows
    ensures s.rows > 0 ==> n >= s.columns
  {
    s.rows * s.columns
  }

  /** `used_slots`: the count of `storage.items`, whatever their placement or deletion flag. */
  function UsedSlots(s: Storage, items: seq<StorageItem>): (n: nat)
    ensures n <= |items|
  {
    |ItemsOf(items, s.id)|
  }

  /** `is_full`: the grid counts as full once the used slots reach the total. */
  predicate IsFull(s: Storage, items: seq<StorageItem>)
    ensures TotalSlots(s) == 0 ==> IsFull(s, items)
    ensures IsFull(s, items) ==> |items| >= TotalSlots(s)
  {
    UsedSlots(s, items) >= TotalSlots(s)
  }

  /**
   * `is_slot_occupied(row, column)`: some item of the storage has exactly this placement.
   * There is neither a deletion filter nor a bounds check; `None` stands for a NULL lookup.
   */
  predicate IsSlotOccupied(s: Storage, items: seq<StorageItem>, row: Option<nat>, column: Option<nat>)
    ensures IsSlotOccupied(s, items, row, column) ==> UsedSlots(s, items) > 0
  {
    Filter(ItemsOf(items, s.id), (x: StorageItem) => x.row == row && x.column == column) != []
  }

  // ---------------------------------------------------------------------------------------
  // order_by("row", "column")
  // ---------------------------------------------------------------------------------------

  /** Ascending order on a nullable column, with NULL first. */
  predicate NullFirstLe(a: Option<nat>, b: Option<nat>)
  {
    a.None? || (b.Some? && a.value <= b.value)
  }

  /** Ascending order on (row, column), rows compared first. */
  predicate PlacementLe(a: StorageItem, b: StorageItem)
  {
    (a.row != b.row && NullFirstLe(a.row, b.row)) || (a.row == b.row && NullFirstLe(a.column, b.column))
  }

  predicate SortedByPlacement(s: seq<StorageItem>)
  {
    forall i, j :: 0 <= i < j < |s| ==> PlacementLe(s[i], s[j])
  }

  lemma PlacementLeTotal(a: StorageItem, b: StorageItem)
    ensures PlacementLe(a, b) || PlacementLe(b, a)
  {
  }

  lemma PlacementLeTransitive(a: StorageItem, b: StorageItem, c: StorageItem)
    requires PlacementLe(a, b) && PlacementLe(b, c)
    ensures PlacementLe(a, c)
  {
  }

  /** Inserts `x` into a sequence already in placement order. */
  function InsertByPlacement(x: StorageItem, s: seq<StorageItem>): (r: seq<StorageItem>)
    requires SortedByPlacement(s)
    ensures multiset(r) == multiset(s) + multiset{x}
    ensures SortedByPlacement(r)
  {
    if s == [] then [x]
    else if PlacementLe(x, s[0]) then
      forall j | 0 <= j < |s| ensures PlacementLe(x, s[j]) {
        if j > 0 { PlacementLeTransitive(x, s[0], s[j]); }
      }
      [x] + s
    else
      assert s == [s[0]] + s[1..];
      var rest := InsertByPlacement(x, s[1..]);
      PlacementLeTotal(x, s[0]);
      forall j | 0 <= j < |rest| ensures PlacementLe(s[0], rest[j]) {
        assert rest[j] in multiset(rest);
        if rest[j] != x {
          assert rest[j] in multiset(s[1..]);
          var k :| 0 <= k < |s[1..]| && s[1..][k] == rest[j];
          assert s[k + 1] == rest[j];
        }
      }
      [s[0]] + rest
  }

  /** The rows of `s` in placement order, as the database returns them for `order_by("row", "column")`. */
  function SortByPlacement(s: seq<StorageItem>): (r: seq<StorageItem>)
    ensures multiset(r) == multiset(s)
    ensures SortedByPlacement(r)
  {
    if s == [] then []
    else
      assert s == [s[0]] + s[1..];
      InsertByPlacement(s[0], SortByPlacement(s[1..]))
  }

  /** `get_wines`: the live items of the storage, ordered by (row, column). */
  function GetWines(s: Storage, items: seq<StorageItem>): (r: seq<StorageItem>)
    ensures forall x :: multiset(r)[x] == if x.storage == s.id && !x.deleted then multiset(items)[x] else 0
    ensures SortedByPlacement(r)
  {
    SortByPlacement(Live(ItemsOf(items, s.id)))
  }

  // ---------------------------------------------------------------------------------------
  // on_delete=CASCADE from the storage to its items
  // ---------------------------------------------------------------------------------------

  /** The item table after the storage `sid` is deleted: the database cascades to its items. */
  function DeleteStorageItems(items: seq<StorageItem>, sid: nat): (r: seq<StorageItem>)
    ensures forall x :: multiset(r)[x] == if x.storage == sid then 0 else multiset(items)[x]
  {
    Filter(items, (x: StorageItem) => x.storage != sid)
  }

  // ---------------------------------------------------------------------------------------
  // Properties
  // ---------------------------------------------------------------------------------------

  /** A grid with no rows or no columns is full, even with no items at all (the default 0 x 0 grid). */
  lemma DegenerateGridIsFull(s: Storage, items: seq<StorageItem>)
    requires s.rows == 0 || s.columns == 0
    ensures IsFull(s, items)
    ensures IsFull(s, [])
  {
  }

  /** Adding an item to the table never makes a full grid stop being full. */
  lemma FullStaysFull(s: Storage, items: seq<StorageItem>, x: StorageItem)
    requires IsFull(s, items)
    ensures IsFull(s, items + [x])
  {
    var p := (y: StorageItem) => y.storage == s.id;
    FilterAppend(items, [x], p);
    assert ItemsOf(items + [x], s.id) == ItemsOf(items, s.id) + Filter([x], p);
  }

  /** `used_slots` is zero exactly when no item row points at the storage. */
  lemma UsedSlotsZeroIffNoItems(s: Storage, items: seq<StorageItem>)
    ensures UsedSlots(s, items) == 0 <==> forall i :: 0 <= i < |items| ==> items[i].storage != s.id
  {
    var mine := ItemsOf(items, s.id);
    if mine == [] {
      forall i | 0 <= i < |items| ensures items[i].storage != s.id {
        assert items[i] in multiset(items);
      }
    } else {
      assert mine[0] in multiset(mine);
    }
  }

  /** `used_slots` counts the live and the deleted items of the storage alike. */
  lemma UsedSlotsCountsDeleted(s: Storage, items: seq<StorageItem>)
    ensures UsedSlots(s, items) == |Live(ItemsOf(items, s.id))| + |Filter(ItemsOf(items, s.id), (x: StorageItem) => x.deleted)|
  {
    var mine := ItemsOf(items, s.id);
    FilterSplit(mine, (x: StorageItem) => !x.deleted, (x: StorageItem) => x.deleted);
  }

  /**
   * `used_slots` depends only on which storage each row points at: deleting an item, moving it
   * or unplacing it leaves the count unchanged.
   */
  lemma UsedSlotsIgnoresPlacementAndDeletion(s: Storage, items: seq<StorageItem>, items': seq<StorageItem>)
    requires |items| == |items'|
    requires forall i :: 0 <= i < |items| ==> items[i].storage == items'[i].storage
    ensures UsedSlots(s, items) == UsedSlots(s, items')
  {
    var p := (y: StorageItem) => y.storage == s.id;
    FilterLengthPointwise(items, items', p, p);
  }

  /** Creating an item in the storage adds one used slot and, being live, one wine to `get_wines`. */
  lemma NewItemIsCounted(s: Storage, items: seq<StorageItem>, id: nat, wine: nat, user: Option<nat>,
                                             row: Option<nat>, column: Option<nat>, price: Option<int>)
    ensures UsedSlots(s, items + [NewStorageItem(id, s.id, wine, user, row, column, price)]) == UsedSlots(s, items) + 1
    ensures NewStorageItem(id, s.id, wine, user, row, column, price) in GetWines(s, items + [NewStorageItem(id, s.id, wine, user, row, column, price)])
  {
    var x := NewStorageItem(id, s.id, wine, user, row, column, price);
    var p := (y: StorageItem) => y.storage == s.id;
    FilterAppend(items, [x], p);
    assert Filter([x], p) == [x];
    assert ItemsOf(items + [x], s.id) == ItemsOf(items, s.id) + [x];
    assert (items + [x])[|items|] == x;
    assert multiset(GetWines(s, items + [x]))[x] > 0;
  }

  /** `is_slot_occupied` holds exactly when some item of the storage has this placement. */
  lemma IsSlotOccupiedMeaning(s: Storage, items: seq<StorageItem>, row: Option<nat>, column: Option<nat>)
    ensures IsSlotOccupied(s, items, row, column) <==>
            exists i :: 0 <= i < |items| && items[i].storage == s.id && items[i].row == row && items[i].column == column
  {
    var mine := ItemsOf(items, s.id);
    var here := (x: StorageItem) => x.row == row && x.column == column;
    var hits := Filter(mine, here);
    if hits != [] {
      assert hits[0] in multiset(hits);
      assert hits[0] in multiset(mine);
      assert hits[0] in multiset(items);
      var i :| 0 <= i < |items| && items[i] == hits[0];
      assert items[i].storage == s.id;
    }
    if exists i :: 0 <= i < |items| && items[i].storage == s.id && items[i].row == row && items[i].column == column {
      var i :| 0 <= i < |items| && items[i].storage == s.id && items[i].row == row && items[i].column == column;
      assert items[i] in multiset(items);
      assert multiset(hits)[items[i]] > 0;
    }
  }

  /** A deleted item still occupies its slot, and an item outside the grid's bounds still counts. */
  lemma IsSlotOccupiedNoDeletedFilterNoBounds(s: Storage, items: seq<StorageItem>, i: nat)
    requires i < |items| && items[i].storage == s.id
    requires items[i].deleted
    ensures IsSlotOccupied(s, items, items[i].row, items[i].column)
  {
    IsSlotOccupiedMeaning(s, items, items[i].row, items[i].column);
  }

  /** An unplaced item never occupies a slot addressed by integer coordinates. */
  lemma UnplacedItemsOccupyNoSlot(s: Storage, items: seq<StorageItem>, row: nat, column: nat)
    requires forall i :: 0 <= i < |items| && items[i].storage == s.id ==> items[i].row.None? || items[i].column.None?
    ensures !IsSlotOccupied(s, items, Some(row), Some(column))
  {
    IsSlotOccupiedMeaning(s, items, Some(row), Some(column));
  }

  /** `get_wines` never lists more than `used_slots`. */
  lemma GetWinesWithinUsedSlots(s: Storage, items: seq<StorageItem>)
    ensures |GetWines(s, items)| <= UsedSlots(s, items)
  {
    var mine := ItemsOf(items, s.id);
    assert |GetWines(s, items)| == |multiset(GetWines(s, items))| == |multiset(Live(mine))| == |Live(mine)|;
  }

  /** Among placed items, `get_wines` is in row-major order. */
  lemma GetWinesPlacedRowMajor(s: Storage, items: seq<StorageItem>, i: nat, j: nat)
    requires i < j < |GetWines(s, items)|
    requires GetWines(s, items)[i].row.Some? && GetWines(s, items)[i].column.Some?
    requires GetWines(s, items)[j].row.Some? && GetWines(s, items)[j].column.Some?
    ensures var a, b := GetWines(s, items)[i], GetWines(s, items)[j];
            a.row.value < b.row.value || (a.row.value == b.row.value && a.column.value <= b.column.value)
  {
  }

  /** Deleting a storage removes all of its items and keeps the items of every other storage, in order. */
  lemma DeleteStorageCascades(items: seq<StorageItem>, sid: nat, other: nat)
    requires other != sid
    ensures ItemsOf(DeleteStorageItems(items, sid), sid) == []
    ensures ItemsOf(DeleteStorageItems(items, sid), other) == ItemsOf(items, other)
  {
    var keep := (x: StorageItem) => x.storage != sid;
    var mineOther := (x: StorageItem) => x.storage == other;
    FilterOfFilter(items, keep, mineOther);
  }

  /** With no bounds check, a 0 x 0 grid with one item reports more used slots than it has. */
  lemma UsedSlotsCanExceedTotal()
    ensures var s := Storage(1, None, "Default Shelf", None, "Cellar", 0, 0);
            var items := [StorageItem(7, 1, 3, None, Some(5), Some(5), true, None)];
            UsedSlots(s, items) == 1 > TotalSlots(s) && IsSlotOccupied(s, items, Some(5), Some(5))
  {
    var s := Storage(1, None, "Default Shelf", None, "Cellar", 0, 0);
    var items := [StorageItem(7, 1, 3, None, Some(5), Some(5), true, None)];
    IsSlotOccupiedMeaning(s, items, Some(5), Some(5));
  }
}
