/** The post-save hook on users that gives every new account a default storage. */
module StorageSignals {
  import opened Common
  import opened StorageModels

  const DefaultStorageName: string := "Default Shelf"
  const DefaultStorageDescription: string := "Default storage for wines"
  const DefaultStorageLocation: string := "Cellar"

  /** The storage row the hook creates for `user`: a zero-sized shelf. */
  function DefaultStorage(id: nat, user: nat): (s: Storage)
    ensures s.id == id && s.user == Some(user)
    ensures s.name == DefaultStorageName && s.location == DefaultStorageLocation
    ensures s.description == Some(DefaultStorageDescription)
    ensures TotalSlots(s) == 0
  {
    Storage(id, Some(user), DefaultStorageName, Some(DefaultStorageDescription), DefaultStorageLocation, 0, 0)
  }

  /** The `Storage` table. */
  class StorageTable {
    var storages: seq<Storage>
    var nextId: nat

    /** Primary keys are distinct and already issued. */
    ghost predicate Valid()
      reads this
    {
      && (forall i :: 0 <= i < |storages| ==> storages[i].id < nextId)
      && (forall i, j :: 0 <= i < j < |storages| ==> storages[i].id != storages[j].id)
    }

    constructor ()
      ensures Valid() && storages == [] && nextId == 0
    {
      storages := [];
      nextId := 0;
    }

    /**
     * `create_storage`: after a user row is saved, insert the default storage when the row was
     * newly created; a re-save inserts nothing.
     */
    method CreateStorage(user: nat, created: bool)
      requires Valid()
      modifies this
      ensures Valid()
      ensures created ==> storages == old(storages) + [DefaultStorage(old(nextId), user)] && nextId == old(nextId) + 1
      ensures !created ==> storages == old(storages) && nextId == old(nextId)
    {
      if created {
        storages := storages + [DefaultStorage(nextId, user)];
        nextId := nextId + 1;
      }
    }
  }

  /** The hook adds exactly one storage for the new user and changes no existing storage. */
  lemma CreateStorageAddsOne(storages: seq<Storage>, id: nat, user: nat)
    requires forall i :: 0 <= i < |storages| ==> storages[i].id < id
    ensures var after := storages + [DefaultStorage(id, user)];
            && |after| == |storages| + 1
            && after[..|storages|] == storages
            && |Filter(after, (s: Storage) => s.user == Some(user))| == |Filter(storages, (s: Storage) => s.user == Some(user))| + 1
            && |Filter(after, (s: Storage) => s.id == id)| == 1
  {
    var after := storages + [DefaultStorage(id, user)];
    assert after[..|storages|] == storages;
    var own := (s: Storage) => s.user == Some(user);
    FilterAppend(storages, [DefaultStorage(id, user)], own);
    var hasId := (s: Storage) => s.id == id;
    FilterAppend(storages, [DefaultStorage(id, user)], hasId);
  }

  /**
   * The new storage is full from the start: it has no slots, so any item count reaches them.
   * Until an item is put in it, it lists no wines.
   */
  lemma DefaultStorageIsFull(id: nat, user: nat, items: seq<StorageItem>)
    ensures IsFull(DefaultStorage(id, user), items)
    ensures (forall i :: 0 <= i < |items| ==> items[i].storage != id) ==> GetWines(DefaultStorage(id, user), items) == []
  {
    var s := DefaultStorage(id, user);
    DegenerateGridIsFull(s, items);
    UsedSlotsZeroIffNoItems(s, items);
    GetWinesWithinUsedSlots(s, items);
  }
}
