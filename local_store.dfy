/** The local-storage branch of `ShoppingDatabase`: a list of item records
    kept under one storage key, read back whole, changed, and written back
    whole on every call. */
module LocalStore {
  import opened Common

  /** The properties a caller hands to `addItem`. */
  datatype ItemData = ItemData(name: string, quantity: int, category: string, completed: bool, priority: int)

  /** A stored record: the caller's properties plus the id the store gave it. */
  datatype Item = Item(id: string, name: string, quantity: int, category: string, completed: bool, priority: int)

  /** The properties an `updateItem` call overwrites; `None` leaves one alone. */
  datatype Patch = Patch(
    name: Option<string>,
    quantity: Option<int>,
    category: Option<string>,
    completed: Option<bool>,
    priority: Option<int>)

  function QuantityPatch(q: int): Patch
  {
    Patch(None, Some(q), None, None, None)
  }

  function CompletedPatch(b: bool): Patch
  {
    Patch(None, None, None, Some(b), None)
  }

  /** What the storage key holds: nothing, text that does not parse, or an encoded list. */
  datatype Stored = Missing | Unreadable | Saved(records: seq<Item>)

  /** `{ id, ...itemData, completed: false }`: the store's id, the caller's
      properties, and `completed` forced to false because it is written last. */
  function NewRecord(id: string, d: ItemData): (r: Item)
    ensures r.id == id && !r.completed
    ensures r.name == d.name && r.quantity == d.quantity && r.category == d.category && r.priority == d.priority
  {
    Item(id, d.name, d.quantity, d.category, false, d.priority)
  }

  /** `{ ...item, ...patch }`. */
  function Apply(it: Item, p: Patch): (r: Item)
    ensures r.id == it.id
    ensures r.name == (if p.name.Some? then p.name.value else it.name)
    ensures r.quantity == (if p.quantity.Some? then p.quantity.value else it.quantity)
    ensures r.category == (if p.category.Some? then p.category.value else it.category)
    ensures r.completed == (if p.completed.Some? then p.completed.value else it.completed)
    ensures r.priority == (if p.priority.Some? then p.priority.value else it.priority)
  {
    Item(it.id,
         if p.name.Some? then p.name.value else it.name,
         if p.quantity.Some? then p.quantity.value else it.quantity,
         if p.category.Some? then p.category.value else it.category,
         if p.completed.Some? then p.completed.value else it.completed,
         if p.priority.Some? then p.priority.value else it.priority)
  }

  /** `findIndex(item => item.id === id)`: the first record with that id. */
  function FindById(s: seq<Item>, id: string): (r: Option<nat>)
    ensures r.Some? ==> r.value < |s| && s[r.value].id == id
    ensures r.Some? ==> forall j :: 0 <= j < r.value ==> s[j].id != id
    ensures r.None? ==> forall j :: 0 <= j < |s| ==> s[j].id != id
    decreases |s|
  {
    if s == [] then None
    else if s[0].id == id then Some(0)
    else match FindById(s[1..], id)
      case None => None
      case Some(i) => Some(i + 1)
  }

  /** `filter(item => item.id !== id)`. */
  function WithoutId(s: seq<Item>, id: string): (r: seq<Item>)
    ensures forall x :: x in r <==> x in s && x.id != id
    ensures |r| <= |s|
    decreases |s|
  {
    if s == [] then []
    else (if s[0].id == id then [] else [s[0]]) + WithoutId(s[1..], id)
  }

  /** Filtering out an id that is absent leaves the list as it was. */
  lemma {:induction false} WithoutAbsentId(s: seq<Item>, id: string)
    requires forall j :: 0 <= j < |s| ==> s[j].id != id
    ensures WithoutId(s, id) == s
    decreases |s|
  {
    if s != [] {
      WithoutAbsentId(s[1..], id);
    }
  }

  /** Filtering out a present id shortens the list. */
  lemma {:induction false} WithoutPresentId(s: seq<Item>, k: nat)
    requires k < |s|
    ensures |WithoutId(s, s[k].id)| < |s|
    decreases |s|
  {
    if s[0].id != s[k].id {
      WithoutPresentId(s[1..], k - 1);
    }
  }

  /** Filtering keeps the relative order: filtering a concatenation is
      concatenating the filtered parts. */
  lemma {:induction false} WithoutIdAppend(a: seq<Item>, b: seq<Item>, id: string)
    ensures WithoutId(a + b, id) == WithoutId(a, id) + WithoutId(b, id)
    decreases |a|
  {
    if a != [] {
      assert (a + b)[1..] == a[1..] + b;
      WithoutIdAppend(a[1..], b, id);
    } else {
      assert a + b == b;
    }
  }

  /** What `getLocalItems()` reads back: the stored list, or the empty list
      when nothing is stored or the stored text does not parse. */
  function StoredItems(st: Stored): seq<Item>
  {
    if st.Saved? then st.records else []
  }

  /** The storage after `updateItem(id, patch)`: the first record with that
      id patched and the list written back, or no write at all when the id
      is absent or the write fails. */
  function StoreAfterUpdate(st: Stored, id: string, patch: Patch, writeOk: bool): Stored
  {
    match FindById(StoredItems(st), id)
    case None => st
    case Some(k) => if writeOk then Saved(StoredItems(st)[k := Apply(StoredItems(st)[k], patch)]) else st
  }

  /** The storage after `deleteItem(id)`. */
  function StoreAfterDelete(st: Stored, id: string, writeOk: bool): Stored
  {
    if writeOk then Saved(WithoutId(StoredItems(st), id)) else st
  }

  /** `getStatus()`: which back end the database uses. */
  datatype DbStatus = DbStatus(isFirebaseEnabled: bool, storageType: string)

  function GetStatus(isFirebaseEnabled: bool): (r: DbStatus)
    ensures r.isFirebaseEnabled == isFirebaseEnabled
    ensures r.storageType == "Firebase Firestore" <==> isFirebaseEnabled
    ensures r.storageType == "Local Storage" <==> !isFirebaseEnabled
  {
    DbStatus(isFirebaseEnabled, if isFirebaseEnabled then "Firebase Firestore" else "Local Storage")
  }

  /** Stands for the error `localStorage.setItem` throws when a write
      fails; the text is a placeholder, since the browser chooses the
      actual exception. */
  const WriteFailed := "failed to write the shopping list to local storage"

  /** The database object; `stored` is the content of its storage key.
      A `writeOk` parameter says whether writing the key back succeeds
      (`localStorage.setItem` throws when storage is full). */
  class ShoppingDatabase {
    var stored: Stored

    constructor (initial: Stored)
      ensures stored == initial
    {
      stored := initial;
    }

    /** `getLocalItems()`: the stored list, or the empty list when nothing is
        stored or the stored text does not parse. */
    function Items(): (r: seq<Item>)
      reads this
      ensures stored.Saved? ==> r == stored.records
      ensures stored == Missing || stored == Unreadable ==> r == []
    {
      StoredItems(stored)
    }

    /** `getItems()` on the local branch. */
    method GetItems() returns (s: seq<Item>)
      ensures s == Items()
      ensures !stored.Saved? ==> s == []
    {
      s := if stored.Saved? then stored.records else [];
    }

    /** `addItem(itemData)`: appends exactly one record, with a fresh id and
        `completed` false, and returns it; a failed write throws and stores nothing. */
    method AddItem(data: ItemData, newId: string, writeOk: bool) returns (r: Result<Item>)
      modifies this
      ensures writeOk ==> r == Ok(NewRecord(newId, data))
      ensures writeOk ==> stored == Saved(old(Items()) + [NewRecord(newId, data)])
      ensures writeOk ==> |Items()| == |old(Items())| + 1
      ensures !writeOk ==> r == Err(WriteFailed) && stored == old(stored)
    {
      var items := Items();
      var newItem := NewRecord(newId, data);
      items := items + [newItem];
      if !writeOk {
        return Err(WriteFailed);
      }
      stored := Saved(items);
      r := Ok(newItem);
    }

    /** `updateItem(id, patch)`: merges the patch into the first record with
        that id; an absent id writes nothing and yields false. */
    method UpdateItem(id: string, patch: Patch, writeOk: bool) returns (ok: bool)
      modifies this
      ensures FindById(old(Items()), id).None? ==> !ok && stored == old(stored)
      ensures FindById(old(Items()), id).Some? ==>
        var k := FindById(old(Items()), id).value;
        ok == writeOk &&
        stored == if writeOk then Saved(old(Items())[k := Apply(old(Items())[k], patch)]) else old(stored)
      ensures stored == StoreAfterUpdate(old(stored), id, patch, writeOk)
    {
      var items := Items();
      var itemIndex := FindById(items, id);
      if itemIndex.Some? {
        var k := itemIndex.value;
        items := items[k := Apply(items[k], patch)];
        if !writeOk {
          return false;
        }
        stored := Saved(items);
        return true;
      }
      return false;
    }

    /** `deleteItem(id)`: writes back the list without every record with that
        id and yields true, whether or not the id was there. */
    method DeleteItem(id: string, writeOk: bool) returns (ok: bool)
      modifies this
      ensures ok == writeOk
      ensures stored == if writeOk then Saved(WithoutId(old(Items()), id)) else old(stored)
      ensures stored == StoreAfterDelete(old(stored), id, writeOk)
    {
      var items := Items();
      var filteredItems := WithoutId(items, id);
      if !writeOk {
        return false;
      }
      stored := Saved(filteredItems);
      return true;
    }

    /** `clearAllItems()`: removes the storage key, so a later read sees no items. */
    method ClearAllItems() returns (ok: bool)
      modifies this
      ensures ok && stored == Missing
      ensures Items() == []
    {
      stored := Missing;
      return true;
    }
  }
}
