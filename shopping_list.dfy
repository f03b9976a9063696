/** `ShoppingApp`: the in-memory shopping list, kept in step with the
    database, grouped by category, and summarised in statistics. */
module ShoppingList {
  import opened Common
  import opened Text
  import opened LocalStore

  /** What a caller passes to `addItem`. "" and 0 stand for a missing (falsy)
      property, since `x || d` treats both alike. */
  datatype ItemRequest = ItemRequest(item: string, quantity: int, category: string, priority: int)

  /** `x || d` on a number. */
  function OrNumber(x: int, d: int): int
  {
    if x == 0 then d else x
  }

  /** `category || 'Other'`. */
  function OrOther(c: string): string
  {
    if c == "" then "Other" else c
  }

  /** The group an item is listed under. */
  function CategoryOf(it: Item): string
  {
    OrOther(it.category)
  }

  /** The record `addItem` hands to the database for a name not yet listed. */
  function NewItemData(req: ItemRequest): ItemData
  {
    ItemData(req.item, OrNumber(req.quantity, 1), OrOther(req.category), false, OrNumber(req.priority, 3))
  }

  /** `item.name.toLowerCase() === name.toLowerCase()`. */
  predicate SameName(it: Item, name: string)
  {
    ToLower(it.name) == ToLower(name)
  }

  /** `item.name.toLowerCase().includes(query.toLowerCase())`. */
  predicate NameIncludes(it: Item, query: string)
  {
    Contains(ToLower(it.name), ToLower(query))
  }

  /** `items.find(...)` by name, ignoring case: the first equal name. */
  function FindByName(s: seq<Item>, name: string): (r: Option<nat>)
    ensures r.Some? ==> r.value < |s| && SameName(s[r.value], name)
    ensures r.Some? ==> forall j :: 0 <= j < r.value ==> !SameName(s[j], name)
    ensures r.None? ==> forall j :: 0 <= j < |s| ==> !SameName(s[j], name)
    decreases |s|
  {
    if s == [] then None
    else if SameName(s[0], name) then Some(0)
    else match FindByName(s[1..], name)
      case None => None
      case Some(i) => Some(i + 1)
  }

  /** `items.find(...)` by substring, ignoring case: the first name that includes the query. */
  function FindIncluding(s: seq<Item>, query: string): (r: Option<nat>)
    ensures r.Some? ==> r.value < |s| && NameIncludes(s[r.value], query)
    ensures r.Some? ==> forall j :: 0 <= j < r.value ==> !NameIncludes(s[j], query)
    ensures r.None? ==> forall j :: 0 <= j < |s| ==> !NameIncludes(s[j], query)
    decreases |s|
  {
    if s == [] then None
    else if NameIncludes(s[0], query) then Some(0)
    else match FindIncluding(s[1..], query)
      case None => None
      case Some(i) => Some(i + 1)
  }

  // ---------------------------------------------------------------------
  // What each operation does to the list, as functions of the old list.
  // ---------------------------------------------------------------------

  /** The list after `removeItem(name)`. */
  function AfterRemove(s: seq<Item>, name: string): seq<Item>
  {
    match FindIncluding(s, name)
    case None => s
    case Some(k) => WithoutId(s, s[k].id)
  }

  /** The list after `updateItemQuantity(id, q)`: a positive quantity is
      written into the first entry with that id, a quantity of 0 or less
      becomes `removeItem` of that entry's name. */
  function AfterSetQuantity(s: seq<Item>, id: string, q: int): seq<Item>
  {
    match FindById(s, id)
    case None => s
    case Some(k) => if q <= 0 then AfterRemove(s, s[k].name) else s[k := s[k].(quantity := q)]
  }

  /** The list after `toggleItemCompletion(id)`. */
  function AfterToggle(s: seq<Item>, id: string): seq<Item>
  {
    match FindById(s, id)
    case None => s
    case Some(k) => s[k := s[k].(completed := !s[k].completed)]
  }

  /** The list after `addItem(req)`; `writeOk` says whether the database
      accepts a new record. */
  function AfterAdd(s: seq<Item>, req: ItemRequest, newId: string, writeOk: bool): seq<Item>
  {
    if Trim(req.item) == "" then s
    else match FindByName(s, req.item)
      case Some(k) => AfterSetQuantity(s, s[k].id, s[k].quantity + OrNumber(req.quantity, 1))
      case None => if writeOk then s + [NewRecord(newId, NewItemData(req))] else s
  }

  // ---------------------------------------------------------------------
  // What each operation does to the storage, as functions of the old
  // storage and the old list: the database is called with ids and names
  // taken from the list, not from the storage.
  // ---------------------------------------------------------------------

  /** The storage after `removeItem(name)`: `deleteItem` of the id of the
      first entry whose name includes `name`, or no call when none does. */
  function StoreAfterRemove(st: Stored, s: seq<Item>, name: string, writeOk: bool): Stored
  {
    match FindIncluding(s, name)
    case None => st
    case Some(k) => StoreAfterDelete(st, s[k].id, writeOk)
  }

  /** The storage after `updateItemQuantity(id, q)`: a positive quantity is
      patched into the stored record, anything else is `removeItem` of the
      listed entry's name, or no call when the id is not listed. */
  function StoreAfterSetQuantity(st: Stored, s: seq<Item>, id: string, q: int, writeOk: bool): Stored
  {
    if q > 0 then StoreAfterUpdate(st, id, QuantityPatch(q), writeOk)
    else match FindById(s, id)
      case None => st
      case Some(k) => StoreAfterRemove(st, s, s[k].name, writeOk)
  }

  /** The storage after `toggleItemCompletion(id)`: the flipped flag of the
      listed entry is patched into the stored record, or no call when the id
      is not listed. */
  function StoreAfterToggle(st: Stored, s: seq<Item>, id: string, writeOk: bool): Stored
  {
    match FindById(s, id)
    case None => st
    case Some(k) => StoreAfterUpdate(st, id, CompletedPatch(!s[k].completed), writeOk)
  }

  /** The storage after `addItem(req)`. */
  function StoreAfterAdd(st: Stored, s: seq<Item>, req: ItemRequest, newId: string, writeOk: bool): Stored
  {
    if Trim(req.item) == "" then st
    else match FindByName(s, req.item)
      case Some(k) => StoreAfterSetQuantity(st, s, s[k].id, s[k].quantity + OrNumber(req.quantity, 1), writeOk)
      case None => if writeOk then Saved(StoredItems(st) + [NewRecord(newId, NewItemData(req))]) else st
  }

  // When the list is what the storage holds and the write succeeds, every
  // operation leaves the storage holding exactly the new list.

  lemma StoreFollowsRemove(st: Stored, name: string)
    ensures StoredItems(StoreAfterRemove(st, StoredItems(st), name, true)) == AfterRemove(StoredItems(st), name)
  {
  }

  lemma StoreFollowsToggle(st: Stored, id: string)
    ensures StoredItems(StoreAfterToggle(st, StoredItems(st), id, true)) == AfterToggle(StoredItems(st), id)
  {
    var s := StoredItems(st);
    if FindById(s, id).Some? {
      var k := FindById(s, id).value;
      assert Apply(s[k], CompletedPatch(!s[k].completed)) == s[k].(completed := !s[k].completed);
    }
  }

  lemma StoreFollowsSetQuantity(st: Stored, id: string, q: int)
    ensures StoredItems(StoreAfterSetQuantity(st, StoredItems(st), id, q, true)) == AfterSetQuantity(StoredItems(st), id, q)
  {
    var s := StoredItems(st);
    if FindById(s, id).Some? {
      var k := FindById(s, id).value;
      if q > 0 {
        assert Apply(s[k], QuantityPatch(q)) == s[k].(quantity := q);
      } else {
        StoreFollowsRemove(st, s[k].name);
      }
    }
  }

  lemma StoreFollowsAdd(st: Stored, req: ItemRequest, newId: string)
    ensures StoredItems(StoreAfterAdd(st, StoredItems(st), req, newId, true)) == AfterAdd(StoredItems(st), req, newId, true)
  {
    var s := StoredItems(st);
    if Trim(req.item) != "" && FindByName(s, req.item).Some? {
      var k := FindByName(s, req.item).value;
      StoreFollowsSetQuantity(st, s[k].id, s[k].quantity + OrNumber(req.quantity, 1));
    }
  }

  /** A failed write leaves the storage as it was, whatever the operation. */
  lemma FailedWriteKeepsStore(st: Stored, s: seq<Item>, id: string, name: string, q: int, req: ItemRequest, newId: string)
    ensures StoreAfterRemove(st, s, name, false) == st
    ensures StoreAfterToggle(st, s, id, false) == st
    ensures StoreAfterSetQuantity(st, s, id, q, false) == st
    ensures StoreAfterAdd(st, s, req, newId, false) == st
  {
  }

  /** Stands for the error thrown when forwarding a new entry to the
      suggestion history fails; the text is a placeholder, since the thrown
      value comes from code outside this model. */
  const HistoryFailed := "addToHistory failed"

  /** What `addItem(req)` returns or throws. A name already listed yields the
      existing entry object, which shows the new quantity only when the
      update wrote to that same object. */
  function AddResult(s: seq<Item>, req: ItemRequest, newId: string, writeOk: bool, historyFails: bool): Result<Item>
  {
    if Trim(req.item) == "" then Err("Item name is required")
    else match FindByName(s, req.item)
      case Some(k) =>
        var q := s[k].quantity + OrNumber(req.quantity, 1);
        Ok(if FindById(s, s[k].id) == Some(k) && q > 0 then s[k].(quantity := q) else s[k])
      case None =>
        if !writeOk then Err(WriteFailed)
        else if historyFails then Err(HistoryFailed)
        else Ok(NewRecord(newId, NewItemData(req)))
  }

  /** A blank name is refused with "Item name is required" and changes
      nothing; otherwise the call fails only when storing a new entry fails
      or forwarding it to the history fails. A failed write leaves the list
      alone for a new name only: a listed name's list change does not
      depend on the write. */
  lemma AddResultCases(s: seq<Item>, req: ItemRequest, newId: string, writeOk: bool, historyFails: bool)
    ensures AllWhitespace(req.item) ==>
      AddResult(s, req, newId, writeOk, historyFails) == Err("Item name is required") &&
      AfterAdd(s, req, newId, writeOk) == s
    ensures AddResult(s, req, newId, writeOk, historyFails).Err? <==>
      AllWhitespace(req.item) || (FindByName(s, req.item).None? && (!writeOk || historyFails))
    ensures !AllWhitespace(req.item) && FindByName(s, req.item).None? && !writeOk ==>
      AfterAdd(s, req, newId, writeOk) == s
    ensures FindByName(s, req.item).Some? ==>
      AfterAdd(s, req, newId, writeOk) == AfterAdd(s, req, newId, true)
  {
    TrimEmptyIffBlank(req.item);
  }

  /** A successful add of a new name returns the entry it appended. */
  lemma AddReturnsAppendedEntry(s: seq<Item>, req: ItemRequest, newId: string, historyFails: bool)
    requires !AllWhitespace(req.item) && FindByName(s, req.item).None? && !historyFails
    ensures AddResult(s, req, newId, true, historyFails).Ok?
    ensures var r := AfterAdd(s, req, newId, true);
      |r| == |s| + 1 && r[|s|] == AddResult(s, req, newId, true, historyFails).value
  {
    TrimEmptyIffBlank(req.item);
  }

  /** Adding a name already listed returns that entry, with its id and name. */
  lemma AddReturnsExistingEntry(s: seq<Item>, req: ItemRequest, newId: string, writeOk: bool, historyFails: bool)
    requires !AllWhitespace(req.item) && FindByName(s, req.item).Some?
    ensures var k := FindByName(s, req.item).value;
      AddResult(s, req, newId, writeOk, historyFails).Ok? &&
      AddResult(s, req, newId, writeOk, historyFails).value.id == s[k].id &&
      AddResult(s, req, newId, writeOk, historyFails).value.name == s[k].name
  {
    TrimEmptyIffBlank(req.item);
  }

  /** No two entries share a name, ignoring case. */
  predicate DistinctNames(s: seq<Item>)
  {
    forall i, j :: 0 <= i < j < |s| ==> ToLower(s[i].name) != ToLower(s[j].name)
  }

  /** `removeItem(name)` removes exactly the entries sharing the id of the
      first entry whose name includes the query, or nothing when none does. */
  lemma RemoveRemovesExactlyThatId(s: seq<Item>, name: string)
    ensures FindIncluding(s, name).None? ==> AfterRemove(s, name) == s
    ensures FindIncluding(s, name).Some? ==>
      var k := FindIncluding(s, name).value;
      |AfterRemove(s, name)| < |s| &&
      forall x :: x in AfterRemove(s, name) <==> x in s && x.id != s[k].id
  {
    if FindIncluding(s, name).Some? {
      WithoutPresentId(s, FindIncluding(s, name).value);
    }
  }

  /** A positive quantity update changes the quantity of the first entry
      with that id and nothing else; an absent id changes nothing. */
  lemma SetQuantityChangesOnlyThatEntry(s: seq<Item>, id: string, q: int)
    requires q > 0
    ensures FindById(s, id).None? ==> AfterSetQuantity(s, id, q) == s
    ensures FindById(s, id).Some? ==>
      var k := FindById(s, id).value;
      var r := AfterSetQuantity(s, id, q);
      |r| == |s| && r[k] == s[k].(quantity := q) &&
      forall i :: 0 <= i < |s| && i != k ==> r[i] == s[i]
  {
  }

  /** The removal behind a zero quantity matches by substring, so it can
      remove an earlier entry and keep the one whose quantity was set:
      setting "milk" to 0 removes "Whole Milk" listed before it. */
  lemma ZeroQuantityCanRemoveAnotherEntry()
    ensures var whole := Item("1", "Whole Milk", 1, "Dairy", false, 3);
            var milk := Item("2", "milk", 1, "Dairy", false, 3);
            AfterSetQuantity([whole, milk], "2", 0) == [milk]
  {
    var whole := Item("1", "Whole Milk", 1, "Dairy", false, 3);
    var milk := Item("2", "milk", 1, "Dairy", false, 3);
    var s := [whole, milk];
    assert FindById(s, "2") == Some(1);
    assert ToLower("Whole Milk") == "whole milk";
    assert ToLower("milk") == "milk";
    assert "whole milk"[6..6 + |"milk"|] == "milk";
    ContainsAt("whole milk", "milk", 6);
    assert FindIncluding(s, "milk") == Some(0);
    assert WithoutId(s, "1") == [milk];
  }

  /** `FindById` looks at ids only. */
  lemma {:induction false} FindByIdSameIds(s: seq<Item>, t: seq<Item>, id: string)
    requires |s| == |t| && forall i :: 0 <= i < |s| ==> s[i].id == t[i].id
    ensures FindById(s, id) == FindById(t, id)
    decreases |s|
  {
    if s != [] {
      FindByIdSameIds(s[1..], t[1..], id);
    }
  }

  /** Toggling flips `completed` of the first entry with that id only, and
      toggling twice restores the list. */
  lemma ToggleFlipsOnlyThatEntry(s: seq<Item>, id: string)
    ensures FindById(s, id).None? ==> AfterToggle(s, id) == s
    ensures FindById(s, id).Some? ==>
      var k := FindById(s, id).value;
      var r := AfterToggle(s, id);
      |r| == |s| && r[k] == s[k].(completed := !s[k].completed) &&
      forall i :: 0 <= i < |s| && i != k ==> r[i] == s[i]
    ensures AfterToggle(AfterToggle(s, id), id) == s
  {
    if FindById(s, id).Some? {
      FindByIdSameIds(s, AfterToggle(s, id), id);
    }
  }

  /** Filtering by id keeps names distinct. */
  lemma {:induction false} WithoutIdKeepsDistinctNames(s: seq<Item>, id: string)
    requires DistinctNames(s)
    ensures DistinctNames(WithoutId(s, id))
    decreases |s|
  {
    if s != [] {
      var tail := WithoutId(s[1..], id);
      WithoutIdKeepsDistinctNames(s[1..], id);
      if s[0].id != id {
        var r := WithoutId(s, id);
        assert r == [s[0]] + tail;
        assert forall k :: 0 < k < |r| ==> r[k] == tail[k - 1];
        forall j | 0 < j < |r| ensures ToLower(r[0].name) != ToLower(r[j].name) {
          assert tail[j - 1] in s[1..];
          var m :| 0 <= m < |s[1..]| && s[1..][m] == r[j];
          assert s[m + 1] == r[j];
        }
      }
    }
  }

  /** Adding never creates a second entry for a name already listed,
      ignoring case. */
  lemma AddKeepsNamesDistinct(s: seq<Item>, req: ItemRequest, newId: string, writeOk: bool)
    requires DistinctNames(s)
    ensures DistinctNames(AfterAdd(s, req, newId, writeOk))
  {
    if Trim(req.item) != "" {
      match FindByName(s, req.item) {
        case Some(k) =>
          var q := s[k].quantity + OrNumber(req.quantity, 1);
          match FindById(s, s[k].id) {
            case None =>
            case Some(m) =>
              if q <= 0 {
                match FindIncluding(s, s[m].name) {
                  case None =>
                  case Some(n) => WithoutIdKeepsDistinctNames(s, s[n].id);
                }
              }
          }
        case None =>
          if writeOk {
            AppendUnlistedKeepsNamesDistinct(s, NewRecord(newId, NewItemData(req)));
          }
      }
    }
  }

  /** Appending an entry whose name is not listed keeps names distinct. */
  lemma AppendUnlistedKeepsNamesDistinct(s: seq<Item>, x: Item)
    requires DistinctNames(s)
    requires forall j :: 0 <= j < |s| ==> !SameName(s[j], x.name)
    ensures DistinctNames(s + [x])
  {
    var r := s + [x];
    forall i, j | 0 <= i < j < |r| ensures ToLower(r[i].name) != ToLower(r[j].name) {
      if j == |s| {
        assert !SameName(s[i], x.name);
      } else {
        assert r[i] == s[i] && r[j] == s[j];
      }
    }
  }

  /** Adding a name not yet listed appends exactly one entry, carrying the
      defaults quantity 1, category 'Other' and priority 3 for missing
      properties and never completed. */
  lemma AddNewNameAppends(s: seq<Item>, req: ItemRequest, newId: string)
    requires !AllWhitespace(req.item) && FindByName(s, req.item).None?
    ensures var r := AfterAdd(s, req, newId, true);
      |r| == |s| + 1 && r[..|s|] == s &&
      r[|s|].id == newId && r[|s|].name == req.item && !r[|s|].completed &&
      r[|s|].quantity == (if req.quantity == 0 then 1 else req.quantity) &&
      r[|s|].category == (if req.category == "" then "Other" else req.category) &&
      r[|s|].priority == (if req.priority == 0 then 3 else req.priority)
  {
    TrimEmptyIffBlank(req.item);
    assert AfterAdd(s, req, newId, true)[..|s|] == s;
  }

  /** Adding a name already listed, whose entry is the first with its id and
      whose new total stays positive, creates no entry: the existing
      quantity grows by the requested quantity, a missing or zero one
      counting as 1. */
  lemma AddExistingNameMerges(s: seq<Item>, req: ItemRequest, newId: string, writeOk: bool)
    requires !AllWhitespace(req.item) && FindByName(s, req.item).Some?
    requires FindById(s, s[FindByName(s, req.item).value].id) == FindByName(s, req.item)
    requires s[FindByName(s, req.item).value].quantity + OrNumber(req.quantity, 1) > 0
    ensures var k := FindByName(s, req.item).value;
      var r := AfterAdd(s, req, newId, writeOk);
      |r| == |s| &&
      r[k].quantity == s[k].quantity + (if req.quantity == 0 then 1 else req.quantity) &&
      r[k].name == s[k].name && r[k].id == s[k].id &&
      forall i :: 0 <= i < |s| && i != k ==> r[i] == s[i]
  {
    TrimEmptyIffBlank(req.item);
  }

  /** Adding a name already listed, whose entry is the first with its id,
      with a new total of 0 or less merges nothing: it is `removeItem` of
      that entry's name, which removes by substring. */
  lemma AddExistingNonPositiveRemoves(s: seq<Item>, req: ItemRequest, newId: string, writeOk: bool)
    requires !AllWhitespace(req.item) && FindByName(s, req.item).Some?
    requires FindById(s, s[FindByName(s, req.item).value].id) == FindByName(s, req.item)
    requires s[FindByName(s, req.item).value].quantity + OrNumber(req.quantity, 1) <= 0
    ensures AfterAdd(s, req, newId, writeOk) == AfterRemove(s, s[FindByName(s, req.item).value].name)
  {
    TrimEmptyIffBlank(req.item);
  }

  // ---------------------------------------------------------------------
  // `updateCategories`: the items grouped by category, in first-seen order.
  // ---------------------------------------------------------------------

  /** One key of `this.categories`; members are positions in `items`, which
      stand for the object references the groups share with the list. */
  datatype Group = Group(category: string, members: seq<nat>)

  /** `this.categories[c]` exists: the position of that group, if any. */
  function GroupIndex(gs: seq<Group>, c: string): (r: Option<nat>)
    ensures r.Some? ==> r.value < |gs| && gs[r.value].category == c
    ensures r.Some? ==> forall j :: 0 <= j < r.value ==> gs[j].category != c
    ensures r.None? ==> forall j :: 0 <= j < |gs| ==> gs[j].category != c
    decreases |gs|
  {
    if gs == [] then None
    else if gs[0].category == c then Some(0)
    else match GroupIndex(gs[1..], c)
      case None => None
      case Some(i) => Some(i + 1)
  }

  /** Create the group for `c` if missing, then push position `i` onto it. */
  function Place(gs: seq<Group>, c: string, i: nat): seq<Group>
  {
    match GroupIndex(gs, c)
    case None => gs + [Group(c, [i])]
    case Some(j) => gs[j := gs[j].(members := gs[j].members + [i])]
  }

  /** The value `updateCategories` gives `this.categories`. */
  function Grouping(s: seq<Item>): seq<Group>
    decreases |s|
  {
    if s == [] then [] else Place(Grouping(s[..|s| - 1]), CategoryOf(s[|s| - 1]), |s| - 1)
  }

  /** The category of every item, in list order. */
  function Categories(s: seq<Item>): (r: seq<string>)
    ensures |r| == |s| && forall i :: 0 <= i < |s| ==> r[i] == CategoryOf(s[i])
  {
    seq(|s|, i requires 0 <= i < |s| => CategoryOf(s[i]))
  }

  /** The positions of the items in category `c`, in list order. */
  function IndicesWith(s: seq<Item>, c: string): seq<nat>
    decreases |s|
  {
    if s == [] then []
    else IndicesWith(s[..|s| - 1], c) + (if CategoryOf(s[|s| - 1]) == c then [|s| - 1] else [])
  }

  function SumSizes(gs: seq<Group>): nat
    decreases |gs|
  {
    if gs == [] then 0 else |gs[0].members| + SumSizes(gs[1..])
  }

  /** Groups and counting entries that agree key by key and size by count. */
  predicate Mirrors(gs: seq<Group>, es: seq<Entry>)
  {
    |gs| == |es| && forall j :: 0 <= j < |gs| ==> gs[j].category == es[j].key && |gs[j].members| == es[j].count
  }

  lemma {:induction false} GroupIndexMirrors(gs: seq<Group>, es: seq<Entry>, c: string)
    requires Mirrors(gs, es)
    ensures GroupIndex(gs, c) == KeyIndex(es, c)
    decreases |gs|
  {
    if gs != [] {
      assert Mirrors(gs[1..], es[1..]);
      GroupIndexMirrors(gs[1..], es[1..], c);
    }
  }

  lemma {:induction false} SumSizesMirrors(gs: seq<Group>, es: seq<Entry>)
    requires Mirrors(gs, es)
    ensures SumSizes(gs) == SumCounts(es)
    decreases |gs|
  {
    if gs != [] {
      assert Mirrors(gs[1..], es[1..]);
      SumSizesMirrors(gs[1..], es[1..]);
    }
  }

  /** The groups mirror the per-category counts of `getStatistics`. */
  lemma {:induction false} GroupingMirrorsTally(s: seq<Item>)
    ensures Mirrors(Grouping(s), Tally(Categories(s)))
    decreases |s|
  {
    if s != [] {
      var p := s[..|s| - 1];
      GroupingMirrorsTally(p);
      assert Categories(s)[..|s| - 1] == Categories(p);
      GroupIndexMirrors(Grouping(p), Tally(Categories(p)), CategoryOf(s[|s| - 1]));
    }
  }

  /** Every category is one group, the groups are exactly the categories
      present, and the group sizes add up to the number of items. */
  lemma GroupingPartitions(s: seq<Item>)
    ensures forall i, j :: 0 <= i < j < |Grouping(s)| ==> Grouping(s)[i].category != Grouping(s)[j].category
    ensures forall c :: (exists j :: 0 <= j < |Grouping(s)| && Grouping(s)[j].category == c) <==> c in Categories(s)
    ensures SumSizes(Grouping(s)) == |s|
  {
    var gs, es := Grouping(s), Tally(Categories(s));
    GroupingMirrorsTally(s);
    TallyFacts(Categories(s));
    SumSizesMirrors(gs, es);
    forall c ensures (exists j :: 0 <= j < |gs| && gs[j].category == c) <==> c in Categories(s) {
      if c in Categories(s) {
        assert HasKey(es, c);
        var j :| 0 <= j < |es| && es[j].key == c;
        assert gs[j].category == c;
      }
      if exists j :: 0 <= j < |gs| && gs[j].category == c {
        var j :| 0 <= j < |gs| && gs[j].category == c;
        assert es[j].key == c;
      }
    }
  }

  lemma {:induction false} IndicesWithNone(s: seq<Item>, c: string)
    requires c !in Categories(s)
    ensures IndicesWith(s, c) == []
    decreases |s|
  {
    if s != [] {
      var p := s[..|s| - 1];
      assert Categories(s)[|s| - 1] == CategoryOf(s[|s| - 1]);
      forall i | 0 <= i < |p| ensures Categories(p)[i] != c { assert Categories(s)[i] == Categories(p)[i]; }
      IndicesWithNone(p, c);
    }
  }

  /** Each group holds exactly the positions of the items in its category. */
  lemma {:induction false} GroupMembers(s: seq<Item>)
    ensures forall j :: 0 <= j < |Grouping(s)| ==> Grouping(s)[j].members == IndicesWith(s, Grouping(s)[j].category)
    decreases |s|
  {
    if s != [] {
      var p, x := s[..|s| - 1], s[|s| - 1];
      var gs := Grouping(p);
      var c := CategoryOf(x);
      GroupMembers(p);
      GroupingPartitions(p);
      var r := Grouping(s);
      assert r == Place(gs, c, |s| - 1);
      forall j | 0 <= j < |r| ensures r[j].members == IndicesWith(s, r[j].category) {
        assert IndicesWith(s, r[j].category) == IndicesWith(p, r[j].category) + (if c == r[j].category then [|s| - 1] else []);
        match GroupIndex(gs, c)
        case None =>
          if j == |gs| {
            assert c !in Categories(p);
            IndicesWithNone(p, c);
          }
        case Some(m) =>
          if j != m { assert gs[j].category != gs[m].category; }
      }
    }
  }

  /** The positions in `IndicesWith` are exactly those of the category, ascending. */
  lemma {:induction false} IndicesWithFacts(s: seq<Item>, c: string)
    ensures forall i :: i in IndicesWith(s, c) ==> 0 <= i < |s|
    ensures forall i :: 0 <= i < |s| ==> (i in IndicesWith(s, c) <==> CategoryOf(s[i]) == c)
    ensures forall a, b :: 0 <= a < b < |IndicesWith(s, c)| ==> IndicesWith(s, c)[a] < IndicesWith(s, c)[b]
    decreases |s|
  {
    if s != [] {
      var p := s[..|s| - 1];
      IndicesWithFacts(p, c);
      assert forall i :: 0 <= i < |p| ==> p[i] == s[i];
      var ip := IndicesWith(p, c);
      assert forall a :: 0 <= a < |ip| ==> ip[a] in ip;
    }
  }

  /** One group holds exactly the positions of its category, ascending. */
  lemma GroupHolds(s: seq<Item>, j: nat)
    requires j < |Grouping(s)|
    ensures forall k :: k in Grouping(s)[j].members ==> 0 <= k < |s|
    ensures forall k :: 0 <= k < |s| ==> (k in Grouping(s)[j].members <==> CategoryOf(s[k]) == Grouping(s)[j].category)
    ensures forall a, b :: 0 <= a < b < |Grouping(s)[j].members| ==> Grouping(s)[j].members[a] < Grouping(s)[j].members[b]
  {
    GroupMembers(s);
    IndicesWithFacts(s, Grouping(s)[j].category);
  }

  /** `updateCategories` places every item in exactly one group, the one of
      its category. */
  lemma EachItemInExactlyOneGroup(s: seq<Item>, i: nat)
    requires i < |s|
    ensures exists j :: 0 <= j < |Grouping(s)| && i in Grouping(s)[j].members
    ensures forall j :: 0 <= j < |Grouping(s)| && i in Grouping(s)[j].members ==> Grouping(s)[j].category == CategoryOf(s[i])
    ensures forall j, j' :: (0 <= j < |Grouping(s)| && 0 <= j' < |Grouping(s)| &&
      i in Grouping(s)[j].members && i in Grouping(s)[j'].members) ==> j == j'
  {
    var gs := Grouping(s);
    GroupingPartitions(s);
    assert Categories(s)[i] == CategoryOf(s[i]);
    assert CategoryOf(s[i]) in Categories(s);
    var j :| 0 <= j < |gs| && gs[j].category == CategoryOf(s[i]);
    GroupHolds(s, j);
    forall j | 0 <= j < |gs| && i in gs[j].members ensures gs[j].category == CategoryOf(s[i]) {
      GroupHolds(s, j);
    }
  }

  /** Within each group the items keep their list order. */
  lemma GroupsKeepListOrder(s: seq<Item>)
    ensures forall j, a, b :: 0 <= j < |Grouping(s)| && 0 <= a < b < |Grouping(s)[j].members| ==>
      Grouping(s)[j].members[a] < Grouping(s)[j].members[b]
  {
    forall j | 0 <= j < |Grouping(s)| {
      GroupHolds(s, j);
    }
  }

  /** The grouping depends on the items' categories only, so changing a
      quantity or a completion flag keeps it. */
  lemma {:induction false} GroupingSameCategories(s: seq<Item>, t: seq<Item>)
    requires |s| == |t| && forall i :: 0 <= i < |s| ==> CategoryOf(s[i]) == CategoryOf(t[i])
    ensures Grouping(s) == Grouping(t)
    decreases |s|
  {
    if s != [] {
      GroupingSameCategories(s[..|s| - 1], t[..|t| - 1]);
    }
  }

  // ---------------------------------------------------------------------
  // `getStatistics`, `getHealthStatus` and the display order.
  // ---------------------------------------------------------------------

  function CountCompleted(s: seq<Item>): (n: nat)
    ensures n <= |s|
    decreases |s|
  {
    if s == [] then 0 else CountCompleted(s[..|s| - 1]) + (if s[|s| - 1].completed then 1 else 0)
  }

  /** `Math.round(part / whole * 100)` in exact arithmetic, 0 for an empty list. */
  function RoundedPercent(part: nat, whole: nat): int
  {
    if whole == 0 then 0 else (200 * part + whole) / (2 * whole)
  }

  lemma MulMonotone(a: int, b: int, c: int)
    requires a >= 0
    ensures b >= c ==> a * b >= a * c
  {
    assert a * b - a * c == a * (b - c);
  }

  /** The completion rate is a percentage. */
  lemma RoundedPercentBounds(part: nat, whole: nat)
    requires part <= whole
    ensures 0 <= RoundedPercent(part, whole) <= 100
  {
    if whole > 0 {
      var n, d := 200 * part + whole, 2 * whole;
      var q, m := n / d, n % d;
      assert n == d * q + m && 0 <= m < d;
      MulMonotone(d, q, 101);
      MulMonotone(d, -1, q);
      assert RoundedPercent(part, whole) == q;
    }
  }

  datatype Statistics = Statistics(
    totalItems: nat,
    completedItems: nat,
    pendingItems: int,
    categories: nat,
    itemsByCategory: seq<Entry>,
    completionRate: int)

  datatype HealthLevel = Healthy | Degraded | Unhealthy

  datatype Dependencies = Dependencies(database: bool, voiceHandler: bool, aiSuggestions: bool)

  datatype Health = Health(
    status: HealthLevel,
    issues: seq<string>,
    dependencies: Dependencies,
    storageType: string,
    itemsCount: nat)

  function MissingCount(d: Dependencies): nat
  {
    (if d.database then 0 else 1) + (if d.voiceHandler then 0 else 1) + (if d.aiSuggestions then 0 else 1)
  }

  function Sign(x: int): int
  {
    if x < 0 then -1 else if x > 0 then 1 else 0
  }

  /** The sort comparator of `renderShoppingList`: incomplete items first,
      then by category, then by name; `localeCompare` is a parameter
      because its order depends on the locale. */
  function CompareForDisplay(a: Item, b: Item, localeCompare: (string, string) -> int): (r: int)
    ensures a.completed != b.completed ==> r != 0 && (r < 0 <==> !a.completed)
  {
    if a.completed != b.completed then (if a.completed then 1 else -1)
    else if a.category != b.category then localeCompare(a.category, b.category)
    else localeCompare(a.name, b.name)
  }

  /** With an antisymmetric `localeCompare` the comparator is antisymmetric. */
  lemma CompareForDisplayAntisymmetric(a: Item, b: Item, localeCompare: (string, string) -> int)
    requires forall x, y :: Sign(localeCompare(x, y)) == -Sign(localeCompare(y, x))
    ensures Sign(CompareForDisplay(a, b, localeCompare)) == -Sign(CompareForDisplay(b, a, localeCompare))
  {
  }

  /** The application object. `db` is the database it awaits; each call on
      it is one sequential step. */
  class ShoppingApp {
    var items: seq<Item>
    var categories: seq<Group>
    var isLoading: bool
    const db: ShoppingDatabase

    /** `categories` always groups the current list. */
    ghost predicate Valid()
      reads this
    {
      categories == Grouping(items)
    }

    /** The list is what the database holds. */
    ghost predicate Synced()
      reads this, db
    {
      items == db.Items()
    }

    /** The starting state; `initializeApp` then calls `LoadItems`. */
    constructor (db: ShoppingDatabase)
      ensures Valid() && this.db == db && items == [] && categories == [] && !isLoading
    {
      items := [];
      categories := [];
      isLoading := false;
      this.db := db;
    }

    /** `updateCategories()`: rebuilds the groups with one push per item. */
    method UpdateCategories()
      modifies this`categories
      ensures categories == Grouping(items)
    {
      categories := [];
      var i := 0;
      while i < |items|
        invariant 0 <= i <= |items|
        invariant categories == Grouping(items[..i])
      {
        assert items[..i + 1][..i] == items[..i];
        categories := Place(categories, CategoryOf(items[i]), i);
        i := i + 1;
      }
      assert items[..|items|] == items;
    }

    /** `loadItems()`: the list becomes what the database holds. */
    method LoadItems()
      modifies this
      ensures Valid() && Synced() && !isLoading
      ensures items == db.Items()
    {
      isLoading := true;
      items := db.GetItems();
      UpdateCategories();
      isLoading := false;
    }

    /** `removeItem(name)`: removes every entry sharing the id of the first
        entry whose name includes `name`, ignoring case. */
    method RemoveItem(name: string, writeOk: bool) returns (removed: bool)
      requires Valid()
      modifies this, db
      ensures Valid() && !isLoading
      ensures removed == FindIncluding(old(items), name).Some?
      ensures items == AfterRemove(old(items), name)
      ensures !removed ==> db.stored == old(db.stored)
      ensures removed ==> db.stored == if writeOk
        then Saved(WithoutId(old(db.Items()), old(items)[FindIncluding(old(items), name).value].id))
        else old(db.stored)
      ensures db.stored == StoreAfterRemove(old(db.stored), old(items), name, writeOk)
      ensures old(Synced()) && writeOk ==> Synced()
    {
      isLoading := true;
      var found := FindIncluding(items, name);
      if found.None? {
        isLoading := false;
        return false;
      }
      var itemToRemove := items[found.value];
      // deleteItem reports a failed write by returning false, which is not checked here
      var _ := db.DeleteItem(itemToRemove.id, writeOk);
      items := WithoutId(items, itemToRemove.id);
      UpdateCategories();
      isLoading := false;
      return true;
    }

    /** `toggleItemCompletion(id)`. */
    method ToggleItemCompletion(id: string, writeOk: bool) returns (ok: bool)
      requires Valid()
      modifies this, db
      ensures Valid() && isLoading == old(isLoading)
      ensures ok == FindById(old(items), id).Some?
      ensures items == AfterToggle(old(items), id)
      ensures !ok || !writeOk ==> db.stored == old(db.stored)
      ensures db.stored == StoreAfterToggle(old(db.stored), old(items), id, writeOk)
      ensures old(Synced()) && writeOk ==> Synced()
    {
      var found := FindById(items, id);
      if found.None? {
        return false;
      }
      var k := found.value;
      var newStatus := !items[k].completed;
      var _ := db.UpdateItem(id, CompletedPatch(newStatus), writeOk);
      var before := items;
      items := items[k := items[k].(completed := newStatus)];
      GroupingSameCategories(before, items);
      return true;
    }

    /** `updateItemQuantity(id, q)`: a positive quantity is written into the
        entry, anything else removes it by name; true unless the removal
        branch finds no entry with that id. */
    method UpdateItemQuantity(id: string, newQuantity: int, writeOk: bool) returns (ok: bool)
      requires Valid()
      modifies this, db
      ensures Valid()
      ensures ok == (newQuantity > 0 || FindById(old(items), id).Some?)
      ensures items == AfterSetQuantity(old(items), id, newQuantity)
      ensures isLoading == if newQuantity <= 0 && FindById(old(items), id).Some? then false else old(isLoading)
      ensures !writeOk ==> db.stored == old(db.stored)
      ensures db.stored == StoreAfterSetQuantity(old(db.stored), old(items), id, newQuantity, writeOk)
      ensures old(Synced()) && writeOk ==> Synced()
    {
      if newQuantity <= 0 {
        var found := FindById(items, id);
        if found.Some? {
          ContainsSelf(ToLower(items[found.value].name));
          ok := RemoveItem(items[found.value].name, writeOk);
          return;
        }
        return false;
      }
      var _ := db.UpdateItem(id, QuantityPatch(newQuantity), writeOk);
      var found := FindById(items, id);
      if found.Some? {
        var k := found.value;
        var before := items;
        items := items[k := items[k].(quantity := newQuantity)];
        GroupingSameCategories(before, items);
      }
      return true;
    }

    /** `addItem(itemData)`: a blank name is refused; a name already listed
        (ignoring case) has its quantity increased; any other name becomes a
        new entry stored in the database. `historyFails` says whether the
        call that forwards the new entry to the suggestion history throws. */
    method AddItem(req: ItemRequest, newId: string, writeOk: bool, historyFails: bool) returns (r: Result<Item>)
      requires Valid()
      modifies this, db
      ensures Valid() && !isLoading
      ensures r == AddResult(old(items), req, newId, writeOk, historyFails)
      ensures items == AfterAdd(old(items), req, newId, writeOk)
      ensures Trim(req.item) != "" && FindByName(old(items), req.item).None? && writeOk ==>
        db.stored == Saved(old(db.Items()) + [NewRecord(newId, NewItemData(req))])
      ensures Trim(req.item) == "" || !writeOk ==> db.stored == old(db.stored)
      ensures db.stored == StoreAfterAdd(old(db.stored), old(items), req, newId, writeOk)
      ensures old(Synced()) && writeOk ==> Synced()
    {
      isLoading := true;
      if Trim(req.item) == "" {
        isLoading := false;
        return Err("Item name is required");
      }
      var existing := FindByName(items, req.item);
      if existing.Some? {
        var existingItem := items[existing.value];
        var newQuantity := existingItem.quantity + OrNumber(req.quantity, 1);
        // the returned object is the one the update writes to when it is the first with its id
        var shared := FindById(items, existingItem.id) == existing;
        ghost var before, stBefore := items, db.stored;
        assert StoreAfterAdd(stBefore, before, req, newId, writeOk) ==
          StoreAfterSetQuantity(stBefore, before, existingItem.id, newQuantity, writeOk);
        assert AfterAdd(before, req, newId, writeOk) == AfterSetQuantity(before, existingItem.id, newQuantity);
        var _ := UpdateItemQuantity(existingItem.id, newQuantity, writeOk);
        r := Ok(if shared && newQuantity > 0 then existingItem.(quantity := newQuantity) else existingItem);
        assert r == AddResult(before, req, newId, writeOk, historyFails);
        isLoading := false;
        return;
      }
      ghost var before, stBefore := items, db.stored;
      assert StoreAfterAdd(stBefore, before, req, newId, writeOk) ==
        if writeOk then Saved(StoredItems(stBefore) + [NewRecord(newId, NewItemData(req))]) else stBefore;
      var added := db.AddItem(NewItemData(req), newId, writeOk);
      if added.Err? {
        isLoading := false;
        return Err(added.message);
      }
      items := items + [added.value];
      UpdateCategories();
      isLoading := false;
      assert items == AfterAdd(before, req, newId, writeOk);
      if historyFails {
        return Err(HistoryFailed);
      }
      r := added;
    }

    /** `clearAllItems()` after the user answered the confirmation dialog. */
    method ClearAllItems(confirmed: bool)
      requires Valid()
      modifies this, db
      ensures Valid() && !isLoading
      ensures confirmed ==> items == [] && categories == [] && db.stored == Missing && Synced()
      ensures !confirmed ==> items == old(items) && db.stored == old(db.stored)
    {
      if !confirmed {
        isLoading := false;
        return;
      }
      isLoading := true;
      var _ := db.ClearAllItems();
      items := [];
      categories := [];
      isLoading := false;
    }

    /** `reset()`: empties the list without touching the database. */
    method Reset()
      modifies this
      ensures Valid() && items == [] && categories == [] && !isLoading
      ensures db.stored == old(db.stored)
    {
      items := [];
      categories := [];
      isLoading := false;
    }

    /** `getStatistics()`. */
    method GetStatistics() returns (st: Statistics)
      requires Valid()
      ensures st.totalItems == |items|
      ensures st.completedItems == CountCompleted(items)
      ensures st.completedItems + st.pendingItems == st.totalItems
      ensures st.itemsByCategory == Tally(Categories(items))
      ensures SumCounts(st.itemsByCategory) == st.totalItems
      ensures st.categories == |st.itemsByCategory|
      ensures st.completionRate == RoundedPercent(st.completedItems, st.totalItems)
      ensures 0 <= st.completionRate <= 100
      ensures st.totalItems == 0 ==> st.completionRate == 0
    {
      var completed := 0;
      var i := 0;
      while i < |items|
        invariant 0 <= i <= |items|
        invariant completed == CountCompleted(items[..i])
      {
        assert items[..i + 1][..i] == items[..i];
        if items[i].completed {
          completed := completed + 1;
        }
        i := i + 1;
      }
      assert items[..|items|] == items;
      var byCategory: seq<Entry> := [];
      i := 0;
      while i < |items|
        invariant 0 <= i <= |items|
        invariant byCategory == Tally(Categories(items)[..i])
      {
        assert Categories(items)[..i + 1][..i] == Categories(items)[..i];
        byCategory := Bump(byCategory, CategoryOf(items[i]));
        i := i + 1;
      }
      assert Categories(items)[..|items|] == Categories(items);
      TallyFacts(Categories(items));
      GroupingMirrorsTally(items);
      RoundedPercentBounds(completed, |items|);
      st := Statistics(|items|, completed, |items| - completed, |categories|, byCategory,
                       RoundedPercent(completed, |items|));
    }

    /** `getHealthStatus()`: one issue per missing dependency; healthy with
        none, unhealthy when all three are missing, degraded otherwise. */
    method GetHealthStatus(deps: Dependencies, storageType: Option<string>) returns (h: Health)
      ensures h.dependencies == deps && h.itemsCount == |items|
      ensures h.storageType == if storageType.Some? then storageType.value else "Unknown"
      ensures h.issues ==
        (if deps.database then [] else ["Database not initialized"]) +
        (if deps.voiceHandler then [] else ["Voice recognition not available"]) +
        (if deps.aiSuggestions then [] else ["AI suggestions not available"])
      ensures |h.issues| == MissingCount(deps)
      ensures h.status == Healthy <==> h.issues == []
      ensures h.status == Unhealthy <==> !deps.database && !deps.voiceHandler && !deps.aiSuggestions
      ensures h.status == Degraded <==> 0 < |h.issues| < 3
    {
      var status := Healthy;
      var issues: seq<string> := [];
      if !deps.database {
        issues := issues + ["Database not initialized"];
        status := Degraded;
      }
      if !deps.voiceHandler {
        issues := issues + ["Voice recognition not available"];
        status := Degraded;
      }
      if !deps.aiSuggestions {
        issues := issues + ["AI suggestions not available"];
        status := Degraded;
      }
      if |issues| > 2 {
        status := Unhealthy;
      }
      h := Health(status, issues, deps, if storageType.Some? then storageType.value else "Unknown", |items|);
    }
  }
}
