/**
 * The top-level client state: the item list the manager and customer views
 * show, the loading flag and error, the add/edit modals and the view mode,
 * changed by functional updaters.
 */
module AppState {
  import opened Wrappers
  import opened StoreTypes

  datatype Mode = Manager | Customer

  datatype State = State(
    items: seq<StoreItem>,
    loading: bool,
    error: Option<string>,
    showAddForm: bool,
    editingItem: Option<StoreItem>,
    mode: Mode)

  const LoadFailedMessage := "Failed to load items! \U{1F622}"

  /** The state the application mounts with: nothing loaded yet, loading, customer view. */
  const Initial := State([], true, None, false, None, Customer)

  predicate HasItem(items: seq<StoreItem>, id: int) {
    exists i :: 0 <= i < |items| && items[i].id == id
  }

  /** `map` replacing every item with the updated item's id. */
  function ReplaceById(items: seq<StoreItem>, updated: StoreItem): (r: seq<StoreItem>)
    ensures |r| == |items|
    ensures forall i :: 0 <= i < |r| ==> r[i] == if items[i].id == updated.id then updated else items[i]
  {
    if |items| == 0 then []
    else
      var last := items[|items| - 1];
      ReplaceById(items[..|items| - 1], updated) + [if last.id == updated.id then updated else last]
  }

  /** `filter` keeping the items with another id. */
  function RemoveById(items: seq<StoreItem>, id: int): (r: seq<StoreItem>)
    ensures |r| <= |items|
    ensures !HasItem(r, id)
    ensures forall i :: 0 <= i < |r| ==> r[i] in items
  {
    if |items| == 0 then []
    else
      var rest := RemoveById(items[..|items| - 1], id);
      var last := items[|items| - 1];
      if last.id == id then rest else rest + [last]
  }

  /** handleItemAdded: the new item goes first and the add form closes. */
  function ItemAdded(s: State, newItem: StoreItem): (r: State)
    ensures r.items == [newItem] + s.items
    ensures !r.showAddForm
    ensures r == s.(items := r.items, showAddForm := false)
  {
    s.(items := [newItem] + s.items, showAddForm := false)
  }

  /** handleItemEdited: items with that id are replaced and the edit target is cleared. */
  function ItemEdited(s: State, updated: StoreItem): (r: State)
    ensures r.items == ReplaceById(s.items, updated) && r.editingItem.None?
    ensures r == s.(items := r.items, editingItem := None)
  {
    s.(items := ReplaceById(s.items, updated), editingItem := None)
  }

  /** handleItemDeleted: items with that id leave the list. */
  function ItemDeleted(s: State, id: int): (r: State)
    ensures r.items == RemoveById(s.items, id)
    ensures r == s.(items := r.items)
  {
    s.(items := RemoveById(s.items, id))
  }

  /** handleEdit: the item becomes the edit target. */
  function Edit(s: State, item: StoreItem): (r: State)
    ensures r.editingItem == Some(item) && r == s.(editingItem := Some(item))
  {
    s.(editingItem := Some(item))
  }

  /** The modal and mode setters the views call. */
  function SetShowAddForm(s: State, show: bool): (r: State)
    ensures r.showAddForm == show && r == s.(showAddForm := show)
  {
    s.(showAddForm := show)
  }

  function CloseEdit(s: State): (r: State)
    ensures r.editingItem.None? && r == s.(editingItem := None)
  {
    s.(editingItem := None)
  }

  function SetMode(s: State, m: Mode): (r: State)
    ensures r.mode == m && r == s.(mode := m)
  {
    s.(mode := m)
  }

  /**
   * loadItems: the fetch either yields a list, which replaces the items and
   * clears the error, or fails, which records the error and keeps the items;
   * loading ends either way.
   */
  function LoadItems(s: State, fetched: Result<seq<StoreItem>, string>): (r: State)
    ensures !r.loading
    ensures fetched.Ok? ==> r.items == fetched.value && r.error.None?
    ensures fetched.Err? ==> r.items == s.items && r.error == Some(LoadFailedMessage)
    ensures r.showAddForm == s.showAddForm && r.editingItem == s.editingItem && r.mode == s.mode
  {
    match fetched
    case Ok(list) => s.(loading := false, items := list, error := None)
    case Err(_) => s.(loading := false, error := Some(LoadFailedMessage))
  }

  // ----------------------------------------------------------------------
  // Properties
  // ----------------------------------------------------------------------

  /**
   * The mount: the application starts loading in the customer view with no
   * items, and the first load either shows the fetched list or an empty list
   * with the load error, still in the customer view with no modal open.
   */
  lemma MountLoad(list: seq<StoreItem>, why: string)
    ensures Initial.loading && Initial.items == [] && Initial.mode == Customer
    ensures LoadItems(Initial, Ok(list)) == State(list, false, None, false, None, Customer)
    ensures LoadItems(Initial, Err(why)) == State([], false, Some(LoadFailedMessage), false, None, Customer)
  {
  }

  /** Filtering keeps the order: removing from a concatenation removes from each part. */
  lemma {:induction false} RemoveAppend(a: seq<StoreItem>, b: seq<StoreItem>, id: int)
    ensures RemoveById(a + b, id) == RemoveById(a, id) + RemoveById(b, id)
    decreases |b|
  {
    if |b| == 0 {
      assert a + b == a;
    } else {
      assert (a + b)[..|a + b| - 1] == a + b[..|b| - 1];
      RemoveAppend(a, b[..|b| - 1], id);
    }
  }

  /** Deleting an id the list does not hold keeps the list. */
  lemma {:induction false} RemoveAbsent(items: seq<StoreItem>, id: int)
    requires !HasItem(items, id)
    ensures RemoveById(items, id) == items
    decreases |items|
  {
    if |items| > 0 {
      var init := items[..|items| - 1];
      forall j | 0 <= j < |init| ensures init[j].id != id {
        assert init[j] == items[j];
      }
      RemoveAbsent(init, id);
      assert items == init + [items[|items| - 1]];
    }
  }

  /** Deleting keeps exactly the items with another id, in their order. */
  lemma {:induction false} RemoveKeepsOthers(items: seq<StoreItem>, id: int, x: StoreItem)
    ensures x in RemoveById(items, id) <==> x in items && x.id != id
    decreases |items|
  {
    if |items| > 0 {
      var init := items[..|items| - 1];
      RemoveKeepsOthers(init, id, x);
      assert items == init + [items[|items| - 1]];
    }
  }

  /** Adding an item with a fresh id and then deleting it gives back the list. */
  lemma AddThenDelete(s: State, newItem: StoreItem)
    requires !HasItem(s.items, newItem.id)
    ensures ItemDeleted(ItemAdded(s, newItem), newItem.id).items == s.items
  {
    RemoveAppend([newItem], s.items, newItem.id);
    RemoveAbsent(s.items, newItem.id);
    assert RemoveById([newItem], newItem.id) == [];
  }

  /** Editing an item and then deleting it is the same as deleting it. */
  lemma {:induction false} EditThenDelete(items: seq<StoreItem>, updated: StoreItem)
    ensures RemoveById(ReplaceById(items, updated), updated.id) == RemoveById(items, updated.id)
    decreases |items|
  {
    if |items| > 0 {
      var n := |items| - 1;
      var init := items[..n];
      EditThenDelete(init, updated);
      assert ReplaceById(items, updated)[..n] == ReplaceById(init, updated);
    }
  }

  /** Replacing keeps every id in place, so the ids of the list are those it had. */
  lemma ReplaceKeepsIds(items: seq<StoreItem>, updated: StoreItem)
    ensures forall i :: 0 <= i < |items| ==> ReplaceById(items, updated)[i].id == items[i].id
  {
  }

  /** Editing twice with the same record is editing once. */
  lemma EditIdempotent(s: State, updated: StoreItem)
    ensures ItemEdited(ItemEdited(s, updated), updated) == ItemEdited(s, updated)
  {
    var once := ReplaceById(s.items, updated);
    assert ReplaceById(once, updated) == once;
  }

  /** A failed reload after a good one keeps the list the good one brought. */
  lemma FailedReloadKeepsItems(s: State, list: seq<StoreItem>, why: string)
    ensures LoadItems(LoadItems(s, Ok(list)), Err(why)).items == list
    ensures LoadItems(LoadItems(s, Err(why)), Ok(list)).error.None?
  {
  }
}
