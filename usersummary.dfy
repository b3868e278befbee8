/** The memory-summary dialog of src/components/adminDashboard/userManagement/UserSummary.jsx: grouping
    the summary items by category, the delete confirmations and the edit flow, and the reset on close.
    The server's replies are inputs. */
module UserSummary {
  import opened Wrappers

  datatype Item = Item(category: string, key: string, value: string)

  /** The record kept while the confirm dialog is open. */
  datatype DeleteAction = DeleteAll | DeleteItem(category: string, key: string)

  /** The outcome of a delete or update request: a failure, or success with the summary the server sent
      back (read only for item requests). */
  datatype Reply = Failed | Done(summary: seq<Item>)

  datatype View = View(open: bool, loading: bool, items: seq<Item>, editOpen: bool, edit: Option<Item>,
                       deleteOpen: bool, pending: Option<DeleteAction>, addOpen: bool)

  predicate Distinct(names: seq<string>) {
    forall i, j :: 0 <= i < j < |names| ==> names[i] != names[j]
  }

  /** The items of one category, in their original order. */
  function ItemsIn(items: seq<Item>, category: string): (r: seq<Item>)
    ensures |r| <= |items|
    ensures forall k :: 0 <= k < |r| ==> r[k].category == category
    ensures (forall k :: 0 <= k < |items| ==> items[k].category != category) ==> r == []
    decreases |items|
  {
    if items == [] then []
    else
      var last := items[|items| - 1];
      ItemsIn(items[..|items| - 1], category) + (if last.category == category then [last] else [])
  }

  /** The categories in the order they first occur: the key order of the grouped object. */
  function FirstSeen(items: seq<Item>): (order: seq<string>)
    ensures Distinct(order)
    ensures forall k :: 0 <= k < |items| ==> items[k].category in order
    ensures forall c :: c in order ==> exists k :: 0 <= k < |items| && items[k].category == c
    decreases |items|
  {
    if items == [] then []
    else
      var prior := FirstSeen(items[..|items| - 1]);
      var c := items[|items| - 1].category;
      if c in prior then prior else prior + [c]
  }

  /** The `reduce` behind `groupedSummary`: each item is pushed onto the list of its category, the list
      being created on the category's first occurrence. `order` is the resulting key order. */
  method GroupByCategory(items: seq<Item>) returns (order: seq<string>, groups: map<string, seq<Item>>)
    ensures order == FirstSeen(items)
    ensures groups.Keys == set c | c in order
    ensures forall c :: c in groups ==> groups[c] == ItemsIn(items, c)
  {
    order := [];
    groups := map[];
    var i := 0;
    while i < |items|
      invariant 0 <= i <= |items|
      invariant order == FirstSeen(items[..i])
      invariant groups.Keys == set c | c in order
      invariant forall c :: c in groups ==> groups[c] == ItemsIn(items[..i], c)
    {
      var item := items[i];
      assert items[..i + 1][..i] == items[..i];
      if item.category !in groups {
        groups := groups[item.category := []];
        order := order + [item.category];
      }
      groups := groups[item.category := groups[item.category] + [item]];
      i := i + 1;
    }
    assert items[..i] == items;
  }

  /** Grouping is compositional: the group of a concatenation is the two groups one after the other. */
  lemma {:induction false} ItemsInAppend(a: seq<Item>, b: seq<Item>, category: string)
    ensures ItemsIn(a + b, category) == ItemsIn(a, category) + ItemsIn(b, category)
    decreases |b|
  {
    if b == [] {
      assert a + b == a;
    } else {
      var b' := b[..|b| - 1];
      assert (a + b)[..|a + b| - 1] == a + b';
      ItemsInAppend(a, b', category);
    }
  }

  /** Every item lands in the group of its own category. */
  lemma {:induction false} ItemInOwnGroup(items: seq<Item>, k: nat)
    requires k < |items|
    ensures items[k] in ItemsIn(items, items[k].category)
    decreases |items|
  {
    if k < |items| - 1 {
      ItemInOwnGroup(items[..|items| - 1], k);
    }
  }

  /** No group is empty. */
  lemma NoEmptyGroup(items: seq<Item>, category: string)
    requires category in FirstSeen(items)
    ensures ItemsIn(items, category) != []
  {
    var k :| 0 <= k < |items| && items[k].category == category;
    ItemInOwnGroup(items, k);
  }

  /** The total size of the groups named in `order`. */
  function GroupSizes(order: seq<string>, items: seq<Item>): nat
    decreases |order|
  {
    if order == [] then 0 else GroupSizes(order[..|order| - 1], items) + |ItemsIn(items, order[|order| - 1])|
  }

  /** One more item adds one to the total when its category is among the distinct names, nothing
      otherwise. */
  lemma {:induction false} GroupSizesStep(order: seq<string>, items: seq<Item>, item: Item)
    requires Distinct(order)
    ensures GroupSizes(order, items + [item]) == GroupSizes(order, items) + (if item.category in order then 1 else 0)
    decreases |order|
  {
    if order != [] {
      var prior := order[..|order| - 1];
      var c := order[|order| - 1];
      assert Distinct(prior);
      assert item.category in order <==> item.category in prior || item.category == c;
      assert item.category in prior ==> item.category != c;
      GroupSizesStep(prior, items, item);
      assert (items + [item])[..|items + [item]| - 1] == items;
    }
  }

  /** The group sizes add up to the number of items. */
  lemma {:induction false} GroupSizesSum(items: seq<Item>)
    ensures GroupSizes(FirstSeen(items), items) == |items|
    decreases |items|
  {
    if items != [] {
      var prior := items[..|items| - 1];
      var item := items[|items| - 1];
      assert items == prior + [item];
      var order := FirstSeen(prior);
      GroupSizesSum(prior);
      GroupSizesStep(order, prior, item);
      if item.category !in order {
        assert (order + [item.category])[..|order|] == order;
        assert ItemsIn(prior, item.category) == [];
      }
    }
  }

  /** The dialog as it is opened for the first time and after every close. */
  function ClosedView(): View {
    View(false, true, [], false, None, false, None, false)
  }

  /** The effect run when the dialog closes: the list, the loading flag and all edit, delete and add
      state go back to their initial values. An open dialog is left alone. */
  function OnVisibility(v: View, isOpen: bool): (r: View)
    ensures !isOpen ==> r == ClosedView()
    ensures isOpen ==> r == v.(open := true)
  {
    if isOpen then v.(open := true)
    else View(false, true, [], false, None, false, None, false)
  }

  /** `askDeleteWholeSummary` and `askDeleteItem`: the action is recorded and the confirm dialog opens. */
  function AskDelete(v: View, action: DeleteAction): (r: View)
    ensures r.deleteOpen && r.pending == Some(action)
    ensures r.items == v.items && r.editOpen == v.editOpen && r.edit == v.edit && r.addOpen == v.addOpen
    ensures r.open == v.open && r.loading == v.loading
  {
    v.(pending := Some(action), deleteOpen := true)
  }

  /** "Delete All" is offered exactly when the list is non-empty. */
  predicate OffersDeleteAll(v: View) {
    |v.items| > 0
  }

  /** `handleConfirmDelete`: a successful ALL delete empties the list, a successful ITEM delete shows the
      summary the server returned; a failure, or a confirmation with no recorded action, keeps the list.
      In every case the dialog closes and the action is cleared. */
  function ConfirmDelete(v: View, reply: Reply): (r: View)
    ensures !r.deleteOpen && r.pending.None?
    ensures v.pending == Some(DeleteAll) && reply.Done? ==> r.items == []
    ensures v.pending.Some? && v.pending.value.DeleteItem? && reply.Done? ==> r.items == reply.summary
    ensures v.pending.None? || reply.Failed? ==> r.items == v.items
    ensures r.open == v.open && r.loading == v.loading && r.editOpen == v.editOpen && r.edit == v.edit
            && r.addOpen == v.addOpen
  {
    var items := if v.pending.None? || reply.Failed? then v.items
                 else if v.pending.value.DeleteAll? then []
                 else reply.summary;
    v.(items := items, deleteOpen := false, pending := None)
  }

  /** After a successful ALL delete the dialog no longer offers "Delete All". */
  lemma DeleteAllRemovesButton(v: View, summary: seq<Item>)
    requires v.pending == Some(DeleteAll)
    ensures !OffersDeleteAll(ConfirmDelete(v, Done(summary)))
  {
  }

  /** `handleEditItem`: the item is recorded and the edit dialog opens. */
  function EditItem(v: View, category: string, key: string, value: string): (r: View)
    ensures r.editOpen && r.edit == Some(Item(category, key, value))
    ensures r.items == v.items && r.deleteOpen == v.deleteOpen && r.pending == v.pending
    ensures r.open == v.open && r.loading == v.loading && r.addOpen == v.addOpen
  {
    v.(edit := Some(Item(category, key, value)), editOpen := true)
  }

  /** `handleSaveEdit`: without a recorded item nothing happens; a success shows the returned summary and
      closes the edit dialog; a failure keeps everything, the dialog included. */
  function SaveEdit(v: View, reply: Reply): (r: View)
    ensures v.edit.None? || reply.Failed? ==> r == v
    ensures v.edit.Some? && reply.Done? ==> r == v.(items := reply.summary, editOpen := false, edit := None)
  {
    if v.edit.None? then v
    else match reply
      case Failed => v
      case Done(summary) => v.(items := summary, editOpen := false, edit := None)
  }
}
