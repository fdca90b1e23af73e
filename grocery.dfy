/** The grocery list page (src/app/grocery/page.tsx): items grouped by
    category for display, the purchased-flag toggle, and the row inserted
    from the add-item form. */
module Grocery {
  import opened Common

  /** A row of the `grocery_items` table; a null `category` is `None`. */
  datatype GroceryItem = GroceryItem(
    id: string,
    itemName: string,
    quantity: int,
    category: Option<string>,
    isPurchased: bool,
    mealId: Option<string>)

  /** `item.category || 'other'`. */
  function GroupKey(item: GroceryItem): (k: string)
    ensures k != ""
    ensures Present(item.category) ==> k == item.category.value
    ensures !Present(item.category) ==> k == "other"
  {
    OrElse(item.category, "other")
  }

  // ---------------------------------------------------------------------
  // Specification of the grouping

  /** The items whose group is `key`, in input order. */
  function InGroup(items: seq<GroceryItem>, key: string): seq<GroceryItem>
    decreases |items|
  {
    if items == [] then []
    else InGroup(items[..|items| - 1], key) + (if GroupKey(items[|items| - 1]) == key then [items[|items| - 1]] else [])
  }

  /** The group keys in order of first appearance, which is the order in
      which the groups are created and then listed. */
  function KeyOrder(items: seq<GroceryItem>): seq<string>
    decreases |items|
  {
    if items == [] then []
    else
      var order := KeyOrder(items[..|items| - 1]);
      var k := GroupKey(items[|items| - 1]);
      if k in order then order else order + [k]
  }

  predicate Distinct(keys: seq<string>) {
    forall i, j :: 0 <= i < j < |keys| ==> keys[i] != keys[j]
  }

  /** The sizes of the groups named in `keys`, added up. */
  function SizeSum(items: seq<GroceryItem>, keys: seq<string>): nat
    decreases |keys|
  {
    if keys == [] then 0 else SizeSum(items, keys[..|keys| - 1]) + |InGroup(items, keys[|keys| - 1])|
  }

  /** Filtering distributes over concatenation, so each group keeps the
      input order of its items. */
  lemma {:induction false} InGroupAppend(a: seq<GroceryItem>, b: seq<GroceryItem>, key: string)
    ensures InGroup(a + b, key) == InGroup(a, key) + InGroup(b, key)
    decreases |b|
  {
    if b == [] {
      assert a + b == a;
    } else {
      var init, last := b[..|b| - 1], b[|b| - 1];
      InGroupAppend(a, init, key);
      InGroupAppendStep(a, init, last, key);
      LastSplit(b);
    }
  }

  lemma InGroupAppendStep(a: seq<GroceryItem>, init: seq<GroceryItem>, last: GroceryItem, key: string)
    requires InGroup(a + init, key) == InGroup(a, key) + InGroup(init, key)
    ensures InGroup(a + (init + [last]), key) == InGroup(a, key) + InGroup(init + [last], key)
  {
    var tail := if GroupKey(last) == key then [last] else [];
    ConcatAssoc(a, init, [last]);
    InGroupSnoc(a + init, last, key);
    InGroupSnoc(init, last, key);
    ConcatAssoc(InGroup(a, key), InGroup(init, key), tail);
  }

  /** One item more joins the end of its own group and no other. */
  lemma InGroupSnoc(items: seq<GroceryItem>, x: GroceryItem, key: string)
    ensures InGroup(items + [x], key) == InGroup(items, key) + (if GroupKey(x) == key then [x] else [])
  {
    var all := items + [x];
    assert all[..|all| - 1] == items;
  }

  /** A group holds exactly the items whose key is its key. */
  lemma {:induction false} InGroupMembers(items: seq<GroceryItem>, key: string, x: GroceryItem)
    ensures x in InGroup(items, key) <==> x in items && GroupKey(x) == key
    decreases |items|
  {
    if items != [] {
      var init := items[..|items| - 1];
      InGroupMembers(init, key, x);
      assert items == init + [items[|items| - 1]];
    }
  }

  /** A key is listed exactly when its group is non-empty, and no key is
      listed twice. */
  lemma {:induction false} KeyOrderSpec(items: seq<GroceryItem>)
    ensures Distinct(KeyOrder(items))
    ensures forall k :: k in KeyOrder(items) <==> InGroup(items, k) != []
    decreases |items|
  {
    if items != [] {
      KeyOrderSpec(items[..|items| - 1]);
    }
  }

  /** Every item is counted once: the group sizes add up to the item count. */
  lemma {:induction false} GroupSizesSum(items: seq<GroceryItem>)
    ensures SizeSum(items, KeyOrder(items)) == |items|
    decreases |items|
  {
    if items != [] {
      var init := items[..|items| - 1];
      var x := items[|items| - 1];
      var kx := GroupKey(x);
      var order := KeyOrder(init);
      GroupSizesSum(init);
      KeyOrderSpec(init);
      assert items == init + [x];
      SizeSumSnoc(init, x, order);
      if kx in order {
        CountDistinct(order, kx);
      } else {
        CountAbsent(order, kx);
        SizeSumSnoc(init, x, order);
        assert InGroup(init, kx) == [];
        assert (order + [kx])[..|order|] == order;
      }
    }
  }

  /** The number of times `k` occurs in `keys`. */
  function Count(keys: seq<string>, k: string): nat
    decreases |keys|
  {
    if keys == [] then 0 else Count(keys[..|keys| - 1], k) + (if keys[|keys| - 1] == k then 1 else 0)
  }

  /** One more item adds one to the size of every listed copy of its group. */
  lemma {:induction false} SizeSumSnoc(items: seq<GroceryItem>, x: GroceryItem, keys: seq<string>)
    ensures SizeSum(items + [x], keys) == SizeSum(items, keys) + Count(keys, GroupKey(x))
    decreases |keys|
  {
    if keys != [] {
      SizeSumSnoc(items, x, keys[..|keys| - 1]);
      assert (items + [x])[..|items|] == items;
    }
  }

  lemma {:induction false} CountDistinct(keys: seq<string>, k: string)
    requires Distinct(keys) && k in keys
    ensures Count(keys, k) == 1
    decreases |keys|
  {
    var init := keys[..|keys| - 1];
    if keys[|keys| - 1] == k {
      assert k !in init;
      CountAbsent(init, k);
    } else {
      assert k in init;
      CountDistinct(init, k);
    }
  }

  lemma {:induction false} CountAbsent(keys: seq<string>, k: string)
    requires k !in keys
    ensures Count(keys, k) == 0
    decreases |keys|
  {
    if keys != [] {
      CountAbsent(keys[..|keys| - 1], k);
    }
  }

  // ---------------------------------------------------------------------
  // The grouping loop

  /** `groupedItems`: the dictionary built by the `reduce`, and its keys in
      insertion order. */
  method GroupItems(items: seq<GroceryItem>) returns (groups: map<string, seq<GroceryItem>>, order: seq<string>)
    ensures order == KeyOrder(items)
    ensures forall k :: k in groups <==> k in order
    ensures forall k :: k in groups ==> groups[k] == InGroup(items, k)
    ensures forall k :: k in groups ==> groups[k] != []
  {
    groups := map[];
    order := [];
    var i := 0;
    while i < |items|
      invariant 0 <= i <= |items|
      invariant GroupsInv(items[..i], groups, order)
    {
      var item := items[i];
      var category := GroupKey(item);
      GroupStep(items[..i], groups, order, item);
      assert items[..i + 1] == items[..i] + [item];
      var members := if category in groups then groups[category] else [];
      if category !in groups {
        order := order + [category];
      }
      groups := groups[category := members + [item]];
      i := i + 1;
    }
    assert items[..|items|] == items;
    GroupsDone(items, groups, order);
  }

  /** The loop invariant of `GroupItems`: the groups and key order of the
      items seen so far. */
  ghost predicate GroupsInv(seen: seq<GroceryItem>, groups: map<string, seq<GroceryItem>>, order: seq<string>) {
    && order == KeyOrder(seen)
    && (forall k :: k in groups <==> k in order)
    && (forall k :: k in groups ==> groups[k] == InGroup(seen, k))
  }

  /** Every group the loop created holds at least one item. */
  lemma GroupsDone(items: seq<GroceryItem>, groups: map<string, seq<GroceryItem>>, order: seq<string>)
    requires GroupsInv(items, groups, order)
    ensures forall k :: k in groups ==> groups[k] != []
  {
    KeyOrderSpec(items);
  }

  /** One item more: its group is created if needed and the item pushed. */
  lemma GroupStep(seen: seq<GroceryItem>, groups: map<string, seq<GroceryItem>>, order: seq<string>, x: GroceryItem)
    requires GroupsInv(seen, groups, order)
    ensures var k := GroupKey(x);
      var members := if k in groups then groups[k] else [];
      var o := if k in groups then order else order + [k];
      GroupsInv(seen + [x], groups[k := members + [x]], o)
  {
    var all := seen + [x];
    assert all[..|all| - 1] == seen;
    KeyOrderSpec(seen);
  }

  /** The page shows its "empty list" message exactly when there are no items. */
  lemma NoGroupsIffNoItems(items: seq<GroceryItem>)
    ensures KeyOrder(items) == [] <==> items == []
  {
    if items != [] {
      var x := items[|items| - 1];
      KeyOrderSpec(items);
      InGroupMembers(items, GroupKey(x), x);
    }
  }

  // ---------------------------------------------------------------------
  // Writes

  /** `togglePurchased`: the flag written is the negation of the current one. */
  function TogglePayload(currentStatus: bool): (next: bool)
    ensures next != currentStatus
  {
    !currentStatus
  }

  /** The add-item form. The quantity is what `parseInt` made of the number
      field: `None` stands for NaN, which an emptied field gives. */
  datatype GroceryForm = GroceryForm(itemName: string, quantity: Option<int>, category: string, mealId: string)

  /** The form shown at first and after a successful insert. */
  const EmptyForm: GroceryForm := GroceryForm("", Some(1), "produce", "")

  const PlaceholderUserId: string := "00000000-0000-0000-0000-000000000000"

  /** The row sent to `grocery_items`; a NaN quantity is serialised as null,
      which is `None` here. */
  datatype InsertRow = InsertRow(itemName: string, quantity: Option<int>, category: string, mealId: Option<string>, userId: string)

  /** `addGroceryItem`'s payload: an empty meal choice is stored as null. */
  function InsertPayload(f: GroceryForm): (row: InsertRow)
    ensures row.mealId.None? <==> f.mealId == ""
    ensures row.itemName == f.itemName && row.quantity == f.quantity && row.category == f.category
    ensures row.userId == PlaceholderUserId
  {
    InsertRow(f.itemName, f.quantity, f.category, if f.mealId == "" then None else Some(f.mealId), PlaceholderUserId)
  }

  /** The form a row came from, with null read back as the empty choice. */
  function FormOf(row: InsertRow): GroceryForm {
    GroceryForm(row.itemName, row.quantity, row.category, if row.mealId.Some? then row.mealId.value else "")
  }

  /** No form information is lost in the payload. */
  lemma InsertPayloadRoundTrip(f: GroceryForm)
    ensures FormOf(InsertPayload(f)) == f
  {
  }

  /** The form after the insert: reset on success, kept on error. */
  function FormAfterInsert(f: GroceryForm, inserted: bool): (next: GroceryForm)
    ensures inserted ==> next.quantity == Some(1) && next.category == "produce" && next.itemName == "" && next.mealId == ""
    ensures !inserted ==> next == f
  {
    if inserted then EmptyForm else f
  }
}
