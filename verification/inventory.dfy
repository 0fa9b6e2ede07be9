/** The inventory list: its items, the search/filter, create/edit/delete, the list's
    stock-level colour and the category drop-down. */
module Inventory {
  import opened Common
  import opened Text
  import opened Ordering

  datatype StockStatus = InStock | LowStock | OutOfStock | OnOrder

  function StockStatusName(s: StockStatus): string
  {
    match s
    case InStock => "in-stock"
    case LowStock => "low-stock"
    case OutOfStock => "out-of-stock"
    case OnOrder => "on-order"
  }

  /** An inventory item. Quantities are whole units; an absent description reads as "". */
  datatype Item = Item(
    id: string,
    name: string,
    category: string,
    location: string,
    status: StockStatus,
    quantity: int,
    minQuantity: int,
    unitPrice: real,
    supplier: string,
    lastOrderDate: string,
    nextOrderDate: Option<string>,
    description: string)

  /** What the inventory form hands to the list. */
  datatype FormValues = FormValues(
    name: string,
    category: string,
    location: string,
    status: StockStatus,
    quantity: int,
    minQuantity: int,
    unitPrice: real,
    supplier: string,
    description: string)

  // ---------------------------------------------------------------- filter

  predicate MatchesSearch(item: Item, term: string)
  {
    || ContainsIgnoringCase(item.name, term)
    || ContainsIgnoringCase(item.id, term)
    || ContainsIgnoringCase(item.supplier, term)
  }

  /** The category drop-down compares ignoring case. */
  predicate MatchesCategory(item: Item, categoryFilter: string)
  {
    categoryFilter == "all" || ToLower(item.category) == ToLower(categoryFilter)
  }

  predicate Matches(item: Item, term: string, statusFilter: string, categoryFilter: string)
  {
    && MatchesSearch(item, term)
    && (statusFilter == "all" || StockStatusName(item.status) == statusFilter)
    && MatchesCategory(item, categoryFilter)
  }

  function ByAll(term: string, statusFilter: string, categoryFilter: string): Item -> bool
  {
    (item: Item) => Matches(item, term, statusFilter, categoryFilter)
  }

  /** The rows the table shows, in list order and with their multiplicity. */
  function FilterInventory(items: seq<Item>, term: string, statusFilter: string,
                           categoryFilter: string): (r: seq<Item>)
    ensures IsSubsequence(r, items)
    ensures forall x :: x in r ==> x in items && Matches(x, term, statusFilter, categoryFilter)
    ensures forall x :: x in items && Matches(x, term, statusFilter, categoryFilter) ==> x in r
    ensures forall x | x in items && Matches(x, term, statusFilter, categoryFilter) ::
              multiset(r)[x] == multiset(items)[x]
  {
    Filter(items, ByAll(term, statusFilter, categoryFilter))
  }

  /** The category filter ignores case: "filters" shows what "Filters" shows. */
  lemma CategoryFilterIgnoresCase(items: seq<Item>, term: string, statusFilter: string,
                                  c1: string, c2: string)
    requires ToLower(c1) == ToLower(c2) && c1 != "all" && c2 != "all"
    ensures FilterInventory(items, term, statusFilter, c1) == FilterInventory(items, term, statusFilter, c2)
  {
    FilterCongruent(items, ByAll(term, statusFilter, c1), ByAll(term, statusFilter, c2));
  }

  // ---------------------------------------------------------------- category options

  function Categories(items: seq<Item>): (r: seq<string>)
    ensures |r| == |items| && forall i :: 0 <= i < |r| ==> r[i] == items[i].category
  {
    seq(|items|, i requires 0 <= i < |items| => items[i].category)
  }

  /** The category drop-down: every category in the list once, in ascending order. */
  function CategoryOptions(items: seq<Item>): (r: seq<string>)
    ensures StrictlySorted(r)
    ensures forall c :: c in r <==> exists i :: 0 <= i < |items| && items[i].category == c
  {
    var r := SortedDistinct(Categories(items));
    assert forall c :: c in Categories(items) <==> exists i :: 0 <= i < |items| && items[i].category == c by {
      forall c
        ensures c in Categories(items) ==> exists i :: 0 <= i < |items| && items[i].category == c
      {
        if c in Categories(items) {
          var i :| 0 <= i < |Categories(items)| && Categories(items)[i] == c;
          assert items[i].category == c;
        }
      }
    }
    r
  }

  /** The options are the only sorted duplicate-free list of the categories: any such list
      equals them. */
  lemma CategoryOptionsUnique(items: seq<Item>, other: seq<string>)
    requires StrictlySorted(other)
    requires forall c :: c in other <==> exists i :: 0 <= i < |items| && items[i].category == c
    ensures other == CategoryOptions(items)
  {
    StrictlySortedUnique(other, CategoryOptions(items));
  }

  // ---------------------------------------------------------------- delete

  /** Deleting removes exactly the items with the id and keeps the rest in order. */
  function DeleteItem(items: seq<Item>, id: string): (r: seq<Item>)
    ensures IsSubsequence(r, items)
    ensures forall x :: x in r ==> x.id != id
    ensures forall x :: x in items && x.id != id ==> multiset(r)[x] == multiset(items)[x]
  {
    Filter(items, (x: Item) => x.id != id)
  }

  lemma DeleteAbsentIsNoOp(items: seq<Item>, id: string)
    requires forall i :: 0 <= i < |items| ==> items[i].id != id
    ensures DeleteItem(items, id) == items
  {
    FilterKeepsAll(items, (x: Item) => x.id != id);
  }

  // ---------------------------------------------------------------- create / edit

  /** Item ids: "INV-" and the list length plus 8, zero-padded to three digits. */
  function ItemId(n: nat): string
  {
    PaddedId("INV-", n)
  }

  function NewItem(count: nat, data: FormValues, today: string): Item
  {
    Item(
      id := ItemId(count + 8),
      name := data.name,
      category := data.category,
      location := data.location,
      status := data.status,
      quantity := data.quantity,
      minQuantity := data.minQuantity,
      unitPrice := data.unitPrice,
      supplier := data.supplier,
      lastOrderDate := today,
      nextOrderDate := None,
      description := data.description)
  }

  /** Creating appends one item carrying the form's fields, ordered today and with no next
      order date, and leaves the existing items as they were. */
  function CreateItem(items: seq<Item>, data: FormValues, today: string): (r: seq<Item>)
    ensures |r| == |items| + 1 && r[..|items|] == items
    ensures var x := r[|items|];
            && x.id == ItemId(|items| + 8)
            && x.lastOrderDate == today && x.nextOrderDate.None?
            && x.name == data.name && x.category == data.category && x.location == data.location
            && x.status == data.status && x.quantity == data.quantity
            && x.minQuantity == data.minQuantity && x.unitPrice == data.unitPrice
            && x.supplier == data.supplier && x.description == data.description
  {
    items + [NewItem(|items|, data, today)]
  }

  /** The edited copy: every form field spread over the old record. */
  function Edited(x: Item, data: FormValues): Item
  {
    x.(name := data.name, category := data.category, location := data.location,
       status := data.status, quantity := data.quantity, minQuantity := data.minQuantity,
       unitPrice := data.unitPrice, supplier := data.supplier, description := data.description)
  }

  /** Editing rewrites exactly the items with the selected id; each keeps its id and order
      dates and takes every field of the form. */
  function EditItem(items: seq<Item>, selectedId: string, data: FormValues): (r: seq<Item>)
    ensures |r| == |items|
    ensures forall i :: 0 <= i < |items| && items[i].id != selectedId ==> r[i] == items[i]
    ensures forall i :: 0 <= i < |items| && items[i].id == selectedId ==>
              && r[i].id == selectedId
              && r[i].lastOrderDate == items[i].lastOrderDate
              && r[i].nextOrderDate == items[i].nextOrderDate
              && r[i].name == data.name && r[i].quantity == data.quantity
              && r[i].minQuantity == data.minQuantity && r[i].status == data.status
              && r[i].category == data.category && r[i].location == data.location
              && r[i].unitPrice == data.unitPrice && r[i].supplier == data.supplier
              && r[i].description == data.description
  {
    seq(|items|, i requires 0 <= i < |items| =>
      if items[i].id == selectedId then Edited(items[i], data) else items[i])
  }

  /** Editing an item with the values it already has changes nothing. */
  lemma EditWithOwnValuesIsNoOp(items: seq<Item>, k: nat)
    requires k < |items|
    requires forall i :: 0 <= i < |items| && items[i].id == items[k].id ==> items[i] == items[k]
    ensures var x := items[k];
            EditItem(items, x.id, FormValues(x.name, x.category, x.location, x.status, x.quantity,
                                             x.minQuantity, x.unitPrice, x.supplier, x.description))
            == items
  {
  }

  function SubmitItem(items: seq<Item>, editMode: bool, selected: Option<Item>,
                      data: FormValues, today: string): (r: seq<Item>)
    ensures editMode && selected.Some? ==> |r| == |items|
    ensures !(editMode && selected.Some?) ==> |r| == |items| + 1 && r[..|items|] == items
  {
    if editMode && selected.Some? then EditItem(items, selected.value.id, data)
    else CreateItem(items, data, today)
  }

  // ---------------------------------------------------------------- stock colour

  /** The stock colour dot of the list: red when none is left, yellow at or below the
      minimum, green above it. */
  function StockColour(quantity: int, minQuantity: int): (c: string)
    ensures c == "bg-red-500" <==> quantity == 0
    ensures c == "bg-yellow-500" <==> quantity != 0 && quantity <= minQuantity
    ensures c == "bg-green-500" <==> quantity != 0 && quantity > minQuantity
  {
    if quantity == 0 then "bg-red-500"
    else if quantity <= minQuantity then "bg-yellow-500"
    else "bg-green-500"
  }
}
