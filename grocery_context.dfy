/**
 * The grocery-list store of context/GroceryContext.tsx: the same shape as
 * the pantry store, over list entries that wrap a partial ingredient.
 */
module GroceryContext {
  import opened Wrappers
  import opened Domain
  import Js
  import Lists

  /**
   * The defaults object literal of `addItem`, evaluated with JavaScript's
   * `||`: a falsy id ('') or ripeness level (GREEN is 0) falls back too.
   * Fields the literal does not list are absent.
   */
  function ItemDefaults(p: PartialIngredient, now: Instant, newId: string): PartialIngredient {
    PartialIngredient(
      id := Some(Js.OrString(p.id, newId)),
      name := None,
      category := None,
      location := None,
      confectionType := None,
      expirationDate := if p.expirationDate.Some? then Some(p.expirationDate.value) else None,
      addedDate := Some(p.addedDate.GetOr(now)),
      brand := None,
      open := Some(Js.OrFalse(p.open)),
      maturity := Some(Maturity(
        if p.maturity.Some? && p.maturity.value.lvl.Value() != 0 then p.maturity.value.lvl else NotRipening,
        if p.maturity.Some? then p.maturity.value.edited else now)),
      amount := Some(p.amount.GetOr(DefaultAmount)))
  }

  /**
   * The entry `addItem` builds: `{ item: { ...defaults, ...item.item }, id }`.
   * Because the argument's fields are spread last, every field the argument
   * carries wins, even a falsy one; a default applies only to a missing
   * field. The argument's own list-entry id is ignored.
   */
  function NewEntry(arg: GroceryListItem, now: Instant, newId: string): (r: GroceryListItem)
    ensures r.id == Some(newId)
    ensures r.item.id == if arg.item.id.Some? then arg.item.id else Some(newId)
    ensures r.item.addedDate == if arg.item.addedDate.Some? then arg.item.addedDate else Some(now)
    ensures r.item.open == if arg.item.open.Some? then arg.item.open else Some(false)
    ensures r.item.maturity == if arg.item.maturity.Some? then arg.item.maturity
                               else Some(Maturity(NotRipening, now))
    ensures r.item.amount == if arg.item.amount.Some? then arg.item.amount else Some(DefaultAmount)
    ensures r.item.expirationDate == arg.item.expirationDate
    ensures r.item.name == arg.item.name && r.item.category == arg.item.category
    ensures r.item.location == arg.item.location && r.item.confectionType == arg.item.confectionType
    ensures r.item.brand == arg.item.brand
  {
    GroceryListItem(
      item := Spread(ItemDefaults(arg.item, now, newId), arg.item),
      id := Some(newId))
  }

  /** `i.id === id` for an entry id that may itself be undefined. */
  function IdIs(id: Option<string>): GroceryListItem -> bool {
    (i: GroceryListItem) => i.id == id
  }

  /** `i.id !== id`, the filter `deleteItem` keeps. */
  function IdIsNot(id: string): GroceryListItem -> bool {
    (i: GroceryListItem) => i.id != Some(id)
  }

  /** `items.find(i => i.id === id)`. */
  function FindById(items: seq<GroceryListItem>, id: string): (r: Option<GroceryListItem>)
    ensures r.None? <==> forall k :: 0 <= k < |items| ==> items[k].id != Some(id)
    ensures r.Some? ==> exists k :: 0 <= k < |items| && items[k] == r.value &&
                          r.value.id == Some(id) && forall j :: 0 <= j < k ==> items[j].id != Some(id)
  {
    Lists.Find(items, IdIs(Some(id)))
  }

  /**
   * `items.map(i => i.id === u.id ? u : i)`. An entry without an id matches
   * an argument without an id, as `undefined === undefined` does.
   */
  function Updated(items: seq<GroceryListItem>, u: GroceryListItem): (r: seq<GroceryListItem>)
    ensures |r| == |items|
    ensures forall k :: 0 <= k < |r| ==> r[k] == if items[k].id == u.id then u else items[k]
  {
    Lists.ReplaceWhere(items, IdIs(u.id), u)
  }

  /** `items.filter(i => i.id !== id)`. */
  function Deleted(items: seq<GroceryListItem>, id: string): (r: seq<GroceryListItem>)
    ensures forall k :: 0 <= k < |r| ==> r[k].id != Some(id) && r[k] in items
    ensures forall k :: 0 <= k < |items| && items[k].id != Some(id) ==> items[k] in r
    ensures forall x :: multiset(r)[x] == if x.id == Some(id) then 0 else multiset(items)[x]
  {
    var r := Lists.Filter(items, IdIsNot(id));
    forall x ensures multiset(r)[x] == if x.id == Some(id) then 0 else multiset(items)[x] {
      Lists.FilterCount(items, IdIsNot(id), x);
    }
    r
  }

  class GroceryStore {
    /** The `items` state the provider exposes. */
    var items: seq<GroceryListItem>
    /** The list last written successfully under '@kitchen_buddy_grocery'. */
    var stored: seq<GroceryListItem>

    /** `useState<GroceryListItem[]>([])`, before anything is loaded from `storage`. */
    constructor (storage: seq<GroceryListItem>)
      ensures items == [] && stored == storage
    {
      items := [];
      stored := storage;
    }

    /** The in-memory half of `saveItems`: memory first, a failed write only logged. */
    method SaveItems(newItems: seq<GroceryListItem>, writeOk: bool) returns (errorLogged: bool)
      modifies this
      ensures items == newItems
      ensures stored == if writeOk then newItems else old(stored)
      ensures errorLogged == !writeOk
    {
      items := newItems;
      if writeOk {
        stored := newItems;
      }
      errorLogged := !writeOk;
    }

    /** `addItem`: appends one new entry. */
    method AddItem(arg: GroceryListItem, now: Instant, newId: string, writeOk: bool) returns (errorLogged: bool)
      modifies this
      ensures items == old(items) + [NewEntry(arg, now, newId)]
      ensures stored == if writeOk then items else old(stored)
      ensures errorLogged == !writeOk
    {
      errorLogged := SaveItems(items + [NewEntry(arg, now, newId)], writeOk);
    }

    /** `updateItem`: replaces every entry with the same id. */
    method UpdateItem(u: GroceryListItem, writeOk: bool) returns (errorLogged: bool)
      modifies this
      ensures items == Updated(old(items), u)
      ensures stored == if writeOk then items else old(stored)
      ensures errorLogged == !writeOk
    {
      errorLogged := SaveItems(Updated(items, u), writeOk);
    }

    /** `deleteItem`: drops every entry with the id. */
    method DeleteItem(id: string, writeOk: bool) returns (errorLogged: bool)
      modifies this
      ensures items == Deleted(old(items), id)
      ensures stored == if writeOk then items else old(stored)
      ensures errorLogged == !writeOk
    {
      errorLogged := SaveItems(Deleted(items, id), writeOk);
    }

    /** `clear`: the list becomes empty. */
    method Clear(writeOk: bool) returns (errorLogged: bool)
      modifies this
      ensures items == []
      ensures stored == if writeOk then [] else old(stored)
      ensures errorLogged == !writeOk
    {
      errorLogged := SaveItems([], writeOk);
    }

    /** `getItemById`: the first entry with the id, if any. */
    method GetItemById(id: string) returns (r: Option<GroceryListItem>)
      ensures r.Some? ==> r.value in items && r.value.id == Some(id)
      ensures r.None? <==> forall k :: 0 <= k < |items| ==> items[k].id != Some(id)
      ensures r == FindById(items, id)
    {
      r := FindById(items, id);
    }
  }

  /**
   * A nested item without a ripeness keeps the default `{ NONE, now }`; one
   * with GREEN (0, falsy) keeps GREEN, because the spread overrides the
   * `lvl || NONE` fallback.
   */
  lemma MaturityKept(arg: GroceryListItem, now: Instant, newId: string, edited: Instant)
    ensures arg.item.maturity.None? ==>
              NewEntry(arg, now, newId).item.maturity == Some(Maturity(NotRipening, now))
    ensures arg.item.maturity == Some(Maturity(Green, edited)) ==>
              NewEntry(arg, now, newId).item.maturity == Some(Maturity(Green, edited))
  {
  }

  /** Looking up the fresh id after an add finds the new entry unless an older one shares it. */
  lemma {:induction false} LookupAfterAdd(items: seq<GroceryListItem>, arg: GroceryListItem, now: Instant, newId: string)
    ensures FindById(items + [NewEntry(arg, now, newId)], newId) ==
              if FindById(items, newId).Some? then FindById(items, newId)
              else Some(NewEntry(arg, now, newId))
  {
    Lists.FindAppend(items, NewEntry(arg, now, newId), IdIs(Some(newId)));
  }

  /** An update whose id matches nothing is a no-op. */
  lemma UpdateWithoutMatch(items: seq<GroceryListItem>, u: GroceryListItem)
    requires forall k :: 0 <= k < |items| ==> items[k].id != u.id
    ensures Updated(items, u) == items
  {
  }

  /** After an update that matched, a lookup of its (defined) id returns the new entry. */
  lemma {:induction false} LookupAfterUpdate(items: seq<GroceryListItem>, u: GroceryListItem, id: string)
    requires u.id == Some(id)
    ensures FindById(Updated(items, u), id) == if FindById(items, id).Some? then Some(u) else None
  {
    Lists.FindAfterReplace(items, IdIs(u.id), u);
  }

  /** After a delete, no entry with that id can be found. */
  lemma LookupAfterDelete(items: seq<GroceryListItem>, id: string)
    ensures FindById(Deleted(items, id), id) == None
  {
  }

  /** Deleting keeps the survivors in order: it commutes with splitting the list. */
  lemma {:induction false} DeleteKeepsOrder(a: seq<GroceryListItem>, b: seq<GroceryListItem>, id: string)
    ensures Deleted(a + b, id) == Deleted(a, id) + Deleted(b, id)
  {
    Lists.FilterConcat(a, b, IdIsNot(id));
  }
}
