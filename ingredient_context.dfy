/**
 * The pantry store of context/IngredientContext.tsx: it owns the list of
 * ingredients, replaces it wholesale on every change, and writes the new
 * list to storage after updating memory.
 */
module IngredientContext {
  import opened Wrappers
  import opened Domain
  import Js
  import Lists

  /**
   * The record `addIngredient` builds: the argument's fields, with `open`,
   * `maturity` and `amount` falling back to defaults, and a fresh `id` and
   * `addedDate` written after the spread. `now` is the clock reading and
   * `newId` the `Date.now().toString()` reading of the call.
   */
  function NewIngredient(p: PartialIngredient, now: Instant, newId: string): (r: Ingredient)
    ensures r.id == newId && r.addedDate == now
    ensures r.open <==> p.open == Some(true)
    ensures r.maturity == if p.maturity.Some? then p.maturity.value else Maturity(NotRipening, now)
    ensures r.amount == if p.amount.Some? then p.amount.value else DefaultAmount
    ensures r.name == p.name && r.category == p.category && r.location == p.location
    ensures r.confectionType == p.confectionType && r.expirationDate == p.expirationDate
    ensures r.brand == p.brand
  {
    Ingredient(
      id := newId,
      name := p.name,
      category := p.category,
      location := p.location,
      confectionType := p.confectionType,
      expirationDate := p.expirationDate,
      addedDate := now,
      brand := p.brand,
      open := Js.OrFalse(p.open),
      maturity := p.maturity.GetOr(Maturity(NotRipening, now)),
      amount := p.amount.GetOr(DefaultAmount))
  }

  /** `i.id === id`, the test every lookup, update and delete uses. */
  function HasId(id: string): Ingredient -> bool {
    (i: Ingredient) => i.id == id
  }

  /** `i.id !== id`, the filter `deleteIngredient` keeps. */
  function LacksId(id: string): Ingredient -> bool {
    (i: Ingredient) => i.id != id
  }

  /** `ingredients.find(i => i.id === id)`. */
  function FindById(ingredients: seq<Ingredient>, id: string): (r: Option<Ingredient>)
    ensures r.None? <==> forall k :: 0 <= k < |ingredients| ==> ingredients[k].id != id
    ensures r.Some? ==> exists k :: 0 <= k < |ingredients| && ingredients[k] == r.value &&
                          r.value.id == id && forall j :: 0 <= j < k ==> ingredients[j].id != id
  {
    Lists.Find(ingredients, HasId(id))
  }

  /** `ingredients.map(i => i.id === u.id ? u : i)`. */
  function Updated(ingredients: seq<Ingredient>, u: Ingredient): (r: seq<Ingredient>)
    ensures |r| == |ingredients|
    ensures forall k :: 0 <= k < |r| ==> r[k] == if ingredients[k].id == u.id then u else ingredients[k]
  {
    Lists.ReplaceWhere(ingredients, HasId(u.id), u)
  }

  /** `ingredients.filter(i => i.id !== id)`. */
  function Deleted(ingredients: seq<Ingredient>, id: string): (r: seq<Ingredient>)
    ensures forall k :: 0 <= k < |r| ==> r[k].id != id && r[k] in ingredients
    ensures forall k :: 0 <= k < |ingredients| && ingredients[k].id != id ==> ingredients[k] in r
    ensures forall x :: multiset(r)[x] == if x.id == id then 0 else multiset(ingredients)[x]
  {
    var r := Lists.Filter(ingredients, LacksId(id));
    forall x ensures multiset(r)[x] == if x.id == id then 0 else multiset(ingredients)[x] {
      Lists.FilterCount(ingredients, LacksId(id), x);
    }
    r
  }

  class IngredientStore {
    /** The `ingredients` state the provider exposes. */
    var ingredients: seq<Ingredient>
    /** The list last written successfully under '@kitchen_buddy_ingredients'. */
    var stored: seq<Ingredient>

    /** `useState<Ingredient[]>([])`, before anything is loaded from `storage`. */
    constructor (storage: seq<Ingredient>)
      ensures ingredients == [] && stored == storage
    {
      ingredients := [];
      stored := storage;
    }

    /**
     * The in-memory half of `saveIngredients`: memory is set first; a failed
     * write (`!writeOk`) is only logged and memory is not rolled back.
     */
    method SaveIngredients(newIngredients: seq<Ingredient>, writeOk: bool) returns (errorLogged: bool)
      modifies this
      ensures ingredients == newIngredients
      ensures stored == if writeOk then newIngredients else old(stored)
      ensures errorLogged == !writeOk
    {
      ingredients := newIngredients;
      if writeOk {
        stored := newIngredients;
      }
      errorLogged := !writeOk;
    }

    /** `addIngredient`: appends one new record. */
    method AddIngredient(p: PartialIngredient, now: Instant, newId: string, writeOk: bool)
      returns (errorLogged: bool)
      modifies this
      ensures ingredients == old(ingredients) + [NewIngredient(p, now, newId)]
      ensures stored == if writeOk then ingredients else old(stored)
      ensures errorLogged == !writeOk
    {
      errorLogged := SaveIngredients(ingredients + [NewIngredient(p, now, newId)], writeOk);
    }

    /** `updateIngredient`: replaces every record with the same id. */
    method UpdateIngredient(u: Ingredient, writeOk: bool) returns (errorLogged: bool)
      modifies this
      ensures ingredients == Updated(old(ingredients), u)
      ensures stored == if writeOk then ingredients else old(stored)
      ensures errorLogged == !writeOk
    {
      errorLogged := SaveIngredients(Updated(ingredients, u), writeOk);
    }

    /** `deleteIngredient`: drops every record with the id. */
    method DeleteIngredient(id: string, writeOk: bool) returns (errorLogged: bool)
      modifies this
      ensures ingredients == Deleted(old(ingredients), id)
      ensures stored == if writeOk then ingredients else old(stored)
      ensures errorLogged == !writeOk
    {
      errorLogged := SaveIngredients(Deleted(ingredients, id), writeOk);
    }

    /** `getIngredientById`: the first record with the id, if any. */
    method GetIngredientById(id: string) returns (r: Option<Ingredient>)
      ensures r.Some? ==> r.value in ingredients && r.value.id == id
      ensures r.None? <==> forall k :: 0 <= k < |ingredients| ==> ingredients[k].id != id
      ensures r == FindById(ingredients, id)
    {
      r := FindById(ingredients, id);
    }
  }

  /** Adding keeps every earlier record in place and puts exactly one new record last. */
  lemma AddAppendsOne(ingredients: seq<Ingredient>, p: PartialIngredient, now: Instant, newId: string)
    ensures var r := ingredients + [NewIngredient(p, now, newId)];
      |r| == |ingredients| + 1 && r[..|ingredients|] == ingredients && r[|ingredients|].id == newId
  {
  }

  /**
   * Looking up the fresh id after an add finds the new record, unless an
   * older record already carried that id (timestamp ids can collide), in
   * which case the older one is found first.
   */
  lemma {:induction false} LookupAfterAdd(ingredients: seq<Ingredient>, p: PartialIngredient, now: Instant, newId: string)
    ensures FindById(ingredients + [NewIngredient(p, now, newId)], newId) ==
              if FindById(ingredients, newId).Some? then FindById(ingredients, newId)
              else Some(NewIngredient(p, now, newId))
  {
    Lists.FindAppend(ingredients, NewIngredient(p, now, newId), HasId(newId));
  }

  /** An update whose id matches nothing is a no-op. */
  lemma UpdateWithoutMatch(ingredients: seq<Ingredient>, u: Ingredient)
    requires forall k :: 0 <= k < |ingredients| ==> ingredients[k].id != u.id
    ensures Updated(ingredients, u) == ingredients
  {
  }

  /** After an update that matched, a lookup of its id returns the new record. */
  lemma {:induction false} LookupAfterUpdate(ingredients: seq<Ingredient>, u: Ingredient)
    ensures FindById(Updated(ingredients, u), u.id) ==
              if FindById(ingredients, u.id).Some? then Some(u) else None
  {
    Lists.FindAfterReplace(ingredients, HasId(u.id), u);
  }

  /** After a delete, no record with that id can be found. */
  lemma {:induction false} LookupAfterDelete(ingredients: seq<Ingredient>, id: string)
    ensures FindById(Deleted(ingredients, id), id) == None
  {
  }

  /** A delete whose id matches nothing is a no-op. */
  lemma DeleteWithoutMatch(ingredients: seq<Ingredient>, id: string)
    requires forall k :: 0 <= k < |ingredients| ==> ingredients[k].id != id
    ensures Deleted(ingredients, id) == ingredients
  {
  }

  /** Deleting keeps the survivors in order: it commutes with splitting the list. */
  lemma {:induction false} DeleteKeepsOrder(a: seq<Ingredient>, b: seq<Ingredient>, id: string)
    ensures Deleted(a + b, id) == Deleted(a, id) + Deleted(b, id)
  {
    Lists.FilterConcat(a, b, LacksId(id));
  }
}
