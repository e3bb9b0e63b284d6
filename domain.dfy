/**
 * The records the application builds: pantry ingredients, grocery-list
 * entries and the enumerations they draw from. Field sets follow what the
 * stores and forms actually construct.
 */
module Domain {
  import opened Wrappers

  /** A JavaScript time value: milliseconds since the Unix epoch. */
  type Instant = int

  /** `RIPENESS`: an ordered scale; `NotRipening` is `RIPENESS.NONE`. */
  datatype Ripeness = NotRipening | Green | Ripe | Advanced | Overripe {
    /** The enum's numeric value, -1 for NONE up to 3 for OVERRIPE. */
    function Value(): (v: int)
      ensures -1 <= v <= 3
      ensures v == -1 <==> this == NotRipening
      ensures v == 0 <==> this == Green
      ensures v == 1 <==> this == Ripe
      ensures v == 2 <==> this == Advanced
      ensures v == 3 <==> this == Overripe
    {
      match this
      case NotRipening => -1
      case Green => 0
      case Ripe => 1
      case Advanced => 2
      case Overripe => 3
    }
  }

  /** `{ lvl, edited }`: the ripeness level and when it was last confirmed. */
  datatype Maturity = Maturity(lvl: Ripeness, edited: Instant)

  /** `IngredientAmount`, discriminated by `kind` ('Count', 'Fraction', 'Custom'). */
  datatype IngredientAmount =
    | Count(value: string)
    | Fraction(value: string)
    | Custom(value: string, unit: string)

  /** `{ kind: IngredientAmountKind.COUNT, value: '1' }`. */
  const DefaultAmount: IngredientAmount := Count("1")

  /** A stored pantry record: the fields a store add always sets are plain, the rest optional. */
  datatype Ingredient = Ingredient(
    id: string,
    name: Option<string>,
    category: Option<string>,
    location: Option<string>,
    confectionType: Option<string>,
    expirationDate: Option<Instant>,
    addedDate: Instant,
    brand: Option<string>,
    open: bool,
    maturity: Maturity,
    amount: IngredientAmount)

  /** `Partial<Ingredient>`: every field may be missing. */
  datatype PartialIngredient = PartialIngredient(
    id: Option<string>,
    name: Option<string>,
    category: Option<string>,
    location: Option<string>,
    confectionType: Option<string>,
    expirationDate: Option<Instant>,
    addedDate: Option<Instant>,
    brand: Option<string>,
    open: Option<bool>,
    maturity: Option<Maturity>,
    amount: Option<IngredientAmount>)

  /** `{ ...base, ...over }`: a field present in `over` wins, the others come from `base`. */
  function Spread(base: PartialIngredient, over: PartialIngredient): PartialIngredient {
    PartialIngredient(
      if over.id.Some? then over.id else base.id,
      if over.name.Some? then over.name else base.name,
      if over.category.Some? then over.category else base.category,
      if over.location.Some? then over.location else base.location,
      if over.confectionType.Some? then over.confectionType else base.confectionType,
      if over.expirationDate.Some? then over.expirationDate else base.expirationDate,
      if over.addedDate.Some? then over.addedDate else base.addedDate,
      if over.brand.Some? then over.brand else base.brand,
      if over.open.Some? then over.open else base.open,
      if over.maturity.Some? then over.maturity else base.maturity,
      if over.amount.Some? then over.amount else base.amount)
  }

  /** `GroceryListItem`: a list-entry id (optional in its type) around a partial ingredient. */
  datatype GroceryListItem = GroceryListItem(id: Option<string>, item: PartialIngredient)

  const Categories: seq<string> :=
    ["Fruit", "Vegetable", "Dairy", "Fish", "Meat", "Liquid", "Pantry Staple", "Spice", "Other"]
  const Locations: seq<string> := ["Fridge", "Freezer", "Pantry", "Counter", "Other"]
  const Confections: seq<string> := ["Fresh", "Canned", "Frozen", "Cured", "Dried", "Cooked", "Other"]

  /** `EXPIRY_ESTIMATES`: the day counts offered by the form's estimate buttons. */
  const ExpiryEstimateDays: seq<int> := [7, 10, 14, 30]
}
