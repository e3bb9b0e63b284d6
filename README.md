# Kitchen Buddy core, modelled in Dafny

Kitchen Buddy is a mobile app that tracks pantry ingredients, a grocery list
and nearby shops. This project models the parts of it that hold logic rather
than rendering:

- the **pantry store** (`IngredientContext`) and the **grocery store**
  (`GroceryContext`): each owns one list, and add, update, delete, lookup
  and (grocery only) clear are spread, `map`, `filter` and `find`. Each
  store is a class with a `seq` field. Its methods call pure list functions
  and then run the in-memory half of the save: memory is set first, and
  then the write to storage either succeeds or is only logged;
- the **day-difference utility** `dayDifference` (both copies, `.ts` and
  `.tsx`): both `Date` arguments are truncated to local midnight in place,
  then the floor of the day delta is returned. Dates are mutable `JsDate`
  objects over integer milliseconds, in a zone with a fixed offset `tz`;
- the **multi-select toggle** of `multiSelectPicker`: remove every
  occurrence of a selected item, or append an unselected one;
- the **ingredient form**: initial state, the reset when the initial values
  change, the date, estimate and "opened" handlers, and submit
  normalisation;
- the **add-shop form**: required-field check, then the number check, then
  building the shop and resetting the fields.

Modules: `Wrappers` (Option), `Js` (the JavaScript `||`, truthiness and
`trim` semantics used), `Lists` (the array operations: `includes`,
`filter`, map-replace, `find`), `Domain` (records and enumerations),
`TimeDifference`, `TimeDifferenceArrow`, `IngredientContext`,
`GroceryContext`, `MultiSelectPicker`, `IngredientForm`, `AddShop`.

Points where the code behaves in a way that is easy to miss:
- `dayDifference` floors the day delta (it does not round up), and it
  mutates both of its arguments.
- `types/ingredient.ts` lacks `open`, `maturity` and `amount`, but the
  stores build them. `types/shop.ts` lacks `categories`, but the add-shop
  form sets it. The datatypes carry every field the code builds.

## Model

| member | source | states |
|---|---|---|
| `Domain.Ripeness.Value` | constants/ingredientProperties.ts:17-23 | each of NONE = -1, GREEN = 0, RIPE = 1, ADVANCED = 2 and OVERRIPE = 3 is the value of exactly that level, so the falsy 0 means exactly GREEN |
| `Lists.Includes` | components/multiSelectPicker.tsx:17 | `includes` is true exactly when the value is an element of the list |
| `Lists.Filter` | context/IngredientContext.tsx:66 | `filter` keeps only elements that pass the test, keeps every one that passes, and is the identity when all pass |
| `Lists.FilterConcat` | context/GroceryContext.tsx:67 | filtering a concatenation is the concatenation of the filtered parts, so survivors keep their order |
| `Lists.FilterCount` | context/GroceryContext.tsx:67 | a kept value keeps its multiplicity and a dropped value has none left |
| `Lists.ReplaceWhere` | context/IngredientContext.tsx:60 | map-replace: same length, and each position holds the replacement where the test hits and the old element elsewhere |
| `Lists.ReplaceNoMatch` | context/GroceryContext.tsx:61 | map-replace with no hit returns the list unchanged |
| `Lists.Find` | context/IngredientContext.tsx:72 | `find` is undefined exactly when nothing hits, and otherwise returns the first element that hits |
| `Lists.FindAppend` | context/IngredientContext.tsx:55 | after appending, a lookup returns an earlier hit if there is one, and otherwise the appended element if it hits |
| `Lists.FindAfterFilter` | context/GroceryContext.tsx:67 | after filtering by the complement of a test, that test can find nothing |
| `Lists.FindAfterReplace` | context/GroceryContext.tsx:61 | after map-replace with a matching value, `find` returns that value exactly when something had matched |
| `Js.TrimEmptyIffBlank` | app/shops/addShop.tsx:19 | `!s.trim()` holds exactly when every character is ECMAScript white space |
| `TimeDifference.JsDate.SetMidnight` | constants/timeDifference.ts:3 | `setHours(0,0,0,0)` moves the date in place to the midnight of its own local day |
| `TimeDifference.Midnight` | constants/timeDifference.ts:3-4 | the midnight of a day lies at or before the instant and less than a day before it, on the same local day, at a whole-day boundary |
| `TimeDifference.FloorDiv` | constants/timeDifference.ts:5 | `Math.floor(x / d)` is the q with q·d ≤ x < q·d + d |
| `TimeDifference.DaysBetween` | constants/timeDifference.ts:2-5 | the returned value is the signed count of local calendar days from `today`'s day to `item`'s day |
| `TimeDifference.DayDifference` | constants/timeDifference.ts:2-5 | both dates are left at their own midnight; the result is the floor of their day delta, which equals the calendar-day count of the original instants |
| `TimeDifference.DayDifferenceFromNow` | constants/timeDifference.ts:2 | with `today` omitted, the count is taken against a fresh date read from the clock; only `item` is mutated |
| `TimeDifference.SameDayIsZero` | constants/timeDifference.ts:3-5 | the result is 0 exactly when both instants fall on the same local day |
| `TimeDifference.Sign` | constants/timeDifference.ts:5 | the result is positive exactly when `item` is on a later day, and negative exactly when it is on an earlier day |
| `TimeDifference.Antisymmetric` | constants/timeDifference.ts:3-5 | swapping the arguments negates the result |
| `TimeDifference.Idempotent` | constants/timeDifference.ts:3-4 | truncating again moves nothing, and normalised inputs give the same result |
| `TimeDifference.CallTwice` | constants/timeDifference.ts:3-5 | a second call on the dates a first call left returns the same value and leaves the first call's truncated times |
| `TimeDifference.ShiftByDays` | components/IngredientForm.tsx:48-49 | an instant n whole days after t lies n calendar days after it |
| `TimeDifferenceArrow.DayDifference` | constants/timeDifference.tsx:2-6 | the arrow copy makes the same in-place truncation, and its result is the floor of the day delta, equal to the calendar-day count |
| `TimeDifferenceArrow.DayDifferenceFromNow` | constants/timeDifference.tsx:2 | the default `today` is a fresh date read from the clock |
| `TimeDifferenceArrow.AgreesWithModuleVersion` | constants/timeDifference.tsx:2-5 | for every input the `.tsx` copy returns what the `.ts` version returns, namely the calendar-day count |
| `IngredientContext.NewIngredient` | context/IngredientContext.tsx:45-54 | `id` and `addedDate` are always fresh; `open` is true only if supplied true; `maturity` and `amount` take their defaults only when absent; every other field is the argument's |
| `IngredientContext.FindById` | context/IngredientContext.tsx:71-73 | the lookup is undefined exactly when no record has the id, and otherwise returns the first record with it |
| `IngredientContext.Updated` | context/IngredientContext.tsx:59-61 | update keeps the length, and replaces exactly the records whose id matches |
| `IngredientContext.Deleted` | context/IngredientContext.tsx:65-67 | delete leaves no record with the id, keeps every other record, and keeps each other record's multiplicity |
| `IngredientContext.IngredientStore.constructor` | context/IngredientContext.tsx:11 | the provider starts with an empty list |
| `IngredientContext.IngredientStore.SaveIngredients` | context/IngredientContext.tsx:35-42 | memory becomes the new list whether or not the write succeeds; storage changes only on success; a failure is only logged |
| `IngredientContext.IngredientStore.AddIngredient` | context/IngredientContext.tsx:45-56 | the list becomes the old list plus exactly one new record at the end |
| `IngredientContext.IngredientStore.UpdateIngredient` | context/IngredientContext.tsx:59-62 | the list becomes the map-replaced list, then it is saved |
| `IngredientContext.IngredientStore.DeleteIngredient` | context/IngredientContext.tsx:65-68 | the list becomes the filtered list, then it is saved |
| `IngredientContext.IngredientStore.GetIngredientById` | context/IngredientContext.tsx:71-73 | returns a stored record with the id, or undefined exactly when none has it; nothing changes |
| `IngredientContext.AddAppendsOne` | context/IngredientContext.tsx:55 | add grows the list by one, keeps the earlier prefix, and puts the new record last |
| `IngredientContext.LookupAfterAdd` | context/IngredientContext.tsx:52-55 | looking up the new id finds the new record, unless an older record already had that timestamp id |
| `IngredientContext.UpdateWithoutMatch` | context/IngredientContext.tsx:60 | an update whose id matches nothing is a no-op |
| `IngredientContext.LookupAfterUpdate` | context/IngredientContext.tsx:60 | after an update that matched, a lookup of that id returns the new record |
| `IngredientContext.LookupAfterDelete` | context/IngredientContext.tsx:66 | after a delete, a lookup of that id returns undefined |
| `IngredientContext.DeleteWithoutMatch` | context/IngredientContext.tsx:66 | a delete whose id matches nothing is a no-op |
| `IngredientContext.DeleteKeepsOrder` | context/IngredientContext.tsx:66 | delete preserves the relative order of the survivors |
| `GroceryContext.NewEntry` | context/GroceryContext.tsx:42-55 | the outer id is always fresh. Each nested field the argument carries wins over its default, even a falsy one. Absent fields default: id to the fresh id, `addedDate` to now, `open` to false, `maturity` to `{NONE, now}`, `amount` to `{COUNT, '1'}` |
| `GroceryContext.FindById` | context/GroceryContext.tsx:76-78 | the lookup is undefined exactly when no entry has the id, and otherwise returns the first entry with it |
| `GroceryContext.Updated` | context/GroceryContext.tsx:60-62 | update keeps the length and replaces exactly the entries whose (possibly undefined) id equals the argument's |
| `GroceryContext.Deleted` | context/GroceryContext.tsx:66-68 | delete leaves no entry with the id and keeps every other entry with its multiplicity |
| `GroceryContext.GroceryStore.constructor` | context/GroceryContext.tsx:13 | the provider starts with an empty list |
| `GroceryContext.GroceryStore.SaveItems` | context/GroceryContext.tsx:32-39 | memory becomes the new list whether or not the write succeeds; storage changes only on success |
| `GroceryContext.GroceryStore.AddItem` | context/GroceryContext.tsx:42-57 | the list becomes the old list plus exactly one new entry at the end |
| `GroceryContext.GroceryStore.UpdateItem` | context/GroceryContext.tsx:60-63 | the list becomes the map-replaced list |
| `GroceryContext.GroceryStore.DeleteItem` | context/GroceryContext.tsx:66-69 | the list becomes the filtered list |
| `GroceryContext.GroceryStore.Clear` | context/GroceryContext.tsx:71-73 | the list becomes empty |
| `GroceryContext.GroceryStore.GetItemById` | context/GroceryContext.tsx:76-78 | returns a stored entry with the id, or undefined exactly when none has it |
| `GroceryContext.MaturityKept` | context/GroceryContext.tsx:49-52 | a missing maturity becomes `{NONE, now}`; a supplied GREEN (falsy 0) survives, because the spread overrides `lvl \|\| NONE` |
| `GroceryContext.LookupAfterAdd` | context/GroceryContext.tsx:54-56 | looking up the new id finds the new entry, unless an older entry shares it |
| `GroceryContext.UpdateWithoutMatch` | context/GroceryContext.tsx:61 | an update whose id matches nothing is a no-op |
| `GroceryContext.LookupAfterUpdate` | context/GroceryContext.tsx:61 | after an update that matched, a lookup of that id returns the new entry |
| `GroceryContext.LookupAfterDelete` | context/GroceryContext.tsx:67 | after a delete, a lookup of that id returns undefined |
| `GroceryContext.DeleteKeepsOrder` | context/GroceryContext.tsx:67 | delete preserves the relative order of the survivors |
| `MultiSelectPicker.HandleSelect` | components/multiSelectPicker.tsx:14-27 | the item's membership flips. A selected item is removed everywhere, with the others kept in order, and the length drops by its count. An unselected item is appended at the end |
| `MultiSelectPicker.IsSelected` | components/multiSelectPicker.tsx:31 | an entry is shown selected exactly when it occurs in the selection |
| `MultiSelectPicker.ToggleFlipsOnlyItem` | components/multiSelectPicker.tsx:17-23 | a toggle flips the item's selected state and leaves every other entry's state unchanged |
| `MultiSelectPicker.ToggleTwiceRestores` | components/multiSelectPicker.tsx:17-23 | toggling an unselected item twice returns exactly the original list |
| `MultiSelectPicker.ToggleTwiceMovesToEnd` | components/multiSelectPicker.tsx:17-23 | toggling a selected item twice drops all its occurrences and puts it back once at the end |
| `IngredientForm.InitialFields` | components/IngredientForm.tsx:17-23 | `name` starts as '' when absent and `open` as false unless supplied true; the expiry and the other fields are copied |
| `IngredientForm.ResetFields` | components/IngredientForm.tsx:28-35 | re-initialisation turns absent optional strings into '' and copies the expiry |
| `IngredientForm.Submission` | components/IngredientForm.tsx:53-63 | no optional string in the submitted record is '': a '' category, location, type or brand submits as undefined; non-empty values pass unchanged; the name, expiry and `open` pass exactly as held |
| `IngredientForm.SubmissionNormalises` | components/IngredientForm.tsx:56-60 | a '' and an undefined field submit the same record, and submitting a submitted record changes nothing |
| `IngredientForm.ResetSubmitsLikeInitial` | components/IngredientForm.tsx:28-35 | data submitted after the reset equals data submitted after the initial state from the same values |
| `IngredientForm.IngredientFormState.constructor` | components/IngredientForm.tsx:17-24 | the form mounts with the initial field values and the picker hidden. React also runs the effect once after mount, and the detail screen passes a fresh copy on every render, so with defined initial values the mounted form is then in the `OnInitialValues` (reset) state |
| `IngredientForm.IngredientFormState.OnInitialValues` | components/IngredientForm.tsx:26-37 | defined initial values reset every field; undefined ones leave the form as it was |
| `IngredientForm.IngredientFormState.ShowDatePicker` | components/IngredientForm.tsx:40 | the picker becomes visible and no field changes |
| `IngredientForm.IngredientFormState.HideDatePicker` | components/IngredientForm.tsx:41 | the picker is hidden and no field changes |
| `IngredientForm.IngredientFormState.HandleConfirmDate` | components/IngredientForm.tsx:42-45 | the expiry becomes the picked date, the picker is hidden, and nothing else changes |
| `IngredientForm.IngredientFormState.HandleSelectEstimate` | components/IngredientForm.tsx:47-51 | the expiry becomes now plus `days` whole days, which is `days` calendar days ahead; nothing else changes |
| `IngredientForm.IngredientFormState.HandleSubmit` | components/IngredientForm.tsx:53-63 | the submitted record is the normalisation of the current fields, and the form is unchanged |
| `IngredientForm.IngredientFormState.HandleOpened` | components/IngredientForm.tsx:66-70 | the notice fires exactly on the unopened→opened edge; `open` always takes the new value |
| `IngredientForm.EstimatesLandOnTheirDay` | constants/ingredientProperties.ts:10-15 | each estimate button (7, 10, 14, 30) sets an expiry that lies exactly that many calendar days ahead |
| `AddShop.Decide` | app/shops/addShop.tsx:18-40 | "required" holds exactly when the name or a coordinate is blank, or the type is unset. The number error holds exactly when all are filled but a coordinate fails to parse. Otherwise the shop holds the untrimmed name, the type, the categories, the parsed coordinates and the fresh id |
| `AddShop.BlankCoordinateIsNeverNumberError` | app/shops/addShop.tsx:19-29 | a blank coordinate always yields the "required" error, never the number error |
| `AddShop.AddShopForm.constructor` | app/shops/addShop.tsx:12-16 | the form starts empty, with no type and no categories |
| `AddShop.AddShopForm.HandleAddShop` | app/shops/addShop.tsx:18-47 | on either error nothing changes. On success exactly one shop is produced, and the name, type and coordinates are reset. `categories` is never reset |

## Left out

- Loading from storage (`AsyncStorage.getItem`, `JSON.parse`, rehydration of dates) and the storage write itself. The write's outcome is the `writeOk` parameter. `stored` is the value last written successfully.
- The asynchronous order of the save and the stale closures over the list in the provider callbacks. These are React scheduling, not list logic.
- `IngredientContext.IngredientStore.AddIngredient`: one clock reading `now` and one id reading `newId` stand for every `new Date()` and `Date.now()` in the call. In the source these are separate reads and may differ by a millisecond. Ids are not claimed unique.
- `GroceryContext.GroceryStore.AddItem`: one clock reading `now` and one id reading `newId`. In the source the default inner id, `addedDate`, `edited` and the outer id each read the clock separately.
- `GroceryContext.NewEntry`: a nested field that is present but holds `undefined` is treated as absent. In the source such a key overrides the default with `undefined`, because `...item.item` is spread last.
- `GroceryContext.NewEntry`: the argument's nested `item` is always present, as its type demands. The `?.` guards for an undefined `item` are not modelled.
- Records hold dates as values, not shared `Date` objects. The model therefore does not capture that `dayDifference` applied to a record's own `Date` truncates that record in place.
- Invalid dates (NaN time values), the time-value range limit, and daylight-saving time. The zone is a fixed offset.
- `IngredientForm.IngredientFormState.HandleSelectEstimate`: `setDate(getDate() + days)` on a fresh `Date` is modelled as adding `days` × 86 400 000 ms to the clock reading. That is exact only in a fixed-offset zone.
- `parseFloat` and `isNaN` are an abstract, possibly failing parse, given as a parameter. `Alert.alert` calls become the returned outcome or the notice flag. `onSelectionChange` and `addShop` become the returned value, since `context/ShopContext.tsx` does not provide `addShop`.
- `AddShop.AddShopForm.HandleAddShop` assumes a working `addShop`: as written, `useShops()` returns only `shops` and `setShops`, so the call on the success path throws a TypeError before the fields are reset.
- The text-input setters (`setName`, `setShopLat`, …), the pickers and all rendering.
- `hooks/useShopProximity.ts`: floating-point haversine distance, location permissions, alerts and navigation.
- The `frozen` field, freezing, expiry bucketing and ripeness staleness. No modelled code builds or reads them.
