/**
 * The state and event handlers of components/IngredientForm.tsx, without
 * the rendering: the form's `useState` fields, their initial values, the
 * reset when `initialValues` changes, the date and estimate handlers, the
 * "opened" notice and the data handed to `onSubmit`.
 */
module IngredientForm {
  import opened Wrappers
  import opened Domain
  import Js
  import TD = TimeDifference

  /** `IngredientData`: the form's field values, and the record it submits. */
  datatype IngredientData = IngredientData(
    name: string,
    category: Option<string>,
    location: Option<string>,
    confectionType: Option<string>,
    expirationDate: Option<Instant>,
    brand: Option<string>,
    open: bool)

  /** `Partial<IngredientData>`: the optional `initialValues`. */
  datatype InitialValues = InitialValues(
    name: Option<string>,
    category: Option<string>,
    location: Option<string>,
    confectionType: Option<string>,
    expirationDate: Option<Instant>,
    brand: Option<string>,
    open: Option<bool>)

  /** The `useState` initialisers. */
  function InitialFields(iv: Option<InitialValues>): (f: IngredientData)
    ensures iv.None? ==> f == IngredientData("", None, None, None, None, None, false)
    ensures iv.Some? ==> f.name == iv.value.name.GetOr("") && f.open == (iv.value.open == Some(true))
    ensures iv.Some? ==> f.expirationDate == iv.value.expirationDate && f.category == iv.value.category &&
                         f.location == iv.value.location && f.confectionType == iv.value.confectionType &&
                         f.brand == iv.value.brand
  {
    match iv
    case None => IngredientData("", None, None, None, None, None, false)
    case Some(v) =>
      IngredientData(
        name := Js.OrString(v.name, ""),
        category := v.category,
        location := v.location,
        confectionType := v.confectionType,
        expirationDate := if v.expirationDate.Some? then Some(v.expirationDate.value) else None,
        brand := v.brand,
        open := Js.OrFalse(v.open))
  }

  /** The `useEffect` body for defined `initialValues`: missing strings become ''. */
  function ResetFields(v: InitialValues): (f: IngredientData)
    ensures f.name == v.name.GetOr("") && f.open == (v.open == Some(true))
    ensures f.category == Some(v.category.GetOr("")) && f.location == Some(v.location.GetOr(""))
    ensures f.confectionType == Some(v.confectionType.GetOr("")) && f.brand == Some(v.brand.GetOr(""))
    ensures f.expirationDate == v.expirationDate
  {
    IngredientData(
      name := Js.OrString(v.name, ""),
      category := Some(Js.OrString(v.category, "")),
      location := Some(Js.OrString(v.location, "")),
      confectionType := Some(Js.OrString(v.confectionType, "")),
      expirationDate := if v.expirationDate.Some? then Some(v.expirationDate.value) else None,
      brand := Some(Js.OrString(v.brand, "")),
      open := Js.OrFalse(v.open))
  }

  /** No optional string holds ''. */
  predicate NoEmptyStrings(d: IngredientData) {
    d.category != Some("") && d.location != Some("") &&
    d.confectionType != Some("") && d.brand != Some("")
  }

  /**
   * The record `handleSubmit` passes to `onSubmit`: '' classification
   * strings and brand become undefined, others pass unchanged; the name is
   * passed exactly as typed, neither trimmed nor checked.
   */
  function Submission(f: IngredientData): (d: IngredientData)
    ensures NoEmptyStrings(d)
    ensures d.name == f.name && d.expirationDate == f.expirationDate && d.open == f.open
    ensures f.category != Some("") ==> d.category == f.category
    ensures f.location != Some("") ==> d.location == f.location
    ensures f.confectionType != Some("") ==> d.confectionType == f.confectionType
    ensures f.brand != Some("") ==> d.brand == f.brand
    ensures f.category == Some("") ==> d.category == None
    ensures f.location == Some("") ==> d.location == None
    ensures f.confectionType == Some("") ==> d.confectionType == None
    ensures f.brand == Some("") ==> d.brand == None
  {
    IngredientData(
      name := f.name,
      category := Js.OrUndefined(f.category),
      location := Js.OrUndefined(f.location),
      confectionType := Js.OrUndefined(f.confectionType),
      expirationDate := f.expirationDate,
      brand := Js.OrUndefined(f.brand),
      open := f.open)
  }

  /** Submitting is indifferent to '' versus undefined, and changes nothing it already produced. */
  lemma SubmissionNormalises(f: IngredientData)
    ensures Submission(f.(category := Some(""))) == Submission(f.(category := None))
    ensures Submission(f.(location := Some(""))) == Submission(f.(location := None))
    ensures Submission(f.(confectionType := Some(""))) == Submission(f.(confectionType := None))
    ensures Submission(f.(brand := Some(""))) == Submission(f.(brand := None))
    ensures Submission(Submission(f)) == Submission(f)
  {
  }

  /** Resetting from `initialValues` submits the same data as initialising from them. */
  lemma ResetSubmitsLikeInitial(v: InitialValues)
    ensures Submission(ResetFields(v)) == Submission(InitialFields(Some(v)))
  {
  }

  class IngredientFormState {
    var name: string
    var category: Option<string>
    var location: Option<string>
    var confectionType: Option<string>
    var expirationDate: Option<Instant>
    var brand: Option<string>
    var open: bool
    var isDatePickerVisible: bool

    /** The field values, bundled. */
    function Fields(): IngredientData
      reads this
    {
      IngredientData(name, category, location, confectionType, expirationDate, brand, open)
    }

    /**
     * Mounting the form: the `useState` initial values, with the picker
     * hidden. React then runs the `initialValues` effect once after mount
     * (and again whenever a caller passes a fresh copy), so a form mounted
     * with defined initial values moves on to the `OnInitialValues` state.
     */
    constructor (iv: Option<InitialValues>)
      ensures Fields() == InitialFields(iv) && !isDatePickerVisible
    {
      var f := InitialFields(iv);
      name, category, location, confectionType := f.name, f.category, f.location, f.confectionType;
      expirationDate, brand, open := f.expirationDate, f.brand, f.open;
      isDatePickerVisible := false;
    }

    /** The `useEffect` on `initialValues`: a defined value resets every field; undefined changes nothing. */
    method OnInitialValues(iv: Option<InitialValues>)
      modifies this
      ensures Fields() == if iv.Some? then ResetFields(iv.value) else old(Fields())
      ensures isDatePickerVisible == old(isDatePickerVisible)
    {
      if iv.Some? {
        var v := iv.value;
        name := Js.OrString(v.name, "");
        category := Some(Js.OrString(v.category, ""));
        location := Some(Js.OrString(v.location, ""));
        confectionType := Some(Js.OrString(v.confectionType, ""));
        expirationDate := if v.expirationDate.Some? then Some(v.expirationDate.value) else None;
        brand := Some(Js.OrString(v.brand, ""));
        open := Js.OrFalse(v.open);
      }
    }

    /** `showDatePicker`. */
    method ShowDatePicker()
      modifies this
      ensures isDatePickerVisible && Fields() == old(Fields())
    {
      isDatePickerVisible := true;
    }

    /** `hideDatePicker`. */
    method HideDatePicker()
      modifies this
      ensures !isDatePickerVisible && Fields() == old(Fields())
    {
      isDatePickerVisible := false;
    }

    /** `handleConfirmDate`: takes the picked date and hides the picker. */
    method HandleConfirmDate(date: Instant)
      modifies this
      ensures Fields() == old(Fields()).(expirationDate := Some(date))
      ensures !isDatePickerVisible
    {
      expirationDate := Some(date);
      HideDatePicker();
    }

    /**
     * `handleSelectEstimate(days)`: `new Date()` read from the clock `now`,
     * moved forward by `setDate(getDate() + days)`, which in a fixed-offset
     * zone is exactly `days` whole days.
     */
    method HandleSelectEstimate(days: int, now: Instant, ghost tz: int)
      modifies this
      ensures Fields() == old(Fields()).(expirationDate := Some(now + days * TD.MsPerDay))
      ensures isDatePickerVisible == old(isDatePickerVisible)
      ensures TD.DaysBetween(expirationDate.value, now, tz) == days
    {
      var newDate := now + days * TD.MsPerDay;
      expirationDate := Some(newDate);
      TD.ShiftByDays(now, days, tz);
    }

    /** `handleSubmit`: the record passed to `onSubmit`; the form itself is unchanged. */
    method HandleSubmit() returns (data: IngredientData)
      ensures data == Submission(Fields())
      ensures NoEmptyStrings(data) && data.name == name && data.open == open
    {
      data := Submission(Fields());
    }

    /** `handleOpened(value)`: the notice fires only on the unopened-to-opened edge. */
    method HandleOpened(value: bool) returns (noticeShown: bool)
      modifies this
      ensures noticeShown <==> !old(open) && value
      ensures Fields() == old(Fields()).(open := value)
      ensures isDatePickerVisible == old(isDatePickerVisible)
    {
      noticeShown := !open && value;
      open := value;
    }
  }

  /** Every estimate button puts the expiry exactly that many calendar days ahead. */
  lemma EstimatesLandOnTheirDay(now: Instant, tz: int, k: nat)
    requires k < |ExpiryEstimateDays|
    ensures TD.DaysBetween(now + ExpiryEstimateDays[k] * TD.MsPerDay, now, tz) == ExpiryEstimateDays[k]
  {
    TD.ShiftByDays(now, ExpiryEstimateDays[k], tz);
  }
}
