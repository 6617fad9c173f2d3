/** The location editor (frontend/src/pages/locations/LocationForm.tsx). */
module LocationForm {
  import opened Wrappers
  import opened Text
  import opened Records
  import opened Lists
  import opened Forms

  const NameRequired := "El nombre es requerido"
  const AddressRequired := "La dirección es requerida"
  const CapacityNotPositive := "La capacidad debe ser mayor a 0"

  /** `Omit<Location, "id">` */
  datatype Draft = Draft(name: string, address: string, capacity: int, hasVideoEquipment: bool)

  /** The form's inputs, by their `name`, which is also their key in the errors record. */
  datatype Field = Name | Address | Capacity | HasVideoEquipment

  /** What a change event carries, by the input's `type`. */
  datatype Input = Checkbox(checked: bool) | Number(parsed: Option<int>) | TextValue(value: string)

  /** The markup: capacity is a number input, the equipment flag a checkbox, the rest text. */
  predicate Fits(f: Field, input: Input) {
    match f
    case Capacity => input.Number?
    case HasVideoEquipment => input.Checkbox?
    case _ => input.TextValue?
  }

  /** `initialFormState`: empty name and address, 20 seats, no video equipment. */
  const Initial := Draft("", "", 20, false)

  /** The record being edited, without its id. */
  function DraftOf(l: Location): Draft {
    Draft(l.name, l.address, l.capacity, l.hasVideoEquipment)
  }

  /** What `validateForm` accepts: a name and an address that are not all white space, seats. */
  predicate Acceptable(d: Draft) {
    !Blank(d.name) && !Blank(d.address) && d.capacity > 0
  }

  /** The empty form is refused, for its name and address only. */
  lemma InitialRejected()
    ensures !Acceptable(Initial)
    ensures Initial.capacity > 0
  {
  }

  /**
   * `handleChange`: a checkbox stores `checked`, a number input `parseInt(value, 10) || 0`,
   * any other input its value, into the field the input names; nothing else changes.
   */
  function Changed(d: Draft, f: Field, input: Input): (r: Draft)
    requires Fits(f, input)
    ensures r.name == if f == Name then input.value else d.name
    ensures r.address == if f == Address then input.value else d.address
    ensures r.capacity == if f == Capacity then NumberOrZero(input.parsed) else d.capacity
    ensures r.hasVideoEquipment ==
              if f == HasVideoEquipment then input.checked else d.hasVideoEquipment
  {
    match input
    case Checkbox(checked) => d.(hasVideoEquipment := checked)
    case Number(parsed) => d.(capacity := NumberOrZero(parsed))
    case TextValue(value) => if f == Name then d.(name := value) else d.(address := value)
  }

  /** `errors` is what `validateForm` reports for `d`: exactly the failed checks, each with its message. */
  predicate Reports(errors: Errors<Field>, d: Draft) {
    && HasVideoEquipment !in errors
    && (Name in errors <==> Blank(d.name))
    && (Address in errors <==> Blank(d.address))
    && (Capacity in errors <==> d.capacity <= 0)
    && (Name in errors ==> errors[Name] == NameRequired)
    && (Address in errors ==> errors[Address] == AddressRequired)
    && (Capacity in errors ==> errors[Capacity] == CapacityNotPositive)
  }

  /** A report is empty exactly when the draft is acceptable. */
  lemma ReportsNothingIffAcceptable(errors: Errors<Field>, d: Draft)
    requires Reports(errors, d)
    ensures errors == map[] <==> Acceptable(d)
  {
    if Acceptable(d) {
      forall k | k in errors ensures false {
        match k
        case Name => case Address => case Capacity => case HasVideoEquipment =>
      }
      assert errors.Keys == {};
    }
  }

  /** The `newErrors` record `validateForm` fills, check by check. */
  method Check(d: Draft) returns (newErrors: Errors<Field>)
    ensures Reports(newErrors, d)
  {
    TrimEmptyIffBlank(d.name);
    TrimEmptyIffBlank(d.address);
    newErrors := Entries(Trim(d.name) == "", Trim(d.address) == "", d.capacity <= 0);
  }

  /** The three checks' writes, given their outcomes. */
  method Entries(noName: bool, noAddress: bool, noCapacity: bool) returns (newErrors: Errors<Field>)
    ensures Name in newErrors <==> noName
    ensures Address in newErrors <==> noAddress
    ensures Capacity in newErrors <==> noCapacity
    ensures HasVideoEquipment !in newErrors
    ensures Name in newErrors ==> newErrors[Name] == NameRequired
    ensures Address in newErrors ==> newErrors[Address] == AddressRequired
    ensures Capacity in newErrors ==> newErrors[Capacity] == CapacityNotPositive
  {
    newErrors := map[];
    if noName {
      newErrors := newErrors[Name := NameRequired];
    }
    if noAddress {
      newErrors := newErrors[Address := AddressRequired];
    }
    if noCapacity {
      newErrors := newErrors[Capacity := CapacityNotPositive];
    }
  }

  class Form {
    var data: Draft
    var errors: Errors<Field>

    constructor ()
      ensures data == Initial && errors == map[]
    {
      data := Initial;
      errors := map[];
    }

    /** The effect that loads the record being edited, when `editId` names one. */
    method Populate(locations: seq<Location>, editId: Option<string>)
      modifies this
      ensures Truthy(editId) && Find(locations, (l: Location) => l.id == editId.value).Some? ==>
                data == DraftOf(Find(locations, (l: Location) => l.id == editId.value).value)
      ensures !(Truthy(editId) && Find(locations, (l: Location) => l.id == editId.value).Some?) ==>
                data == old(data)
      ensures errors == old(errors)
    {
      if Truthy(editId) {
        var found := Find(locations, (l: Location) => l.id == editId.value);
        if found.Some? {
          data := DraftOf(found.value);
        }
      }
    }

    method HandleChange(f: Field, input: Input)
      requires Fits(f, input)
      modifies this
      ensures data == Changed(old(data), f, input)
      ensures errors == ClearError(old(errors), f)
    {
      data := Changed(data, f, input);
      errors := ClearError(errors, f);
    }

    /** `validateForm`: records the report on the current draft; true exactly when it is empty. */
    method ValidateForm() returns (valid: bool)
      modifies this
      ensures data == old(data)
      ensures Reports(errors, data)
      ensures valid <==> errors == map[]
      ensures valid <==> Acceptable(data)
    {
      errors := Check(data);
      ReportsNothingIffAcceptable(errors, data);
      valid := |errors.Keys| == 0;
      assert valid <==> errors.Keys == {};
    }

    /**
     * `handleSubmit`: an invalid form asks nothing of the store and stays open; a valid one
     * updates `editId` when it is set, adds otherwise, and closes.
     */
    method HandleSubmit(editId: Option<string>) returns (call: StoreCall<Draft>, closed: bool)
      modifies this
      ensures data == old(data)
      ensures closed <==> Acceptable(data)
      ensures !Acceptable(data) ==> call == NoCall
      ensures Acceptable(data) && Truthy(editId) ==> call == Update(editId.value, data)
      ensures Acceptable(data) && !Truthy(editId) ==> call == Add(data)
    {
      var valid := ValidateForm();
      if !valid {
        return NoCall, false;
      }
      if Truthy(editId) {
        call := Update(editId.value, data);
      } else {
        call := Add(data);
      }
      closed := true;
    }
  }
}
