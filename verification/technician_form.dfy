/** The technician editor (frontend/src/pages/technicians/TechnicianForm.tsx). */
module TechnicianForm {
  import opened Wrappers
  import opened Text
  import opened Records
  import opened Lists
  import opened Forms
  import EmailPattern

  const NameRequired := "El nombre es requerido"
  const EmailRequired := "El email es requerido"
  const EmailMalformed := "Formato de email inválido"
  const PhoneRequired := "El teléfono es requerido"
  const SpecializationRequired := "La especialidad es requerida"

  /** `Omit<Technician, "id">` */
  datatype Draft = Draft(name: string, email: string, phone: string, specialization: string)

  /** The form's inputs, by their `name`, which is also their key in the errors record. */
  datatype Field = Name | Email | Phone | Specialization

  /** `initialFormState`: every field empty. */
  const Initial := Draft("", "", "", "")

  /** The record being edited, without its id. */
  function DraftOf(t: Technician): Draft {
    Draft(t.name, t.email, t.phone, t.specialization)
  }

  /**
   * What `validateForm` accepts: no field all white space, and an email of the shape the
   * pattern `^\S+@\S+\.\S+$` describes.
   */
  predicate Acceptable(d: Draft) {
    && !Blank(d.name)
    && !Blank(d.email)
    && EmailPattern.EmailShaped(d.email)
    && !Blank(d.phone)
    && !Blank(d.specialization)
  }

  /** `handleChange`: the value goes verbatim into the field the input names; nothing else changes. */
  function Changed(d: Draft, f: Field, value: string): (r: Draft)
    ensures r.name == if f == Name then value else d.name
    ensures r.email == if f == Email then value else d.email
    ensures r.phone == if f == Phone then value else d.phone
    ensures r.specialization == if f == Specialization then value else d.specialization
  {
    match f
    case Name => d.(name := value)
    case Email => d.(email := value)
    case Phone => d.(phone := value)
    case Specialization => d.(specialization := value)
  }

  /**
   * `errors` is what `validateForm` reports for `d`: exactly the failed checks, each with its
   * message; the email is "required" when blank and "invalid" only when it is not.
   */
  predicate Reports(errors: Errors<Field>, d: Draft) {
    && (Name in errors <==> Blank(d.name))
    && (Email in errors <==> Blank(d.email) || !EmailPattern.Matches(EmailPattern.Email, d.email))
    && (Phone in errors <==> Blank(d.phone))
    && (Specialization in errors <==> Blank(d.specialization))
    && (Name in errors ==> errors[Name] == NameRequired)
    && (Email in errors ==>
          errors[Email] == if Blank(d.email) then EmailRequired else EmailMalformed)
    && (Phone in errors ==> errors[Phone] == PhoneRequired)
    && (Specialization in errors ==> errors[Specialization] == SpecializationRequired)
  }

  /** A report is empty exactly when the draft is acceptable. */
  lemma ReportsNothingIffAcceptable(errors: Errors<Field>, d: Draft)
    requires Reports(errors, d)
    ensures errors == map[] <==> Acceptable(d)
  {
    EmailPattern.EmailMatchesIffShaped(d.email);
    if Acceptable(d) {
      forall k | k in errors ensures false {
        match k
        case Name => case Email => case Phone => case Specialization =>
      }
      assert errors.Keys == {};
    }
  }

  /** A blank email is reported missing, never malformed. */
  lemma BlankEmailIsRequired(errors: Errors<Field>, d: Draft)
    requires Reports(errors, d) && Blank(d.email)
    ensures errors[Email] == EmailRequired
  {
  }

  /** The email check of `validateForm`: missing, malformed, or nothing to report. */
  method CheckEmail(email: string) returns (message: Option<string>)
    ensures message.None? <==> !Blank(email) && EmailPattern.Matches(EmailPattern.Email, email)
    ensures message.Some? ==>
              message.value == if Blank(email) then EmailRequired else EmailMalformed
  {
    TrimEmptyIffBlank(email);
    if Trim(email) == "" {
      message := Some(EmailRequired);
    } else if !EmailPattern.Matches(EmailPattern.Email, email) {
      message := Some(EmailMalformed);
    } else {
      message := None;
    }
  }

  /** The `newErrors` record `validateForm` fills, check by check. */
  method Check(d: Draft) returns (newErrors: Errors<Field>)
    ensures Reports(newErrors, d)
  {
    TrimEmptyIffBlank(d.name);
    TrimEmptyIffBlank(d.phone);
    TrimEmptyIffBlank(d.specialization);
    var emailMessage := CheckEmail(d.email);
    newErrors := Entries(Trim(d.name) == "", emailMessage, Trim(d.phone) == "",
                         Trim(d.specialization) == "");
  }

  /** The four checks' writes, given their outcomes. */
  method Entries(noName: bool, emailMessage: Option<string>, noPhone: bool, noSpecialization: bool)
    returns (newErrors: Errors<Field>)
    ensures Name in newErrors <==> noName
    ensures Email in newErrors <==> emailMessage.Some?
    ensures Phone in newErrors <==> noPhone
    ensures Specialization in newErrors <==> noSpecialization
    ensures Name in newErrors ==> newErrors[Name] == NameRequired
    ensures Email in newErrors ==> newErrors[Email] == emailMessage.value
    ensures Phone in newErrors ==> newErrors[Phone] == PhoneRequired
    ensures Specialization in newErrors ==> newErrors[Specialization] == SpecializationRequired
  {
    newErrors := map[];
    if noName {
      newErrors := newErrors[Name := NameRequired];
    }
    if emailMessage.Some? {
      newErrors := newErrors[Email := emailMessage.value];
    }
    if noPhone {
      newErrors := newErrors[Phone := PhoneRequired];
    }
    if noSpecialization {
      newErrors := newErrors[Specialization := SpecializationRequired];
    }
  }

  class Form {
    var data: Draft
    var errors: Errors<Field>

    constructor ()
      ensures data == Initial && errors == map[]
    {
      data := Initial;
      errors := map[];
    }

    /** The effect that loads the record being edited, when `editId` names one. */
    method Populate(technicians: seq<Technician>, editId: Option<string>)
      modifies this
      ensures Truthy(editId) && Find(technicians, (t: Technician) => t.id == editId.value).Some? ==>
                data == DraftOf(Find(technicians, (t: Technician) => t.id == editId.value).value)
      ensures !(Truthy(editId) && Find(technicians, (t: Technician) => t.id == editId.value).Some?) ==>
                data == old(data)
      ensures errors == old(errors)
    {
      if Truthy(editId) {
        var found := Find(technicians, (t: Technician) => t.id == editId.value);
        if found.Some? {
          data := DraftOf(found.value);
        }
      }
    }

    method HandleChange(f: Field, value: string)
      modifies this
      ensures data == Changed(old(data), f, value)
      ensures errors == ClearError(old(errors), f)
    {
      data := Changed(data, f, value);
      errors := ClearError(errors, f);
    }

    /** `validateForm`: records the report on the current draft; true exactly when it is empty. */
    method ValidateForm() returns (valid: bool)
      modifies this
      ensures data == old(data)
      ensures Reports(errors, data)
      ensures valid <==> errors == map[]
      ensures valid <==> Acceptable(data)
    {
      errors := Check(data);
      ReportsNothingIffAcceptable(errors, data);
      valid := |errors.Keys| == 0;
      assert valid <==> errors.Keys == {};
    }

    /**
     * `handleSubmit`: an invalid form asks nothing of the store and stays open; a valid one
     * updates `editId` when it is set, adds otherwise, and closes.
     */
    method HandleSubmit(editId: Option<string>) returns (call: StoreCall<Draft>, closed: bool)
      modifies this
      ensures data == old(data)
      ensures closed <==> Acceptable(data)
      ensures !Acceptable(data) ==> call == NoCall
      ensures Acceptable(data) && Truthy(editId) ==> call == Update(editId.value, data)
      ensures Acceptable(data) && !Truthy(editId) ==> call == Add(data)
    {
      var valid := ValidateForm();
      if !valid {
        return NoCall, false;
      }
      if Truthy(editId) {
        call := Update(editId.value, data);
      } else {
        call := Add(data);
      }
      closed := true;
    }
  }
}
