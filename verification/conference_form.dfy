/**
 * The conference editor (frontend/src/pages/conferences/ConferenceForm.tsx): the record
 * being edited and its error messages are the form's state; the handlers update them.
 */
module ConferenceForm {
  import opened Wrappers
  import opened Text
  import opened Records
  import opened Lists
  import opened Forms

  const TitleRequired := "El título es requerido"
  const DateRequired := "La fecha es requerida"
  const StartRequired := "La hora de inicio es requerida"
  const EndRequired := "La hora de fin es requerida"
  const EndNotAfterStart := "La hora de fin debe ser posterior a la de inicio"
  const LocationRequired := "La ubicación es requerida"
  const TechnicianRequired := "Se requiere al menos un técnico"
  const ParticipantsRequired := "El número de participantes debe ser mayor a 0"

  /** `Omit<VideoConference, "id">` */
  datatype Draft = Draft(
    title: string,
    description: string,
    date: string,
    startTime: string,
    endTime: string,
    locationId: string,
    technicianIds: seq<string>,
    participantIds: seq<string>,
    participantCount: int,
    status: string)

  /** The form's fields, by the `name` they carry as inputs and as keys of the errors record. */
  datatype Field = Title | Description | Date | StartTime | EndTime | LocationId | Status
                 | ParticipantCount | TechnicianIds | ParticipantIds

  /** The field names `handleChange` handles (the two lists have their own handlers). */
  predicate IsInput(f: Field) {
    f != TechnicianIds && f != ParticipantIds
  }

  /** The text a field holds. */
  function TextOf(d: Draft, f: Field): string
    requires IsInput(f) && f != ParticipantCount
  {
    match f
    case Title => d.title
    case Description => d.description
    case Date => d.date
    case StartTime => d.startTime
    case EndTime => d.endTime
    case LocationId => d.locationId
    case Status => d.status
  }

  /**
   * `initialFormState`: an empty title and description, `today` (the ISO date of the
   * clock), 09:00 to 10:00, the first location if there is one, nobody assigned, 10
   * participants, scheduled.
   */
  function InitialDraft(today: string, locations: seq<Location>): Draft {
    Draft("", "", today, "09:00", "10:00", if |locations| > 0 then locations[0].id else "",
          [], [], 10, "scheduled")
  }

  /** The record being edited, without its id. */
  function DraftOf(c: Conference): Draft {
    Draft(c.title, c.description, c.date, c.startTime, c.endTime, c.locationId,
          c.technicianIds, c.participantIds, c.participantCount, c.status)
  }

  /**
   * What `validateForm` accepts: a title that is not all white space, a date, a start and
   * an end time with the start first, a location, a technician and a positive number of
   * participants.
   */
  predicate Acceptable(d: Draft) {
    && !Blank(d.title)
    && d.date != ""
    && d.startTime != ""
    && d.endTime != ""
    && Less(d.startTime, d.endTime)
    && d.locationId != ""
    && |d.technicianIds| > 0
    && d.participantCount > 0
  }

  /** The empty form is never accepted: it has no title and no technician. */
  lemma InitialDraftRejected(today: string, locations: seq<Location>)
    ensures !Acceptable(InitialDraft(today, locations))
    ensures InitialDraft(today, locations).locationId != "" ==> |locations| > 0
  {
  }

  /** A start time that is not before an empty end time: the ordering message wins. */
  lemma NothingBeforeEmpty(s: string)
    ensures !Less(s, "")
  {
  }

  /**
   * `handleChange`: the participant count stores `parseInt(value, 10) || 0`; any other
   * field stores the value as typed. Nothing else changes.
   */
  function Changed(d: Draft, f: Field, value: string, parsed: Option<int>): (r: Draft)
    requires IsInput(f)
    ensures f == ParticipantCount ==> r.participantCount == NumberOrZero(parsed)
    ensures f != ParticipantCount ==>
              TextOf(r, f) == value && r.participantCount == d.participantCount
    ensures forall g :: IsInput(g) && g != f && g != ParticipantCount ==>
              TextOf(r, g) == TextOf(d, g)
    ensures r.technicianIds == d.technicianIds && r.participantIds == d.participantIds
  {
    match f
    case Title => d.(title := value)
    case Description => d.(description := value)
    case Date => d.(date := value)
    case StartTime => d.(startTime := value)
    case EndTime => d.(endTime := value)
    case LocationId => d.(locationId := value)
    case Status => d.(status := value)
    case ParticipantCount => d.(participantCount := NumberOrZero(parsed))
  }

  /**
   * The first five checks of `validateForm`, on title, date and times: each failed check
   * has its key with its message, and an end time that is not after the start gets the
   * ordering message even when it is also missing.
   */
  predicate ReportsSchedule(errors: Errors<Field>, d: Draft) {
    && (Title in errors <==> Blank(d.title))
    && (Date in errors <==> d.date == "")
    && (StartTime in errors <==> d.startTime == "")
    && (EndTime in errors <==> d.endTime == "" || !Less(d.startTime, d.endTime))
    && (Title in errors ==> errors[Title] == TitleRequired)
    && (Date in errors ==> errors[Date] == DateRequired)
    && (StartTime in errors ==> errors[StartTime] == StartRequired)
    && (EndTime in errors ==>
          errors[EndTime] == if Less(d.startTime, d.endTime) then EndRequired
                             else EndNotAfterStart)
  }

  /** The last three checks: location, technicians, participants. */
  predicate ReportsResources(errors: Errors<Field>, d: Draft) {
    && (LocationId in errors <==> d.locationId == "")
    && (TechnicianIds in errors <==> |d.technicianIds| == 0)
    && (ParticipantCount in errors <==> d.participantCount <= 0)
    && (LocationId in errors ==> errors[LocationId] == LocationRequired)
    && (TechnicianIds in errors ==> errors[TechnicianIds] == TechnicianRequired)
    && (ParticipantCount in errors ==> errors[ParticipantCount] == ParticipantsRequired)
  }

  /**
   * `errors` is what `validateForm` reports for `d`: exactly the failed checks' keys, each
   * with its message.
   */
  predicate Reports(errors: Errors<Field>, d: Draft) {
    && Description !in errors && Status !in errors && ParticipantIds !in errors
    && ReportsSchedule(errors, d)
    && ReportsResources(errors, d)
  }

  /** A report is empty exactly when the draft is acceptable. */
  lemma ReportsNothingIffAcceptable(errors: Errors<Field>, d: Draft)
    requires Reports(errors, d)
    ensures errors == map[] <==> Acceptable(d)
  {
    if Acceptable(d) {
      forall k | k in errors ensures false {
        match k
        case Title => case Description => case Date => case StartTime => case EndTime =>
        case LocationId => case Status => case ParticipantCount => case TechnicianIds =>
        case ParticipantIds =>
      }
      assert errors.Keys == {};
    }
  }

  /** An empty end time always reports the ordering message, never "required". */
  lemma EmptyEndTimeReportsOrdering(errors: Errors<Field>, d: Draft)
    requires Reports(errors, d) && d.endTime == ""
    ensures errors[EndTime] == EndNotAfterStart
  {
    NothingBeforeEmpty(d.startTime);
  }

  /**
   * The `newErrors` record `validateForm` fills, check by check: each failed check writes
   * its own key, and an ordering failure overwrites the end time's "required" message.
   */
  method Check(d: Draft) returns (newErrors: Errors<Field>)
    ensures Reports(newErrors, d)
  {
    TrimEmptyIffBlank(d.title);
    var schedule := ScheduleEntries(Trim(d.title) == "", d.date == "", d.startTime == "",
                                    d.endTime == "", Less(d.startTime, d.endTime));
    var resources := ResourceEntries(d.locationId == "", |d.technicianIds| == 0,
                                     d.participantCount <= 0);
    newErrors := schedule + resources;
  }

  /** The writes of the checks on title, date and times, given their outcomes. */
  method ScheduleEntries(noTitle: bool, noDate: bool, noStart: bool, noEnd: bool, ordered: bool)
    returns (newErrors: Errors<Field>)
    ensures Title in newErrors <==> noTitle
    ensures Date in newErrors <==> noDate
    ensures StartTime in newErrors <==> noStart
    ensures EndTime in newErrors <==> noEnd || !ordered
    ensures Title in newErrors ==> newErrors[Title] == TitleRequired
    ensures Date in newErrors ==> newErrors[Date] == DateRequired
    ensures StartTime in newErrors ==> newErrors[StartTime] == StartRequired
    ensures EndTime in newErrors ==>
              newErrors[EndTime] == if ordered then EndRequired else EndNotAfterStart
    ensures Description !in newErrors && Status !in newErrors && ParticipantIds !in newErrors
    ensures LocationId !in newErrors && TechnicianIds !in newErrors
    ensures ParticipantCount !in newErrors
  {
    newErrors := map[];
    if noTitle {
      newErrors := newErrors[Title := TitleRequired];
    }
    if noDate {
      newErrors := newErrors[Date := DateRequired];
    }
    if noStart {
      newErrors := newErrors[StartTime := StartRequired];
    }
    if noEnd {
      newErrors := newErrors[EndTime := EndRequired];
    }
    if !ordered {
      newErrors := newErrors[EndTime := EndNotAfterStart];
    }
  }

  /** The writes of the checks on location, technicians and participants, given their outcomes. */
  method ResourceEntries(noLocation: bool, noTechnician: bool, noParticipants: bool)
    returns (newErrors: Errors<Field>)
    ensures LocationId in newErrors <==> noLocation
    ensures TechnicianIds in newErrors <==> noTechnician
    ensures ParticipantCount in newErrors <==> noParticipants
    ensures LocationId in newErrors ==> newErrors[LocationId] == LocationRequired
    ensures TechnicianIds in newErrors ==> newErrors[TechnicianIds] == TechnicianRequired
    ensures ParticipantCount in newErrors ==> newErrors[ParticipantCount] == ParticipantsRequired
    ensures Description !in newErrors && Status !in newErrors && ParticipantIds !in newErrors
    ensures Title !in newErrors && Date !in newErrors && StartTime !in newErrors
    ensures EndTime !in newErrors
  {
    newErrors := map[];
    if noLocation {
      newErrors := newErrors[LocationId := LocationRequired];
    }
    if noTechnician {
      newErrors := newErrors[TechnicianIds := TechnicianRequired];
    }
    if noParticipants {
      newErrors := newErrors[ParticipantCount := ParticipantsRequired];
    }
  }

  class Form {
    var data: Draft
    var errors: Errors<Field>

    constructor (today: string, locations: seq<Location>)
      ensures data == InitialDraft(today, locations) && errors == map[]
    {
      data := InitialDraft(today, locations);
      errors := map[];
    }

    /** The effect that loads the record being edited, when `editId` names one. */
    method Populate(conferences: seq<Conference>, editId: Option<string>)
      modifies this
      ensures Truthy(editId) && Find(conferences, (c: Conference) => c.id == editId.value).Some? ==>
                data == DraftOf(Find(conferences, (c: Conference) => c.id == editId.value).value)
      ensures !(Truthy(editId) && Find(conferences, (c: Conference) => c.id == editId.value).Some?) ==>
                data == old(data)
      ensures errors == old(errors)
    {
      if Truthy(editId) {
        var found := Find(conferences, (c: Conference) => c.id == editId.value);
        if found.Some? {
          data := DraftOf(found.value);
        }
      }
    }

    method HandleChange(f: Field, value: string, parsed: Option<int>)
      requires IsInput(f)
      modifies this
      ensures data == Changed(old(data), f, value, parsed)
      ensures errors == ClearError(old(errors), f)
    {
      data := Changed(data, f, value, parsed);
      errors := ClearError(errors, f);
    }

    /** `handleTechnicianChange`: the selection replaces the list wholesale. */
    method HandleTechnicianChange(selectedIds: seq<string>)
      modifies this
      ensures data == old(data).(technicianIds := selectedIds)
      ensures errors == ClearError(old(errors), TechnicianIds)
    {
      data := data.(technicianIds := selectedIds);
      errors := ClearError(errors, TechnicianIds);
    }

    /** `handleParticipantChange` */
    method HandleParticipantChange(selectedIds: seq<string>)
      modifies this
      ensures data == old(data).(participantIds := selectedIds)
      ensures errors == ClearError(old(errors), ParticipantIds)
    {
      data := data.(participantIds := selectedIds);
      errors := ClearError(errors, ParticipantIds);
    }

    /**
     * `validateForm`: records the report on the current draft; true exactly when it is
     * empty.
     */
    method ValidateForm() returns (valid: bool)
      modifies this
      ensures data == old(data)
      ensures Reports(errors, data)
      ensures valid <==> errors == map[]
      ensures valid <==> Acceptable(data)
    {
      errors := Check(data);
      ReportsNothingIffAcceptable(errors, data);
      valid := |errors.Keys| == 0;
      assert valid <==> errors.Keys == {};
    }

    /**
     * `handleSubmit`: an invalid form asks nothing of the store and stays open; a valid one
     * updates `editId` when it is set, adds otherwise, and closes.
     */
    method HandleSubmit(editId: Option<string>) returns (call: StoreCall<Draft>, closed: bool)
      modifies this
      ensures data == old(data)
      ensures closed <==> Acceptable(data)
      ensures !Acceptable(data) ==> call == NoCall
      ensures Acceptable(data) && Truthy(editId) ==> call == Update(editId.value, data)
      ensures Acceptable(data) && !Truthy(editId) ==> call == Add(data)
    {
      var valid := ValidateForm();
      if !valid {
        return NoCall, false;
      }
      if Truthy(editId) {
        call := Update(editId.value, data);
      } else {
        call := Add(data);
      }
      closed := true;
    }
  }
}
