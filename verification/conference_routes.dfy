/**
 * `/api/conferences` (backend/src/routes/conferences.ts). Every handler answers from the
 * tables; the generic 500 reply stands for the exceptions Prisma raises (record to update or
 * delete not found, a foreign key or uniqueness violation).
 */
module ConferenceRoutes {
  import opened Wrappers
  import opened Records
  import opened Database
  import opened Ordering

  const RequiredFields := "Title, date, start time, end time, and location are required"
  const NotFound := "Conference not found"
  const CreateFailed := "Error creating conference"
  const UpdateFailed := "Error updating conference"
  const DeleteFailed := "Error deleting conference"

  /** A request body: `None` is a property the JSON does not carry (or carries as null). */
  datatype ConferenceBody = ConferenceBody(
    title: Option<string>,
    description: Option<string>,
    date: Option<string>,
    startTime: Option<string>,
    endTime: Option<string>,
    locationId: Option<string>,
    technicianIds: Option<seq<string>>,
    participantCount: Option<int>,
    status: Option<string>)

  /** The JSON a handler sends back: the row with the technician ids projected from the relation. */
  datatype ConferenceView = ConferenceView(
    id: string,
    title: string,
    description: string,
    date: string,
    startTime: string,
    endTime: string,
    participantCount: int,
    status: string,
    locationId: string,
    technicianIds: set<string>)

  function View(row: ConferenceRow, assignments: set<Assignment>): ConferenceView {
    ConferenceView(row.id, row.title, row.description, row.date, row.startTime, row.endTime,
                   row.participantCount, row.status, row.locationId,
                   TechniciansOf(assignments, row.id))
  }

  /** The five properties a POST must carry, none of them empty. */
  predicate HasRequiredFields(body: ConferenceBody) {
    Truthy(body.title) && Truthy(body.date) && Truthy(body.startTime) && Truthy(body.endTime)
    && Truthy(body.locationId)
  }

  /** The row a POST creates: description "", no participants and "scheduled" unless given. */
  function NewRow(body: ConferenceBody, id: string): ConferenceRow
    requires HasRequiredFields(body)
  {
    ConferenceRow(id, body.title.value, OrElse(body.description, ""), body.date.value,
                  body.startTime.value, body.endTime.value, body.participantCount.GetOr(0),
                  OrElse(body.status, "scheduled"), body.locationId.value)
  }

  /** The row after a PUT: every property the body carries overwrites its column. */
  function UpdatedRow(row: ConferenceRow, body: ConferenceBody): ConferenceRow {
    ConferenceRow(row.id, body.title.GetOr(row.title), body.description.GetOr(row.description),
                  body.date.GetOr(row.date), body.startTime.GetOr(row.startTime),
                  body.endTime.GetOr(row.endTime),
                  body.participantCount.GetOr(row.participantCount),
                  body.status.GetOr(row.status), body.locationId.GetOr(row.locationId))
  }

  /** The database accepts relation rows for these technicians. */
  predicate CanAssign(db: Tables, technicianIds: seq<string>)
    reads db
  {
    Distinct(technicianIds) && forall t :: t in technicianIds ==> t in db.technicians
  }

  /** `GET /`: every conference, ascending by date, each with its technician ids. */
  method List(db: Tables) returns (r: Reply<seq<ConferenceView>>)
    ensures r.Ok? && r.status == 200
    ensures Sorted(r.body, (v: ConferenceView) => v.date)
    ensures |r.body| == |db.conferences|
    ensures forall id :: id in db.conferences ==> View(db.conferences[id], db.assignments) in r.body
    ensures forall i :: 0 <= i < |r.body| ==>
              exists id :: id in db.conferences && r.body[i] == View(db.conferences[id], db.assignments)
  {
    var views := map id | id in db.conferences :: View(db.conferences[id], db.assignments);
    assert views.Keys == db.conferences.Keys;
    var rows := SortedRows(views, (v: ConferenceView) => v.date);
    return Ok(200, rows);
  }

  /** `GET /:id`: the conference stored under `id` with the technicians of its relation rows, or 404. */
  function Get(db: Tables, id: string): (r: Reply<ConferenceView>)
    reads db
    ensures id !in db.conferences <==> r == Err(404, NotFound)
    ensures id in db.conferences ==> r.Ok? && r.status == 200
    ensures id in db.conferences && db.Valid() ==> r.body.id == id
    ensures id in db.conferences && db.Valid() ==>
              r.body.technicianIds == TechniciansOf(db.assignments, id)
    ensures id in db.conferences && db.Valid() ==> r.body.technicianIds <= db.technicians.Keys
    ensures id in db.conferences && db.Valid() ==> r.body.locationId in db.locations
  {
    if id in db.conferences then Ok(200, View(db.conferences[id], db.assignments))
    else Err(404, NotFound)
  }

  /**
   * `POST /`: 400 without the required fields; otherwise one conference row plus one relation
   * row per listed technician, 201 with the new record.
   */
  method Post(db: Tables, body: ConferenceBody, freshId: string) returns (r: Reply<ConferenceView>)
    requires db.Valid() && freshId !in db.conferences
    modifies db
    ensures db.Valid()
    ensures db.locations == old(db.locations) && db.technicians == old(db.technicians)
    ensures !HasRequiredFields(body) ==> r == Err(400, RequiredFields) && unchanged(db)
    ensures r.Err? && r.status != 400 ==> r == Err(500, CreateFailed) && unchanged(db)
    ensures r.Ok? <==>
              HasRequiredFields(body) && body.locationId.value in old(db.locations)
              && CanAssign(db, body.technicianIds.GetOr([]))
    ensures r.Ok? ==>
              && r.status == 201
              && db.conferences == old(db.conferences)[freshId := NewRow(body, freshId)]
              && db.assignments == old(db.assignments) + RowsFor(freshId, body.technicianIds.GetOr([]))
              && r.body == View(NewRow(body, freshId), db.assignments)
              && r.body.technicianIds == set t | t in body.technicianIds.GetOr([])
              && r.body.description == OrElse(body.description, "")
              && r.body.participantCount == body.participantCount.GetOr(0)
              && r.body.status == OrElse(body.status, "scheduled")
  {
    if !(Truthy(body.title) && Truthy(body.date) && Truthy(body.startTime)
         && Truthy(body.endTime) && Truthy(body.locationId)) {
      return Err(400, RequiredFields);
    }
    var technicianIds := body.technicianIds.GetOr([]);
    if body.locationId.value !in db.locations || !CanAssign(db, technicianIds) {
      return Err(500, CreateFailed);
    }
    var row := NewRow(body, freshId);
    TechniciansOfNewRows(db.assignments, freshId, technicianIds);
    db.conferences := db.conferences[freshId := row];
    db.assignments := db.assignments + RowsFor(freshId, technicianIds);
    return Ok(201, View(row, db.assignments));
  }

  /**
   * `PUT /:id`, step by step as the handler runs it: update the row (fails on an unknown id
   * or location), then, when `technicianIds` is present, delete the conference's relation
   * rows and insert the new ones (fails on an unknown or repeated technician), then read the
   * conference back. The steps are not one transaction: a failed insert leaves the updated
   * row and the emptied relation behind.
   */
  method Put(db: Tables, id: string, body: ConferenceBody) returns (r: Reply<ConferenceView>)
    requires db.Valid()
    modifies db
    ensures db.Valid()
    ensures db.locations == old(db.locations) && db.technicians == old(db.technicians)
    ensures r.Ok? || r == Err(500, UpdateFailed)
    ensures id !in old(db.conferences) ==> r.Err? && unchanged(db)
    ensures body.locationId.Some? && body.locationId.value !in old(db.locations) ==>
              r.Err? && unchanged(db)
    ensures id in old(db.conferences) && (body.locationId.None? || body.locationId.value in old(db.locations)) ==>
              && db.conferences == old(db.conferences)[id := UpdatedRow(old(db.conferences)[id], body)]
              && (body.technicianIds.None? ==> db.assignments == old(db.assignments) && r.Ok?)
              && (body.technicianIds.Some? ==>
                    if CanAssign(db, body.technicianIds.value) then
                      db.assignments == RowsNotOf(old(db.assignments), id) + RowsFor(id, body.technicianIds.value)
                      && r.Ok?
                    else
                      db.assignments == RowsNotOf(old(db.assignments), id) && r.Err?)
    ensures r.Ok? ==> r.status == 200 && id in db.conferences && r == Get(db, id)
    ensures r.Ok? && body.technicianIds.Some? ==>
              r.body.technicianIds == set t | t in body.technicianIds.value
    ensures forall other :: other != id ==>
              TechniciansOf(db.assignments, other) == TechniciansOf(old(db.assignments), other)
  {
    if id !in db.conferences || (body.locationId.Some? && body.locationId.value !in db.locations) {
      return Err(500, UpdateFailed);
    }
    db.conferences := db.conferences[id := UpdatedRow(db.conferences[id], body)];
    if body.technicianIds.Some? {
      RowsNotOfClears(db.assignments, id);
      db.assignments := RowsNotOf(db.assignments, id);
      var technicianIds := body.technicianIds.value;
      if !CanAssign(db, technicianIds) {
        return Err(500, UpdateFailed);
      }
      TechniciansOfNewRows(db.assignments, id, technicianIds);
      db.assignments := db.assignments + RowsFor(id, technicianIds);
    }
    return Ok(200, View(db.conferences[id], db.assignments));
  }

  /**
   * `PUT /:id` with its writes in one transaction, as the relation replace is meant to run:
   * every failure leaves the database as it was, and a success is the same as `Put`'s.
   */
  method PutAtomic(db: Tables, id: string, body: ConferenceBody) returns (r: Reply<ConferenceView>)
    requires db.Valid()
    modifies db
    ensures db.Valid()
    ensures r.Err? ==> r == Err(500, UpdateFailed) && unchanged(db)
    ensures r.Ok? <==>
              && id in old(db.conferences)
              && (body.locationId.None? || body.locationId.value in old(db.locations))
              && (body.technicianIds.None? || CanAssign(db, body.technicianIds.value))
    ensures r.Ok? ==>
              && db.locations == old(db.locations) && db.technicians == old(db.technicians)
              && db.conferences == old(db.conferences)[id := UpdatedRow(old(db.conferences)[id], body)]
              && db.assignments == (if body.technicianIds.Some?
                                    then RowsNotOf(old(db.assignments), id)
                                         + RowsFor(id, body.technicianIds.value)
                                    else old(db.assignments))
              && r.status == 200 && r == Get(db, id)
    ensures r.Ok? && body.technicianIds.Some? ==>
              r.body.technicianIds == set t | t in body.technicianIds.value
  {
    if id !in db.conferences || (body.locationId.Some? && body.locationId.value !in db.locations)
       || (body.technicianIds.Some? && !CanAssign(db, body.technicianIds.value)) {
      return Err(500, UpdateFailed);
    }
    r := Put(db, id, body);
  }

  /** One location, one technician, and conference `c1` with that technician assigned. */
  method SampleTables() returns (db: Tables)
    ensures fresh(db) && db.Valid()
    ensures "c1" in db.conferences && db.conferences["c1"].title == "Standup"
    ensures db.assignments == {Assignment("c1", "t1")}
    ensures "t9" !in db.technicians
  {
    db := new Tables();
    db.locations := map["l1" := Location("l1", "Room A", "1 Main St", 10, true)];
    db.technicians := map["t1" := Technician("t1", "Alice", "alice@example.com", "555-0100", "Audio")];
    db.conferences := map["c1" := ConferenceRow("c1", "Standup", "", "2025-01-10", "09:00", "09:30",
                                                5, "scheduled", "l1")];
    db.assignments := {Assignment("c1", "t1")};
  }

  /** A body that renames `c1` and assigns it only the unknown technician `t9`. */
  const RenameToUnknown :=
    ConferenceBody(Some("Retro"), None, None, None, None, None, Some(["t9"]), None, None)

  /**
   * The replace above, as `Put` runs it: the reply is 500, yet the conference has its new
   * title and has lost the technician it had.
   */
  method PartialReplaceExample() returns (r: Reply<ConferenceView>, title: string,
                                          rows: set<Assignment>)
    ensures r == Err(500, UpdateFailed)
    ensures title == "Retro" && rows == {}
  {
    var db := SampleTables();
    assert !CanAssign(db, ["t9"]) by { assert "t9" in ["t9"]; }
    assert RowsNotOf(db.assignments, "c1") == {};
    r := Put(db, "c1", RenameToUnknown);
    title, rows := db.conferences["c1"].title, db.assignments;
  }

  /** The same replace as `PutAtomic` runs it: 500, and the conference is as it was. */
  method AtomicReplaceExample() returns (r: Reply<ConferenceView>, title: string,
                                         rows: set<Assignment>)
    ensures r == Err(500, UpdateFailed)
    ensures title == "Standup" && rows == {Assignment("c1", "t1")}
  {
    var db := SampleTables();
    assert !CanAssign(db, ["t9"]) by { assert "t9" in ["t9"]; }
    r := PutAtomic(db, "c1", RenameToUnknown);
    title, rows := db.conferences["c1"].title, db.assignments;
  }

  /**
   * `DELETE /:id`: no guard. The conference goes and its relation rows with it (the
   * schema's cascade); locations and technicians stay. 500 on an unknown id.
   */
  method Delete(db: Tables, id: string) returns (r: Reply<()>)
    requires db.Valid()
    modifies db
    ensures db.Valid()
    ensures db.locations == old(db.locations) && db.technicians == old(db.technicians)
    ensures id !in old(db.conferences) ==> r == Err(500, DeleteFailed) && unchanged(db)
    ensures id in old(db.conferences) ==>
              && r == Ok(204, ())
              && db.conferences == old(db.conferences) - {id}
              && db.assignments == RowsNotOf(old(db.assignments), id)
              && TechniciansOf(db.assignments, id) == {}
              && Get(db, id) == Err(404, NotFound)
    ensures forall other :: other != id ==>
              TechniciansOf(db.assignments, other) == TechniciansOf(old(db.assignments), other)
  {
    if id !in db.conferences {
      return Err(500, DeleteFailed);
    }
    RowsNotOfClears(db.assignments, id);
    db.conferences := db.conferences - {id};
    db.assignments := RowsNotOf(db.assignments, id);
    return Ok(204, ());
  }
}
