/** `/api/technicians` (backend/src/routes/technicians.ts). */
module TechnicianRoutes {
  import opened Wrappers
  import opened Records
  import opened Database
  import opened Ordering

  const RequiredFields := "All fields are required"
  const NotFound := "Technician not found"
  const Assigned := "Cannot delete technician as they are assigned to one or more conferences"
  const CreateFailed := "Error creating technician"
  const UpdateFailed := "Error updating technician"
  const DeleteFailed := "Error deleting technician"

  datatype TechnicianBody = TechnicianBody(
    name: Option<string>,
    email: Option<string>,
    phone: Option<string>,
    specialization: Option<string>)

  /** `GET /`: every technician, ascending by name. */
  method List(db: Tables) returns (r: Reply<seq<Technician>>)
    ensures r.Ok? && r.status == 200
    ensures Sorted(r.body, (t: Technician) => t.name)
    ensures |r.body| == |db.technicians|
    ensures forall id :: id in db.technicians ==> db.technicians[id] in r.body
    ensures forall i :: 0 <= i < |r.body| ==> r.body[i] in db.technicians.Values
  {
    var rows := SortedRows(db.technicians, (t: Technician) => t.name);
    return Ok(200, rows);
  }

  /** `GET /:id`: the technician stored under `id`, or 404. */
  function Get(db: Tables, id: string): (r: Reply<Technician>)
    reads db
    ensures id !in db.technicians <==> r == Err(404, NotFound)
    ensures id in db.technicians ==> r.Ok? && r.status == 200 && r.body in db.technicians.Values
    ensures id in db.technicians && db.Valid() ==> r.body.id == id
  {
    if id in db.technicians then Ok(200, db.technicians[id]) else Err(404, NotFound)
  }

  /** Some relation row names technician `id`: `findFirst({ where: { technicianId: id } })`. */
  predicate IsAssigned(assignments: set<Assignment>, id: string) {
    exists a :: a in assignments && a.technicianId == id
  }

  /** Some technician other than `except` already has this email (the column is unique). */
  predicate EmailTaken(technicians: map<string, Technician>, email: string, except: string) {
    exists t :: t in technicians && t != except && technicians[t].email == email
  }

  /**
   * `POST /`: 400 unless all four properties are non-empty; 500 when the email is taken;
   * otherwise 201 with exactly those four.
   */
  method Post(db: Tables, body: TechnicianBody, freshId: string) returns (r: Reply<Technician>)
    requires db.Valid() && freshId !in db.technicians
    modifies db
    ensures db.Valid()
    ensures db.conferences == old(db.conferences) && db.locations == old(db.locations)
    ensures db.assignments == old(db.assignments)
    ensures !(Truthy(body.name) && Truthy(body.email) && Truthy(body.phone)
              && Truthy(body.specialization)) ==>
              r == Err(400, RequiredFields) && db.technicians == old(db.technicians)
    ensures r.Ok? <==> (Truthy(body.name) && Truthy(body.email) && Truthy(body.phone)
                        && Truthy(body.specialization)
                        && !EmailTaken(old(db.technicians), body.email.value, freshId))
    ensures r.Err? && r.status != 400 ==>
              r == Err(500, CreateFailed) && db.technicians == old(db.technicians)
    ensures r.Ok? ==>
              && r.status == 201
              && r.body == Technician(freshId, body.name.value, body.email.value,
                                      body.phone.value, body.specialization.value)
              && db.technicians == old(db.technicians)[freshId := r.body]
  {
    if !Truthy(body.name) || !Truthy(body.email) || !Truthy(body.phone)
       || !Truthy(body.specialization) {
      return Err(400, RequiredFields);
    }
    if exists t :: t in db.technicians && t != freshId && db.technicians[t].email == body.email.value {
      return Err(500, CreateFailed);
    }
    var technician := Technician(freshId, body.name.value, body.email.value, body.phone.value,
                                 body.specialization.value);
    db.technicians := db.technicians[freshId := technician];
    return Ok(201, technician);
  }

  /** `PUT /:id`: a partial update; 500 on an unknown id or an email another technician has. */
  method Put(db: Tables, id: string, body: TechnicianBody) returns (r: Reply<Technician>)
    requires db.Valid()
    modifies db
    ensures db.Valid()
    ensures db.conferences == old(db.conferences) && db.locations == old(db.locations)
    ensures db.assignments == old(db.assignments)
    ensures r.Err? <==> id !in old(db.technicians)
                        || (body.email.Some? && EmailTaken(old(db.technicians), body.email.value, id))
    ensures r.Err? ==> r == Err(500, UpdateFailed) && db.technicians == old(db.technicians)
    ensures r.Ok? ==>
              var t := old(db.technicians)[id];
              && r.status == 200
              && r.body == Technician(id, body.name.GetOr(t.name), body.email.GetOr(t.email),
                                      body.phone.GetOr(t.phone),
                                      body.specialization.GetOr(t.specialization))
              && db.technicians == old(db.technicians)[id := r.body]
  {
    if id !in db.technicians
       || (body.email.Some?
           && exists t :: t in db.technicians && t != id && db.technicians[t].email == body.email.value) {
      return Err(500, UpdateFailed);
    }
    var t := db.technicians[id];
    var technician := Technician(id, body.name.GetOr(t.name), body.email.GetOr(t.email),
                                 body.phone.GetOr(t.phone),
                                 body.specialization.GetOr(t.specialization));
    db.technicians := db.technicians[id := technician];
    return Ok(200, technician);
  }

  /**
   * `DELETE /:id`: 400 and nothing deleted while a relation row names the technician;
   * otherwise the technician goes (500 when there is none with that id) and 204.
   */
  method Delete(db: Tables, id: string) returns (r: Reply<()>)
    requires db.Valid()
    modifies db
    ensures db.Valid()
    ensures db.conferences == old(db.conferences) && db.locations == old(db.locations)
    ensures db.assignments == old(db.assignments)
    ensures IsAssigned(old(db.assignments), id) ==>
              r == Err(400, Assigned) && db.technicians == old(db.technicians)
    ensures !IsAssigned(old(db.assignments), id) && id !in old(db.technicians) ==>
              r == Err(500, DeleteFailed) && db.technicians == old(db.technicians)
    ensures r.Ok? <==> !IsAssigned(old(db.assignments), id) && id in old(db.technicians)
    ensures r.Ok? ==>
              r == Ok(204, ()) && db.technicians == old(db.technicians) - {id}
              && Get(db, id) == Err(404, NotFound)
  {
    if exists a :: a in db.assignments && a.technicianId == id {
      return Err(400, Assigned);
    }
    if id !in db.technicians {
      return Err(500, DeleteFailed);
    }
    db.technicians := db.technicians - {id};
    return Ok(204, ());
  }
}
