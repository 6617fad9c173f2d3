/** `/api/locations` (backend/src/routes/locations.ts). */
module LocationRoutes {
  import opened Wrappers
  import opened Records
  import opened Database
  import opened Ordering

  const RequiredFields := "Name, address, and capacity are required"
  const NotFound := "Location not found"
  const InUse := "Cannot delete location as it is being used by one or more conferences"
  const CreateFailed := "Error creating location"
  const UpdateFailed := "Error updating location"
  const DeleteFailed := "Error deleting location"

  /**
   * A request body. `capacity` is `None` when the property is `undefined`, otherwise what
   * `parseInt` makes of it (`None` inside for NaN); `hasVideoEquipment` holds what
   * `Boolean(...)` makes of the property when it is there.
   */
  datatype LocationBody = LocationBody(
    name: Option<string>,
    address: Option<string>,
    capacity: Option<Option<int>>,
    hasVideoEquipment: Option<bool>)

  /** `GET /`: every location, ascending by name. */
  method List(db: Tables) returns (r: Reply<seq<Location>>)
    ensures r.Ok? && r.status == 200
    ensures Sorted(r.body, (l: Location) => l.name)
    ensures |r.body| == |db.locations|
    ensures forall id :: id in db.locations ==> db.locations[id] in r.body
    ensures forall i :: 0 <= i < |r.body| ==> r.body[i] in db.locations.Values
  {
    var rows := SortedRows(db.locations, (l: Location) => l.name);
    return Ok(200, rows);
  }

  /** `GET /:id`: the location stored under `id`, or 404. */
  function Get(db: Tables, id: string): (r: Reply<Location>)
    reads db
    ensures id !in db.locations <==> r == Err(404, NotFound)
    ensures id in db.locations ==> r.Ok? && r.status == 200 && r.body in db.locations.Values
    ensures id in db.locations && db.Valid() ==> r.body.id == id
  {
    if id in db.locations then Ok(200, db.locations[id]) else Err(404, NotFound)
  }

  /** Some conference is held at location `id`: `findFirst({ where: { locationId: id } })`. */
  predicate InUseBy(conferences: map<string, ConferenceRow>, id: string) {
    exists c :: c in conferences && conferences[c].locationId == id
  }

  /**
   * `POST /`: 400 unless name and address are non-empty and capacity is present (0
   * passes); a capacity that does not parse is refused by the database; otherwise 201.
   */
  method Post(db: Tables, body: LocationBody, freshId: string) returns (r: Reply<Location>)
    requires db.Valid() && freshId !in db.locations
    modifies db
    ensures db.Valid()
    ensures db.conferences == old(db.conferences) && db.technicians == old(db.technicians)
    ensures db.assignments == old(db.assignments)
    ensures !Truthy(body.name) || !Truthy(body.address) || body.capacity.None? ==>
              r == Err(400, RequiredFields) && db.locations == old(db.locations)
    ensures Truthy(body.name) && Truthy(body.address) && body.capacity == Some(None) ==>
              r == Err(500, CreateFailed) && db.locations == old(db.locations)
    ensures r.Ok? <==> (Truthy(body.name) && Truthy(body.address)
                        && body.capacity.Some? && body.capacity.value.Some?)
    ensures r.Ok? ==>
              && r.status == 201
              && r.body == Location(freshId, body.name.value, body.address.value,
                                    body.capacity.value.value, body.hasVideoEquipment.GetOr(false))
              && db.locations == old(db.locations)[freshId := r.body]
  {
    if !Truthy(body.name) || !Truthy(body.address) || body.capacity.None? {
      return Err(400, RequiredFields);
    }
    if body.capacity.value.None? {
      return Err(500, CreateFailed);
    }
    var location := Location(freshId, body.name.value, body.address.value,
                             body.capacity.value.value, body.hasVideoEquipment.GetOr(false));
    db.locations := db.locations[freshId := location];
    return Ok(201, location);
  }

  /** The record after a PUT: only the properties the body carries change. */
  function UpdatedLocation(l: Location, body: LocationBody): Location
    requires body.capacity.Some? ==> body.capacity.value.Some?
  {
    Location(l.id, body.name.GetOr(l.name), body.address.GetOr(l.address),
             if body.capacity.Some? then body.capacity.value.value else l.capacity,
             body.hasVideoEquipment.GetOr(l.hasVideoEquipment))
  }

  /** `PUT /:id`: a partial update; 500 on an unknown id or an unparsable capacity. */
  method Put(db: Tables, id: string, body: LocationBody) returns (r: Reply<Location>)
    requires db.Valid()
    modifies db
    ensures db.Valid()
    ensures db.conferences == old(db.conferences) && db.technicians == old(db.technicians)
    ensures db.assignments == old(db.assignments)
    ensures r.Err? <==> id !in old(db.locations) || body.capacity == Some(None)
    ensures r.Err? ==> r == Err(500, UpdateFailed) && db.locations == old(db.locations)
    ensures r.Ok? ==>
              && r.status == 200
              && r.body == UpdatedLocation(old(db.locations)[id], body)
              && db.locations == old(db.locations)[id := r.body]
              && r.body.id == id
              && (body.name.None? ==> r.body.name == old(db.locations)[id].name)
              && (body.capacity.None? ==> r.body.capacity == old(db.locations)[id].capacity)
              && (body.hasVideoEquipment.None? ==>
                    r.body.hasVideoEquipment == old(db.locations)[id].hasVideoEquipment)
  {
    if id !in db.locations || body.capacity == Some(None) {
      return Err(500, UpdateFailed);
    }
    var location := UpdatedLocation(db.locations[id], body);
    db.locations := db.locations[id := location];
    return Ok(200, location);
  }

  /**
   * `DELETE /:id`: 400 and nothing deleted while a conference is held there; otherwise the
   * location goes (500 when there is none with that id) and 204.
   */
  method Delete(db: Tables, id: string) returns (r: Reply<()>)
    requires db.Valid()
    modifies db
    ensures db.Valid()
    ensures db.conferences == old(db.conferences) && db.technicians == old(db.technicians)
    ensures db.assignments == old(db.assignments)
    ensures InUseBy(old(db.conferences), id) ==>
              r == Err(400, InUse) && db.locations == old(db.locations)
    ensures !InUseBy(old(db.conferences), id) && id !in old(db.locations) ==>
              r == Err(500, DeleteFailed) && db.locations == old(db.locations)
    ensures r.Ok? <==> !InUseBy(old(db.conferences), id) && id in old(db.locations)
    ensures r.Ok? ==>
              r == Ok(204, ()) && db.locations == old(db.locations) - {id}
              && Get(db, id) == Err(404, NotFound)
  {
    if exists c :: c in db.conferences && db.conferences[c].locationId == id {
      return Err(400, InUse);
    }
    if id !in db.locations {
      return Err(500, DeleteFailed);
    }
    db.locations := db.locations - {id};
    return Ok(204, ());
  }
}
