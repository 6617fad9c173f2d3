/**
 * The client's server-backed cache (frontend/src/stores/dataStore.ts): the three arrays the
 * pages read, a loading flag and the last error. Every operation is one API call; its outcome
 * is a parameter, and the arrays change only when it resolves.
 */
module DataStore {
  import opened Wrappers
  import opened Records
  import opened Lists

  /**
   * How an API call settles: with the reply's `data`, or rejected, carrying
   * `error.response?.data?.error` (`None` when the reply had none or never came).
   */
  datatype Response<T> = Resolved(data: T) | Rejected(serverError: Option<string>)

  /** The text a rejection leaves in `error`: the server's message, or the operation's own. */
  function ErrorOf<T>(response: Response<T>, fallback: string): (r: Option<string>)
    ensures r.None? <==> response.Resolved?
    ensures response.Rejected? && Truthy(response.serverError) ==> r == response.serverError
    ensures response.Rejected? && !Truthy(response.serverError) ==> r == Some(fallback)
  {
    if response.Resolved? then None else Some(OrElse(response.serverError, fallback))
  }

  /** The error that a later write leaves behind: `b` when it wrote one, `a` otherwise. */
  function Latest(a: Option<string>, b: Option<string>): Option<string> {
    if b.Some? then b else a
  }

  /** `conferences.map(x => x.id === id ? data : x)` */
  function ReplaceConference(conferences: seq<Conference>, id: string, data: Conference)
    : seq<Conference> {
    MapWhere(conferences, (x: Conference) => x.id == id, (x: Conference) => data)
  }

  /** Deleting a conference just added under a fresh id gives the array back. */
  lemma DeleteUndoesAddConference(conferences: seq<Conference>, added: Conference)
    requires forall x :: x in conferences ==> x.id != added.id
    ensures WithoutConference(conferences + [added], added.id) == conferences
  {
    FilterUndoesAppend(conferences, added, (x: Conference) => x.id != added.id);
  }

  /** An update the server answered with the same id, followed by a delete, is just the delete. */
  lemma DeleteAfterReplaceConference(conferences: seq<Conference>, id: string, data: Conference)
    requires data.id == id
    ensures WithoutConference(ReplaceConference(conferences, id, data), id)
              == WithoutConference(conferences, id)
  {
    FilterAfterMapWhere(conferences, (x: Conference) => x.id == id, (x: Conference) => data,
                        (x: Conference) => x.id != id);
  }

  /** `locations.map(x => x.id === id ? data : x)` */
  function ReplaceLocation(locations: seq<Location>, id: string, data: Location): seq<Location> {
    MapWhere(locations, (x: Location) => x.id == id, (x: Location) => data)
  }

  /** Deleting a location just added under a fresh id gives the array back. */
  lemma DeleteUndoesAddLocation(locations: seq<Location>, added: Location)
    requires forall x :: x in locations ==> x.id != added.id
    ensures WithoutLocation(locations + [added], added.id) == locations
  {
    FilterUndoesAppend(locations, added, (x: Location) => x.id != added.id);
  }

  /** An update the server answered with the same id, followed by a delete, is just the delete. */
  lemma DeleteAfterReplaceLocation(locations: seq<Location>, id: string, data: Location)
    requires data.id == id
    ensures WithoutLocation(ReplaceLocation(locations, id, data), id)
              == WithoutLocation(locations, id)
  {
    FilterAfterMapWhere(locations, (x: Location) => x.id == id, (x: Location) => data,
                        (x: Location) => x.id != id);
  }

  /** `technicians.map(x => x.id === id ? data : x)` */
  function ReplaceTechnician(technicians: seq<Technician>, id: string, data: Technician)
    : seq<Technician> {
    MapWhere(technicians, (x: Technician) => x.id == id, (x: Technician) => data)
  }

  /** Deleting a technician just added under a fresh id gives the array back. */
  lemma DeleteUndoesAddTechnician(technicians: seq<Technician>, added: Technician)
    requires forall x :: x in technicians ==> x.id != added.id
    ensures WithoutTechnician(technicians + [added], added.id) == technicians
  {
    FilterUndoesAppend(technicians, added, (x: Technician) => x.id != added.id);
  }

  /** An update the server answered with the same id, followed by a delete, is just the delete. */
  lemma DeleteAfterReplaceTechnician(technicians: seq<Technician>, id: string, data: Technician)
    requires data.id == id
    ensures WithoutTechnician(ReplaceTechnician(technicians, id, data), id)
              == WithoutTechnician(technicians, id)
  {
    FilterAfterMapWhere(technicians, (x: Technician) => x.id == id, (x: Technician) => data,
                        (x: Technician) => x.id != id);
  }

  class Store {
    var conferences: seq<Conference>
    var locations: seq<Location>
    var technicians: seq<Technician>
    var isLoading: bool
    var error: Option<string>

    constructor ()
      ensures conferences == [] && locations == [] && technicians == []
      ensures !isLoading && error == None
    {
      conferences, locations, technicians := [], [], [];
      isLoading, error := false, None;
    }

    /** `fetchConferences`: a rejection is recorded in `error`, never thrown. */
    method FetchConferences(response: Response<seq<Conference>>)
      modifies this
      ensures conferences == (if response.Resolved? then response.data else old(conferences))
      ensures error == Latest(old(error), ErrorOf(response, "Error fetching conferences"))
      ensures locations == old(locations) && technicians == old(technicians)
      ensures isLoading == old(isLoading)
    {
      match response
      case Resolved(data) => conferences := data;
      case Rejected(serverError) =>
        error := Some(OrElse(serverError, "Error fetching conferences"));
    }

    /** `fetchLocations`: a rejection is recorded in `error`, never thrown. */
    method FetchLocations(response: Response<seq<Location>>)
      modifies this
      ensures locations == (if response.Resolved? then response.data else old(locations))
      ensures error == Latest(old(error), ErrorOf(response, "Error fetching locations"))
      ensures conferences == old(conferences) && technicians == old(technicians)
      ensures isLoading == old(isLoading)
    {
      match response
      case Resolved(data) => locations := data;
      case Rejected(serverError) => error := Some(OrElse(serverError, "Error fetching locations"));
    }

    /** `fetchTechnicians`: a rejection is recorded in `error`, never thrown. */
    method FetchTechnicians(response: Response<seq<Technician>>)
      modifies this
      ensures technicians == (if response.Resolved? then response.data else old(technicians))
      ensures error == Latest(old(error), ErrorOf(response, "Error fetching technicians"))
      ensures conferences == old(conferences) && locations == old(locations)
      ensures isLoading == old(isLoading)
    {
      match response
      case Resolved(data) => technicians := data;
      case Rejected(serverError) =>
        error := Some(OrElse(serverError, "Error fetching technicians"));
    }

    /**
     * `fetchAll`: clears `error`, loads the three arrays and clears `isLoading`. `error` ends
     * `None` exactly when every fetch resolved, and otherwise holds the message of one of the
     * rejections (whichever settled last; the three requests run concurrently).
     */
    method FetchAll(conferencesResponse: Response<seq<Conference>>,
                    locationsResponse: Response<seq<Location>>,
                    techniciansResponse: Response<seq<Technician>>)
      modifies this
      ensures conferences == (if conferencesResponse.Resolved? then conferencesResponse.data
                              else old(conferences))
      ensures locations == (if locationsResponse.Resolved? then locationsResponse.data
                            else old(locations))
      ensures technicians == (if techniciansResponse.Resolved? then techniciansResponse.data
                              else old(technicians))
      ensures error.Some? ==>
                error in {ErrorOf(conferencesResponse, "Error fetching conferences"),
                          ErrorOf(locationsResponse, "Error fetching locations"),
                          ErrorOf(techniciansResponse, "Error fetching technicians")}
      ensures error.None? <==> (conferencesResponse.Resolved? && locationsResponse.Resolved?
                                && techniciansResponse.Resolved?)
      ensures !isLoading
    {
      isLoading, error := true, None;
      FetchConferences(conferencesResponse);
      FetchLocations(locationsResponse);
      FetchTechnicians(techniciansResponse);
      isLoading := false;
    }

    /**
     * `addConference`: appends the record the server created.
     * A rejection is recorded in `error` and rethrown.
     */
    method AddConference(response: Response<Conference>) returns (thrown: bool)
      modifies this
      ensures thrown <==> response.Rejected?
      ensures !thrown ==> conferences == old(conferences) + [response.data] && error == old(error)
      ensures thrown ==> conferences == old(conferences)
                         && error == Some(OrElse(response.serverError, "Error creating conference"))
      ensures locations == old(locations) && technicians == old(technicians)
      ensures isLoading == old(isLoading)
    {
      match response
      case Resolved(data) =>
        conferences := conferences + [data];
        thrown := false;
      case Rejected(serverError) =>
        error := Some(OrElse(serverError, "Error creating conference"));
        thrown := true;
    }

    /**
     * `updateConference`: the server's record takes the place of every conference with that id.
     * A rejection is recorded in `error` and rethrown.
     */
    method UpdateConference(id: string, response: Response<Conference>) returns (thrown: bool)
      modifies this
      ensures thrown <==> response.Rejected?
      ensures !thrown ==> conferences == ReplaceConference(old(conferences), id, response.data)
                          && error == old(error)
      ensures thrown ==> conferences == old(conferences)
                         && error == Some(OrElse(response.serverError, "Error updating conference"))
      ensures locations == old(locations) && technicians == old(technicians)
      ensures isLoading == old(isLoading)
    {
      match response
      case Resolved(data) =>
        conferences := ReplaceConference(conferences, id, data);
        thrown := false;
      case Rejected(serverError) =>
        error := Some(OrElse(serverError, "Error updating conference"));
        thrown := true;
    }

    /**
     * `deleteConference`: every conference with that id goes once the server confirms.
     * A rejection is recorded in `error` and rethrown.
     */
    method DeleteConference(id: string, response: Response<()>) returns (thrown: bool)
      modifies this
      ensures thrown <==> response.Rejected?
      ensures !thrown ==> conferences == WithoutConference(old(conferences), id)
                          && error == old(error)
      ensures thrown ==> conferences == old(conferences)
                         && error == Some(OrElse(response.serverError, "Error deleting conference"))
      ensures locations == old(locations) && technicians == old(technicians)
      ensures isLoading == old(isLoading)
    {
      match response
      case Resolved(data) =>
        conferences := WithoutConference(conferences, id);
        thrown := false;
      case Rejected(serverError) =>
        error := Some(OrElse(serverError, "Error deleting conference"));
        thrown := true;
    }

    /**
     * `addLocation`: appends the record the server created.
     * A rejection is recorded in `error` and rethrown.
     */
    method AddLocation(response: Response<Location>) returns (thrown: bool)
      modifies this
      ensures thrown <==> response.Rejected?
      ensures !thrown ==> locations == old(locations) + [response.data] && error == old(error)
      ensures thrown ==> locations == old(locations)
                         && error == Some(OrElse(response.serverError, "Error creating location"))
      ensures conferences == old(conferences) && technicians == old(technicians)
      ensures isLoading == old(isLoading)
    {
      match response
      case Resolved(data) =>
        locations := locations + [data];
        thrown := false;
      case Rejected(serverError) =>
        error := Some(OrElse(serverError, "Error creating location"));
        thrown := true;
    }

    /**
     * `updateLocation`: the server's record takes the place of every location with that id.
     * A rejection is recorded in `error` and rethrown.
     */
    method UpdateLocation(id: string, response: Response<Location>) returns (thrown: bool)
      modifies this
      ensures thrown <==> response.Rejected?
      ensures !thrown ==> locations == ReplaceLocation(old(locations), id, response.data)
                          && error == old(error)
      ensures thrown ==> locations == old(locations)
                         && error == Some(OrElse(response.serverError, "Error updating location"))
      ensures conferences == old(conferences) && technicians == old(technicians)
      ensures isLoading == old(isLoading)
    {
      match response
      case Resolved(data) =>
        locations := ReplaceLocation(locations, id, data);
        thrown := false;
      case Rejected(serverError) =>
        error := Some(OrElse(serverError, "Error updating location"));
        thrown := true;
    }

    /**
     * `deleteLocation`: every location with that id goes once the server confirms.
     * A rejection is recorded in `error` and rethrown.
     */
    method DeleteLocation(id: string, response: Response<()>) returns (thrown: bool)
      modifies this
      ensures thrown <==> response.Rejected?
      ensures !thrown ==> locations == WithoutLocation(old(locations), id) && error == old(error)
      ensures thrown ==> locations == old(locations)
                         && error == Some(OrElse(response.serverError, "Error deleting location"))
      ensures conferences == old(conferences) && technicians == old(technicians)
      ensures isLoading == old(isLoading)
    {
      match response
      case Resolved(data) =>
        locations := WithoutLocation(locations, id);
        thrown := false;
      case Rejected(serverError) =>
        error := Some(OrElse(serverError, "Error deleting location"));
        thrown := true;
    }

    /**
     * `addTechnician`: appends the record the server created.
     * A rejection is recorded in `error` and rethrown.
     */
    method AddTechnician(response: Response<Technician>) returns (thrown: bool)
      modifies this
      ensures thrown <==> response.Rejected?
      ensures !thrown ==> technicians == old(technicians) + [response.data] && error == old(error)
      ensures thrown ==> technicians == old(technicians)
                         && error == Some(OrElse(response.serverError, "Error creating technician"))
      ensures conferences == old(conferences) && locations == old(locations)
      ensures isLoading == old(isLoading)
    {
      match response
      case Resolved(data) =>
        technicians := technicians + [data];
        thrown := false;
      case Rejected(serverError) =>
        error := Some(OrElse(serverError, "Error creating technician"));
        thrown := true;
    }

    /**
     * `updateTechnician`: the server's record takes the place of every technician with that id.
     * A rejection is recorded in `error` and rethrown.
     */
    method UpdateTechnician(id: string, response: Response<Technician>) returns (thrown: bool)
      modifies this
      ensures thrown <==> response.Rejected?
      ensures !thrown ==> technicians == ReplaceTechnician(old(technicians), id, response.data)
                          && error == old(error)
      ensures thrown ==> technicians == old(technicians)
                         && error == Some(OrElse(response.serverError, "Error updating technician"))
      ensures conferences == old(conferences) && locations == old(locations)
      ensures isLoading == old(isLoading)
    {
      match response
      case Resolved(data) =>
        technicians := ReplaceTechnician(technicians, id, data);
        thrown := false;
      case Rejected(serverError) =>
        error := Some(OrElse(serverError, "Error updating technician"));
        thrown := true;
    }

    /**
     * `deleteTechnician`: every technician with that id goes once the server confirms.
     * A rejection is recorded in `error` and rethrown.
     */
    method DeleteTechnician(id: string, response: Response<()>) returns (thrown: bool)
      modifies this
      ensures thrown <==> response.Rejected?
      ensures !thrown ==> technicians == WithoutTechnician(old(technicians), id)
                          && error == old(error)
      ensures thrown ==> technicians == old(technicians)
                         && error == Some(OrElse(response.serverError, "Error deleting technician"))
      ensures conferences == old(conferences) && locations == old(locations)
      ensures isLoading == old(isLoading)
    {
      match response
      case Resolved(data) =>
        technicians := WithoutTechnician(technicians, id);
        thrown := false;
      case Rejected(serverError) =>
        error := Some(OrElse(serverError, "Error deleting technician"));
        thrown := true;
    }
  }
}
