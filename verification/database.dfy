/**
 * The server's persistence layer as the route handlers see it: one table per entity,
 * keyed by id, and the conference-technician relation table. The constraints the database
 * enforces (foreign keys, one row per conference-technician pair) are the `Valid`
 * invariant; a write that would break one fails, and the route answers with its generic
 * 500 reply.
 */
module Database {
  import opened Records

  /** A `VideoConference` row: the technician list lives in the relation table. */
  datatype ConferenceRow = ConferenceRow(
    id: string,
    title: string,
    description: string,
    date: string,
    startTime: string,
    endTime: string,
    participantCount: int,
    status: string,
    locationId: string)

  /** A `ConferenceTechnician` row. */
  datatype Assignment = Assignment(conferenceId: string, technicianId: string)

  /** An HTTP reply: a success status with its JSON body, or an error status with the `error` message. */
  datatype Reply<T> = Ok(status: int, body: T) | Err(status: int, error: string)

  /** The technician ids the relation table lists for a conference. */
  function TechniciansOf(assignments: set<Assignment>, conferenceId: string): set<string> {
    set a | a in assignments && a.conferenceId == conferenceId :: a.technicianId
  }

  /** The relation rows `createMany` / a nested `create` inserts for a list of technician ids. */
  function RowsFor(conferenceId: string, technicianIds: seq<string>): set<Assignment> {
    set t | t in technicianIds :: Assignment(conferenceId, t)
  }

  /** The relation rows that belong to some other conference than `conferenceId`. */
  function RowsNotOf(assignments: set<Assignment>, conferenceId: string): set<Assignment> {
    set a | a in assignments && a.conferenceId != conferenceId
  }

  /** No technician id repeats: otherwise the insert breaks the pair's uniqueness. */
  predicate Distinct(ids: seq<string>) {
    forall i, j :: 0 <= i < j < |ids| ==> ids[i] != ids[j]
  }

  /** The relation rows listed for a conference are exactly the ids it was given. */
  lemma {:induction false} TechniciansOfNewRows(assignments: set<Assignment>, conferenceId: string,
                                                technicianIds: seq<string>)
    requires forall a :: a in assignments ==> a.conferenceId != conferenceId
    ensures TechniciansOf(assignments + RowsFor(conferenceId, technicianIds), conferenceId)
            == set t | t in technicianIds
  {
    var all := assignments + RowsFor(conferenceId, technicianIds);
    forall t | t in TechniciansOf(all, conferenceId) ensures t in technicianIds {
      var a :| a in all && a.conferenceId == conferenceId && a.technicianId == t;
      assert a in RowsFor(conferenceId, technicianIds);
    }
    forall t | t in technicianIds ensures t in TechniciansOf(all, conferenceId) {
      assert Assignment(conferenceId, t) in all;
    }
  }

  /**
   * `deleteMany({ where: { conferenceId } })` touches that conference only: it is left with
   * no technicians, and every other conference keeps exactly the technicians it had.
   */
  lemma RowsNotOfClears(assignments: set<Assignment>, conferenceId: string)
    ensures TechniciansOf(RowsNotOf(assignments, conferenceId), conferenceId) == {}
    ensures forall other :: other != conferenceId ==>
              TechniciansOf(RowsNotOf(assignments, conferenceId), other)
              == TechniciansOf(assignments, other)
    ensures forall a :: a in RowsNotOf(assignments, conferenceId) ==> a.conferenceId != conferenceId
  {
    var rest := RowsNotOf(assignments, conferenceId);
    forall other | other != conferenceId
      ensures TechniciansOf(rest, other) == TechniciansOf(assignments, other)
    {
      forall t | t in TechniciansOf(assignments, other) ensures t in TechniciansOf(rest, other) {
        var a :| a in assignments && a.conferenceId == other && a.technicianId == t;
        assert a in rest;
      }
    }
  }

  class Tables {
    var locations: map<string, Location>
    var technicians: map<string, Technician>
    var conferences: map<string, ConferenceRow>
    var assignments: set<Assignment>

    /**
     * Every row is stored under its own id, every conference's location exists, every
     * relation row joins an existing conference to an existing technician, and no two
     * technicians share an email.
     */
    predicate Valid()
      reads this
    {
      && (forall id :: id in locations ==> locations[id].id == id)
      && (forall id :: id in technicians ==> technicians[id].id == id)
      && (forall id :: id in conferences ==>
            conferences[id].id == id && conferences[id].locationId in locations)
      && (forall a :: a in assignments ==>
            a.conferenceId in conferences && a.technicianId in technicians)
      && (forall i, j :: i in technicians && j in technicians && i != j ==>
            technicians[i].email != technicians[j].email)
    }

    /** An empty database. */
    constructor ()
      ensures Valid()
      ensures locations == map[] && technicians == map[] && conferences == map[]
      ensures assignments == {}
    {
      locations, technicians, conferences, assignments := map[], map[], map[], {};
    }
  }
}
