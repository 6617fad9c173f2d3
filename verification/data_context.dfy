/**
 * The client's in-memory scheduling store (frontend/src/contexts/DataContext.tsx): three
 * arrays of records, replaced wholesale by every handler, and two guarded deletes.
 */
module DataContext {
  import opened Wrappers
  import opened Records
  import opened Lists

  /** Some conference takes place at location `id`. */
  predicate UsesLocation(conferences: seq<Conference>, id: string) {
    exists i :: 0 <= i < |conferences| && conferences[i].locationId == id
  }

  /** Some conference has technician `id` among its `technicianIds`. */
  predicate AssignsTechnician(conferences: seq<Conference>, id: string) {
    exists i :: 0 <= i < |conferences| && id in conferences[i].technicianIds
  }

  predicate HasLocation(locations: seq<Location>, id: string) {
    exists j :: 0 <= j < |locations| && locations[j].id == id
  }

  predicate HasTechnician(technicians: seq<Technician>, id: string) {
    exists j :: 0 <= j < |technicians| && technicians[j].id == id
  }

  /**
   * Referential integrity: every conference's location and every technician it lists
   * exist. Nothing in the client enforces it on add or update; the guarded deletes keep it.
   */
  predicate Integrity(conferences: seq<Conference>, locations: seq<Location>,
                      technicians: seq<Technician>) {
    forall i :: 0 <= i < |conferences| ==>
      HasLocation(locations, conferences[i].locationId) &&
      forall t :: t in conferences[i].technicianIds ==> HasTechnician(technicians, t)
  }

  /** `conferences.map(conf => conf.id === id ? { ...conf, ...patch } : conf)` */
  function PatchConferences(conferences: seq<Conference>, id: string, patch: ConferencePatch)
    : seq<Conference>
  {
    MapWhere(conferences, (c: Conference) => c.id == id, (c: Conference) => MergeConference(c, patch))
  }

  /** `locations.map(loc => loc.id === id ? { ...loc, ...patch } : loc)` */
  function PatchLocations(locations: seq<Location>, id: string, patch: LocationPatch)
    : seq<Location>
  {
    MapWhere(locations, (l: Location) => l.id == id, (l: Location) => MergeLocation(l, patch))
  }

  /** `technicians.map(tech => tech.id === id ? { ...tech, ...patch } : tech)` */
  function PatchTechnicians(technicians: seq<Technician>, id: string, patch: TechnicianPatch)
    : seq<Technician>
  {
    MapWhere(technicians, (t: Technician) => t.id == id,
             (t: Technician) => MergeTechnician(t, patch))
  }

  /** Removing conferences never breaks referential integrity. */
  lemma DeleteConferenceKeepsIntegrity(conferences: seq<Conference>, locations: seq<Location>,
                                       technicians: seq<Technician>, id: string)
    requires Integrity(conferences, locations, technicians)
    ensures Integrity(WithoutConference(conferences, id), locations, technicians)
  {
    var rest := WithoutConference(conferences, id);
    forall i | 0 <= i < |rest|
      ensures HasLocation(locations, rest[i].locationId)
      ensures forall t :: t in rest[i].technicianIds ==> HasTechnician(technicians, t)
    {
      var k :| 0 <= k < |conferences| && conferences[k] == rest[i];
    }
  }

  /** Removing a location no conference uses keeps referential integrity. */
  lemma DeleteLocationKeepsIntegrity(conferences: seq<Conference>, locations: seq<Location>,
                                     technicians: seq<Technician>, id: string)
    requires Integrity(conferences, locations, technicians)
    requires !UsesLocation(conferences, id)
    ensures Integrity(conferences, WithoutLocation(locations, id), technicians)
  {
    var rest := WithoutLocation(locations, id);
    forall i | 0 <= i < |conferences| ensures HasLocation(rest, conferences[i].locationId) {
      var j :| 0 <= j < |locations| && locations[j].id == conferences[i].locationId;
      var k :| 0 <= k < |rest| && rest[k] == locations[j];
    }
  }

  /** Removing a technician no conference lists keeps referential integrity. */
  lemma DeleteTechnicianKeepsIntegrity(conferences: seq<Conference>, locations: seq<Location>,
                                       technicians: seq<Technician>, id: string)
    requires Integrity(conferences, locations, technicians)
    requires !AssignsTechnician(conferences, id)
    ensures Integrity(conferences, locations, WithoutTechnician(technicians, id))
  {
    var rest := WithoutTechnician(technicians, id);
    forall i, t | 0 <= i < |conferences| && t in conferences[i].technicianIds
      ensures HasTechnician(rest, t)
    {
      var j :| 0 <= j < |technicians| && technicians[j].id == t;
      var k :| 0 <= k < |rest| && rest[k] == technicians[j];
    }
  }

  /** Removing an id no record carries leaves the array as it was. */
  lemma WithoutAbsentLocation(locations: seq<Location>, id: string)
    requires !HasLocation(locations, id)
    ensures WithoutLocation(locations, id) == locations
  {
    FilterKeepsAll(locations, (l: Location) => l.id != id);
  }

  class DataProvider {
    var conferences: seq<Conference>
    var locations: seq<Location>
    var technicians: seq<Technician>

    /** The three arrays start from what was saved in the browser, or from sample data. */
    constructor (conferences: seq<Conference>, locations: seq<Location>,
                 technicians: seq<Technician>)
      ensures this.conferences == conferences
      ensures this.locations == locations
      ensures this.technicians == technicians
    {
      this.conferences := conferences;
      this.locations := locations;
      this.technicians := technicians;
    }

    /** `addConference`: appends the record under the id the clock supplied. */
    method AddConference(conference: Conference, freshId: string)
      modifies this
      ensures conferences == old(conferences) + [conference.(id := freshId)]
      ensures locations == old(locations) && technicians == old(technicians)
    {
      conferences := conferences + [conference.(id := freshId)];
    }

    /** `updateConference`: merges `patch` into every conference with that id. */
    method UpdateConference(id: string, patch: ConferencePatch)
      modifies this
      ensures conferences == PatchConferences(old(conferences), id, patch)
      ensures |conferences| == |old(conferences)|
      ensures forall i :: 0 <= i < |conferences| && old(conferences)[i].id != id ==>
                conferences[i] == old(conferences)[i]
      ensures forall i :: 0 <= i < |conferences| && old(conferences)[i].id == id ==>
                conferences[i] == MergeConference(old(conferences)[i], patch)
      ensures locations == old(locations) && technicians == old(technicians)
    {
      conferences := PatchConferences(conferences, id, patch);
    }

    /** `deleteConference`: no guard; every conference with that id goes. */
    method DeleteConference(id: string)
      modifies this
      ensures conferences == WithoutConference(old(conferences), id)
      ensures forall c :: c in conferences ==> c in old(conferences) && c.id != id
      ensures forall c :: c in old(conferences) && c.id != id ==> c in conferences
      ensures locations == old(locations) && technicians == old(technicians)
      ensures old(Integrity(conferences, locations, technicians)) ==>
                Integrity(conferences, locations, technicians)
    {
      if Integrity(conferences, locations, technicians) {
        DeleteConferenceKeepsIntegrity(conferences, locations, technicians, id);
      }
      conferences := WithoutConference(conferences, id);
    }

    method AddLocation(location: Location, freshId: string)
      modifies this
      ensures locations == old(locations) + [location.(id := freshId)]
      ensures conferences == old(conferences) && technicians == old(technicians)
    {
      locations := locations + [location.(id := freshId)];
    }

    method UpdateLocation(id: string, patch: LocationPatch)
      modifies this
      ensures locations == PatchLocations(old(locations), id, patch)
      ensures |locations| == |old(locations)|
      ensures forall i :: 0 <= i < |locations| && old(locations)[i].id != id ==>
                locations[i] == old(locations)[i]
      ensures forall i :: 0 <= i < |locations| && old(locations)[i].id == id ==>
                locations[i] == MergeLocation(old(locations)[i], patch)
      ensures conferences == old(conferences) && technicians == old(technicians)
    {
      locations := PatchLocations(locations, id, patch);
    }

    /**
     * `deleteLocation`: refused (with an alert) while a conference is held there; otherwise
     * every location with that id goes.
     */
    method DeleteLocation(id: string)
      modifies this
      ensures UsesLocation(old(conferences), id) ==> locations == old(locations)
      ensures !UsesLocation(old(conferences), id) ==>
                locations == WithoutLocation(old(locations), id)
      ensures forall l :: l in locations ==> l in old(locations)
      ensures forall l :: l in old(locations) && l.id != id ==> l in locations
      ensures conferences == old(conferences) && technicians == old(technicians)
      ensures old(Integrity(conferences, locations, technicians)) ==>
                Integrity(conferences, locations, technicians)
    {
      if exists i :: 0 <= i < |conferences| && conferences[i].locationId == id {
        return;
      }
      if Integrity(conferences, locations, technicians) {
        DeleteLocationKeepsIntegrity(conferences, locations, technicians, id);
      }
      locations := WithoutLocation(locations, id);
    }

    method AddTechnician(technician: Technician, freshId: string)
      modifies this
      ensures technicians == old(technicians) + [technician.(id := freshId)]
      ensures conferences == old(conferences) && locations == old(locations)
    {
      technicians := technicians + [technician.(id := freshId)];
    }

    method UpdateTechnician(id: string, patch: TechnicianPatch)
      modifies this
      ensures technicians == PatchTechnicians(old(technicians), id, patch)
      ensures |technicians| == |old(technicians)|
      ensures forall i :: 0 <= i < |technicians| && old(technicians)[i].id != id ==>
                technicians[i] == old(technicians)[i]
      ensures forall i :: 0 <= i < |technicians| && old(technicians)[i].id == id ==>
                technicians[i] == MergeTechnician(old(technicians)[i], patch)
      ensures conferences == old(conferences) && locations == old(locations)
    {
      technicians := PatchTechnicians(technicians, id, patch);
    }

    /**
     * `deleteTechnician`: refused (with an alert) while a conference lists the technician;
     * otherwise every technician with that id goes.
     */
    method DeleteTechnician(id: string)
      modifies this
      ensures AssignsTechnician(old(conferences), id) ==> technicians == old(technicians)
      ensures !AssignsTechnician(old(conferences), id) ==>
                technicians == WithoutTechnician(old(technicians), id)
      ensures forall t :: t in technicians ==> t in old(technicians)
      ensures forall t :: t in old(technicians) && t.id != id ==> t in technicians
      ensures conferences == old(conferences) && locations == old(locations)
      ensures old(Integrity(conferences, locations, technicians)) ==>
                Integrity(conferences, locations, technicians)
    {
      if exists i :: 0 <= i < |conferences| && id in conferences[i].technicianIds {
        return;
      }
      if Integrity(conferences, locations, technicians) {
        DeleteTechnicianKeepsIntegrity(conferences, locations, technicians, id);
      }
      technicians := WithoutTechnician(technicians, id);
    }
  }
}
