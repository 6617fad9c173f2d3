/**
 * The three entity shapes shared by the client and the server (frontend/src/types/index.ts)
 * the `Partial<...>` patches the client merges into them, and removal by id.
 */
module Records {
  import opened Wrappers
  import opened Lists

  datatype Location = Location(
    id: string,
    name: string,
    address: string,
    capacity: int,
    hasVideoEquipment: bool)

  datatype Technician = Technician(
    id: string,
    name: string,
    email: string,
    phone: string,
    specialization: string)

  /** `status` is one of "scheduled", "in-progress", "completed", "cancelled" by convention only. */
  datatype Conference = Conference(
    id: string,
    title: string,
    description: string,
    date: string,
    startTime: string,
    endTime: string,
    locationId: string,
    technicianIds: seq<string>,
    participantIds: seq<string>,
    participantCount: int,
    status: string)

  /** `Partial<Location>`: `None` is a key the patch does not carry. */
  datatype LocationPatch = LocationPatch(
    id: Option<string>,
    name: Option<string>,
    address: Option<string>,
    capacity: Option<int>,
    hasVideoEquipment: Option<bool>)

  datatype TechnicianPatch = TechnicianPatch(
    id: Option<string>,
    name: Option<string>,
    email: Option<string>,
    phone: Option<string>,
    specialization: Option<string>)

  datatype ConferencePatch = ConferencePatch(
    id: Option<string>,
    title: Option<string>,
    description: Option<string>,
    date: Option<string>,
    startTime: Option<string>,
    endTime: Option<string>,
    locationId: Option<string>,
    technicianIds: Option<seq<string>>,
    participantIds: Option<seq<string>>,
    participantCount: Option<int>,
    status: Option<string>)

  /** `{ ...loc, ...patch }` */
  function MergeLocation(l: Location, p: LocationPatch): Location {
    Location(p.id.GetOr(l.id), p.name.GetOr(l.name), p.address.GetOr(l.address),
             p.capacity.GetOr(l.capacity), p.hasVideoEquipment.GetOr(l.hasVideoEquipment))
  }

  /** `{ ...tech, ...patch }` */
  function MergeTechnician(t: Technician, p: TechnicianPatch): Technician {
    Technician(p.id.GetOr(t.id), p.name.GetOr(t.name), p.email.GetOr(t.email),
               p.phone.GetOr(t.phone), p.specialization.GetOr(t.specialization))
  }

  /** `{ ...conf, ...patch }` */
  function MergeConference(c: Conference, p: ConferencePatch): Conference {
    Conference(p.id.GetOr(c.id), p.title.GetOr(c.title), p.description.GetOr(c.description),
               p.date.GetOr(c.date), p.startTime.GetOr(c.startTime), p.endTime.GetOr(c.endTime),
               p.locationId.GetOr(c.locationId), p.technicianIds.GetOr(c.technicianIds),
               p.participantIds.GetOr(c.participantIds),
               p.participantCount.GetOr(c.participantCount), p.status.GetOr(c.status))
  }

  /** `conferences.filter(conf => conf.id !== id)` */
  function WithoutConference(conferences: seq<Conference>, id: string): seq<Conference> {
    Filter(conferences, (c: Conference) => c.id != id)
  }

  /** `locations.filter(loc => loc.id !== id)` */
  function WithoutLocation(locations: seq<Location>, id: string): seq<Location> {
    Filter(locations, (l: Location) => l.id != id)
  }

  /** `technicians.filter(tech => tech.id !== id)` */
  function WithoutTechnician(technicians: seq<Technician>, id: string): seq<Technician> {
    Filter(technicians, (t: Technician) => t.id != id)
  }
}
