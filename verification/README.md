# VideoConf-Manager scheduling core, in Dafny

VideoConf-Manager books video conferences. Each conference has a date, a time slot, a
location and a set of technicians. The application has three layers, and this project models
each of them.

**The server's REST routes.**
- `/api/conferences`, `/api/locations` and `/api/technicians`.
- They run behind a bearer-token guard.
- The database is a class `Database.Tables`. It holds one map per table (id to row) and the
  conference-technician relation as a set of pairs.
- The constraints the database enforces are the invariant `Tables.Valid`:
  - foreign keys;
  - one relation row per pair (assumed, see "Left out");
  - unique technician email (assumed, see "Left out").
- A write that would break a constraint fails. The route then answers with its generic 500
  reply.
- Every reply is a `Reply<T>`: a status with the JSON body, or a status with the `error`
  text.

**The client's two stores.**
- `DataContext.DataProvider` is the local, browser-saved store. It holds three arrays, and
  its two deletes refuse to remove a record that a conference still uses.
- `DataStore.Store` is the server-backed cache. Each of its operations takes the settled API
  call as a parameter.

**The three edit forms.**
- Each form's state is a class with the draft record and the error messages.
- The model covers:
  - the change handlers;
  - `validateForm`, specified by a `Reports` predicate and an `Acceptable` predicate;
  - the submit decision.
- The technician form's email regular expression `^\S+@\S+\.\S+$` is modelled as a small
  matcher. It is proved equal to a plain description of the strings it accepts.
- The multi-select control's list operations are modelled as functions.

**Supporting modules.**
- `Text` has JavaScript's `trim`, `\s`, `split(" ")`, string `<` and the `i` flag for ASCII.
- `Lists` has `filter`, `find` and `map`, with lemmas about them.
- `Ordering` has `orderBy: asc`.

**Where the code falls short of what it evidently intends, the model follows the code:**
- **The conference replace.** `PUT /api/conferences/:id` replaces a conference's technicians
  as a whole, and a failed request should leave them as they were. The code runs three
  separate writes instead. `ConferenceRoutes.Put` models them step by step, and
  `ConferenceRoutes.PutAtomic` is the all-or-nothing version (see Findings).

**Unknown ids.** The GET handlers check for an unknown id and answer 404 "not found". PUT and
DELETE do not check: Prisma throws, and the handler's `catch` answers with its generic 500
message. The model answers 500 there too.

## Model

| member | source | states |
|---|---|---|
| Wrappers.OrElse | frontend/src/stores/dataStore.ts:54 | `s \|\| fallback` is always one of the two; it is empty only when the string is absent or empty and the fallback is empty, so a non-empty fallback always gives a message |
| Text.TrimStart | frontend/src/pages/conferences/ConferenceForm.tsx:114 | the result is a suffix of the input that starts with a non-white-space character, or is empty |
| Text.TrimEnd | frontend/src/pages/conferences/ConferenceForm.tsx:114 | the result is a prefix of the input that ends with a non-white-space character, or is empty |
| Text.Trim | frontend/src/pages/conferences/ConferenceForm.tsx:114 | `s.trim()` is a slice `s[i..j]` with only white space before `i` and after `j`, and neither starts nor ends with white space |
| Text.TrimEmptyIffBlank | frontend/src/pages/conferences/ConferenceForm.tsx:114 | `!s.trim()` holds exactly when every character of `s` is ECMAScript white space |
| Text.TrimStartOfBlank | frontend/src/pages/locations/LocationForm.tsx:68 | trimming an all-white-space string leaves nothing |
| Text.Count | backend/src/middleware/auth.ts:20-22 | the count of a character is zero exactly when it does not occur |
| Text.CountConcat | backend/src/middleware/auth.ts:20-22 | occurrences add up over a concatenation |
| Text.Split | backend/src/middleware/auth.ts:20 | `split(" ")` yields at least one piece, and no piece holds the separator |
| Text.SplitJoin | backend/src/middleware/auth.ts:20 | joining the pieces with the separator gives the header back |
| Text.SplitCount | backend/src/middleware/auth.ts:20-22 | there is one piece more than there are spaces, so `parts.length !== 2` means "not exactly one space" |
| Text.SplitAtSoleSeparator | backend/src/middleware/auth.ts:27 | with exactly one space, the two parts are the text before it and the text after it |
| Text.SplitWithoutSeparator | backend/src/middleware/auth.ts:20 | a header without a space is a single piece |
| Text.AsciiUpper | backend/src/middleware/auth.ts:29 | the result is never a lower-case ASCII letter; a character is ASCII exactly when its upper case is, and a non-ASCII character is unchanged, so under the `i` flag no other character matches a letter of `Bearer` |
| Text.AsciiUpperIdempotent | backend/src/middleware/auth.ts:29 | upper-casing twice is the same as upper-casing once |
| Text.BelowTotal | backend/src/routes/conferences.ts:22 | any two strings are ordered one way or the other |
| Text.BelowTransitive | backend/src/routes/conferences.ts:22 | the string order is transitive |
| Text.BelowAntisymmetric | backend/src/routes/conferences.ts:22 | strings ordered both ways are equal |
| Lists.Filter | frontend/src/contexts/DataContext.tsx:130 | every element kept satisfies the test and comes from the input; every input element that satisfies the test is kept |
| Lists.FilterConcat | frontend/src/contexts/DataContext.tsx:130 | filtering distributes over concatenation, so kept elements keep their relative order |
| Lists.FilterKeepsAll | frontend/src/contexts/DataContext.tsx:156 | a filter that drops nothing returns the array unchanged |
| Lists.FilterUndoesAppend | frontend/src/stores/dataStore.ts:93 | appending an element the filter drops, then filtering, gives the original array |
| Lists.FilterAfterMapWhere | frontend/src/stores/dataStore.ts:106-108 | replacing elements that the filter drops, before filtering, changes nothing |
| Lists.FilterPartition | frontend/src/components/UI/MultiSelect.tsx:30-37 | filtering by a test and by its negation splits the array into two parts, as multisets and by length |
| Lists.MapWhere | frontend/src/contexts/DataContext.tsx:123-125 | same length; elements that match are replaced by `f` of themselves, others stay in place |
| Lists.Find | frontend/src/pages/conferences/ConferenceForm.tsx:45 | `find` returns nothing exactly when nothing matches, otherwise the first element that matches |
| Ordering.InsertSorted | backend/src/routes/locations.ts:14 | inserting into a sorted list keeps it sorted and adds exactly that element |
| Ordering.SortedRows | backend/src/routes/locations.ts:13-15 | `findMany` ordered ascending lists each row of the table exactly once, in ascending key order |
| Database.TechniciansOfNewRows | backend/src/routes/conferences.ts:119-123 | after inserting a conference's relation rows, the technician ids read back are exactly the ids given |
| Database.RowsNotOfClears | backend/src/routes/conferences.ts:182-184 | `deleteMany({ conferenceId })` leaves that conference with no technicians, and every other conference keeps exactly the technicians it had |
| ConferenceRoutes.List | backend/src/routes/conferences.ts:11-44 | 200 with every conference exactly once, in ascending date order, each with its technician ids |
| ConferenceRoutes.Get | backend/src/routes/conferences.ts:47-84 | 404 "Conference not found" exactly when the id is unknown; otherwise 200 with that conference, whose `technicianIds` are exactly the technicians of its relation rows, all of which exist, and whose location exists |
| ConferenceRoutes.Post | backend/src/routes/conferences.ts:87-146 | 400 without title, date, times or location; 201 exactly when the location and technicians exist and no technician repeats, with the stated defaults; otherwise 500 and no change |
| ConferenceRoutes.Put | backend/src/routes/conferences.ts:149-219 | the three writes in order: an unknown id or location changes nothing; a bad technician list leaves the updated row with no relation rows and answers 500; otherwise 200 with the conference as read back; every other conference keeps its technicians |
| ConferenceRoutes.PutAtomic | backend/src/routes/conferences.ts:149-219 | the same request as one transaction: success under the same conditions with the same new state; any failure leaves the database unchanged |
| ConferenceRoutes.PartialReplaceExample | backend/src/routes/conferences.ts:165-193 | a replace naming an unknown technician answers 500, but has already changed the title and removed the technician the conference had |
| ConferenceRoutes.AtomicReplaceExample | backend/src/routes/conferences.ts:165-193 | the same replace run as one transaction answers 500 and leaves the title and relation rows as they were |
| ConferenceRoutes.Delete | backend/src/routes/conferences.ts:222-234 | 500 on an unknown id; otherwise 204, the conference and its relation rows are gone, and a later GET is 404; every other conference keeps its technicians |
| LocationRoutes.List | backend/src/routes/locations.ts:11-21 | 200 with every location exactly once, ascending by name |
| LocationRoutes.Get | backend/src/routes/locations.ts:24-38 | 404 "Location not found" exactly when the id is unknown; otherwise 200 with the location stored under that id |
| LocationRoutes.Post | backend/src/routes/locations.ts:41-65 | 400 without name, address or capacity; 500 when capacity does not parse; otherwise 201 with video equipment defaulting to false |
| LocationRoutes.Put | backend/src/routes/locations.ts:68-91 | 500 and no change on an unknown id or a capacity that does not parse; otherwise only the properties the body carries change |
| LocationRoutes.Delete | backend/src/routes/locations.ts:94-116 | 400 while any conference is held there; 500 on an unknown id; otherwise 204, and a later GET is 404 |
| TechnicianRoutes.List | backend/src/routes/technicians.ts:11-21 | 200 with every technician exactly once, ascending by name |
| TechnicianRoutes.Get | backend/src/routes/technicians.ts:24-38 | 404 "Technician not found" exactly when the id is unknown; otherwise 200 with the technician stored under that id |
| TechnicianRoutes.Post | backend/src/routes/technicians.ts:41-58 | 400 unless all four fields are non-empty; 500 when the email belongs to another technician; otherwise 201 with those fields |
| TechnicianRoutes.Put | backend/src/routes/technicians.ts:61-76 | 500 and no change on an unknown id or an email another technician has; otherwise only the properties the body carries change |
| TechnicianRoutes.Delete | backend/src/routes/technicians.ts:79-101 | 400 while the technician is assigned to any conference; 500 on an unknown id; otherwise 204, and a later GET is 404 |
| AuthMiddleware.Authenticate | backend/src/middleware/auth.ts:8-43 | 401 "No token provided" exactly when the header is missing or empty; "Token error" exactly when it does not hold exactly one space; the request proceeds only with a case-insensitive `Bearer` scheme and a token that verifies, carrying that token's user id |
| AuthMiddleware.SchemeAndToken | backend/src/middleware/auth.ts:20-42 | for `scheme + " " + token`, the verdict depends on the scheme first ("Token malformatted") and then on the token alone ("Token invalid" or proceed) |
| AuthMiddleware.SchemeCaseIgnored | backend/src/middleware/auth.ts:29 | `bearer <token>` and `Bearer <token>` get the same verdict |
| DataContext.DeleteConferenceKeepsIntegrity | frontend/src/contexts/DataContext.tsx:129-131 | removing conferences never leaves a conference that names a missing location or technician |
| DataContext.DeleteLocationKeepsIntegrity | frontend/src/contexts/DataContext.tsx:150-157 | removing a location that no conference uses preserves referential integrity |
| DataContext.DeleteTechnicianKeepsIntegrity | frontend/src/contexts/DataContext.tsx:176-183 | removing a technician that no conference lists preserves referential integrity |
| DataContext.WithoutAbsentLocation | frontend/src/contexts/DataContext.tsx:156 | deleting an id that no location has leaves the array unchanged |
| DataContext.DataProvider.constructor | frontend/src/contexts/DataContext.tsx:84-97 | the three arrays start as the loaded (or sample) arrays |
| DataContext.DataProvider.AddConference | frontend/src/contexts/DataContext.tsx:113-119 | appends the record under the fresh id; nothing else changes |
| DataContext.DataProvider.UpdateConference | frontend/src/contexts/DataContext.tsx:121-127 | every conference with the id gets the patch merged in, the others stay in place; the length is unchanged |
| DataContext.DataProvider.DeleteConference | frontend/src/contexts/DataContext.tsx:129-131 | removes exactly the conferences with that id, keeps the rest, and preserves integrity |
| DataContext.DataProvider.AddLocation | frontend/src/contexts/DataContext.tsx:134-140 | appends the record under the fresh id |
| DataContext.DataProvider.UpdateLocation | frontend/src/contexts/DataContext.tsx:142-148 | every location with the id gets the patch merged in, the others stay in place |
| DataContext.DataProvider.DeleteLocation | frontend/src/contexts/DataContext.tsx:150-157 | does nothing while a conference uses the location; otherwise removes exactly that id; integrity is preserved |
| DataContext.DataProvider.AddTechnician | frontend/src/contexts/DataContext.tsx:160-166 | appends the record under the fresh id |
| DataContext.DataProvider.UpdateTechnician | frontend/src/contexts/DataContext.tsx:168-174 | every technician with the id gets the patch merged in, the others stay in place |
| DataContext.DataProvider.DeleteTechnician | frontend/src/contexts/DataContext.tsx:176-183 | does nothing while a conference lists the technician; otherwise removes exactly that id; integrity is preserved |
| DataStore.ErrorOf | frontend/src/stores/dataStore.ts:52-56 | a rejection leaves the server's message when it has one, otherwise the operation's own; a resolved call leaves none |
| DataStore.DeleteUndoesAddConference | frontend/src/stores/dataStore.ts:90-128 | deleting a conference just added under a fresh id gives back the array |
| DataStore.DeleteAfterReplaceConference | frontend/src/stores/dataStore.ts:102-128 | an update followed by a delete of the same id has the same result as the delete alone |
| DataStore.DeleteUndoesAddLocation | frontend/src/stores/dataStore.ts:131-163 | deleting a location just added under a fresh id gives back the array |
| DataStore.DeleteAfterReplaceLocation | frontend/src/stores/dataStore.ts:141-163 | an update followed by a delete of the same id has the same result as the delete alone |
| DataStore.DeleteUndoesAddTechnician | frontend/src/stores/dataStore.ts:166-204 | deleting a technician just added under a fresh id gives back the array |
| DataStore.DeleteAfterReplaceTechnician | frontend/src/stores/dataStore.ts:178-204 | an update followed by a delete of the same id has the same result as the delete alone |
| DataStore.Store.constructor | frontend/src/stores/dataStore.ts:40-45 | empty arrays, not loading, no error |
| DataStore.Store.FetchConferences | frontend/src/stores/dataStore.ts:48-57 | the array becomes the reply's data; a rejection keeps it and records the error, never thrown |
| DataStore.Store.FetchLocations | frontend/src/stores/dataStore.ts:59-66 | as above, for locations |
| DataStore.Store.FetchTechnicians | frontend/src/stores/dataStore.ts:68-77 | as above, for technicians |
| DataStore.Store.FetchAll | frontend/src/stores/dataStore.ts:79-87 | each array loads independently; afterwards there is no error exactly when all three resolved, and otherwise it is one of the rejections' messages; loading is off |
| DataStore.Store.AddConference | frontend/src/stores/dataStore.ts:90-100 | throws exactly on rejection, recording the error; otherwise appends the server's record |
| DataStore.Store.UpdateConference | frontend/src/stores/dataStore.ts:102-116 | throws exactly on rejection; otherwise the server's record replaces every conference with that id |
| DataStore.Store.DeleteConference | frontend/src/stores/dataStore.ts:118-128 | throws exactly on rejection; otherwise the conferences with that id are removed |
| DataStore.Store.AddLocation | frontend/src/stores/dataStore.ts:131-139 | throws exactly on rejection; otherwise appends the server's record |
| DataStore.Store.UpdateLocation | frontend/src/stores/dataStore.ts:141-153 | throws exactly on rejection; otherwise replaces by id |
| DataStore.Store.DeleteLocation | frontend/src/stores/dataStore.ts:155-163 | throws exactly on rejection; otherwise removes by id |
| DataStore.Store.AddTechnician | frontend/src/stores/dataStore.ts:166-176 | throws exactly on rejection; otherwise appends the server's record |
| DataStore.Store.UpdateTechnician | frontend/src/stores/dataStore.ts:178-192 | throws exactly on rejection; otherwise replaces by id |
| DataStore.Store.DeleteTechnician | frontend/src/stores/dataStore.ts:194-204 | throws exactly on rejection; otherwise removes by id |
| Forms.ClearError | frontend/src/pages/conferences/ConferenceForm.tsx:73-78 | the same keys; the changed field's message becomes empty, the others are untouched |
| Forms.NumberOrZero | frontend/src/pages/conferences/ConferenceForm.tsx:63 | `parseInt(v) \|\| 0` is 0 exactly for NaN and 0, otherwise the parsed number |
| EmailPattern.LastRun | frontend/src/pages/technicians/TechnicianForm.tsx:62 | `\S+$` matches exactly the non-empty strings without white space |
| EmailPattern.DotRun | frontend/src/pages/technicians/TechnicianForm.tsx:62 | `\.\S+$` matches a dot followed by a non-empty run without white space |
| EmailPattern.MiddleRun | frontend/src/pages/technicians/TechnicianForm.tsx:62 | `\S+\.\S+$` matches strings without white space that have a dot with text on both sides |
| EmailPattern.AtRun | frontend/src/pages/technicians/TechnicianForm.tsx:62 | `@\S+\.\S+$` matches an `@` followed by what the rest matches |
| EmailPattern.EmailMatchesIffShaped | frontend/src/pages/technicians/TechnicianForm.tsx:62 | the pattern accepts a string exactly when it has no white space, an `@` after at least one character, and a later `.` with text between the two and after it |
| EmailPattern.AcceptedExample | frontend/src/pages/technicians/TechnicianForm.tsx:62 | `ana@mail.com` is accepted |
| EmailPattern.RefusedExample | frontend/src/pages/technicians/TechnicianForm.tsx:62 | `ana@mail` is refused |
| ConferenceForm.InitialDraftRejected | frontend/src/pages/conferences/ConferenceForm.tsx:25-36 | the initial form never validates (no title, no technician) |
| ConferenceForm.NothingBeforeEmpty | frontend/src/pages/conferences/ConferenceForm.tsx:130 | no start time is before an empty end time |
| ConferenceForm.Changed | frontend/src/pages/conferences/ConferenceForm.tsx:52-79 | the named field takes the value (the participant count takes `parseInt \|\| 0`); every other field is unchanged |
| ConferenceForm.ReportsNothingIffAcceptable | frontend/src/pages/conferences/ConferenceForm.tsx:111-149 | the report is empty exactly when the draft is acceptable |
| ConferenceForm.EmptyEndTimeReportsOrdering | frontend/src/pages/conferences/ConferenceForm.tsx:126-132 | an empty end time always shows the ordering message, which overwrites "required" |
| ConferenceForm.Check | frontend/src/pages/conferences/ConferenceForm.tsx:112-146 | the errors record has exactly the failed checks' keys, each with its message |
| ConferenceForm.ScheduleEntries | frontend/src/pages/conferences/ConferenceForm.tsx:114-132 | the writes of the first five checks in order, with the ordering message last |
| ConferenceForm.ResourceEntries | frontend/src/pages/conferences/ConferenceForm.tsx:134-145 | the writes of the last three checks |
| ConferenceForm.Form.constructor | frontend/src/pages/conferences/ConferenceForm.tsx:25-40 | the initial draft and no errors |
| ConferenceForm.Form.Populate | frontend/src/pages/conferences/ConferenceForm.tsx:43-50 | loads the first conference with the edit id, if any; otherwise nothing changes |
| ConferenceForm.Form.HandleChange | frontend/src/pages/conferences/ConferenceForm.tsx:52-79 | the draft changes as `Changed` says; the field's error is cleared |
| ConferenceForm.Form.HandleTechnicianChange | frontend/src/pages/conferences/ConferenceForm.tsx:81-94 | replaces the technician list and clears its error |
| ConferenceForm.Form.HandleParticipantChange | frontend/src/pages/conferences/ConferenceForm.tsx:96-109 | replaces the participant list and clears its error |
| ConferenceForm.Form.ValidateForm | frontend/src/pages/conferences/ConferenceForm.tsx:111-149 | stores the report; returns true exactly when the draft is acceptable |
| ConferenceForm.Form.HandleSubmit | frontend/src/pages/conferences/ConferenceForm.tsx:151-165 | an invalid draft calls nothing and stays open; a valid one updates when editing, otherwise adds, and closes |
| LocationForm.InitialRejected | frontend/src/pages/locations/LocationForm.tsx:16-21 | the initial form is refused, although its capacity of 20 passes |
| LocationForm.Changed | frontend/src/pages/locations/LocationForm.tsx:36-54 | a checkbox stores `checked`, the number input stores `parseInt \|\| 0`, text inputs store the value; other fields are unchanged |
| LocationForm.ReportsNothingIffAcceptable | frontend/src/pages/locations/LocationForm.tsx:65-82 | the report is empty exactly when the draft is acceptable |
| LocationForm.Check | frontend/src/pages/locations/LocationForm.tsx:66-78 | the errors record has exactly the failed checks' keys, each with its message |
| LocationForm.Entries | frontend/src/pages/locations/LocationForm.tsx:68-78 | the writes of the three checks |
| LocationForm.Form.constructor | frontend/src/pages/locations/LocationForm.tsx:16-24 | the initial draft and no errors |
| LocationForm.Form.Populate | frontend/src/pages/locations/LocationForm.tsx:27-34 | loads the first location with the edit id, if any |
| LocationForm.Form.HandleChange | frontend/src/pages/locations/LocationForm.tsx:36-63 | the draft changes as `Changed` says; the field's error is cleared |
| LocationForm.Form.ValidateForm | frontend/src/pages/locations/LocationForm.tsx:65-82 | stores the report; returns true exactly when the draft is acceptable |
| LocationForm.Form.HandleSubmit | frontend/src/pages/locations/LocationForm.tsx:84-98 | an invalid draft calls nothing and stays open; a valid one updates or adds, and closes |
| TechnicianForm.Changed | frontend/src/pages/technicians/TechnicianForm.tsx:36-42 | the named field takes the value as typed; other fields are unchanged |
| TechnicianForm.ReportsNothingIffAcceptable | frontend/src/pages/technicians/TechnicianForm.tsx:53-76 | the report is empty exactly when no field is blank and the email has the shape the pattern describes |
| TechnicianForm.BlankEmailIsRequired | frontend/src/pages/technicians/TechnicianForm.tsx:60-64 | a blank email is reported as missing, never as malformed |
| TechnicianForm.CheckEmail | frontend/src/pages/technicians/TechnicianForm.tsx:60-64 | nothing to report exactly when the email is not blank and matches; otherwise "required" if blank, else "invalid" |
| TechnicianForm.Check | frontend/src/pages/technicians/TechnicianForm.tsx:54-72 | the errors record has exactly the failed checks' keys, each with its message |
| TechnicianForm.Entries | frontend/src/pages/technicians/TechnicianForm.tsx:56-72 | the writes of the four checks |
| TechnicianForm.Form.constructor | frontend/src/pages/technicians/TechnicianForm.tsx:16-24 | all fields empty, no errors |
| TechnicianForm.Form.Populate | frontend/src/pages/technicians/TechnicianForm.tsx:27-34 | loads the first technician with the edit id, if any |
| TechnicianForm.Form.HandleChange | frontend/src/pages/technicians/TechnicianForm.tsx:36-51 | the draft changes as `Changed` says; the field's error is cleared |
| TechnicianForm.Form.ValidateForm | frontend/src/pages/technicians/TechnicianForm.tsx:53-76 | stores the report; returns true exactly when the draft is acceptable |
| TechnicianForm.Form.HandleSubmit | frontend/src/pages/technicians/TechnicianForm.tsx:78-92 | an invalid draft calls nothing and stays open; a valid one updates or adds, and closes |
| MultiSelect.SelectedOptions | frontend/src/components/UI/MultiSelect.tsx:30-32 | exactly the options whose value is selected |
| MultiSelect.AvailableOptions | frontend/src/components/UI/MultiSelect.tsx:35-37 | exactly the options whose value is not selected |
| MultiSelect.OptionsPartitioned | frontend/src/components/UI/MultiSelect.tsx:30-37 | every option appears exactly once, either as selected or as available, never both |
| MultiSelect.Remove | frontend/src/components/UI/MultiSelect.tsx:61-63 | the value leaves the list and every other value stays |
| MultiSelect.RemoveAbsent | frontend/src/components/UI/MultiSelect.tsx:61-63 | removing a value that is not selected changes nothing |
| MultiSelect.Toggle | frontend/src/components/UI/MultiSelect.tsx:53-58 | the clicked value becomes selected exactly when it was not; others are unaffected; a new value goes at the end |
| MultiSelect.ToggleTwiceRestores | frontend/src/components/UI/MultiSelect.tsx:53-58 | clicking an unselected value twice gives back the original list |

## Left out

- **I/O and side effects.** The model leaves out:
  - HTTP transport, Express and the JSON encoding;
  - `localStorage` saving and loading in the local store (the constructor takes the loaded
    arrays);
  - `alert`, `console.error`, `onClose` rendering and all markup.
- **Environment inputs become parameters.** Fresh ids come from `Date.now()` in the local
  store and from Prisma on the server. The form's `today` comes from the clock. `parseInt`
  results come from the browser. The settled API calls come from the network.
- **Token verification.** The JWT signature and expiry checks, and the secret from the
  environment, are an oracle from token to user id. The model does not reason about signing.
- **The database schema file is not part of this model.** The foreign keys come from the
  relations the routes include, and the cascade comes from the comment at
  backend/src/routes/conferences.ts:226. The two uniqueness rules in `Tables.Valid` are
  assumptions: no route or comment states them.
  - Technician email is assumed unique, so `TechnicianRoutes.Post` and `TechnicianRoutes.Put`
    answer 500 on an email another technician has.
  - A conference-technician pair is assumed unique, so `ConferenceRoutes.CanAssign` requires
    the ids to be distinct. A repeated technician id in a POST or PUT is therefore modelled
    as a failing insert (500). The relation is a set, so it cannot hold the duplicate rows
    that a schema without this rule would store.
- **Database collation.** `orderBy: asc` sorts in the database, under the column's
  collation. The model assumes code-point (binary) order, `Text.Below`. A locale collation
  would order differently; for example, it puts "apple" before "Banana".
- **Row order.** `technicianIds` read back from the relation table is modelled as a set,
  because its order is not specified. Rows that tie on the `orderBy` key come in an order the
  model does not promise.
- **JSON `null`, and arrays sent where text is expected.** `null` is treated like a missing
  property. A JavaScript spread of a property whose value is `undefined` is treated as
  absent. A body carrying `technicianIds: null` is treated as if the property were absent.
- DataStore.Store.FetchAll: the three requests run concurrently, so the order of their error
  writes is not fixed. The contract promises only that the error is one of the rejections'
  messages. The method body runs them in one admissible order.
- **Races.** Races between the routes' check-then-write steps are not modelled.
- **String order beyond the Basic Multilingual Plane.** JavaScript compares strings by UTF-16
  code unit. The model compares whole characters, which gives the same order only inside the
  Basic Multilingual Plane.
- **Form submission.** The edit forms do not await the store call. A rejected call is
  therefore not modelled after the form closes. When editing, the populated draft also
  carries the record's id. The model's draft leaves the id out.
- **DataStore versus DataContext.** The client sends a request payload, but the cache stores
  the server's reply, which is a parameter here. The model does not relate the two.
- **User routes.** The user registration, login and "me" routes are not part of this model.
  The model keeps only the guard in front of the conference, location and technician routes.

## Findings

| source | as written | input that shows it | evidently intended | confidence | as-written member | corrected member |
|---|---|---|---|---|---|---|
| backend/src/routes/conferences.ts:165-193 | the row update, the `deleteMany` of relation rows and the `createMany` are three separate writes with no transaction | `PUT /api/conferences/c1` with `{ title: "Retro", technicianIds: ["t9"] }`, where `t9` is not a technician: the reply is 500, yet `c1` is renamed and has lost its technicians | the replace is one transaction: a failure leaves the conference and its technicians as they were | not executed | ConferenceRoutes.PartialReplaceExample | ConferenceRoutes.PutAtomic |
