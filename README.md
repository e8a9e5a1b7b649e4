# Doctors portal server: booking and access-control core

A Dafny model of the decision logic inside the Express/MongoDB server of the
doctors portal (`index.js`): which appointment slots are still free on a date,
whether a booking request is admitted or answered as a duplicate, who may
list bookings or promote users, how profiles are upserted, and how the bearer
token is taken from the `Authorization` header.

The three MongoDB collections are in-memory values held by `Server.Store`:
appointments and bookings as sequences of records, users as a sequence of
documents (field-name-to-value maps). `findOne` is "the first document that
matches", `find` is an order-preserving filter, `insertOne` appends, and
`updateOne` with `$set` merges fields into the first match.

Modules, one per component:

- `Records`: `Booking`, `Appointment`, `Doc`, and the booking key (`SameKey`).
- `Sequences`: `Filter` (JavaScript `filter`, MongoDB `find`), `FindFirst`
  (`findOne`), `Subsequence`, and lemmas about them.
- `Credentials`: `verifyJwt`. It covers the header split, token extraction and
  the 401/403 branching. The JSON Web Token library is a parameter `verify`.
- `Availability`: `GET /available`. Its pure parts (filter, map, includes) are
  functions. The `forEach` that overwrites `appointment.slots` is the in-place
  array method `RestrictAll`.
- `Admission`: `POST /booking` as a function `Admit` on the booking sequence.
- `Users`: profile lookup, admin promotion and profile upsert on the user
  sequence.
- `Access`: `verifyAdmin`, `GET /admin/:email` and the own-bookings check.
- `Server`: the `Store` class. Its handler methods read or change the
  collection fields. Each method's contract ties its reply, and any new
  collection, to the functions above.

One fact is worth knowing about the source. `PUT /users/:email` has no
credential check and writes the request body with `$set`. A caller can
therefore set `role` to `"admin"` on any profile. `Users.UpsertRole` states
this: after an upsert, the profile is an administrator exactly when the body
says so, or the body is silent about the role and the profile already was one.

## Model

| member | source | states |
|---|---|---|
| `Sequences.Filter` | index.js:110-112 | the result holds exactly the elements that pass, each of them drawn from the input |
| `Sequences.FindFirst` | index.js:89 | a returned index is the first element that matches; None means no element matches |
| `Credentials.SplitOnSpace` | index.js:26 | `split(" ")` always gives at least one piece, and no piece contains a space |
| `Credentials.SplitThenJoin` | index.js:26 | joining the pieces with a space gives back the header |
| `Credentials.JoinThenSplit` | index.js:26 | splitting a space-joined list of space-free words gives back the words |
| `Credentials.JoinWithSpace` | index.js:26 | the inverse of the split: characterised by `SplitThenJoin` and `JoinThenSplit` |
| `Credentials.SplitSingleIffNoSpace` | index.js:26 | the split gives a single piece exactly when the header has no space |
| `Credentials.TokenOf` | index.js:26 | `split(" ")[1]`: a token exists exactly when the header contains a space, and it holds no space |
| `Credentials.BearerToken` | index.js:26 | for `<scheme> <token> ...` the token taken is the text between the first and second space |
| `Credentials.VerifyJwt` | index.js:21-34 | 401 exactly when the header is missing or empty; the request passes exactly when a token exists and the library accepts it, carrying the library's email |
| `Credentials.BearerVerdict` | index.js:26-32 | on a `<scheme> <token>` header, the outcome is the library's verdict on that token |
| `Credentials.NoSpaceRejected` | index.js:26-30 | a non-empty header without a space is answered 403, whatever the library would say |
| `Availability.BookingsOn` | index.js:104-105 | the day's bookings are exactly the stored bookings whose date is the query string |
| `Availability.BookingsFor` | index.js:110-112 | an appointment's bookings are exactly the day's bookings with its name |
| `Availability.SlotsOf` | index.js:115 | position by position, the slot of each given booking; so the booked slots are exactly the slots of those bookings |
| `Availability.FreeSlots` | index.js:118-120 | a slot is kept exactly when it is configured and not booked |
| `Availability.Restrict` | index.js:110-122 | name and other fields unchanged; a slot is kept iff configured and held by no booking of that name in the day's bookings |
| `Availability.AvailableView` | index.js:108-125 | same length, names and other fields as the loaded list; the slots are characterised by `AvailableShape`, `AvailableExactly` and `AvailableCharacterised` |
| `Availability.RestrictAll` | index.js:108-123 | the in-place loop leaves the array equal to the availability view of the original array |
| `Availability.AvailableExactly` | index.js:104-120 | a slot is offered iff it is configured and no booking with the query date, the same treatment name and that slot exists |
| `Availability.AvailableKeepsRepeats` | index.js:118-120 | an unbooked slot is offered as many times as it is configured; a booked one is never offered |
| `Availability.AvailableShape` | index.js:108-122 | same appointments in the same order; name and other fields unchanged; each slot list is a subsequence of the configured one |
| `Availability.UnbookedKeepsAll` | index.js:110-120 | an appointment with no booking of its name on the date keeps all its slots |
| `Availability.NoBookingsFullAvailability` | index.js:104-122 | a date without bookings returns every appointment unchanged |
| `Availability.AvailableCharacterised` | index.js:118-120 | the offered slots are the unique order-preserving subsequence keeping all unbooked occurrences and no booked ones |
| `Availability.CleaningExample` | index.js:97-126 | Cleaning with 9am/10am/11am and a 10am booking offers 9am and 11am |
| `Admission.FindKey` | index.js:84-89 | a found position holds the first stored booking with the candidate's key; none found means no stored booking has it |
| `Admission.Admit` | index.js:82-95 | a duplicate reply iff some stored booking has the key; it carries the first such booking and leaves the store unchanged; otherwise the candidate is appended at position size-of-store |
| `Admission.AdmitKeepsKeysUnique` | index.js:84-93 | admission preserves "no two bookings share (treatmentName, date, patientEmail)" |
| `Admission.DuplicateIsTheStoredOne` | index.js:89-91 | with unique keys, a duplicate reply returns the one stored booking with that key |
| `Admission.SecondRequestRejected` | index.js:84-94 | after any request, a second request with the same key and any slot is a duplicate of the first stored match and inserts nothing |
| `Admission.CleaningRebookExample` | index.js:82-95 | an 11am request against a stored 10am booking with the same key returns the 10am record |
| `Users.FindUser` | index.js:48-50 | a found position holds the first profile with the email; none found means no profile has it |
| `Users.IsAdmin` | index.js:51 | the stored role is exactly the string "admin"; used by `RoleGate` and `AdminQuery` |
| `Users.Promote` | index.js:149-154 | matches at most one existing profile and never inserts; reports one modification exactly when the matched profile was not already admin; every other profile is unchanged |
| `Users.PromoteGrantsAdmin` | index.js:149-153 | the matched profile gets role "admin", keeps every other field, and is still found by the email |
| `Users.PromoteIdempotent` | index.js:149-153 | a second promotion matches the same profile and modifies nothing |
| `Users.PromoteKeepsEmailsUnique` | index.js:149-153 | promotion preserves one-profile-per-email |
| `Users.Upsert` | index.js:167-175 | matches at most one profile; a profile is inserted, at the end of the collection, exactly when none matched; every profile other than the first match is unchanged |
| `Users.UpsertWrites` | index.js:167-175 | for any body, the first profile with the email becomes that profile merged with the body; without one, `{email}` merged with the body is appended |
| `Users.UpsertThenFind` | index.js:167-175 | when the body leaves the email alone, the profile is found again by email, holds every body field and keeps the old fields the body omits |
| `Users.UpsertRole` | index.js:171-175 | the profile is admin afterwards iff the body sets role "admin", or the body has no role and the profile already was admin |
| `Users.UpsertKeepsEmailsUnique` | index.js:167-175 | when the body leaves the email alone, the upsert preserves one-profile-per-email |
| `Access.RoleGate` | index.js:46-57 | no profile exactly when no document has the email; passes iff the first profile with the email (the one `findOne` returns) has role exactly "admin"; refuses iff that profile's role is anything else |
| `Access.AdminQuery` | index.js:160-165 | `admin:true` iff the first profile with the email has role exactly "admin", `admin:false` iff it has another role; None exactly when no profile has the email |
| `Access.GateAgreesWithQuery` | index.js:160-165 | the gate passes iff the query says `admin:true`, and refuses iff it says `admin:false` |
| `Access.GateDecidedByRole` | index.js:46-57 | with one profile per email, the gate passes iff that profile's role is "admin", and refuses iff it is anything else |
| `Access.PromotedPassesGate` | index.js:142-165 | after promoting an existing user, the gate passes and the query says `admin:true` for them |
| `Access.OwnBookings` | index.js:129-139 | a listing iff the requested email is present and equals the verified one; it holds exactly the stored bookings of that email |
| `Access.OwnBookingsInOrder` | index.js:133-135 | the listing keeps collection order and every copy of each own booking |
| `Server.AdminChain` | index.js:142 | 401 iff no header; 403 iff the token is rejected or the requester is not admin; a missing profile iff the requester has none; the request passes iff the token verifies and the requester has an admin profile |
| `Server.Store.GetAvailable` | index.js:97-126 | returns a fresh array equal to the availability view of the stored appointments and the date's bookings |
| `Server.Store.PostBooking` | index.js:82-95 | reply and new booking collection are those of `Admit`; unique keys are preserved |
| `Server.Store.GetOwnBookings` | index.js:129-139 | 401 or 403 as the credential check decides; 403 when verified but the requested email is missing or differs; otherwise the listing is exactly `OwnBookings`, in collection order with every copy |
| `Server.Store.PutAdmin` | index.js:142-154 | the users change only when the credential check and the admin gate pass, and then exactly as `Promote` says |
| `Server.Store.GetAdmin` | index.js:160-165 | `admin:true` iff the role gate would pass; no answer iff no profile has the email |
| `Server.Store.PutProfile` | index.js:167-182 | the users change as `Upsert` says, and the token is issued for the path's email |

## Left out

- Express routing, CORS, JSON body parsing, `app.listen` and the `/` route: server plumbing with no decisions in it.
- dotenv, the MongoDB URI and the connection: environment and network I/O. The collections are in-memory values.
- The JSON Web Token library: signing, signature checking and the one-hour expiry depend on a secret and the wall clock. Token verification is the parameter `verify` (token to email claim, or an error). Token issuance is the parameter `sign`. So "a freshly issued token verifies" is the library's promise, not proved here. `Credentials.BearerVerdict` shows that the header handling passes a well-formed bearer token to the library unchanged.
- `GET /appointment`, `GET /users`, and the doctors list, add and delete routes: they only pass a call through to `find`, `insertOne` or `deleteOne`. The guards in front of the guarded ones are the modelled `verifyJwt` and `verifyAdmin`.
- Concurrency: two identical booking requests can both pass the lookup before either inserts. Requests are handled one at a time here, so `AdmitKeepsKeysUnique` holds only for sequential requests.
- The second `res.status(403).send` after the reply in `PUT /users/admin/:email`: a response-sending mistake with no effect on the stored state.
- A missing user record in `verifyAdmin` and `GET /admin/:email`: the handler throws on the `null` record. The model returns an explicit outcome instead (`NoProfile`, `MissingProfile`, `None`).
- Document values are opaque strings. JSON numbers, nested objects and `undefined` fields are not modelled. Bookings always carry all four key fields. A missing `?date` is therefore not modelled; a missing `?patientEmail` is (`None`, answered 403).
- MongoDB's refusal of an empty or `_id`-changing `$set`, and ObjectId generation: a created booking or upserted profile is identified by its position in the collection.
- `Credentials.VerifyJwt`: an empty token (header `"Bearer "`) is passed to `verify`, which the model does not constrain; the library reports an error for it. A header without a space is answered 403 without calling `verify`.
