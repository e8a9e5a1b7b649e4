/** The request handlers, over an in-memory copy of the server's collections.
    Every handler takes one request at a time. */
module Server {
  import opened Records
  import opened Credentials
  import opened Availability
  import opened Admission
  import opened Users
  import opened Access

  /** Why a request was answered with an error instead of a result: status 401,
      status 403, or a requester without a profile. */
  datatype Failure = Unauthorized401 | Forbidden403 | MissingProfile

  datatype Reply<T> = Ok(body: T) | Fail(failure: Failure)

  /** PUT /users/:email answers with the update result and a token for the email. */
  datatype ProfileReply = ProfileReply(result: UpdateResult, token: string)

  /** verifyJwt followed by verifyAdmin: None lets the request through. */
  function AdminChain(users: seq<Doc>, header: Option<string>, verify: string -> Option<string>): (r: Option<Failure>)
    ensures r == Some(Unauthorized401) <==> VerifyJwt(header, verify).NoHeader?
    ensures r.None? <==>
      VerifyJwt(header, verify).Verified? && RoleGate(users, VerifyJwt(header, verify).email) == Allowed
    ensures r == Some(Forbidden403) <==>
      VerifyJwt(header, verify).Rejected? ||
      (VerifyJwt(header, verify).Verified? && RoleGate(users, VerifyJwt(header, verify).email) == Denied)
    ensures r == Some(MissingProfile) <==>
      VerifyJwt(header, verify).Verified? && RoleGate(users, VerifyJwt(header, verify).email) == NoProfile
    ensures r.None? ==>
      exists d :: d in users && HasEmail(d, VerifyJwt(header, verify).email) && IsAdmin(d)
  {
    match VerifyJwt(header, verify)
    case NoHeader => Some(Unauthorized401)
    case Rejected => Some(Forbidden403)
    case Verified(e) =>
      match RoleGate(users, e)
      case Allowed => None
      case Denied => Some(Forbidden403)
      case NoProfile => Some(MissingProfile)
  }

  class Store {
    var appointments: seq<Appointment>
    var bookings: seq<Booking>
    var users: seq<Doc>

    constructor (appointments: seq<Appointment>, bookings: seq<Booking>, users: seq<Doc>)
      ensures this.appointments == appointments && this.bookings == bookings && this.users == users
    {
      this.appointments := appointments;
      this.bookings := bookings;
      this.users := users;
    }

    /** GET /available?date: load the appointments into a fresh array, then
        restrict each one's slots by the day's bookings. */
    method GetAvailable(date: string) returns (view: array<Appointment>)
      ensures fresh(view)
      ensures view[..] == AvailableView(appointments, BookingsOn(bookings, date))
    {
      var loaded := appointments;
      view := new Appointment[|loaded|](i requires 0 <= i < |loaded| => loaded[i]);
      assert view[..] == loaded;
      var day := BookingsOn(bookings, date);
      RestrictAll(view, day);
    }

    /** POST /booking: check for the key, then insert. */
    method PostBooking(info: Booking) returns (reply: Admission)
      modifies this`bookings
      ensures (reply, bookings) == Admit(old(bookings), info)
      ensures UniqueKeys(old(bookings)) ==> UniqueKeys(bookings)
    {
      var found := FindKey(bookings, info);
      if found.Some? {
        reply := Duplicate(bookings[found.value]);
      } else {
        reply := Created(|bookings|);
        bookings := bookings + [info];
      }
      if UniqueKeys(old(bookings)) {
        AdmitKeepsKeysUnique(old(bookings), info);
      }
    }

    /** GET /booking?patientEmail behind verifyJwt. */
    method GetOwnBookings(header: Option<string>, verify: string -> Option<string>, patientEmail: Option<string>)
      returns (reply: Reply<seq<Booking>>)
      ensures VerifyJwt(header, verify).NoHeader? ==> reply == Fail(Unauthorized401)
      ensures VerifyJwt(header, verify).Rejected? ==> reply == Fail(Forbidden403)
      ensures VerifyJwt(header, verify).Verified? && patientEmail != Some(VerifyJwt(header, verify).email) ==>
        reply == Fail(Forbidden403)
      ensures reply.Ok? <==>
        VerifyJwt(header, verify).Verified? && patientEmail == Some(VerifyJwt(header, verify).email)
      ensures reply.Ok? ==> Some(reply.body) == OwnBookings(bookings, patientEmail, VerifyJwt(header, verify).email)
      ensures reply.Ok? ==> forall i :: 0 <= i < |reply.body| ==>
        reply.body[i] in bookings && reply.body[i].patientEmail == patientEmail.value
      ensures reply.Ok? ==> forall b :: b in bookings && b.patientEmail == patientEmail.value ==> b in reply.body
    {
      var verdict := VerifyJwt(header, verify);
      match verdict
      case NoHeader => reply := Fail(Unauthorized401);
      case Rejected => reply := Fail(Forbidden403);
      case Verified(decodedEmail) =>
        match OwnBookings(bookings, patientEmail, decodedEmail)
        case Some(list) =>
          reply := Ok(list);
          assert forall i :: 0 <= i < |list| ==> list[i] in bookings;
        case None => reply := Fail(Forbidden403);
    }

    /** PUT /users/admin/:email behind verifyJwt and verifyAdmin. The store
        changes only for an authenticated administrator. */
    method PutAdmin(header: Option<string>, verify: string -> Option<string>, email: string)
      returns (reply: Reply<UpdateResult>)
      modifies this`users
      ensures AdminChain(old(users), header, verify).Some? ==>
        reply == Fail(AdminChain(old(users), header, verify).value) && users == old(users)
      ensures AdminChain(old(users), header, verify).None? ==>
        reply.Ok? && (reply.body, users) == Promote(old(users), email)
    {
      var verdict := VerifyJwt(header, verify);
      if verdict.NoHeader? {
        return Fail(Unauthorized401);
      }
      if verdict.Rejected? {
        return Fail(Forbidden403);
      }
      var gate := RoleGate(users, verdict.email);
      if gate.NoProfile? {
        return Fail(MissingProfile);
      }
      if gate.Denied? {
        return Fail(Forbidden403);
      }
      var (result, after) := Promote(users, email);
      users := after;
      reply := Ok(result);
    }

    /** GET /admin/:email. */
    method GetAdmin(email: string) returns (reply: Option<bool>)
      ensures reply == Some(true) <==> RoleGate(users, email) == Allowed
      ensures reply.None? <==> forall i :: 0 <= i < |users| ==> !HasEmail(users[i], email)
    {
      reply := AdminQuery(users, email);
      GateAgreesWithQuery(users, email);
    }

    /** PUT /users/:email: upsert the profile, then issue a token for the email
        with the signer `sign` (secret, claims and expiry belong to it). */
    method PutProfile(email: string, body: Doc, sign: string -> string) returns (reply: ProfileReply)
      modifies this`users
      ensures (reply.result, users) == Upsert(old(users), email, body)
      ensures reply.token == sign(email)
    {
      var (result, after) := Upsert(users, email, body);
      users := after;
      var token := sign(email);
      reply := ProfileReply(result, token);
    }
  }
}
