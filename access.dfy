/** Authorisation decisions taken after the credential check: the
    administrator gate (verifyAdmin), the public admin query (GET
    /admin/:email) and the own-bookings check (GET /booking). */
module Access {
  import opened Records
  import opened Sequences
  import opened Users

  /** verifyAdmin's outcome: pass on, answer 403, or no profile for the
      requester (where the server dereferences a missing record). */
  datatype Gate = Allowed | Denied | NoProfile

  function RoleGate(users: seq<Doc>, requester: string): (r: Gate)
    ensures r.NoProfile? <==> forall i :: 0 <= i < |users| ==> !HasEmail(users[i], requester)
    ensures r.Allowed? ==> exists d :: d in users && HasEmail(d, requester) && IsAdmin(d)
    ensures r.Denied? ==> exists d :: d in users && HasEmail(d, requester) && !IsAdmin(d)
    ensures r.Allowed? <==> exists i :: 0 <= i < |users| && FirstWithEmail(users, requester, i) && IsAdmin(users[i])
    ensures r.Denied? <==> exists i :: 0 <= i < |users| && FirstWithEmail(users, requester, i) && !IsAdmin(users[i])
  {
    match FindUser(users, requester)
    case None => NoProfile
    case Some(i) => if IsAdmin(users[i]) then Allowed else Denied
  }

  /** GET /admin/:email: `{admin: role === "admin"}`, or None when the profile is missing. */
  function AdminQuery(users: seq<Doc>, email: string): (r: Option<bool>)
    ensures r.None? <==> forall i :: 0 <= i < |users| ==> !HasEmail(users[i], email)
    ensures r == Some(true) ==> exists d :: d in users && HasEmail(d, email) && IsAdmin(d)
    ensures r == Some(false) ==> exists d :: d in users && HasEmail(d, email) && !IsAdmin(d)
    ensures r == Some(true) <==> exists i :: 0 <= i < |users| && FirstWithEmail(users, email, i) && IsAdmin(users[i])
    ensures r == Some(false) <==> exists i :: 0 <= i < |users| && FirstWithEmail(users, email, i) && !IsAdmin(users[i])
  {
    match FindUser(users, email)
    case None => None
    case Some(i) => Some(IsAdmin(users[i]))
  }

  /** The gate and the query agree on every user and every store. */
  lemma GateAgreesWithQuery(users: seq<Doc>, email: string)
    ensures RoleGate(users, email) == Allowed <==> AdminQuery(users, email) == Some(true)
    ensures RoleGate(users, email) == Denied <==> AdminQuery(users, email) == Some(false)
  {
  }

  /** With one profile per email, the gate passes exactly for a profile whose
      role is "admin", and refuses exactly a profile whose role is anything else
      or absent. */
  lemma GateDecidedByRole(users: seq<Doc>, email: string)
    requires UniqueEmails(users)
    ensures RoleGate(users, email) == Allowed <==> exists d :: d in users && HasEmail(d, email) && IsAdmin(d)
    ensures RoleGate(users, email) == Denied <==> exists d :: d in users && HasEmail(d, email) && !IsAdmin(d)
  {
  }

  /** After a promotion of an existing profile, that user passes the gate. */
  lemma PromotedPassesGate(users: seq<Doc>, email: string)
    requires exists d :: d in users && HasEmail(d, email)
    ensures RoleGate(Promote(users, email).1, email) == Allowed
    ensures AdminQuery(Promote(users, email).1, email) == Some(true)
  {
    PromoteGrantsAdmin(users, email);
  }

  /** GET /booking?patientEmail: the requester's bookings in collection order,
      but only when the requested email is present and equals the verified one;
      None is the 403 answer. */
  function OwnBookings(bookings: seq<Booking>, requested: Option<string>, verified: string): (r: Option<seq<Booking>>)
    ensures r.Some? <==> requested == Some(verified)
    ensures r.Some? ==> forall i :: 0 <= i < |r.value| ==> r.value[i].patientEmail == verified
    ensures r.Some? ==> forall b :: b in bookings && b.patientEmail == verified ==> b in r.value
  {
    if requested == Some(verified) then Some(Filter(bookings, (b: Booking) => b.patientEmail == verified))
    else None
  }

  /** The listing keeps the collection's order and every copy of each own booking. */
  lemma OwnBookingsInOrder(bookings: seq<Booking>, verified: string, b: Booking)
    ensures
      var r := OwnBookings(bookings, Some(verified), verified).value;
      Subsequence(r, bookings) &&
      multiset(r)[b] == if b.patientEmail == verified then multiset(bookings)[b] else 0
  {
    FilterIsSubsequence(bookings, (x: Booking) => x.patientEmail == verified);
    FilterCount(bookings, (x: Booking) => x.patientEmail == verified, b);
  }
}
