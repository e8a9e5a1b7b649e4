/** POST /booking: look the candidate up by its key and insert it only when no
    stored booking has that key. */
module Admission {
  import opened Records
  import opened Sequences

  /** The reply: `success:false` with the stored booking, or `success:true`
      with the identifier of the inserted one (its position in the collection). */
  datatype Admission = Duplicate(existing: Booking) | Created(insertedId: nat)

  /** `findOne({treatmentName, date, patientEmail})`: first stored booking with the candidate's key. */
  function FindKey(bookings: seq<Booking>, candidate: Booking): (r: Option<nat>)
    ensures r.Some? ==> FirstWithKey(bookings, candidate, r.value)
    ensures r.None? ==> forall b :: b in bookings ==> !SameKey(b, candidate)
  {
    FindFirst(bookings, (b: Booking) => SameKey(b, candidate))
  }

  /** No two stored bookings share a key. */
  predicate UniqueKeys(bookings: seq<Booking>)
  {
    forall i, j :: 0 <= i < j < |bookings| ==> !SameKey(bookings[i], bookings[j])
  }

  /** Position `i` holds the first stored booking with the candidate's key. */
  predicate FirstWithKey(bookings: seq<Booking>, candidate: Booking, i: nat)
  {
    i < |bookings| && SameKey(bookings[i], candidate) &&
    forall j :: 0 <= j < i ==> !SameKey(bookings[j], candidate)
  }

  /** The reply and the collection after one admission request. */
  function Admit(bookings: seq<Booking>, candidate: Booking): (res: (Admission, seq<Booking>))
    ensures res.0.Duplicate? <==> exists b :: b in bookings && SameKey(b, candidate)
    ensures res.0.Duplicate? ==> res.1 == bookings
    ensures res.0.Duplicate? ==>
      exists i :: 0 <= i < |bookings| && bookings[i] == res.0.existing && FirstWithKey(bookings, candidate, i)
    ensures res.0.Created? ==> res.1 == bookings + [candidate] && res.0.insertedId == |bookings|
  {
    match FindKey(bookings, candidate)
    case Some(i) => (Duplicate(bookings[i]), bookings)
    case None => (Created(|bookings|), bookings + [candidate])
  }

  /** Admission never lets a second booking with a stored key in. */
  lemma AdmitKeepsKeysUnique(bookings: seq<Booking>, candidate: Booking)
    requires UniqueKeys(bookings)
    ensures UniqueKeys(Admit(bookings, candidate).1)
  {
  }

  /** With unique keys, a duplicate reply returns the one stored booking with the key. */
  lemma DuplicateIsTheStoredOne(bookings: seq<Booking>, stored: Booking, candidate: Booking)
    requires UniqueKeys(bookings)
    requires stored in bookings && SameKey(stored, candidate)
    ensures Admit(bookings, candidate) == (Duplicate(stored), bookings)
  {
  }

  /** After any admission, a request with the same key (whatever its slot) is a
      duplicate: it is answered with the first stored booking with that key (the
      one just inserted, if the first request was created) and inserts nothing. */
  lemma SecondRequestRejected(bookings: seq<Booking>, first: Booking, second: Booking)
    requires SameKey(first, second)
    ensures
      var (reply, after) := Admit(bookings, first);
      Admit(after, second) ==
        (Duplicate(if reply.Created? then first else reply.existing), after)
  {
  }

  /** The worked example: a second "Cleaning" request for the same patient and
      day, at 11am, is answered with the stored 10am booking. */
  lemma CleaningRebookExample()
    ensures
      var stored := Booking("Cleaning", "2024-01-01", "a@x.com", "10am", map[]);
      var request := Booking("Cleaning", "2024-01-01", "a@x.com", "11am", map[]);
      Admit([stored], request) == (Duplicate(stored), [stored])
  {
  }
}
