/** GET /available: for a date, each appointment's slots minus the ones its
    bookings of that day already hold. */
module Availability {
  import opened Records
  import opened Sequences

  /** `find({date})` on the booking collection: the day's bookings, in
      collection order. A date is compared as a literal string. */
  function BookingsOn(bookings: seq<Booking>, date: string): (r: seq<Booking>)
    ensures forall b :: b in r <==> b in bookings && b.date == date
  {
    Filter(bookings, (b: Booking) => b.date == date)
  }

  /** Step 4: the day's bookings for one appointment, matched by name. */
  function BookingsFor(day: seq<Booking>, name: string): (r: seq<Booking>)
    ensures forall b :: b in r <==> b in day && b.treatmentName == name
  {
    Filter(day, (b: Booking) => b.treatmentName == name)
  }

  /** Step 5: the slots those bookings hold (`map(book => book.slot)`). */
  function SlotsOf(bookings: seq<Booking>): (r: seq<string>)
    ensures |r| == |bookings|
    ensures forall i :: 0 <= i < |r| ==> r[i] == bookings[i].slot
    ensures forall x :: x in r <==> exists b :: b in bookings && b.slot == x
  {
    if bookings == [] then []
    else [bookings[0].slot] + SlotsOf(bookings[1..])
  }

  /** Step 6: the configured slots that are not booked, in configured order. */
  function FreeSlots(slots: seq<string>, booked: seq<string>): (r: seq<string>)
    ensures forall x :: x in r <==> x in slots && x !in booked
  {
    Filter(slots, (x: string) => x !in booked)
  }

  /** Steps 4-7 for one appointment: the same appointment with its slots replaced. */
  function Restrict(appointment: Appointment, day: seq<Booking>): (r: Appointment)
    ensures r.name == appointment.name && r.extra == appointment.extra
    ensures forall x :: x in r.slots <==>
      x in appointment.slots && !exists b :: b in day && b.treatmentName == appointment.name && b.slot == x
  {
    appointment.(slots := FreeSlots(appointment.slots, SlotsOf(BookingsFor(day, appointment.name))))
  }

  /** The whole reply: every loaded appointment, in order, restricted. */
  function AvailableView(appointments: seq<Appointment>, day: seq<Booking>): (r: seq<Appointment>)
    ensures |r| == |appointments|
    ensures forall i :: 0 <= i < |r| ==> r[i].name == appointments[i].name && r[i].extra == appointments[i].extra
  {
    seq(|appointments|, i requires 0 <= i < |appointments| => Restrict(appointments[i], day))
  }

  /** The forEach loop of the handler: overwrite each appointment's slots in place. */
  method RestrictAll(appointments: array<Appointment>, day: seq<Booking>)
    modifies appointments
    ensures appointments[..] == AvailableView(old(appointments[..]), day)
  {
    var i := 0;
    while i < appointments.Length
      invariant 0 <= i <= appointments.Length
      invariant forall k :: 0 <= k < i ==> appointments[k] == Restrict(old(appointments[k]), day)
      invariant forall k :: i <= k < appointments.Length ==> appointments[k] == old(appointments[k])
    {
      var appointment := appointments[i];
      var appointmentBookings := BookingsFor(day, appointment.name);
      var bookedSlots := SlotsOf(appointmentBookings);
      var available := FreeSlots(appointment.slots, bookedSlots);
      assert appointment.(slots := available) == Restrict(appointment, day);
      appointments[i] := appointment.(slots := available);
      i := i + 1;
    }
    assert forall k :: 0 <= k < appointments.Length ==>
      appointments[..][k] == AvailableView(old(appointments[..]), day)[k];
  }

  /** A slot is offered exactly when it is configured and no booking of that
      date for that treatment holds it. */
  lemma AvailableExactly(appointment: Appointment, bookings: seq<Booking>, date: string, x: string)
    ensures x in Restrict(appointment, BookingsOn(bookings, date)).slots <==>
      x in appointment.slots &&
      !exists b :: b in bookings && b.date == date && b.treatmentName == appointment.name && b.slot == x
  {
  }

  /** A configured slot that is offered is offered as often as it is configured. */
  lemma AvailableKeepsRepeats(appointment: Appointment, day: seq<Booking>, x: string)
    ensures multiset(Restrict(appointment, day).slots)[x] ==
      if x in SlotsOf(BookingsFor(day, appointment.name)) then 0 else multiset(appointment.slots)[x]
  {
    FilterCount(appointment.slots, (y: string) => y !in SlotsOf(BookingsFor(day, appointment.name)), x);
  }

  /** The reply lists the same appointments in the same order; only their
      slots change, and each new slot list is a subsequence of the old one. */
  lemma AvailableShape(appointments: seq<Appointment>, day: seq<Booking>)
    ensures |AvailableView(appointments, day)| == |appointments|
    ensures forall i :: 0 <= i < |appointments| ==>
      var v := AvailableView(appointments, day)[i];
      v.name == appointments[i].name && v.extra == appointments[i].extra &&
      Subsequence(v.slots, appointments[i].slots)
  {
    forall i | 0 <= i < |appointments|
      ensures Subsequence(AvailableView(appointments, day)[i].slots, appointments[i].slots)
    {
      var a := appointments[i];
      FilterIsSubsequence(a.slots, (x: string) => x !in SlotsOf(BookingsFor(day, a.name)));
    }
  }

  /** An appointment none of whose name's bookings fall on the date keeps all its slots. */
  lemma UnbookedKeepsAll(appointment: Appointment, bookings: seq<Booking>, date: string)
    requires forall b :: b in bookings && b.date == date ==> b.treatmentName != appointment.name
    ensures Restrict(appointment, BookingsOn(bookings, date)) == appointment
  {
    var day := BookingsOn(bookings, date);
    var mine := BookingsFor(day, appointment.name);
    FilterKeepsAll(appointment.slots, (x: string) => x !in SlotsOf(mine));
  }

  /** A date with no bookings leaves every appointment fully available. */
  lemma NoBookingsFullAvailability(appointments: seq<Appointment>, bookings: seq<Booking>, date: string)
    requires forall b :: b in bookings ==> b.date != date
    ensures AvailableView(appointments, BookingsOn(bookings, date)) == appointments
  {
    var view := AvailableView(appointments, BookingsOn(bookings, date));
    forall i | 0 <= i < |appointments| ensures view[i] == appointments[i] {
      UnbookedKeepsAll(appointments[i], bookings, date);
    }
  }

  /** The reply is the only one that keeps, per appointment, all occurrences of
      the unbooked slots and none of the booked ones, in configured order. */
  lemma AvailableCharacterised(appointment: Appointment, day: seq<Booking>, slots: seq<string>)
    requires Subsequence(slots, appointment.slots)
    requires forall x ::
      multiset(slots)[x] == if x in SlotsOf(BookingsFor(day, appointment.name)) then 0 else multiset(appointment.slots)[x]
    ensures Restrict(appointment, day).slots == slots
  {
    FilterUnique(slots, appointment.slots, (y: string) => y !in SlotsOf(BookingsFor(day, appointment.name)));
  }

  /** The worked example: "Cleaning" at 9am/10am/11am with one 10am booking on
      2024-01-01 offers 9am and 11am that day. */
  lemma CleaningExample()
    ensures
      var cleaning := Appointment("Cleaning", ["9am", "10am", "11am"], map[]);
      var booking := Booking("Cleaning", "2024-01-01", "a@x.com", "10am", map[]);
      AvailableView([cleaning], BookingsOn([booking], "2024-01-01")) ==
        [cleaning.(slots := ["9am", "11am"])]
  {
    var cleaning := Appointment("Cleaning", ["9am", "10am", "11am"], map[]);
    var booking := Booking("Cleaning", "2024-01-01", "a@x.com", "10am", map[]);
    assert BookingsOn([booking], "2024-01-01") == [booking];
    assert BookingsFor([booking], "Cleaning") == [booking];
    assert SlotsOf([booking]) == ["10am"];
    assert "9am" != "10am" && "11am" != "10am";
    assert FreeSlots(["9am", "10am", "11am"], ["10am"]) == ["9am", "11am"];
  }
}
