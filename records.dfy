/** The records the server keeps in its three collections. */
module Records {

  datatype Option<+T> = None | Some(value: T)

  /** A stored document's fields other than the ones named in its datatype:
      field name to value. Values are opaque strings. */
  type Doc = map<string, string>

  /** A booking as posted by a patient: the three fields that key it, the chosen
      slot, and whatever else the client sent. */
  datatype Booking = Booking(
    treatmentName: string,
    date: string,
    patientEmail: string,
    slot: string,
    extra: Doc)

  /** An appointment (treatment) with its configured slot labels, in order. */
  datatype Appointment = Appointment(name: string, slots: seq<string>, extra: Doc)

  /** The de-duplication key of a booking: treatment name, date and patient
      email. The slot is deliberately not part of it. */
  predicate SameKey(a: Booking, b: Booking)
  {
    a.treatmentName == b.treatmentName && a.date == b.date && a.patientEmail == b.patientEmail
  }
}
