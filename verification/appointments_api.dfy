/** The booking route: POST stores the submitted booking as a pending
    appointment, with no validation of its own; every other method is
    refused. Whether the datastore accepts the write is outside the route,
    so it arrives as `stored`. */
module AppointmentsApi {
  import opened Common
  import Database
  import Http
  import Seqs

  /** The ten fields the route reads from the JSON body. */
  datatype BookingBody = BookingBody(
    firstName: string,
    lastName: string,
    email: string,
    phone: string,
    dateOfBirth: Option<string>,
    address: Option<string>,
    service: string,
    preferredDate: string,
    preferredTime: string,
    notes: Option<string>)

  /** The status a new booking is written with. */
  const PendingStatus := "pending"

  /** The only error text a failed write shows the client. */
  const CreateFailedMessage := "Failed to create appointment"

  /** The record the route asks the datastore to create: the body's fields
      written onto the appointment itself, with the pending status. */
  function Record(body: BookingBody, next: Database.Fresh): Database.Appointment
  {
    Database.Appointment(next.id,
      Database.Inline(Database.Contact(body.firstName, body.lastName, body.email, body.phone,
        body.dateOfBirth, body.address)),
      body.service, body.preferredDate, body.preferredTime, body.notes,
      PendingStatus, None, None, None, next.now)
  }

  /** The route handler: the response and the store after the request. */
  function Handle(httpMethod: string, body: BookingBody, s: Database.Store, next: Database.Fresh, stored: bool)
    : (r: (Http.Response, Database.Store))
    ensures httpMethod == "POST" && stored ==> r.0.status == Http.StatusCreated && r.0.body.AppointmentJson?
    ensures httpMethod == "POST" && stored ==> r.1.appointments == s.appointments + [r.0.body.appointment]
    ensures httpMethod == "POST" && stored ==> r.0.body.appointment.status == "pending"
    ensures httpMethod == "POST" && !stored ==>
      r.0 == Http.Response(Http.StatusServerError, Http.ErrorJson("Failed to create appointment")) && r.1 == s
    ensures httpMethod != "POST" ==> r.0 == Http.Response(Http.StatusMethodNotAllowed, Http.Empty) && r.1 == s
    ensures r.1.patients == s.patients && r.1.services == s.services && r.1.reviews == s.reviews
  {
    if httpMethod == "POST" then
      if stored then
        var a := Record(body, next);
        (Http.Response(Http.StatusCreated, Http.AppointmentJson(a)), s.(appointments := s.appointments + [a]))
      else
        (Http.Response(Http.StatusServerError, Http.ErrorJson(CreateFailedMessage)), s)
    else
      (Http.Response(Http.StatusMethodNotAllowed, Http.Empty), s)
  }

  /** The created appointment carries the ten body fields unchanged, however
      short or empty they are: the route itself validates nothing. */
  lemma CreatedCarriesBodyVerbatim(body: BookingBody, s: Database.Store, next: Database.Fresh)
    ensures var a := Handle("POST", body, s, next, true).0.body.appointment;
      && a.owner == Database.Inline(Database.Contact(body.firstName, body.lastName, body.email,
           body.phone, body.dateOfBirth, body.address))
      && a.service == body.service && a.preferredDate == body.preferredDate
      && a.preferredTime == body.preferredTime && a.notes == body.notes
      && a.id == next.id && a.createdAt == next.now
      && a.actualDate.None? && a.actualTime.None? && a.googleEventId.None?
  {
  }

  /** A failed write answers the same fixed error whatever the request. */
  lemma FailureHidesDetail(b1: BookingBody, b2: BookingBody, s1: Database.Store, s2: Database.Store,
                           n1: Database.Fresh, n2: Database.Fresh)
    ensures Handle("POST", b1, s1, n1, false).0 == Handle("POST", b2, s2, n2, false).0
  {
  }

  /** A created booking is found again by its id, with no linked patient,
      when the id was not in use. */
  lemma CreatedBookingIsFound(body: BookingBody, s: Database.Store, next: Database.Fresh)
    requires forall a :: a in s.appointments ==> a.id != next.id
    ensures var (response, s1) := Handle("POST", body, s, next, true);
      Database.AppointmentById(s1, next.id) == Some(Database.AppointmentView(response.body.appointment, None))
  {
    Seqs.FindAppend(s.appointments, Record(body, next), Database.AppointmentWithId(next.id));
  }
}
