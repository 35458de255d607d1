/** The client side of the live notification channel: which room a client
    joins on connect, which server events become a notification for which
    client, what each notification says, and the most-recent-first list of
    notifications with add, dismiss, timed expiry and clear-all.

    The provider is a pure transition `Step(client, list, input)`. The
    8-second timer becomes an explicit `Expire(id)` input, the `Date.now()`
    id and the timestamp are carried by the `Deliver` input, and date
    formatting (`toLocaleDateString`) is the client's `formatDate`. */
module Notifications {
  import opened Common
  import Seqs

  /** The notification `type`. */
  datatype Severity = Success | Info | Warning | Error

  /** The `patient` object some payloads carry. */
  datatype PatientRef = PatientRef(firstName: string, lastName: string, email: string)

  /** An appointment event payload. Fields the server may leave out are
      `Option`s; the status is kept as the literal string it arrives as. */
  datatype Payload = Payload(
    id: string,
    status: string,
    actualDate: Option<string>,
    actualTime: Option<string>,
    patientId: Option<string>,
    service: string,
    patient: Option<PatientRef>)

  /** A notification as held in the client's list. */
  datatype Notification = Notification(
    id: string,
    severity: Severity,
    title: string,
    message: string,
    timestamp: int,
    data: Payload)

  /** A notification before it is given an id and a timestamp. */
  datatype Draft = Draft(severity: Severity, title: string, message: string, data: Payload)

  datatype Role = Patient | Dentist

  /** The provider's props; `userRole` defaults to the patient role. */
  datatype Client = Client(role: Role, patientId: Option<string>, formatDate: string -> string)

  datatype Room = DentistRoom | PatientRoom(patientId: string)

  /** The four events the server pushes. */
  datatype ServerEvent =
    | NewAppointment(data: Payload)
    | AppointmentUpdated(data: Payload)
    | AppointmentStatusChanged(data: Payload)
    | AppointmentApproved(data: Payload)

  /** Everything that changes the notification list: a server event
      delivered under a fresh id at a time, a manual dismissal, the expiry
      timer of a notification firing, and clear-all. */
  datatype Input =
    | Deliver(event: ServerEvent, id: string, at: int)
    | Dismiss(id: string)
    | Expire(id: string)
    | ClearAll

  // ---------------------------------------------------------------------
  // Room membership

  /** The room the client asks to join once connected, if any. A dentist
      joins the dentist room; a patient joins their own room only when their
      id is truthy (defined and non-empty). */
  function JoinOnConnect(c: Client): (r: Option<Room>)
    ensures r == Some(DentistRoom) <==> c.role == Dentist
    ensures c.role == Patient ==> (r.Some? <==> Truthy(c.patientId))
    ensures r.Some? && r.value.PatientRoom? ==> c.patientId == Some(r.value.patientId)
  {
    if c.role == Dentist then Some(DentistRoom)
    else if Truthy(c.patientId) then Some(PatientRoom(c.patientId.value))
    else None
  }

  // ---------------------------------------------------------------------
  // The notification list

  /** Prepends a new notification built from `d`. */
  function AddNotification(list: seq<Notification>, d: Draft, id: string, at: int): (r: seq<Notification>)
    ensures |r| == |list| + 1
    ensures r[1..] == list
    ensures r[0].id == id && r[0].timestamp == at
    ensures r[0].severity == d.severity && r[0].title == d.title
    ensures r[0].message == d.message && r[0].data == d.data
  {
    [Notification(id, d.severity, d.title, d.message, at, d.data)] + list
  }

  /** Keeps every notification whose id is not `id`; used both for a manual
      dismissal and for the expiry timer. */
  function ClearNotification(list: seq<Notification>, id: string): (r: seq<Notification>)
    ensures forall i :: 0 <= i < |r| ==> r[i].id != id
    ensures forall n :: n in list && n.id != id ==> n in r
    ensures forall n :: n in r ==> n in list
    ensures Seqs.SubsequenceOf(r, list)
    ensures (forall i :: 0 <= i < |list| ==> list[i].id != id) ==> r == list
    ensures forall n :: multiset(r)[n] == if n.id != id then multiset(list)[n] else 0
  {
    var keep := (n: Notification) => n.id != id;
    Seqs.FilterIsSubsequence(list, keep);
    Seqs.FilterMultiset(list, keep);
    Seqs.Filter(list, keep)
  }

  function ClearAllNotifications(list: seq<Notification>): (r: seq<Notification>)
    ensures r == []
  {
    []
  }

  // ---------------------------------------------------------------------
  // Event handlers

  /** The word the dentist's update message uses for a status; any status
      outside the table reads "updated". */
  function UpdatedWord(status: string): string
  {
    if status == "APPROVED" then "approved"
    else if status == "RESCHEDULED" then "rescheduled"
    else if status == "CANCELLED" then "cancelled"
    else if status == "COMPLETED" then "completed"
    else "updated"
  }

  /** The statuses the patient's status-change table has an entry for. */
  predicate InPatientTable(status: string)
  {
    status == "APPROVED" || status == "RESCHEDULED" || status == "CANCELLED" || status == "COMPLETED"
  }

  /** The actual date formatted by the client when truthy, else `fallback`. */
  function DateText(c: Client, date: Option<string>, fallback: string): string
  {
    if Truthy(date) then c.formatDate(date.value) else fallback
  }

  /** `new-appointment`: only a dentist is notified. Reading the name of a
      payload without a `patient` throws, so nothing is added then. */
  function OnNewAppointment(c: Client, p: Payload): (r: Option<Draft>)
    ensures r.Some? <==> c.role == Dentist && p.patient.Some?
    ensures r.Some? ==> r.value.severity == Info && r.value.title == "New Appointment Request"
    ensures r.Some? ==> r.value.data == p
  {
    if c.role != Dentist then None
    else match p.patient
      case None => None
      case Some(who) =>
        Some(Draft(Info, "New Appointment Request",
          who.firstName + " " + who.lastName + " has requested a " + p.service + " appointment.", p))
  }

  /** `appointment-updated`: only a dentist is notified, with `success`
      exactly for an approval and `info` otherwise. */
  function OnAppointmentUpdated(c: Client, p: Payload): (r: Option<Draft>)
    ensures r.Some? <==> c.role == Dentist
    ensures r.Some? ==> (r.value.severity == Success <==> p.status == "APPROVED")
    ensures r.Some? ==> r.value.severity == Success || r.value.severity == Info
    ensures r.Some? ==> r.value.title == "Appointment Updated" && r.value.data == p
  {
    if c.role != Dentist then None
    else
      var first := if p.patient.Some? then Some(p.patient.value.firstName) else None;
      var last := if p.patient.Some? then Some(p.patient.value.lastName) else None;
      Some(Draft(if p.status == "APPROVED" then Success else Info,
        "Appointment Updated",
        "Appointment for " + Show(first) + " " + Show(last) + " has been " + UpdatedWord(p.status) + ".",
        p))
  }

  /** `appointment-status-changed`: only the patient whose id equals the
      payload's is notified, and only for a status in the table. */
  function OnStatusChanged(c: Client, p: Payload): (r: Option<Draft>)
    ensures r.Some? <==> c.role == Patient && p.patientId == c.patientId && InPatientTable(p.status)
    ensures r.Some? && p.status == "APPROVED" ==> r.value.severity == Success
    ensures r.Some? && p.status == "RESCHEDULED" ==> r.value.severity == Warning
    ensures r.Some? && p.status == "CANCELLED" ==> r.value.severity == Error
    ensures r.Some? && p.status == "COMPLETED" ==> r.value.severity == Success
    ensures r.Some? && p.status == "APPROVED" ==> r.value.title == "Appointment Confirmed!"
    ensures r.Some? && p.status == "RESCHEDULED" ==> r.value.title == "Appointment Rescheduled"
    ensures r.Some? && p.status == "CANCELLED" ==>
      r.value.title == "Appointment Cancelled"
      && r.value.message == "Your appointment has been cancelled. Please contact us to reschedule."
    ensures r.Some? && p.status == "COMPLETED" ==>
      r.value.title == "Appointment Completed"
      && r.value.message == "Your appointment has been completed. Thank you for visiting us!"
    ensures r.Some? ==> r.value.data == p
  {
    if c.role != Patient || p.patientId != c.patientId then None
    else if p.status == "APPROVED" then
      Some(Draft(Success, "Appointment Confirmed!",
        "Your appointment has been approved for " + DateText(c, p.actualDate, "the requested date")
        + " at " + OrElse(p.actualTime, "the requested time") + ".", p))
    else if p.status == "RESCHEDULED" then
      Some(Draft(Warning, "Appointment Rescheduled",
        "Your appointment has been rescheduled to " + DateText(c, p.actualDate, "a new date")
        + " at " + OrElse(p.actualTime, "a new time") + ".", p))
    else if p.status == "CANCELLED" then
      Some(Draft(Error, "Appointment Cancelled",
        "Your appointment has been cancelled. Please contact us to reschedule.", p))
    else if p.status == "COMPLETED" then
      Some(Draft(Success, "Appointment Completed",
        "Your appointment has been completed. Thank you for visiting us!", p))
    else None
  }

  /** `appointment-approved`: only the patient whose id equals the
      payload's is notified. */
  function OnAppointmentApproved(c: Client, p: Payload): (r: Option<Draft>)
    ensures r.Some? <==> c.role == Patient && p.patientId == c.patientId
    ensures r.Some? ==> r.value.severity == Success && r.value.title == "Appointment Confirmed!"
    ensures r.Some? ==> r.value.data == p
  {
    if c.role == Patient && p.patientId == c.patientId then
      Some(Draft(Success, "Appointment Confirmed!",
        "Your " + p.service + " appointment has been confirmed.", p))
    else None
  }

  /** The notification, if any, that a server event produces for `c`: the
      two staff events reach only dentists, the two patient events only the
      patient the payload names, and the notification carries the payload. */
  function Reaction(c: Client, e: ServerEvent): (r: Option<Draft>)
    ensures r.Some? ==> r.value.data == e.data
    ensures r.Some? && (e.NewAppointment? || e.AppointmentUpdated?) ==> c.role == Dentist
    ensures r.Some? && (e.AppointmentStatusChanged? || e.AppointmentApproved?) ==>
      c.role == Patient && c.patientId == e.data.patientId
  {
    match e
    case NewAppointment(p) => OnNewAppointment(c, p)
    case AppointmentUpdated(p) => OnAppointmentUpdated(c, p)
    case AppointmentStatusChanged(p) => OnStatusChanged(c, p)
    case AppointmentApproved(p) => OnAppointmentApproved(c, p)
  }

  // ---------------------------------------------------------------------
  // The provider as a state machine

  /** One transition of the client's notification list. */
  function Step(c: Client, list: seq<Notification>, input: Input): (r: seq<Notification>)
    ensures input.ClearAll? ==> r == []
    ensures input.Dismiss? || input.Expire? ==>
      (forall i :: 0 <= i < |r| ==> r[i].id != input.id) && Seqs.SubsequenceOf(r, list)
    ensures input.Dismiss? || input.Expire? ==>
      forall n :: multiset(r)[n] == if n.id != input.id then multiset(list)[n] else 0
    ensures input.Deliver? && Reaction(c, input.event).None? ==> r == list
    ensures input.Deliver? && Reaction(c, input.event).Some? ==>
      |r| == |list| + 1 && r[1..] == list && r[0].id == input.id && r[0].timestamp == input.at
    ensures input.Deliver? && Reaction(c, input.event).Some? ==>
      var d := Reaction(c, input.event).value;
      && r[0].severity == d.severity && r[0].title == d.title
      && r[0].message == d.message && r[0].data == d.data
  {
    match input
    case Deliver(e, id, at) =>
      (match Reaction(c, e)
       case None => list
       case Some(d) => AddNotification(list, d, id, at))
    case Dismiss(id) => ClearNotification(list, id)
    case Expire(id) => ClearNotification(list, id)
    case ClearAll => ClearAllNotifications(list)
  }

  /** Runs a sequence of inputs from `list`. */
  function Run(c: Client, list: seq<Notification>, inputs: seq<Input>): seq<Notification>
    decreases |inputs|
  {
    if |inputs| == 0 then list else Run(c, Step(c, list, inputs[0]), inputs[1..])
  }

  // ---------------------------------------------------------------------
  // Properties

  /** The expiry timer of a notification removes exactly what the add put
      in, together with any older notification sharing its id. */
  lemma ExpireUndoesAdd(list: seq<Notification>, d: Draft, id: string, at: int)
    ensures ClearNotification(AddNotification(list, d, id, at), id) == ClearNotification(list, id)
  {
    var keep := (n: Notification) => n.id != id;
    var added := AddNotification(list, d, id, at);
    assert added == [added[0]] + list;
    Seqs.FilterConcat([added[0]], list, keep);
  }

  /** When no held notification shares the new id, delivering an event and
      then letting its timer fire restores the list exactly. */
  lemma DeliverThenExpire(c: Client, list: seq<Notification>, e: ServerEvent, id: string, at: int)
    requires forall i :: 0 <= i < |list| ==> list[i].id != id
    ensures Run(c, list, [Deliver(e, id, at), Expire(id)]) == list
  {
    var once := Step(c, list, Deliver(e, id, at));
    assert Run(c, list, [Deliver(e, id, at), Expire(id)]) == Step(c, once, Expire(id)) by {
      assert [Deliver(e, id, at), Expire(id)][1..] == [Expire(id)];
      assert Run(c, once, [Expire(id)]) == Run(c, Step(c, once, Expire(id)), []);
    }
    match Reaction(c, e)
    case None =>
    case Some(d) =>
      ExpireUndoesAdd(list, d, id, at);
  }

  /** Ids come from the clock and may collide: the timer of a new
      notification also removes an older one that has the same id. */
  lemma ExpireRemovesCollidingOlder(c: Client, list: seq<Notification>, e: ServerEvent, id: string, at: int, k: nat)
    requires k < |list| && list[k].id == id
    ensures list[k] !in Run(c, list, [Deliver(e, id, at), Expire(id)])
  {
    var once := Step(c, list, Deliver(e, id, at));
    assert [Deliver(e, id, at), Expire(id)][1..] == [Expire(id)];
    assert Run(c, once, [Expire(id)]) == Run(c, Step(c, once, Expire(id)), []);
  }

  /** Dismissing the same id twice is the same as dismissing it once. */
  lemma ClearNotificationIdempotent(list: seq<Notification>, id: string)
    ensures ClearNotification(ClearNotification(list, id), id) == ClearNotification(list, id)
  {
  }

  /** Dismissals of two ids commute. */
  lemma ClearNotificationCommutes(list: seq<Notification>, a: string, b: string)
    ensures ClearNotification(ClearNotification(list, a), b) == ClearNotification(ClearNotification(list, b), a)
  {
    Seqs.FilterCommutes(list, (n: Notification) => n.id != a, (n: Notification) => n.id != b);
  }

  /** Running inputs one after another composes. */
  lemma {:induction false} RunConcat(c: Client, list: seq<Notification>, xs: seq<Input>, ys: seq<Input>)
    ensures Run(c, list, xs + ys) == Run(c, Run(c, list, xs), ys)
    decreases |xs|
  {
    if |xs| == 0 {
      assert xs + ys == ys;
    } else {
      assert (xs + ys)[0] == xs[0];
      assert (xs + ys)[1..] == xs[1..] + ys;
      RunConcat(c, Step(c, list, xs[0]), xs[1..], ys);
    }
  }

  /** Clear-all empties the list whatever happened before it. */
  lemma ClearAllAfterAnyHistory(c: Client, list: seq<Notification>, history: seq<Input>)
    ensures Run(c, list, history + [ClearAll]) == []
  {
    RunConcat(c, list, history, [ClearAll]);
    var before := Run(c, list, history);
    assert Run(c, before, [ClearAll]) == Run(c, Step(c, before, ClearAll), []);
  }

  /** Dentist events reach only dentists and patient events only patients. */
  lemma AudienceByRole(c: Client, e: ServerEvent)
    ensures Reaction(c, e).Some? && (e.NewAppointment? || e.AppointmentUpdated?) ==> c.role == Dentist
    ensures Reaction(c, e).Some? && (e.AppointmentStatusChanged? || e.AppointmentApproved?) ==> c.role == Patient
    ensures e.AppointmentUpdated? ==> (Reaction(c, e).Some? <==> c.role == Dentist)
  {
  }

  /** A status transition on an appointment: the dentist is told through
      `appointment-updated`, the owning patient through the two patient
      events, and a patient with a different id through neither. */
  lemma StatusTransitionRouting(staff: Client, owner: Client, other: Client, p: Payload)
    requires staff.role == Dentist
    requires owner.role == Patient && owner.patientId == p.patientId
    requires other.role == Patient && other.patientId != p.patientId
    ensures Reaction(staff, AppointmentUpdated(p)).Some?
    ensures Reaction(staff, AppointmentStatusChanged(p)).None?
    ensures Reaction(staff, AppointmentApproved(p)).None?
    ensures Reaction(owner, AppointmentStatusChanged(p)).Some? <==> InPatientTable(p.status)
    ensures Reaction(owner, AppointmentApproved(p)).Some?
    ensures Reaction(owner, AppointmentUpdated(p)).None?
    ensures Reaction(other, AppointmentStatusChanged(p)).None?
    ensures Reaction(other, AppointmentApproved(p)).None?
    ensures Reaction(other, AppointmentUpdated(p)).None?
  {
  }

  /** An approval names the formatted actual date when it is truthy and
      "the requested date" otherwise, and the actual time when it is truthy
      and "the requested time" otherwise; each falls back on its own. */
  lemma ApprovedFallback(c: Client, p: Payload)
    requires c.role == Patient && p.patientId == c.patientId && p.status == "APPROVED"
    ensures !Truthy(p.actualDate) ==>
      OnStatusChanged(c, p).value.message == "Your appointment has been approved for " + "the requested date" + " at " + OrElse(p.actualTime, "the requested time") + "."
    ensures !Truthy(p.actualTime) ==>
      OnStatusChanged(c, p).value.message == "Your appointment has been approved for " + DateText(c, p.actualDate, "the requested date") + " at " + "the requested time" + "."
    ensures Truthy(p.actualDate) && Truthy(p.actualTime) ==>
      OnStatusChanged(c, p).value.message == "Your appointment has been approved for " + c.formatDate(p.actualDate.value) + " at " + p.actualTime.value + "."
  {
    if !Truthy(p.actualDate) {
      assert DateText(c, p.actualDate, "the requested date") == "the requested date";
    }
    if !Truthy(p.actualTime) {
      assert OrElse(p.actualTime, "the requested time") == "the requested time";
    }
  }

  /** A reschedule names the formatted actual date when it is truthy and
      "a new date" otherwise, and the actual time when it is truthy and "a
      new time" otherwise; each falls back on its own. */
  lemma RescheduledFallback(c: Client, p: Payload)
    requires c.role == Patient && p.patientId == c.patientId && p.status == "RESCHEDULED"
    ensures !Truthy(p.actualDate) ==>
      OnStatusChanged(c, p).value.message == "Your appointment has been rescheduled to " + "a new date" + " at " + OrElse(p.actualTime, "a new time") + "."
    ensures !Truthy(p.actualTime) ==>
      OnStatusChanged(c, p).value.message == "Your appointment has been rescheduled to " + DateText(c, p.actualDate, "a new date") + " at " + "a new time" + "."
    ensures Truthy(p.actualDate) && Truthy(p.actualTime) ==>
      OnStatusChanged(c, p).value.message == "Your appointment has been rescheduled to " + c.formatDate(p.actualDate.value) + " at " + p.actualTime.value + "."
  {
    if !Truthy(p.actualDate) {
      assert DateText(c, p.actualDate, "a new date") == "a new date";
    }
    if !Truthy(p.actualTime) {
      assert OrElse(p.actualTime, "a new time") == "a new time";
    }
  }

  /** A dentist's update for a status outside the table says "updated". */
  lemma UpdatedOutsideTable(c: Client, p: Payload, first: string, last: string)
    requires c.role == Dentist && !InPatientTable(p.status)
    requires p.patient.Some? && p.patient.value.firstName == first && p.patient.value.lastName == last
    ensures OnAppointmentUpdated(c, p) == Some(Draft(Info, "Appointment Updated",
      "Appointment for " + first + " " + last + " has been " + "updated" + ".", p))
  {
    assert UpdatedWord(p.status) == "updated";
  }

  /** A dentist's update for a status in the table names the patient and
      the status's own word. */
  lemma UpdatedInsideTable(c: Client, p: Payload, first: string, last: string)
    requires c.role == Dentist
    requires p.patient.Some? && p.patient.value.firstName == first && p.patient.value.lastName == last
    ensures p.status == "APPROVED" ==>
      OnAppointmentUpdated(c, p).value.message == "Appointment for " + first + " " + last + " has been " + "approved" + "."
    ensures p.status == "RESCHEDULED" ==>
      OnAppointmentUpdated(c, p).value.message == "Appointment for " + first + " " + last + " has been " + "rescheduled" + "."
    ensures p.status == "CANCELLED" ==>
      OnAppointmentUpdated(c, p).value.message == "Appointment for " + first + " " + last + " has been " + "cancelled" + "."
    ensures p.status == "COMPLETED" ==>
      OnAppointmentUpdated(c, p).value.message == "Appointment for " + first + " " + last + " has been " + "completed" + "."
  {
  }

  /** Optional chaining on a missing patient prints "undefined" for both
      names. */
  lemma UpdatedWithoutPatient(c: Client, p: Payload)
    requires c.role == Dentist && p.patient.None?
    ensures OnAppointmentUpdated(c, p).value.message ==
      "Appointment for " + "undefined" + " " + "undefined" + " has been " + UpdatedWord(p.status) + "."
  {
  }

  /** The new-appointment message names the patient and the service; the
      approval message names the service. */
  lemma RequestAndConfirmationMessages(c: Client, p: Payload)
    ensures c.role == Dentist && p.patient.Some? ==>
      OnNewAppointment(c, p).value.message ==
      p.patient.value.firstName + " " + p.patient.value.lastName + " has requested a " + p.service + " appointment."
    ensures c.role == Patient && p.patientId == c.patientId ==>
      OnAppointmentApproved(c, p).value.message == "Your " + p.service + " appointment has been confirmed."
  {
  }

  /** An approval with an actual date and time: the owning patient is told
      the formatted date and the time. */
  lemma ConfirmedWithActualDate(c: Client, p: Payload)
    requires c.role == Patient && p.patientId == c.patientId && p.status == "APPROVED"
    requires p.actualDate == Some("2025-01-11") && p.actualTime == Some("10:00")
    ensures OnStatusChanged(c, p) == Some(Draft(Success, "Appointment Confirmed!",
      "Your appointment has been approved for " + c.formatDate("2025-01-11") + " at " + "10:00" + ".", p))
  {
    assert DateText(c, p.actualDate, "the requested date") == c.formatDate("2025-01-11");
    assert OrElse(p.actualTime, "the requested time") == "10:00";
  }
}
