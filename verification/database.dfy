/** The persistence gateway: the four stored entities and the operations
    of `DatabaseService` as pure functions over an in-memory store. A
    query's `where` is a filter, its `orderBy` a sort, its
    `include: { patient: true }` a lookup of the linked patient. The ids
    and creation times the datastore assigns arrive as a `Fresh` value.
    A field passed as `undefined` in an update leaves the stored value
    unchanged, as the query builder does. */
module Database {
  import opened Common
  import Seqs

  /** A patient's contact details: the input of the patient upsert, and the
      fields the booking endpoint writes straight onto an appointment. */
  datatype Contact = Contact(
    firstName: string,
    lastName: string,
    email: string,
    phone: string,
    dateOfBirth: Option<string>,
    address: Option<string>)

  datatype Patient = Patient(id: string, contact: Contact)

  /** Who an appointment is for: a link to a stored patient, or contact
      fields stored on the appointment itself. */
  datatype Owner = Linked(patientId: string) | Inline(contact: Contact)

  datatype Appointment = Appointment(
    id: string,
    owner: Owner,
    service: string,
    preferredDate: string,
    preferredTime: string,
    notes: Option<string>,
    status: string,
    actualDate: Option<string>,
    actualTime: Option<string>,
    googleEventId: Option<string>,
    createdAt: int)

  datatype Service = Service(
    id: string,
    name: string,
    description: string,
    duration: int,
    price: real,
    isActive: bool)

  datatype Review = Review(
    id: string,
    patientName: string,
    rating: int,
    comment: string,
    isApproved: bool,
    createdAt: int)

  datatype Store = Store(
    patients: seq<Patient>,
    appointments: seq<Appointment>,
    services: seq<Service>,
    reviews: seq<Review>)

  /** The id and creation time the datastore gives a new row. */
  datatype Fresh = Fresh(id: string, now: int)

  /** An appointment together with its linked patient, if any. */
  datatype AppointmentView = AppointmentView(appointment: Appointment, patient: Option<Patient>)

  datatype DbError = RecordNotFound | ForeignKeyViolation

  // ---------------------------------------------------------------------
  // Lookups

  /** The key of a lookup by patient id. */
  function PatientWithId(id: string): Patient -> bool
  {
    (p: Patient) => p.id == id
  }

  /** The key of a lookup by appointment id. */
  function AppointmentWithId(id: string): Appointment -> bool
  {
    (a: Appointment) => a.id == id
  }

  function FindPatient(patients: seq<Patient>, id: string): Option<Patient>
  {
    Seqs.Find(patients, PatientWithId(id))
  }

  function FindAppointment(appointments: seq<Appointment>, id: string): Option<Appointment>
  {
    Seqs.Find(appointments, AppointmentWithId(id))
  }

  /** The appointment with its patient, as `include: { patient: true }`
      returns it. */
  function View(s: Store, a: Appointment): AppointmentView
  {
    match a.owner
    case Linked(pid) => AppointmentView(a, FindPatient(s.patients, pid))
    case Inline(_) => AppointmentView(a, None)
  }

  function Views(s: Store, xs: seq<Appointment>): (r: seq<AppointmentView>)
    ensures |r| == |xs|
    ensures forall i :: 0 <= i < |xs| ==> r[i] == View(s, xs[i])
  {
    if |xs| == 0 then [] else [View(s, xs[0])] + Views(s, xs[1..])
  }

  // ---------------------------------------------------------------------
  // Store invariants

  predicate EmailsUnique(patients: seq<Patient>)
  {
    forall i, j :: 0 <= i < j < |patients| ==> patients[i].contact.email != patients[j].contact.email
  }

  predicate HasEmail(patients: seq<Patient>, email: string)
  {
    exists i :: 0 <= i < |patients| && patients[i].contact.email == email
  }

  // ---------------------------------------------------------------------
  // createOrUpdatePatient

  /** The update half of the upsert: names and phone are replaced, date of
      birth and address only when supplied. */
  function UpdateContact(stored: Contact, data: Contact): Contact
  {
    Contact(data.firstName, data.lastName, stored.email, data.phone,
      if data.dateOfBirth.Some? then data.dateOfBirth else stored.dateOfBirth,
      if data.address.Some? then data.address else stored.address)
  }

  /** Applies the update half to every patient with `data`'s email. */
  function UpdateByEmail(patients: seq<Patient>, data: Contact): (r: seq<Patient>)
    ensures |r| == |patients|
    ensures forall i :: 0 <= i < |patients| ==> r[i].id == patients[i].id
    ensures forall i :: 0 <= i < |patients| ==> r[i].contact.email == patients[i].contact.email
    ensures forall i :: 0 <= i < |patients| && patients[i].contact.email != data.email ==> r[i] == patients[i]
    ensures forall i :: 0 <= i < |patients| && patients[i].contact.email == data.email ==>
      r[i].contact == UpdateContact(patients[i].contact, data)
  {
    if |patients| == 0 then []
    else
      var p := patients[0];
      var q := if p.contact.email == data.email then Patient(p.id, UpdateContact(p.contact, data)) else p;
      [q] + UpdateByEmail(patients[1..], data)
  }

  function FindByEmail(patients: seq<Patient>, email: string): (r: Option<Patient>)
    ensures r.Some? <==> HasEmail(patients, email)
    ensures r.Some? ==> r.value in patients && r.value.contact.email == email
  {
    if |patients| == 0 then None
    else if patients[0].contact.email == email then Some(patients[0])
    else
      var r := FindByEmail(patients[1..], email);
      assert HasEmail(patients[1..], email) ==> HasEmail(patients, email) by {
        if HasEmail(patients[1..], email) {
          var i :| 0 <= i < |patients[1..]| && patients[1..][i].contact.email == email;
          assert patients[i + 1].contact.email == email;
        }
      }
      r
  }

  /** Updates the patient with this email, or creates one under `freshId`;
      returns the stored patient and the new store. */
  function UpsertPatient(s: Store, data: Contact, freshId: string): (r: (Patient, Store))
    ensures r.0.contact.email == data.email
    ensures r.0.contact.firstName == data.firstName && r.0.contact.lastName == data.lastName
    ensures r.0.contact.phone == data.phone
    ensures r.0 in r.1.patients
    ensures r.1.appointments == s.appointments && r.1.services == s.services && r.1.reviews == s.reviews
    ensures HasEmail(s.patients, data.email) ==> |r.1.patients| == |s.patients|
    ensures !HasEmail(s.patients, data.email) ==>
      r.1.patients == s.patients + [Patient(freshId, data)] && r.0 == Patient(freshId, data)
    ensures HasEmail(s.patients, data.email) ==>
      var prior := FindByEmail(s.patients, data.email).value;
      && r.0 == Patient(prior.id, UpdateContact(prior.contact, data))
      && r.1.patients == UpdateByEmail(s.patients, data)
    ensures HasEmail(s.patients, data.email) ==>
      var prior := FindByEmail(s.patients, data.email).value;
      && (data.dateOfBirth.Some? ==> r.0.contact.dateOfBirth == data.dateOfBirth)
      && (data.dateOfBirth.None? ==> r.0.contact.dateOfBirth == prior.contact.dateOfBirth)
      && (data.address.Some? ==> r.0.contact.address == data.address)
      && (data.address.None? ==> r.0.contact.address == prior.contact.address)
  {
    match FindByEmail(s.patients, data.email)
    case Some(existing) =>
      var updated := UpdateByEmail(s.patients, data);
      var p := Patient(existing.id, UpdateContact(existing.contact, data));
      assert p in updated by {
        var k :| 0 <= k < |s.patients| && s.patients[k] == existing;
        assert updated[k] == p;
      }
      (p, s.(patients := updated))
    case None =>
      var p := Patient(freshId, data);
      (p, s.(patients := s.patients + [p]))
  }

  // ---------------------------------------------------------------------
  // createAppointment

  /** The fields `createAppointment` is given. */
  datatype NewAppointment = NewAppointment(
    patientId: string,
    service: string,
    preferredDate: string,
    preferredTime: string,
    notes: Option<string>)

  /** Adds an appointment linked to an existing patient, with the schema's
      default status; returns it with that patient. A patient id that names
      no patient breaks the link's foreign key. */
  function CreateAppointment(s: Store, data: NewAppointment, defaultStatus: string, next: Fresh)
    : (r: Result<(AppointmentView, Store), DbError>)
    ensures r.Err? <==> FindPatient(s.patients, data.patientId).None?
    ensures r.Err? ==> r.error == ForeignKeyViolation
    ensures r.Ok? ==> r.value.1.appointments == s.appointments + [r.value.0.appointment]
    ensures r.Ok? ==> r.value.1.patients == s.patients && r.value.1.services == s.services
    ensures r.Ok? ==> r.value.1.reviews == s.reviews
    ensures r.Ok? ==> r.value.0.appointment.owner == Linked(data.patientId)
    ensures r.Ok? ==> r.value.0.patient.Some? && r.value.0.patient.value.id == data.patientId
    ensures r.Ok? ==> r.value.0.appointment.id == next.id && r.value.0.appointment.status == defaultStatus
    ensures r.Ok? ==> var a := r.value.0.appointment;
      && a.service == data.service && a.preferredDate == data.preferredDate
      && a.preferredTime == data.preferredTime && a.notes == data.notes
      && a.actualDate.None? && a.actualTime.None? && a.googleEventId.None? && a.createdAt == next.now
    ensures r.Ok? ==> r.value.0.patient.value in s.patients
  {
    match FindPatient(s.patients, data.patientId)
    case None => Err(ForeignKeyViolation)
    case Some(p) =>
      var a := Appointment(next.id, Linked(data.patientId), data.service, data.preferredDate,
        data.preferredTime, data.notes, defaultStatus, None, None, None, next.now);
      Ok((AppointmentView(a, Some(p)), s.(appointments := s.appointments + [a])))
  }

  // ---------------------------------------------------------------------
  // getAppointmentsByStatus

  /** Newest first: `a` may come before `b` when it is not older. */
  predicate AppointmentNewerOrSame(a: Appointment, b: Appointment)
  {
    a.createdAt >= b.createdAt
  }

  lemma AppointmentNewerOrSameOrders()
    ensures Seqs.Total(AppointmentNewerOrSame) && Seqs.Transitive(AppointmentNewerOrSame)
  {
  }

  /** Whether an appointment passes the status filter: every appointment
      does when the status is falsy. */
  predicate MatchesStatus(a: Appointment, status: Option<string>)
  {
    !Truthy(status) || a.status == status.value
  }

  /** The appointments passing the status filter, newest first. */
  function MatchingNewestFirst(appointments: seq<Appointment>, status: Option<string>): (r: seq<Appointment>)
    ensures forall a :: a in r <==> a in appointments && MatchesStatus(a, status)
    ensures forall a :: multiset(r)[a] == if MatchesStatus(a, status) then multiset(appointments)[a] else 0
    ensures !Truthy(status) ==> multiset(r) == multiset(appointments)
    ensures forall i, j :: 0 <= i < j < |r| ==> r[i].createdAt >= r[j].createdAt
  {
    var matching := Seqs.Filter(appointments, (a: Appointment) => MatchesStatus(a, status));
    Seqs.FilterMultiset(appointments, (a: Appointment) => MatchesStatus(a, status));
    var r := Seqs.SortBy(matching, AppointmentNewerOrSame);
    AppointmentNewerOrSameOrders();
    Seqs.SortByIsOrderedPermutation(matching, AppointmentNewerOrSame);
    Seqs.OrderedIsSorted(r, AppointmentNewerOrSame);
    r
  }

  /** `getAppointmentsByStatus`: the filtered appointments, newest first,
      each with its patient. */
  function AppointmentsByStatus(s: Store, status: Option<string>): (r: seq<AppointmentView>)
    ensures |r| == |MatchingNewestFirst(s.appointments, status)|
    ensures forall i :: 0 <= i < |r| ==> r[i] == View(s, MatchingNewestFirst(s.appointments, status)[i])
  {
    Views(s, MatchingNewestFirst(s.appointments, status))
  }

  // ---------------------------------------------------------------------
  // updateAppointmentStatus

  /** Sets the status, and each supplied actual date, time and calendar
      reference, on every appointment with this id. */
  function SetStatus(a: Appointment, status: string, actualDate: Option<string>,
                     actualTime: Option<string>, googleEventId: Option<string>): Appointment
  {
    a.(status := status,
       actualDate := if actualDate.Some? then actualDate else a.actualDate,
       actualTime := if actualTime.Some? then actualTime else a.actualTime,
       googleEventId := if googleEventId.Some? then googleEventId else a.googleEventId)
  }

  function UpdateById(appointments: seq<Appointment>, id: string, status: string, actualDate: Option<string>,
                      actualTime: Option<string>, googleEventId: Option<string>): (r: seq<Appointment>)
    ensures |r| == |appointments|
    ensures forall i :: 0 <= i < |appointments| && appointments[i].id != id ==> r[i] == appointments[i]
    ensures forall i :: 0 <= i < |appointments| && appointments[i].id == id ==>
      r[i] == SetStatus(appointments[i], status, actualDate, actualTime, googleEventId)
  {
    if |appointments| == 0 then []
    else
      var a := appointments[0];
      [if a.id == id then SetStatus(a, status, actualDate, actualTime, googleEventId) else a]
      + UpdateById(appointments[1..], id, status, actualDate, actualTime, googleEventId)
  }

  /** Changes the appointment with this id; an unknown id is an error and
      changes nothing. */
  function UpdateAppointmentStatus(s: Store, id: string, status: string, actualDate: Option<string>,
                                   actualTime: Option<string>, googleEventId: Option<string>)
    : (r: Result<(AppointmentView, Store), DbError>)
    ensures r.Err? <==> FindAppointment(s.appointments, id).None?
    ensures r.Err? ==> r.error == RecordNotFound
    ensures r.Ok? ==> r.value.1.patients == s.patients && r.value.1.services == s.services
    ensures r.Ok? ==> r.value.1.reviews == s.reviews
    ensures r.Ok? ==> |r.value.1.appointments| == |s.appointments|
    ensures r.Ok? ==> forall i :: 0 <= i < |s.appointments| && s.appointments[i].id != id ==>
      r.value.1.appointments[i] == s.appointments[i]
    ensures r.Ok? ==> forall i :: 0 <= i < |s.appointments| && s.appointments[i].id == id ==>
      var a := r.value.1.appointments[i];
      && a.status == status
      && a.id == id && a.owner == s.appointments[i].owner && a.createdAt == s.appointments[i].createdAt
      && a.service == s.appointments[i].service && a.notes == s.appointments[i].notes
      && a.preferredDate == s.appointments[i].preferredDate
      && a.preferredTime == s.appointments[i].preferredTime
      && (actualDate.Some? ==> a.actualDate == actualDate)
      && (actualDate.None? ==> a.actualDate == s.appointments[i].actualDate)
      && (actualTime.Some? ==> a.actualTime == actualTime)
      && (actualTime.None? ==> a.actualTime == s.appointments[i].actualTime)
      && (googleEventId.Some? ==> a.googleEventId == googleEventId)
      && (googleEventId.None? ==> a.googleEventId == s.appointments[i].googleEventId)
    ensures r.Ok? ==> r.value.0.appointment.id == id && r.value.0.appointment.status == status
  {
    match FindAppointment(s.appointments, id)
    case None => Err(RecordNotFound)
    case Some(a) =>
      var updated := SetStatus(a, status, actualDate, actualTime, googleEventId);
      Ok((View(s, updated), s.(appointments := UpdateById(s.appointments, id, status, actualDate, actualTime, googleEventId))))
  }

  // ---------------------------------------------------------------------
  // getAppointmentById

  function AppointmentById(s: Store, id: string): (r: Option<AppointmentView>)
    ensures r.Some? ==> r.value.appointment in s.appointments && r.value.appointment.id == id
    ensures r.Some? ==> r.value == View(s, r.value.appointment)
    ensures r.None? <==> forall i :: 0 <= i < |s.appointments| ==> s.appointments[i].id != id
  {
    match FindAppointment(s.appointments, id)
    case None => None
    case Some(a) => Some(View(s, a))
  }

  // ---------------------------------------------------------------------
  // getServices

  predicate NameAscending(a: Service, b: Service)
  {
    Seqs.StrLe(a.name, b.name)
  }

  lemma NameAscendingOrders()
    ensures Seqs.Total(NameAscending) && Seqs.Transitive(NameAscending)
  {
    forall a: Service, b: Service ensures NameAscending(a, b) || NameAscending(b, a) {
      Seqs.StrLeTotal(a.name, b.name);
    }
    forall a: Service, b: Service, c: Service | NameAscending(a, b) && NameAscending(b, c)
      ensures NameAscending(a, c)
    {
      Seqs.StrLeTransitive(a.name, b.name, c.name);
    }
  }

  /** The active services, by name ascending. */
  function ActiveServices(s: Store): (r: seq<Service>)
    ensures forall x :: x in r <==> x in s.services && x.isActive
    ensures forall x :: multiset(r)[x] == if x.isActive then multiset(s.services)[x] else 0
    ensures forall i, j :: 0 <= i < j < |r| ==> Seqs.StrLe(r[i].name, r[j].name)
  {
    var active := Seqs.Filter(s.services, (x: Service) => x.isActive);
    Seqs.FilterMultiset(s.services, (x: Service) => x.isActive);
    NameAscendingOrders();
    var r := Seqs.SortBy(active, NameAscending);
    Seqs.SortByIsOrderedPermutation(active, NameAscending);
    Seqs.OrderedIsSorted(r, NameAscending);
    r
  }

  // ---------------------------------------------------------------------
  // getApprovedReviews and createReview

  predicate ReviewNewerOrSame(a: Review, b: Review)
  {
    a.createdAt >= b.createdAt
  }

  lemma ReviewNewerOrSameOrders()
    ensures Seqs.Total(ReviewNewerOrSame) && Seqs.Transitive(ReviewNewerOrSame)
  {
  }

  function IsApproved(r: Review): bool
  {
    r.isApproved
  }

  /** The approved reviews, newest first. */
  function ApprovedReviews(s: Store): (r: seq<Review>)
    ensures forall x :: x in r <==> x in s.reviews && x.isApproved
    ensures forall i, j :: 0 <= i < j < |r| ==> r[i].createdAt >= r[j].createdAt
    ensures forall x :: multiset(r)[x] == if x.isApproved then multiset(s.reviews)[x] else 0
  {
    var approved := Seqs.Filter(s.reviews, IsApproved);
    Seqs.FilterMultiset(s.reviews, IsApproved);
    ReviewNewerOrSameOrders();
    var r := Seqs.SortBy(approved, ReviewNewerOrSame);
    Seqs.SortByIsOrderedPermutation(approved, ReviewNewerOrSame);
    Seqs.OrderedIsSorted(r, ReviewNewerOrSame);
    r
  }

  /** The three fields a review is created from. */
  datatype ReviewInput = ReviewInput(patientName: string, rating: int, comment: string)

  /** The approval a review gets when the caller does not set one. The
      datastore schema that would fix it is not part of this model; this is
      the value the review route writes itself. */
  const ApprovedByDefault := false

  /** Stores one review with the given fields and approval. */
  function InsertReview(s: Store, data: ReviewInput, approved: bool, next: Fresh): (r: (Review, Store))
    ensures r.0 == Review(next.id, data.patientName, data.rating, data.comment, approved, next.now)
    ensures r.1.reviews == s.reviews + [r.0]
    ensures r.1.patients == s.patients && r.1.appointments == s.appointments && r.1.services == s.services
  {
    var review := Review(next.id, data.patientName, data.rating, data.comment, approved, next.now);
    (review, s.(reviews := s.reviews + [review]))
  }

  /** `createReview`: one review with the given fields and the default
      approval. */
  function CreateReview(s: Store, data: ReviewInput, next: Fresh): (r: (Review, Store))
    ensures r.0.patientName == data.patientName && r.0.rating == data.rating && r.0.comment == data.comment
    ensures !r.0.isApproved
    ensures r.0.id == next.id && r.0.createdAt == next.now
    ensures r.1.reviews == s.reviews + [r.0]
    ensures r.1.patients == s.patients && r.1.appointments == s.appointments && r.1.services == s.services
  {
    InsertReview(s, data, ApprovedByDefault, next)
  }

  // ---------------------------------------------------------------------
  // Properties

  /** The update half touches no email, so it keeps emails unique. */
  lemma UpdateByEmailKeepsEmailsUnique(patients: seq<Patient>, data: Contact)
    requires EmailsUnique(patients)
    ensures EmailsUnique(UpdateByEmail(patients, data))
  {
    var after := UpdateByEmail(patients, data);
    forall i, j | 0 <= i < j < |after| ensures after[i].contact.email != after[j].contact.email {
      assert after[i].contact.email == patients[i].contact.email;
      assert after[j].contact.email == patients[j].contact.email;
    }
  }

  /** The upsert keeps emails unique, leaves a patient with the upserted
      email, and leaves patients with other emails as they were. */
  lemma UpsertKeepsEmailsUnique(s: Store, data: Contact, freshId: string)
    requires EmailsUnique(s.patients)
    ensures EmailsUnique(UpsertPatient(s, data, freshId).1.patients)
    ensures HasEmail(UpsertPatient(s, data, freshId).1.patients, data.email)
    ensures forall p :: p in s.patients && p.contact.email != data.email ==>
      p in UpsertPatient(s, data, freshId).1.patients
  {
    var (p, s1) := UpsertPatient(s, data, freshId);
    var after := s1.patients;
    assert exists k :: 0 <= k < |after| && after[k] == p;
    if HasEmail(s.patients, data.email) {
      assert after == UpdateByEmail(s.patients, data);
      UpdateByEmailKeepsEmailsUnique(s.patients, data);
      forall q | q in s.patients && q.contact.email != data.email ensures q in after {
        var k :| 0 <= k < |s.patients| && s.patients[k] == q;
        assert after[k] == q;
      }
    } else {
      assert after == s.patients + [Patient(freshId, data)];
      forall i, j | 0 <= i < j < |after| ensures after[i].contact.email != after[j].contact.email {
        if j == |s.patients| {
          assert after[i] == s.patients[i];
        }
      }
    }
  }

  /** Upserting the same contact twice leaves the store as one upsert does,
      whatever id the second call is offered. */
  lemma UpsertIdempotent(s: Store, data: Contact, id1: string, id2: string)
    requires EmailsUnique(s.patients)
    ensures UpsertPatient(UpsertPatient(s, data, id1).1, data, id2) == UpsertPatient(s, data, id1)
  {
    var (p1, s1) := UpsertPatient(s, data, id1);
    UpsertKeepsEmailsUnique(s, data, id1);
    var again := UpdateByEmail(s1.patients, data);
    assert again == s1.patients by {
      forall i | 0 <= i < |s1.patients| ensures again[i] == s1.patients[i] {
        if s1.patients[i].contact.email == data.email {
          if HasEmail(s.patients, data.email) {
            UpdateContactIdempotent(s.patients[i].contact, data);
          }
        }
      }
    }
    var found := FindByEmail(s1.patients, data.email).value;
    var k :| 0 <= k < |s1.patients| && s1.patients[k] == found;
    var j :| 0 <= j < |s1.patients| && s1.patients[j] == p1;
    assert k == j;
    if HasEmail(s.patients, data.email) {
      UpdateContactIdempotent(s.patients[j].contact, data);
    }
  }

  lemma UpdateContactIdempotent(stored: Contact, data: Contact)
    ensures UpdateContact(UpdateContact(stored, data), data) == UpdateContact(stored, data)
  {
  }

  /** A second booking under the same email changes the names on the one
      stored patient instead of adding another. */
  lemma SecondBookingUpdatesNames(s: Store, first: Contact, second: Contact, id1: string, id2: string)
    requires EmailsUnique(s.patients) && !HasEmail(s.patients, first.email)
    requires second.email == first.email
    ensures var s2 := UpsertPatient(UpsertPatient(s, first, id1).1, second, id2);
      && |s2.1.patients| == |s.patients| + 1
      && s2.0.id == id1
      && s2.0.contact.firstName == second.firstName && s2.0.contact.lastName == second.lastName
  {
    var s1 := UpsertPatient(s, first, id1).1;
    assert s1.patients[|s.patients|] == Patient(id1, first);
    assert HasEmail(s1.patients, first.email);
    UpsertKeepsEmailsUnique(s, first, id1);
    var found := FindByEmail(s1.patients, first.email).value;
    var k :| 0 <= k < |s1.patients| && s1.patients[k] == found;
    assert k == |s.patients|;
  }

  /** A created appointment is found again by its id, with its patient,
      when the datastore's id was not in use. */
  lemma CreatedAppointmentIsFound(s: Store, data: NewAppointment, defaultStatus: string, next: Fresh)
    requires forall a :: a in s.appointments ==> a.id != next.id
    requires CreateAppointment(s, data, defaultStatus, next).Ok?
    ensures var (view, s1) := CreateAppointment(s, data, defaultStatus, next).value;
      AppointmentById(s1, next.id) == Some(view)
  {
    var (view, s1) := CreateAppointment(s, data, defaultStatus, next).value;
    Seqs.FindAppend(s.appointments, view.appointment, AppointmentWithId(next.id));
  }

  lemma {:induction false} FindAfterUpdate(appointments: seq<Appointment>, id: string, status: string,
                                          actualDate: Option<string>, actualTime: Option<string>,
                                          googleEventId: Option<string>)
    requires FindAppointment(appointments, id).Some?
    ensures FindAppointment(UpdateById(appointments, id, status, actualDate, actualTime, googleEventId), id)
      == Some(SetStatus(FindAppointment(appointments, id).value, status, actualDate, actualTime, googleEventId))
    decreases |appointments|
  {
    var updated := UpdateById(appointments, id, status, actualDate, actualTime, googleEventId);
    assert updated[1..] == UpdateById(appointments[1..], id, status, actualDate, actualTime, googleEventId);
    if appointments[0].id != id {
      FindAfterUpdate(appointments[1..], id, status, actualDate, actualTime, googleEventId);
    }
  }

  /** After a successful status update, looking the appointment up gives
      the updated record with its patient. */
  lemma UpdatedAppointmentIsFound(s: Store, id: string, status: string, actualDate: Option<string>,
                                  actualTime: Option<string>, googleEventId: Option<string>)
    requires UpdateAppointmentStatus(s, id, status, actualDate, actualTime, googleEventId).Ok?
    ensures var (view, s1) := UpdateAppointmentStatus(s, id, status, actualDate, actualTime, googleEventId).value;
      AppointmentById(s1, id) == Some(view)
  {
    FindAfterUpdate(s.appointments, id, status, actualDate, actualTime, googleEventId);
  }

  lemma SetStatusIdempotent(a: Appointment, status: string, actualDate: Option<string>,
                            actualTime: Option<string>, googleEventId: Option<string>)
    ensures SetStatus(SetStatus(a, status, actualDate, actualTime, googleEventId), status, actualDate, actualTime, googleEventId)
      == SetStatus(a, status, actualDate, actualTime, googleEventId)
  {
  }

  /** Repeating a status update leaves the store as one update does. */
  lemma UpdateStatusIdempotent(s: Store, id: string, status: string, actualDate: Option<string>,
                               actualTime: Option<string>, googleEventId: Option<string>)
    requires UpdateAppointmentStatus(s, id, status, actualDate, actualTime, googleEventId).Ok?
    ensures var s1 := UpdateAppointmentStatus(s, id, status, actualDate, actualTime, googleEventId).value.1;
      UpdateAppointmentStatus(s1, id, status, actualDate, actualTime, googleEventId).value.1 == s1
  {
    var s1 := UpdateAppointmentStatus(s, id, status, actualDate, actualTime, googleEventId).value.1;
    FindAfterUpdate(s.appointments, id, status, actualDate, actualTime, googleEventId);
    var twice := UpdateById(s1.appointments, id, status, actualDate, actualTime, googleEventId);
    forall i | 0 <= i < |s1.appointments| ensures twice[i] == s1.appointments[i] {
      if s.appointments[i].id == id {
        SetStatusIdempotent(s.appointments[i], status, actualDate, actualTime, googleEventId);
      }
    }
  }

  /** A newly stored review that is not approved leaves the approved
      listing exactly as it was. */
  lemma UnapprovedReviewKeepsApprovedListing(s: Store, data: ReviewInput, next: Fresh)
    ensures ApprovedReviews(InsertReview(s, data, false, next).1) == ApprovedReviews(s)
    ensures ApprovedReviews(CreateReview(s, data, next).1) == ApprovedReviews(s)
  {
    var (review, s1) := InsertReview(s, data, false, next);
    Seqs.FilterConcat(s.reviews, [review], IsApproved);
    assert Seqs.Filter([review], IsApproved) == [];
    assert Seqs.Filter(s1.reviews, IsApproved) == Seqs.Filter(s.reviews, IsApproved);
  }
}
