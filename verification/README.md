# Dental clinic site: appointment notifications, booking form and API routes

This project models the logic of a small dental-clinic website and proves
properties of it in Dafny. The site is mostly markup and animation. The
logic that remains falls into three groups:

- **The notification provider** on the client. It decides which room a
  client joins on connect. It decides which of four server events
  (`new-appointment`, `appointment-updated`, `appointment-status-changed`,
  `appointment-approved`) become a toast for a dentist or for a patient,
  with the severity, title and message each status maps to. It also keeps
  the most-recent-first list of toasts, with add, dismiss, timed expiry and
  clear-all. The provider is a pure transition `Notifications.Step`. The
  8-second timer is an explicit `Expire(id)` input. The `Date.now()` id and
  the timestamp arrive with each `Deliver` input. Date formatting is the
  client's `formatDate` function.
- **The booking form**: the three-step wizard clamped to steps 1..3, the
  field rules of its schema, and the 13 offered time slots. Email syntax is
  checked by a library, so it is the `isEmail` parameter here.
- **The two API routes and the persistence gateway**. Each is a function
  over an in-memory `Database.Store` of patients, appointments, services
  and reviews. A query's `where` is a filter and its `orderBy` a sort. Its
  `include: { patient: true }` is a lookup of the linked patient. The ids
  and creation times the datastore assigns arrive as a `Fresh` value.

Modules: `Common` (undefined as `Option`, JavaScript truthiness), `Seqs`
(filter, lookup by key, subsequence, insertion sort, string order), `Notifications`,
`Booking`, `Database`, `Http`, `ReviewsApi`, `AppointmentsApi`.

Three facts about the code shape the model:

- the booking route stores the request body without validating it, and
  sends no event;
- the notification provider matches upper-case statuses (`'APPROVED'`, ...);
- the booking route writes the lower-case `'pending'`.

Status strings stay literal throughout, so a `'pending'` status produces no
`appointment-status-changed` notification. The `appointment-approved`
handler does not look at the status at all.

## Model

| member | source | states |
|---|---|---|
| Notifications.JoinOnConnect | src/components/WebSocketProvider.tsx:82-87 | A dentist joins the dentist room. A patient joins the room of their own id exactly when that id is defined and non-empty, and otherwise joins nothing. |
| Notifications.AddNotification | src/components/WebSocketProvider.tsx:183-190 | The new notification is at the head with the given id, timestamp and content. The previous list follows unchanged, so the length grows by one. |
| Notifications.ClearNotification | src/components/WebSocketProvider.tsx:198-200 | Dismissing an id leaves no entry with that id. Every other entry is kept as often as it occurred, in its original order. It is a no-op when the id is absent. |
| Notifications.ClearAllNotifications | src/components/WebSocketProvider.tsx:202-204 | Clear-all leaves the list empty. |
| Notifications.OnNewAppointment | src/components/WebSocketProvider.tsx:96-105 | Only a dentist is notified, and only when the payload has a patient (reading a missing patient throws). The toast is an `info` "New Appointment Request". |
| Notifications.OnAppointmentUpdated | src/components/WebSocketProvider.tsx:108-124 | Only a dentist is notified. The severity is `success` exactly when the status is `'APPROVED'`, and `info` otherwise. |
| Notifications.OnStatusChanged | src/components/WebSocketProvider.tsx:127-162 | Only a patient whose id equals the payload's is notified, and only for a status in the table. APPROVED is a success "Appointment Confirmed!", RESCHEDULED a warning "Appointment Rescheduled", CANCELLED an error "Appointment Cancelled" and COMPLETED a success "Appointment Completed". The last two carry their fixed messages. |
| Notifications.OnAppointmentApproved | src/components/WebSocketProvider.tsx:165-174 | Only a patient whose id equals the payload's is notified, with a `success` "Appointment Confirmed!". |
| Notifications.Reaction | src/components/WebSocketProvider.tsx:95-174 | The event wiring: the two staff events reach only dentists, the two patient events only the patient the payload names, and a notification carries the event's payload. |
| Notifications.Step | src/components/WebSocketProvider.tsx:183-204 | Clear-all yields the empty list. Dismiss and expiry leave no entry with the id, and keep every other entry as often as it occurred and in order. A delivered event either adds nothing or prepends exactly one entry. That entry carries the delivery's id and time, and the severity, title, message and payload the event's handler produced. |
| Notifications.ExpireUndoesAdd | src/components/WebSocketProvider.tsx:190-195 | The expiry timer of an added notification removes exactly what the add put in, together with any older entry sharing its id. |
| Notifications.DeliverThenExpire | src/components/WebSocketProvider.tsx:183-195 | When no held entry shares the new id, delivering an event and then letting its timer fire restores the list exactly. |
| Notifications.ExpireRemovesCollidingOlder | src/components/WebSocketProvider.tsx:186-195 | Clock-based ids can collide: a new notification's timer also removes an older entry with the same id. |
| Notifications.ClearNotificationIdempotent | src/components/WebSocketProvider.tsx:198-200 | Dismissing an id twice is the same as dismissing it once. |
| Notifications.ClearNotificationCommutes | src/components/WebSocketProvider.tsx:198-200 | Dismissals of two ids can happen in either order. |
| Notifications.RunConcat | src/components/WebSocketProvider.tsx:183-204 | Running two input sequences one after the other equals running their concatenation. |
| Notifications.ClearAllAfterAnyHistory | src/components/WebSocketProvider.tsx:202-204 | Clear-all yields the empty list after any history of inputs. |
| Notifications.AudienceByRole | src/components/WebSocketProvider.tsx:95-174 | `new-appointment` and `appointment-updated` notify only dentists. The two patient events notify only patients. `appointment-updated` notifies every dentist. |
| Notifications.StatusTransitionRouting | src/components/WebSocketProvider.tsx:107-174 | For one status transition, the dentist hears through `appointment-updated` only. The owning patient hears through the patient events. A patient with another id hears nothing. |
| Notifications.ApprovedFallback | src/components/WebSocketProvider.tsx:130-134 | An approval names the formatted actual date, or "the requested date" when the date is not truthy. It names the actual time, or "the requested time" when the time is not truthy. Each falls back on its own. |
| Notifications.RescheduledFallback | src/components/WebSocketProvider.tsx:135-139 | A reschedule names the formatted actual date, or "a new date" when the date is not truthy. It names the actual time, or "a new time" when the time is not truthy. Each falls back on its own. |
| Notifications.UpdatedOutsideTable | src/components/WebSocketProvider.tsx:110-120 | A dentist's update for a status outside the table is an `info` worded "has been updated.". |
| Notifications.UpdatedInsideTable | src/components/WebSocketProvider.tsx:110-120 | A dentist's update for APPROVED, RESCHEDULED, CANCELLED or COMPLETED reads "Appointment for <first> <last> has been approved." (or rescheduled, cancelled, completed). |
| Notifications.UpdatedWithoutPatient | src/components/WebSocketProvider.tsx:120 | A dentist's update without a patient prints "undefined undefined" for the names. |
| Notifications.RequestAndConfirmationMessages | src/components/WebSocketProvider.tsx:96-174 | The new-appointment message is "<first> <last> has requested a <service> appointment.". The approval message is "Your <service> appointment has been confirmed.". |
| Notifications.ConfirmedWithActualDate | src/components/WebSocketProvider.tsx:129-134 | An approval with actual date 2025-01-11 and time 10:00 tells the owning patient "Appointment Confirmed!" with the formatted date and 10:00. |
| Booking.NextStep | src/components/BookingForm.tsx:94-98 | Next advances by one below step 3 and is a no-op at 3, so it stays within 1..3. |
| Booking.PrevStep | src/components/BookingForm.tsx:100-104 | Previous goes back by one above step 1 and is a no-op at 1, so it stays within 1..3. |
| Booking.NextPrevInverse | src/components/BookingForm.tsx:94-104 | Away from the ends, Previous undoes Next and Next undoes Previous. |
| Booking.WalkStaysInRange | src/components/BookingForm.tsx:42-104 | From any step in 1..3 (the initial step is 1), every sequence of Next, Previous and post-submit resets stays within 1..3. |
| Booking.NextSaturates | src/components/BookingForm.tsx:94-98 | Enough Next presses reach step 3 and stay there. |
| Booking.Issues | src/components/BookingForm.tsx:10-21 | The schema reports at most seven issues, and none for date of birth, address or notes. |
| Booking.IssuesOncePerField | src/components/BookingForm.tsx:10-21 | The schema reports each field at most once. |
| Booking.IssuesCarryTheRuleMessages | src/components/BookingForm.tsx:10-21 | A missing required value is reported as "Required". A value that breaks its rule is reported with that rule's own message. |
| Booking.MinLengthFlags | src/components/BookingForm.tsx:11-19 | A minimum-length rule reports its own field, and only when the value is missing or shorter than the minimum. |
| Booking.FlagsConcat | src/components/BookingForm.tsx:10-21 | The schema's issue list reports a field exactly when some part of it does. |
| Booking.EmailRuleFlags | src/components/BookingForm.tsx:13 | The email rule reports the email field exactly when the email is missing or rejected by the email check. |
| Booking.IssuesFlagExactlyTheFailingFields | src/components/BookingForm.tsx:10-21 | The schema reports a field exactly when that field's rule fails. It never reports date of birth, address or notes. |
| Booking.NoIssuesIffAcceptable | src/components/BookingForm.tsx:10-21 | There are no issues exactly when the names have at least 2 characters and the phone at least 10, the email passes, and service, date and time are non-empty. |
| Booking.Validate | src/components/BookingForm.tsx:10-21 | The form is accepted exactly under that condition, and the accepted data carries the submitted values. A rejection lists every issue. |
| Booking.OptionalFieldsNeverReject | src/components/BookingForm.tsx:15-20 | Changing or omitting date of birth, address or notes never changes acceptance. |
| Booking.TimeSlotsOrdered | src/components/BookingForm.tsx:33-36 | There are exactly 13 slots. Each is five characters: two digits, a colon, two digits. They are in strictly increasing order. |
| Booking.PreferredTimeNotCheckedAgainstSlots | src/components/BookingForm.tsx:19-36 | The schema checks the preferred time only for being non-empty. Any non-empty time is accepted when the rest of the form is, including one outside the slots such as "12:15". |
| Seqs.Find | src/lib/db.ts:84-90 | A lookup by key returns the first stored row with that key, or nothing exactly when no row has it. Appointment lookups by id and the patient lookup behind `include: { patient: true }` both use it. |
| Seqs.FindAppend | src/lib/db.ts:84-90 | Appending a row whose key is new makes a lookup of that key find it. |
| Database.UpdateByEmail | src/lib/db.ts:21-29 | The update half changes only patients with the given email. It replaces names and phone, and replaces date of birth and address only when they are supplied. Ids and emails are kept. |
| Database.FindByEmail | src/lib/db.ts:21-22 | An email lookup finds a patient exactly when one has that email. |
| Database.UpsertPatient | src/lib/db.ts:13-32 | An existing email updates that patient in place and keeps its id: names and phone are replaced, and date of birth and address are replaced when supplied and kept otherwise. No patient is added. A new email appends exactly one patient. The returned patient is stored. |
| Database.UpdateByEmailKeepsEmailsUnique | src/lib/db.ts:23-29 | The update half keeps emails unique. |
| Database.UpsertKeepsEmailsUnique | src/lib/db.ts:21-31 | After an upsert, emails are still unique and a patient has the email. Patients with other emails are unchanged. |
| Database.UpsertIdempotent | src/lib/db.ts:21-31 | Upserting the same contact twice leaves the store as one upsert does. |
| Database.SecondBookingUpdatesNames | src/lib/db.ts:21-31 | A second upsert under the same email updates the names on the one patient the first upsert created. |
| Database.CreateAppointment | src/lib/db.ts:34-47 | The new appointment carries the given service, preferred date, time and notes, with no actual date, time or calendar event. It is linked to the given patient id and returned with that stored patient. Exactly one appointment is appended. An unknown patient id is a foreign-key error. |
| Database.CreatedAppointmentIsFound | src/lib/db.ts:41-46 | A created appointment is found again by its id, with its patient. |
| Database.MatchingNewestFirst | src/lib/db.ts:49-60 | The result holds exactly the appointments with the status, or all of them when the status is absent or empty. Each appears as often as it is stored. They are ordered newest `createdAt` first. |
| Database.AppointmentsByStatus | src/lib/db.ts:49-61 | Each of those appointments comes with its patient, in the same order. |
| Database.UpdateById | src/lib/db.ts:70-81 | Only appointments with the id change. They get the status, and each supplied actual date, time and event id. |
| Database.UpdateAppointmentStatus | src/lib/db.ts:63-82 | Only the appointment with the id changes. On it, the status is set and an omitted argument leaves its field unchanged. Its id, patient link, creation time, service, preferred date, preferred time and notes are kept. An unknown id is an error that changes nothing. |
| Database.FindAfterUpdate | src/lib/db.ts:70-90 | After an update, a lookup by the id finds the updated record. |
| Database.UpdatedAppointmentIsFound | src/lib/db.ts:70-90 | After an update, a lookup by the id returns the record the update returned. |
| Database.UpdateStatusIdempotent | src/lib/db.ts:70-81 | Repeating a status update leaves the store as one update does. |
| Database.AppointmentById | src/lib/db.ts:84-91 | The lookup returns the appointment with that id and its patient, or nothing exactly when no appointment has the id. |
| Database.ActiveServices | src/lib/db.ts:93-98 | The listing holds exactly the active services, each as often as it is stored, ordered by name ascending. |
| Database.ApprovedReviews | src/lib/db.ts:100-105 | The listing holds exactly the approved reviews, each as often as it is stored, newest first. |
| Database.InsertReview | pages/api/reviews.ts:17-24 | The stored review has the given fields, approval, id and creation time. It is appended, and nothing else changes. |
| Database.CreateReview | src/lib/db.ts:107-115 | Exactly one review is appended, with the three given fields and not approved. Nothing else changes. |
| Database.UnapprovedReviewKeepsApprovedListing | src/lib/db.ts:100-115 | Storing an unapproved review leaves the approved listing unchanged. |
| ReviewsApi.Handle | pages/api/reviews.ts:6-29 | GET answers 200 with the approved reviews and leaves the store unchanged. POST answers 201 and appends one unapproved review carrying the body's name, rating and comment. Any other method answers 405 with no body and leaves the store unchanged. |
| ReviewsApi.ListingShowsOnlyApproved | pages/api/reviews.ts:9-13 | GET lists exactly the approved reviews, each as often as it is stored, newest first. |
| ReviewsApi.ApprovalClaimIgnored | pages/api/reviews.ts:16-24 | Whatever approval flag the client sends, the POST outcome is the same. |
| ReviewsApi.SubmittedReviewNotListed | pages/api/reviews.ts:9-25 | A review just submitted is not in the next GET, which returns what it returned before. |
| AppointmentsApi.Handle | pages/api/appointments.ts:6-33 | A stored POST answers 201 and appends one `'pending'` appointment. A failed write answers 500 with the fixed error and changes nothing. Any other method answers 405 with no body and changes nothing. |
| AppointmentsApi.CreatedCarriesBodyVerbatim | pages/api/appointments.ts:8-23 | The created appointment carries the ten body fields unchanged on the record itself, whatever their content. |
| AppointmentsApi.FailureHidesDetail | pages/api/appointments.ts:26-29 | Every failed write gets the same response, whatever the request. |
| AppointmentsApi.CreatedBookingIsFound | pages/api/appointments.ts:10-25 | A created booking is found again by its id, with no linked patient. |
| Seqs.FilterMultiset | src/lib/db.ts:53 | A `where` filter keeps each passing row as often as the table holds it, and drops every other row. |
| Seqs.FilterIsSubsequence | src/components/WebSocketProvider.tsx:199 | A filter keeps the surviving elements in their original order. |
| Seqs.SortByIsOrderedPermutation | src/lib/db.ts:57-59 | Sorting gives an ordered permutation with the same members. |

## Left out

- Rendering, motion variants, icons and the progress-bar width: these are pure presentation or float arithmetic.
- The socket transport: connecting, the transport options, `disconnect` and the `isConnected` flag. `JoinOnConnect` returns the room to join instead of emitting.
- Real timers. The 8-second expiry is the `Expire` input. The form's 5-second reset is the `Reset` move.
- The `Date.now()` id and the `new Date()` timestamp, which are inputs. So is `toLocaleDateString`, which is the client's `formatDate`.
- Email syntax, which is the `isEmail` parameter. The schema's minimum lengths count UTF-16 code units; the model counts Dafny characters.
- `Notifications.OnStatusChanged`: the status tables are plain objects, so a status naming an inherited member (such as `"constructor"`) would find that member. The model treats every status outside the four keys as absent from the table. The same holds for `Notifications.UpdatedWord`.
- `ReviewsApi.Handle`: the route has no try/catch, so a failed read or write rejects the handler and the framework answers. The model's review listing and review write always succeed.
- `AppointmentsApi.Handle`: whether the datastore accepts the record is the `stored` input. The datastore schema is not part of this model.
- `Database.CreateAppointment`: the status a new appointment gets is the schema's default, which is not part of this model, so it is a parameter. The foreign-key error for an unknown patient is the relational behaviour of the link.
- `Database.CreateReview`: the schema's `isApproved` default is not part of this model. The model takes it to be `false`, the value the review route writes itself (pages/api/reviews.ts:22).
- `Database.MatchingNewestFirst`, `Database.ApprovedReviews` and `Database.ActiveServices`: the datastore does not fix the order of rows that tie on the sort key. The contracts state only the order the query asks for, and the model's insertion sort is one such order. Names are compared by character code, not by the database's collation.
- `Database.MatchingNewestFirst`: the status column has a narrower type than string (db.ts casts `status as any`). A status outside that type makes the query reject. The model filters by any string and has no such error.
- `Database.UpdateAppointmentStatus`: a status outside the column's type makes the update reject. The model stores any string, and its only error is an unknown id.
- `Database.UpsertPatient`, `Database.CreateAppointment`, `Database.AppointmentById`, `Database.ActiveServices`, `Database.ApprovedReviews` and `Database.CreateReview`: any datastore call can reject when the datastore itself fails (connection, constraint or timeout). The model has no such failure. Its only errors are the foreign-key and record-not-found cases.
- Request bodies are typed records. A body field of another JSON type is not modelled.
- The Prisma client construction and its process-wide cache, the services fetch, the form submit (`fetch`, `alert`), `Reviews.tsx` and the seed script.
- Concurrency between requests.
