/** The booking form: its three-step wizard, the field rules of its schema,
    and the time slots it offers. Email syntax is checked by a library the
    form calls; here it is the `isEmail` parameter. */
module Booking {
  import opened Common
  import Seqs

  // ---------------------------------------------------------------------
  // The wizard

  const FirstStep := 1
  const TotalSteps := 3

  predicate InRange(step: int)
  {
    FirstStep <= step <= TotalSteps
  }

  /** The wizard's moves: the Next and Previous buttons, and the reset to
      the first step when the post-submission message is taken down. */
  datatype Move = Next | Prev | Reset

  /** Advances one step unless already on the last step. */
  function NextStep(step: int): (r: int)
    ensures InRange(step) ==> InRange(r)
    ensures step < TotalSteps ==> r == step + 1
    ensures step >= TotalSteps ==> r == step
  {
    if step < TotalSteps then step + 1 else step
  }

  /** Goes back one step unless already on the first step. */
  function PrevStep(step: int): (r: int)
    ensures InRange(step) ==> InRange(r)
    ensures step > FirstStep ==> r == step - 1
    ensures step <= FirstStep ==> r == step
  {
    if step > FirstStep then step - 1 else step
  }

  function Apply(step: int, m: Move): int
  {
    match m
    case Next => NextStep(step)
    case Prev => PrevStep(step)
    case Reset => FirstStep
  }

  /** The step reached after a sequence of moves. */
  function Walk(step: int, moves: seq<Move>): int
    decreases |moves|
  {
    if |moves| == 0 then step else Walk(Apply(step, moves[0]), moves[1..])
  }

  /** Going back undoes going forward, and the other way round, away from
      the ends. */
  lemma NextPrevInverse(step: int)
    ensures FirstStep <= step < TotalSteps ==> PrevStep(NextStep(step)) == step
    ensures FirstStep < step <= TotalSteps ==> NextStep(PrevStep(step)) == step
  {
  }

  /** Starting anywhere in range (in particular on the first step), no
      sequence of moves leaves the range. */
  lemma {:induction false} WalkStaysInRange(step: int, moves: seq<Move>)
    requires InRange(step)
    ensures InRange(Walk(step, moves))
    decreases |moves|
  {
    if |moves| > 0 {
      WalkStaysInRange(Apply(step, moves[0]), moves[1..]);
    }
  }

  /** Enough Next moves reach the last step and stay there. */
  lemma {:induction false} NextSaturates(step: int, n: nat)
    requires InRange(step) && n >= TotalSteps - step
    ensures Walk(step, seq(n, _ => Next)) == TotalSteps
    decreases n
  {
    if n > 0 {
      var moves := seq(n, _ => Next);
      assert moves[0] == Next && moves[1..] == seq(n - 1, _ => Next);
      if step < TotalSteps {
        NextSaturates(step + 1, n - 1);
      } else {
        NextSaturates(step, n - 1);
      }
    }
  }

  // ---------------------------------------------------------------------
  // The schema

  datatype Field =
    | FirstName | LastName | Email | Phone | DateOfBirth | Address
    | Service | PreferredDate | PreferredTime | Notes

  /** The form values as submitted; a field never filled is `None`. */
  datatype FormInput = FormInput(
    firstName: Option<string>,
    lastName: Option<string>,
    email: Option<string>,
    phone: Option<string>,
    dateOfBirth: Option<string>,
    address: Option<string>,
    service: Option<string>,
    preferredDate: Option<string>,
    preferredTime: Option<string>,
    notes: Option<string>)

  /** The values the schema hands on once every rule holds. */
  datatype BookingData = BookingData(
    firstName: string,
    lastName: string,
    email: string,
    phone: string,
    dateOfBirth: Option<string>,
    address: Option<string>,
    service: string,
    preferredDate: string,
    preferredTime: string,
    notes: Option<string>)

  datatype Issue = Issue(field: Field, message: string)

  /** The message a missing required value gets. */
  const RequiredMessage := "Required"

  /** The messages of the schema's rules. */
  const FirstNameMessage := "First name must be at least 2 characters"
  const LastNameMessage := "Last name must be at least 2 characters"
  const EmailMessage := "Please enter a valid email address"
  const PhoneMessage := "Please enter a valid phone number"
  const ServiceMessage := "Please select a service"
  const PreferredDateMessage := "Please select a preferred date"
  const PreferredTimeMessage := "Please select a preferred time"

  /** `issues` holds the message for a missing `value` of `field`, and the
      rule's own message when the value is shorter than `min`. */
  predicate ReportsMin(issues: seq<Issue>, field: Field, value: Option<string>, min: nat, message: string)
  {
    && (value.None? ==> Issue(field, RequiredMessage) in issues)
    && (value.Some? && |value.value| < min ==> Issue(field, message) in issues)
  }

  /** A required string of at least `min` characters. */
  function MinLength(field: Field, value: Option<string>, min: nat, message: string): (r: seq<Issue>)
    ensures |r| <= 1
    ensures forall x :: x in r ==> x.field == field
    ensures ReportsMin(r, field, value, min, message)
  {
    match value
    case None => [Issue(field, RequiredMessage)]
    case Some(s) => if |s| >= min then [] else [Issue(field, message)]
  }

  /** A required string that `isEmail` accepts. */
  function EmailRule(value: Option<string>, isEmail: string -> bool): (r: seq<Issue>)
    ensures |r| <= 1
    ensures forall x :: x in r ==> x.field == Email
    ensures value.None? ==> Issue(Email, RequiredMessage) in r
    ensures value.Some? && !isEmail(value.value) ==> Issue(Email, EmailMessage) in r
  {
    match value
    case None => [Issue(Email, RequiredMessage)]
    case Some(s) => if isEmail(s) then [] else [Issue(Email, EmailMessage)]
  }

  /** Every rule the schema breaks, in the order of its fields. The three
      optional fields have no rule. */
  function Issues(f: FormInput, isEmail: string -> bool): (r: seq<Issue>)
    ensures |r| <= 7
    ensures forall x :: x in r ==> x.field != DateOfBirth && x.field != Address && x.field != Notes
  {
    var a := MinLength(FirstName, f.firstName, 2, FirstNameMessage);
    var b := MinLength(LastName, f.lastName, 2, LastNameMessage);
    var c := EmailRule(f.email, isEmail);
    var d := MinLength(Phone, f.phone, 10, PhoneMessage);
    var e := MinLength(Service, f.service, 1, ServiceMessage);
    var g := MinLength(PreferredDate, f.preferredDate, 1, PreferredDateMessage);
    var h := MinLength(PreferredTime, f.preferredTime, 1, PreferredTimeMessage);
    a + b + c + d + e + g + h
  }

  /** A missing required value is reported with the required message, and
      a value that breaks its rule with the rule's own message. */
  lemma IssuesCarryTheRuleMessages(f: FormInput, isEmail: string -> bool)
    ensures ReportsMin(Issues(f, isEmail), FirstName, f.firstName, 2, FirstNameMessage)
    ensures ReportsMin(Issues(f, isEmail), LastName, f.lastName, 2, LastNameMessage)
    ensures f.email.None? ==> Issue(Email, RequiredMessage) in Issues(f, isEmail)
    ensures f.email.Some? && !isEmail(f.email.value) ==> Issue(Email, EmailMessage) in Issues(f, isEmail)
    ensures ReportsMin(Issues(f, isEmail), Phone, f.phone, 10, PhoneMessage)
    ensures ReportsMin(Issues(f, isEmail), Service, f.service, 1, ServiceMessage)
    ensures ReportsMin(Issues(f, isEmail), PreferredDate, f.preferredDate, 1, PreferredDateMessage)
    ensures ReportsMin(Issues(f, isEmail), PreferredTime, f.preferredTime, 1, PreferredTimeMessage)
  {
    var a := MinLength(FirstName, f.firstName, 2, FirstNameMessage);
    var b := MinLength(LastName, f.lastName, 2, LastNameMessage);
    var c := EmailRule(f.email, isEmail);
    var d := MinLength(Phone, f.phone, 10, PhoneMessage);
    var e := MinLength(Service, f.service, 1, ServiceMessage);
    var g := MinLength(PreferredDate, f.preferredDate, 1, PreferredDateMessage);
    var h := MinLength(PreferredTime, f.preferredTime, 1, PreferredTimeMessage);
    var r := Issues(f, isEmail);
    assert r == a + b + c + d + e + g + h;
    assert forall x :: x in a || x in b || x in c || x in d || x in e || x in g || x in h ==> x in r;
  }

  /** No two issues name the same field. */
  predicate DistinctFields(issues: seq<Issue>)
  {
    forall i, j :: 0 <= i < j < |issues| ==> issues[i].field != issues[j].field
  }

  /** The schema reports each field at most once. */
  lemma IssuesOncePerField(f: FormInput, isEmail: string -> bool)
    ensures DistinctFields(Issues(f, isEmail))
  {
  }

  /** A field's value is present and at least `min` long. */
  predicate HasMin(value: Option<string>, min: nat)
  {
    value.Some? && |value.value| >= min
  }

  /** The acceptance condition, field by field. */
  predicate Acceptable(f: FormInput, isEmail: string -> bool)
  {
    && HasMin(f.firstName, 2)
    && HasMin(f.lastName, 2)
    && f.email.Some? && isEmail(f.email.value)
    && HasMin(f.phone, 10)
    && HasMin(f.service, 1)
    && HasMin(f.preferredDate, 1)
    && HasMin(f.preferredTime, 1)
  }

  predicate Flags(issues: seq<Issue>, field: Field)
  {
    exists i :: 0 <= i < |issues| && issues[i].field == field
  }

  /** A rule for one field reports only that field, and reports it exactly
      when the value is missing or too short. */
  lemma MinLengthFlags(field: Field, value: Option<string>, min: nat, message: string, other: Field)
    ensures Flags(MinLength(field, value, min, message), field) <==> !HasMin(value, min)
    ensures other != field ==> !Flags(MinLength(field, value, min, message), other)
  {
    var r := MinLength(field, value, min, message);
    if !HasMin(value, min) {
      assert r[0].field == field;
    }
  }

  lemma FlagsConcat(a: seq<Issue>, b: seq<Issue>, field: Field)
    ensures Flags(a + b, field) <==> Flags(a, field) || Flags(b, field)
  {
    if Flags(a + b, field) {
      var i :| 0 <= i < |a + b| && (a + b)[i].field == field;
      if i >= |a| {
        assert b[i - |a|].field == field;
      }
    }
    if Flags(b, field) {
      var i :| 0 <= i < |b| && b[i].field == field;
      assert (a + b)[|a| + i].field == field;
    }
    if Flags(a, field) {
      var i :| 0 <= i < |a| && a[i].field == field;
      assert (a + b)[i].field == field;
    }
  }

  lemma EmailRuleFlags(value: Option<string>, isEmail: string -> bool, field: Field)
    ensures Flags(EmailRule(value, isEmail), field) <==> field == Email && !(value.Some? && isEmail(value.value))
  {
    var r := EmailRule(value, isEmail);
    if !(value.Some? && isEmail(value.value)) {
      assert r[0].field == Email;
    }
  }

  /** Whether the schema's rule for `field` fails; the optional fields have
      no rule. */
  predicate Fails(f: FormInput, isEmail: string -> bool, field: Field)
  {
    match field
    case FirstName => !HasMin(f.firstName, 2)
    case LastName => !HasMin(f.lastName, 2)
    case Email => !(f.email.Some? && isEmail(f.email.value))
    case Phone => !HasMin(f.phone, 10)
    case Service => !HasMin(f.service, 1)
    case PreferredDate => !HasMin(f.preferredDate, 1)
    case PreferredTime => !HasMin(f.preferredTime, 1)
    case DateOfBirth => false
    case Address => false
    case Notes => false
  }

  /** The schema reports a field exactly when that field's rule fails, so
      it never reports an optional field. */
  lemma IssuesFlagExactlyTheFailingFields(f: FormInput, isEmail: string -> bool, field: Field)
    ensures Flags(Issues(f, isEmail), field) <==> Fails(f, isEmail, field)
  {
    var a := MinLength(FirstName, f.firstName, 2, FirstNameMessage);
    var b := MinLength(LastName, f.lastName, 2, LastNameMessage);
    var c := EmailRule(f.email, isEmail);
    var d := MinLength(Phone, f.phone, 10, PhoneMessage);
    var e := MinLength(Service, f.service, 1, ServiceMessage);
    var g := MinLength(PreferredDate, f.preferredDate, 1, PreferredDateMessage);
    var h := MinLength(PreferredTime, f.preferredTime, 1, PreferredTimeMessage);
    assert Issues(f, isEmail) == a + b + c + d + e + g + h;
    FlagsConcat(a, b, field);
    FlagsConcat(a + b, c, field);
    FlagsConcat(a + b + c, d, field);
    FlagsConcat(a + b + c + d, e, field);
    FlagsConcat(a + b + c + d + e, g, field);
    FlagsConcat(a + b + c + d + e + g, h, field);
    MinLengthFlags(FirstName, f.firstName, 2, FirstNameMessage, field);
    MinLengthFlags(LastName, f.lastName, 2, LastNameMessage, field);
    EmailRuleFlags(f.email, isEmail, field);
    MinLengthFlags(Phone, f.phone, 10, PhoneMessage, field);
    MinLengthFlags(Service, f.service, 1, ServiceMessage, field);
    MinLengthFlags(PreferredDate, f.preferredDate, 1, PreferredDateMessage, field);
    MinLengthFlags(PreferredTime, f.preferredTime, 1, PreferredTimeMessage, field);
  }

  /** No issue at all exactly when the form is acceptable. */
  lemma NoIssuesIffAcceptable(f: FormInput, isEmail: string -> bool)
    ensures Issues(f, isEmail) == [] <==> Acceptable(f, isEmail)
  {
    var issues := Issues(f, isEmail);
    if issues != [] {
      assert Flags(issues, issues[0].field);
      IssuesFlagExactlyTheFailingFields(f, isEmail, issues[0].field);
    }
    if !Acceptable(f, isEmail) {
      var field :=
        if !HasMin(f.firstName, 2) then FirstName
        else if !HasMin(f.lastName, 2) then LastName
        else if !(f.email.Some? && isEmail(f.email.value)) then Email
        else if !HasMin(f.phone, 10) then Phone
        else if !HasMin(f.service, 1) then Service
        else if !HasMin(f.preferredDate, 1) then PreferredDate
        else PreferredTime;
      IssuesFlagExactlyTheFailingFields(f, isEmail, field);
    }
  }

  /** Runs the schema: the parsed booking when every rule holds, otherwise
      every issue found. */
  function Validate(f: FormInput, isEmail: string -> bool): (r: Result<BookingData, seq<Issue>>)
    ensures r.Ok? <==> Acceptable(f, isEmail)
    ensures r.Err? ==> r.error == Issues(f, isEmail) && |r.error| > 0
    ensures r.Ok? ==> r.value.firstName == f.firstName.value && r.value.lastName == f.lastName.value
    ensures r.Ok? ==> r.value.email == f.email.value && r.value.phone == f.phone.value
    ensures r.Ok? ==> r.value.service == f.service.value && r.value.preferredDate == f.preferredDate.value
    ensures r.Ok? ==> r.value.preferredTime == f.preferredTime.value
    ensures r.Ok? ==> r.value.dateOfBirth == f.dateOfBirth && r.value.address == f.address
    ensures r.Ok? ==> r.value.notes == f.notes
  {
    NoIssuesIffAcceptable(f, isEmail);
    if Issues(f, isEmail) != [] then Err(Issues(f, isEmail))
    else
      Ok(BookingData(f.firstName.value, f.lastName.value, f.email.value, f.phone.value,
        f.dateOfBirth, f.address, f.service.value, f.preferredDate.value,
        f.preferredTime.value, f.notes))
  }

  /** Whatever the date of birth, address and notes hold, or whether they
      are there at all, acceptance does not change. */
  lemma OptionalFieldsNeverReject(f: FormInput, isEmail: string -> bool,
                                   dateOfBirth: Option<string>, address: Option<string>, notes: Option<string>)
    ensures Validate(f, isEmail).Ok? ==
      Validate(f.(dateOfBirth := dateOfBirth, address := address, notes := notes), isEmail).Ok?
  {
  }

  // ---------------------------------------------------------------------
  // Time slots

  /** The times offered for a booking. */
  const TimeSlots: seq<string> := [
    "09:00", "09:30", "10:00", "10:30", "11:00", "11:30",
    "14:00", "14:30", "15:00", "15:30", "16:00", "16:30", "17:00"
  ]

  predicate IsDigit(ch: char)
  {
    '0' <= ch <= '9'
  }

  /** Thirteen slots, each an "HH:MM" string, in strictly increasing order. */
  lemma TimeSlotsOrdered()
    ensures |TimeSlots| == 13
    ensures forall i :: 0 <= i < |TimeSlots| ==> |TimeSlots[i]| == 5 && TimeSlots[i][2] == ':'
    ensures forall i :: 0 <= i < |TimeSlots| ==>
      IsDigit(TimeSlots[i][0]) && IsDigit(TimeSlots[i][1]) && IsDigit(TimeSlots[i][3]) && IsDigit(TimeSlots[i][4])
    ensures forall i :: 0 <= i < |TimeSlots| - 1 ==>
      Seqs.StrLe(TimeSlots[i], TimeSlots[i + 1]) && TimeSlots[i] != TimeSlots[i + 1]
  {
  }

  /** The schema checks the preferred time only for being non-empty: any
      non-empty time, offered slot or not ("12:15" is not one), is accepted
      as long as the rest is. */
  lemma PreferredTimeNotCheckedAgainstSlots(f: FormInput, isEmail: string -> bool, t: string)
    requires Acceptable(f, isEmail)
    requires t != ""
    ensures "12:15" !in TimeSlots
    ensures Validate(f.(preferredTime := Some(t)), isEmail).Ok?
  {
  }
}
