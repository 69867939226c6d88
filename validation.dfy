// The submission validator of src/components/ItineraryForm.jsx: the rules
// declared in the form's `register(...)` calls, evaluated when the form is
// submitted. Each field reports the message of its first failing rule, and
// `onSubmit` runs only when no field reports one.

module Validation {
  import opened JsValues
  import opened FormData

  /** The registered fields that carry a rule. */
  datatype FieldPath =
    | Name | Email | Phone | NumberOfTravelers
    | Destination | DepartureFrom | DepartureDate | ArrivalDate
    | ActivityName(index: nat) | ActivityDay(index: nat)

  /** react-hook-form's `required` test: an empty string or a missing value. */
  predicate IsEmpty(v: Value) {
    v == Str("") || v == Undefined
  }

  /**
   * `/^\S+@\S+$/i` read as a regular expression: the whole string splits into
   * a non-empty run of non-whitespace, an `@`, and another non-empty run of
   * non-whitespace.
   */
  ghost predicate MatchesEmailPattern(s: string) {
    exists k :: 0 < k < |s| - 1 && s[k] == '@' && NoWhitespace(s[..k]) && NoWhitespace(s[k + 1..])
  }

  /** The same pattern as one scan: no whitespace, and an `@` that is neither first nor last. */
  predicate LooksLikeEmail(s: string) {
    NoWhitespace(s) && exists k :: 0 < k < |s| - 1 && s[k] == '@'
  }

  lemma EmailPatternScan(s: string)
    ensures LooksLikeEmail(s) <==> MatchesEmailPattern(s)
  {
    if LooksLikeEmail(s) {
      var k :| 0 < k < |s| - 1 && s[k] == '@';
      assert NoWhitespace(s[..k]) by {
        forall i | 0 <= i < k ensures !IsWhitespace(s[..k][i]) { assert s[..k][i] == s[i]; }
      }
      var rest := s[k + 1..];
      assert NoWhitespace(rest) by {
        forall i | 0 <= i < |rest| ensures !IsWhitespace(rest[i]) { assert rest[i] == s[k + 1 + i]; }
      }
    }
    if MatchesEmailPattern(s) {
      var k :| 0 < k < |s| - 1 && s[k] == '@' && NoWhitespace(s[..k]) && NoWhitespace(s[k + 1..]);
      forall i | 0 <= i < |s| ensures !IsWhitespace(s[i]) {
        if i < k {
          assert s[i] == s[..k][i];
        } else if i > k {
          assert s[i] == s[k + 1..][i - k - 1];
        }
      }
    }
  }

  function Required(text: string, message: string): Option<string> {
    if text == "" then Some(message) else None
  }

  function RequiredDate(date: DateInput, message: string): Option<string> {
    if date.Blank? then Some(message) else None
  }

  /** The `min: 1` rule: fails when the value reads as a number below 1 (NaN never fails it). */
  predicate BelowOne(v: Value) {
    Number(v).Num? && Number(v).n < 1
  }

  /** The message of the first rule field `p` fails in form `f`, if any. */
  function Check(f: Form, p: FieldPath): Option<string> {
    match p
    case Name => Required(f.userDetails.name, "Name is required")
    case Email =>
      if f.userDetails.email == "" then Some("Email is required")
      else if !LooksLikeEmail(f.userDetails.email) then Some("Invalid email address")
      else None
    case Phone => Required(f.userDetails.phone, "Phone number is required")
    case NumberOfTravelers =>
      if IsEmpty(f.userDetails.numberOfTravelers) then Some("Number of travelers is required")
      else if BelowOne(f.userDetails.numberOfTravelers) then Some("At least 1 traveler required")
      else None
    case Destination => Required(f.tripDetails.destination, "Destination is required")
    case DepartureFrom => Required(f.tripDetails.departureFrom, "Departure location is required")
    case DepartureDate => RequiredDate(f.tripDetails.departureDate, "Departure date is required")
    case ArrivalDate => RequiredDate(f.tripDetails.arrivalDate, "Return date is required")
    case ActivityName(i) =>
      if i < |f.activities| then Required(f.activities[i].activityName, "Activity name is required") else None
    case ActivityDay(i) =>
      // `required: true` carries no message of its own
      if i < |f.activities| && IsEmpty(f.activities[i].day) then Some("") else None
  }

  /** The fields registered with a rule: the fixed ones and two per activity row. */
  function Registered(f: Form): (r: set<FieldPath>)
    ensures forall p :: p in r <==> IsRegistered(f, p)
  {
    var r := {Name, Email, Phone, NumberOfTravelers, Destination, DepartureFrom, DepartureDate, ArrivalDate}
      + (set i: nat | i < |f.activities| :: ActivityName(i))
      + (set i: nat | i < |f.activities| :: ActivityDay(i));
    assert forall p :: p in r <==> IsRegistered(f, p) by {
      forall p ensures p in r <==> IsRegistered(f, p) {
        if (p.ActivityName? || p.ActivityDay?) && p.index < |f.activities| {
          assert p == ActivityName(p.index) || p == ActivityDay(p.index);
        }
      }
    }
    r
  }

  /** The `errors` object after a submission attempt: each failing field with its first message. */
  function Errors(f: Form): map<FieldPath, string> {
    map p | p in Registered(f) && Check(f, p).Some? :: Check(f, p).value
  }

  /** Whether field `p` is registered in form `f`: the fixed fields, and two per existing activity row. */
  predicate IsRegistered(f: Form, p: FieldPath) {
    match p
    case ActivityName(i) => i < |f.activities|
    case ActivityDay(i) => i < |f.activities|
    case _ => true
  }

  /** A field is in `errors` exactly when it is registered and one of its rules fails, with that rule's message. */
  lemma ErrorsAt(f: Form, p: FieldPath)
    ensures p in Errors(f) <==> IsRegistered(f, p) && Check(f, p).Some?
    ensures p in Errors(f) ==> Errors(f)[p] == Check(f, p).value
  {
    assert p in Registered(f) <==> IsRegistered(f, p);
  }

  /**
   * The fields with only a `required` rule: each is in `errors` exactly when
   * its value is empty (a date, when it is blank), with its own message.
   */
  lemma RequiredFieldErrors(f: Form)
    ensures Name in Errors(f) <==> f.userDetails.name == ""
    ensures Name in Errors(f) ==> Errors(f)[Name] == "Name is required"
    ensures Phone in Errors(f) <==> f.userDetails.phone == ""
    ensures Phone in Errors(f) ==> Errors(f)[Phone] == "Phone number is required"
    ensures Destination in Errors(f) <==> f.tripDetails.destination == ""
    ensures Destination in Errors(f) ==> Errors(f)[Destination] == "Destination is required"
    ensures DepartureFrom in Errors(f) <==> f.tripDetails.departureFrom == ""
    ensures DepartureFrom in Errors(f) ==> Errors(f)[DepartureFrom] == "Departure location is required"
    ensures DepartureDate in Errors(f) <==> f.tripDetails.departureDate.Blank?
    ensures DepartureDate in Errors(f) ==> Errors(f)[DepartureDate] == "Departure date is required"
    ensures ArrivalDate in Errors(f) <==> f.tripDetails.arrivalDate.Blank?
    ensures ArrivalDate in Errors(f) ==> Errors(f)[ArrivalDate] == "Return date is required"
  {
    ErrorsAt(f, Name);
    ErrorsAt(f, Phone);
    ErrorsAt(f, Destination);
    ErrorsAt(f, DepartureFrom);
    ErrorsAt(f, DepartureDate);
    ErrorsAt(f, ArrivalDate);
  }

  /** `handleSubmit` calls `onSubmit` only when no rule fails. */
  predicate Submittable(f: Form) {
    Errors(f) == map[]
  }

  /** The rules on the traveller's details hold. */
  ghost predicate UserRulesHold(u: UserDetails) {
    && u.name != ""
    && u.email != "" && MatchesEmailPattern(u.email)
    && u.phone != ""
    && !IsEmpty(u.numberOfTravelers) && !BelowOne(u.numberOfTravelers)
  }

  /** The rules on the trip details hold. */
  predicate TripRulesHold(t: TripDetails) {
    t.destination != "" && t.departureFrom != "" && t.departureDate.On? && t.arrivalDate.On?
  }

  /** The rules on one activity row hold. */
  predicate ActivityRulesHold(a: Activity) {
    a.activityName != "" && !IsEmpty(a.day)
  }

  /** Every rule of the form holds, stated field by field. */
  ghost predicate RulesHold(f: Form) {
    && UserRulesHold(f.userDetails)
    && TripRulesHold(f.tripDetails)
    && forall i :: 0 <= i < |f.activities| ==> ActivityRulesHold(f.activities[i])
  }

  /** The form can be submitted exactly when every declared rule holds. */
  lemma SubmittableIff(f: Form)
    ensures Submittable(f) <==> RulesHold(f)
  {
    if Submittable(f) {
      SubmittableRulesHold(f);
    }
    if RulesHold(f) {
      RulesHoldSubmittable(f);
    }
  }

  /** In a submittable form no registered field fails a rule. */
  lemma NoErrorAt(f: Form, p: FieldPath)
    requires Submittable(f)
    requires IsRegistered(f, p)
    ensures Check(f, p).None?
  {
    ErrorsAt(f, p);
  }

  lemma SubmittableRulesHold(f: Form)
    requires Submittable(f)
    ensures RulesHold(f)
  {
    SubmittableUserDetails(f);
    SubmittableTrip(f);
    SubmittableActivities(f);
  }

  lemma SubmittableUserDetails(f: Form)
    requires Submittable(f)
    ensures UserRulesHold(f.userDetails)
  {
    NoErrorAt(f, Name);
    NoErrorAt(f, Phone);
    NoErrorAt(f, NumberOfTravelers);
    NoErrorAt(f, Email);
    EmailPatternScan(f.userDetails.email);
  }

  lemma SubmittableTrip(f: Form)
    requires Submittable(f)
    ensures TripRulesHold(f.tripDetails)
  {
    NoErrorAt(f, Destination);
    NoErrorAt(f, DepartureFrom);
    NoErrorAt(f, DepartureDate);
    NoErrorAt(f, ArrivalDate);
  }

  lemma SubmittableActivities(f: Form)
    requires Submittable(f)
    ensures forall i :: 0 <= i < |f.activities| ==> ActivityRulesHold(f.activities[i])
  {
    forall i | 0 <= i < |f.activities|
      ensures ActivityRulesHold(f.activities[i])
    {
      NoErrorAt(f, ActivityName(i));
      NoErrorAt(f, ActivityDay(i));
    }
  }

  lemma RulesHoldSubmittable(f: Form)
    requires RulesHold(f)
    ensures Submittable(f)
  {
    EmailPatternScan(f.userDetails.email);
    forall p ensures p !in Errors(f) {
      ErrorsAt(f, p);
      match p
      case ActivityName(i) =>
        if i < |f.activities| { assert ActivityRulesHold(f.activities[i]); }
      case ActivityDay(i) =>
        if i < |f.activities| { assert ActivityRulesHold(f.activities[i]); }
      case _ =>
    }
    assert Errors(f).Keys == {};
  }

  /** The email field: "Email is required" when empty, "Invalid email address" when it does not match the pattern. */
  lemma EmailErrors(f: Form)
    ensures f.userDetails.email == "" ==> Email in Errors(f) && Errors(f)[Email] == "Email is required"
    ensures f.userDetails.email != "" && !MatchesEmailPattern(f.userDetails.email)
      ==> Email in Errors(f) && Errors(f)[Email] == "Invalid email address"
    ensures Email !in Errors(f) <==> MatchesEmailPattern(f.userDetails.email)
  {
    EmailPatternScan(f.userDetails.email);
    ErrorsAt(f, Email);
  }

  /** The traveller count: required, and a number below 1 gives "At least 1 traveler required". */
  lemma TravelerCountErrors(f: Form)
    ensures IsEmpty(f.userDetails.numberOfTravelers)
      ==> NumberOfTravelers in Errors(f) && Errors(f)[NumberOfTravelers] == "Number of travelers is required"
    ensures !IsEmpty(f.userDetails.numberOfTravelers) && BelowOne(f.userDetails.numberOfTravelers)
      ==> NumberOfTravelers in Errors(f) && Errors(f)[NumberOfTravelers] == "At least 1 traveler required"
    ensures NumberOfTravelers !in Errors(f)
      <==> !IsEmpty(f.userDetails.numberOfTravelers) && !BelowOne(f.userDetails.numberOfTravelers)
  {
    ErrorsAt(f, NumberOfTravelers);
  }

  /** An empty traveller name is reported against the name field and blocks the submission. */
  lemma EmptyNameBlocks(f: Form)
    requires f.userDetails.name == ""
    ensures Name in Errors(f) && Errors(f)[Name] == "Name is required"
    ensures !Submittable(f)
  {
    ErrorsAt(f, Name);
  }

  /** Every activity row reports a missing name, and a missing day, against its own index. */
  lemma ActivityErrors(f: Form, i: nat)
    requires i < |f.activities|
    ensures ActivityName(i) in Errors(f) <==> f.activities[i].activityName == ""
    ensures ActivityName(i) in Errors(f) ==> Errors(f)[ActivityName(i)] == "Activity name is required"
    ensures ActivityDay(i) in Errors(f) <==> IsEmpty(f.activities[i].day)
  {
    ErrorsAt(f, ActivityName(i));
    ErrorsAt(f, ActivityDay(i));
  }

  /** The form as mounted cannot be submitted: every required text and date field is still blank. */
  lemma DefaultFormErrors()
    ensures Errors(DefaultForm).Keys
      == {Name, Email, Phone, Destination, DepartureFrom, DepartureDate, ArrivalDate, ActivityName(0)}
  {
    var blank := {Name, Email, Phone, Destination, DepartureFrom, DepartureDate, ArrivalDate, ActivityName(0)};
    forall p ensures p in Errors(DefaultForm) <==> p in blank {
      DefaultFormCheck(p);
    }
  }

  lemma DefaultFormCheck(p: FieldPath)
    ensures p in Errors(DefaultForm) <==> p in {Name, Email, Phone, Destination, DepartureFrom, DepartureDate, ArrivalDate, ActivityName(0)}
  {
    var f := DefaultForm;
    ErrorsAt(f, p);
    assert |f.activities| == 1 && f.activities[0] == NewActivity("act_1");
    match p
    case NumberOfTravelers =>
      assert Number(Num(1)) == Num(1);
    case _ =>
  }
}
