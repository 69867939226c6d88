// The payload normaliser of `onSubmit` in src/components/ItineraryForm.jsx:
// it recomputes the trip length from the two dates, coerces the numeric
// fields with `Number(x) || default`, defaults the currency to "INR", and
// carries every other field over unchanged through object spreads.

module Normaliser {
  import opened JsValues
  import opened FormData
  import Validation

  /** `1000 * 3600 * 24`: one day in milliseconds. */
  const MsPerDay: int := 1000 * 3600 * 24

  /** `Math.ceil(a / b)` for a positive divisor, in integers. */
  function CeilDiv(a: int, b: int): (q: int)
    requires b > 0
    ensures (q - 1) * b < a <= q * b
  {
    var r := (-a) % b;
    assert -a == ((-a) / b) * b + r;
    -((-a) / b)
  }

  /** The ceiling is the only integer `q` with `(q - 1) * b < a <= q * b`. */
  lemma CeilDivUnique(a: int, b: int, q: int)
    requires b > 0
    requires (q - 1) * b < a <= q * b
    ensures q == CeilDiv(a, b)
  {
    var c := CeilDiv(a, b);
    MulLessCancel(q - 1, c, b);
    MulLessCancel(c - 1, q, b);
  }

  lemma MulLessCancel(x: int, y: int, b: int)
    requires b > 0 && x * b < y * b
    ensures x < y
  {
    assert (y - x) * b == y * b - x * b;
  }

  /** `nights` is the number of started days that `span` milliseconds cover. */
  predicate CoversSpan(nights: int, span: int) {
    (nights - 1) * MsPerDay < span <= nights * MsPerDay
  }

  /**
   * `daysDiff`: the ceiling of the date difference in days, or NaN when
   * either date is blank (`new Date('')` is an invalid date).
   */
  function DaysDiff(departure: DateInput, arrival: DateInput): (r: Value)
    ensures r.Num? <==> departure.On? && arrival.On?
    ensures r.Num? ==> CoversSpan(r.n, arrival.ms - departure.ms)
    ensures !r.Num? ==> r == NaN
  {
    if departure.On? && arrival.On? then Num(CeilDiv(arrival.ms - departure.ms, MsPerDay)) else NaN
  }

  /** `x + 1` on a number or NaN. */
  function PlusOne(v: Value): (r: Value)
    ensures v.Num? ==> r == Num(v.n + 1)
    ensures !v.Num? ==> r == NaN
  {
    if v.Num? then Num(v.n + 1) else NaN
  }

  /** `{...activity, price: Number(activity.price) || 0, day: Number(activity.day) || 1}` */
  function NormaliseActivity(a: Activity): (r: Activity)
    ensures r.(price := a.price, day := a.day) == a
    ensures r.price == Num(NumberOr(a.price, 0))
    ensures r.day.Num? && r.day.n != 0 && r.day == Num(NumberOr(a.day, 1))
  {
    a.(price := Num(NumberOr(a.price, 0)), day := Num(NumberOr(a.day, 1)))
  }

  /** The `processedData` that `onSubmit` posts. */
  function Normalise(f: Form): (p: Form)
    // flights and hotels are carried over by `...data`
    ensures p.flights == f.flights && p.hotels == f.hotels
    // the traveller count is coerced and falls back to 1
    ensures p.userDetails.(numberOfTravelers := f.userDetails.numberOfTravelers) == f.userDetails
    ensures p.userDetails.numberOfTravelers == Num(NumberOr(f.userDetails.numberOfTravelers, 1))
    // the trip length is recomputed from the dates, overwriting the old values
    ensures p.tripDetails.(numberOfDays := f.tripDetails.numberOfDays, numberOfNights := f.tripDetails.numberOfNights)
      == f.tripDetails
    ensures p.tripDetails.numberOfNights.Num?
      <==> f.tripDetails.departureDate.On? && f.tripDetails.arrivalDate.On?
    ensures p.tripDetails.numberOfNights.Num? ==>
      && CoversSpan(p.tripDetails.numberOfNights.n, f.tripDetails.arrivalDate.ms - f.tripDetails.departureDate.ms)
      && p.tripDetails.numberOfDays == Num(p.tripDetails.numberOfNights.n + 1)
    ensures !p.tripDetails.numberOfNights.Num? ==>
      p.tripDetails.numberOfNights == NaN && p.tripDetails.numberOfDays == NaN
    // activities keep their number and order; only price and day change
    ensures |p.activities| == |f.activities|
    ensures forall i :: 0 <= i < |f.activities| ==> p.activities[i] == NormaliseActivity(f.activities[i])
    // the payment plan: total coerced with fallback 0, currency defaults to "INR"
    ensures p.additionalServices.(paymentPlan := f.additionalServices.paymentPlan) == f.additionalServices
    ensures p.additionalServices.paymentPlan.installments == f.additionalServices.paymentPlan.installments
    ensures p.additionalServices.paymentPlan.totalAmount
      == Num(NumberOr(f.additionalServices.paymentPlan.totalAmount, 0))
    ensures Truthy(f.additionalServices.paymentPlan.currency)
      ==> p.additionalServices.paymentPlan.currency == f.additionalServices.paymentPlan.currency
    ensures !Truthy(f.additionalServices.paymentPlan.currency)
      ==> p.additionalServices.paymentPlan.currency == Str("INR")
  {
    var daysDiff := DaysDiff(f.tripDetails.departureDate, f.tripDetails.arrivalDate);
    var plan := f.additionalServices.paymentPlan;
    f.(
      userDetails := f.userDetails.(numberOfTravelers := Num(NumberOr(f.userDetails.numberOfTravelers, 1))),
      tripDetails := f.tripDetails.(numberOfDays := PlusOne(daysDiff), numberOfNights := daysDiff),
      activities := seq(|f.activities|, i requires 0 <= i < |f.activities| => NormaliseActivity(f.activities[i])),
      additionalServices := f.additionalServices.(
        paymentPlan := plan.(
          totalAmount := Num(NumberOr(plan.totalAmount, 0)),
          currency := Or(plan.currency, Str("INR")))))
  }

  /** A trip of exactly `k` whole days has `k` nights and `k + 1` days. */
  lemma WholeDaysTrip(f: Form, k: int)
    requires f.tripDetails.departureDate.On? && f.tripDetails.arrivalDate.On?
    requires f.tripDetails.arrivalDate.ms == f.tripDetails.departureDate.ms + k * MsPerDay
    ensures Normalise(f).tripDetails.numberOfNights == Num(k)
    ensures Normalise(f).tripDetails.numberOfDays == Num(k + 1)
  {
    var span := f.tripDetails.arrivalDate.ms - f.tripDetails.departureDate.ms;
    assert (k - 1) * MsPerDay < span;
    CeilDivUnique(span, MsPerDay, k);
  }

  /**
   * A return date a day or more before the departure is not guarded: the
   * nights come out negative and the days at most 0.
   */
  lemma ReversedDatesNotGuarded(f: Form)
    requires f.tripDetails.departureDate.On? && f.tripDetails.arrivalDate.On?
    requires f.tripDetails.arrivalDate.ms <= f.tripDetails.departureDate.ms - MsPerDay
    ensures Normalise(f).tripDetails.numberOfNights.Num? && Normalise(f).tripDetails.numberOfNights.n < 0
    ensures Normalise(f).tripDetails.numberOfDays.Num? && Normalise(f).tripDetails.numberOfDays.n <= 0
  {
  }

  /**
   * An activity price typed as the integer `price` posts that number, and a
   * blank price posts 0.
   */
  lemma PriceFromText(a: Activity, price: int)
    ensures a.price == Str(IntToString(price)) ==> NormaliseActivity(a).price == Num(price)
    ensures a.price == Str("") ==> NormaliseActivity(a).price == Num(0)
  {
    if a.price == Str(IntToString(price)) {
      ParseIntToString(price);
      assert Number(a.price) == Num(price);
    }
    if a.price == Str("") {
      assert Number(a.price) == Num(0);
    }
  }

  /**
   * An activity day typed as the integer `day` posts that number, except that
   * day 0 becomes 1; a blank day posts 1.
   */
  lemma DayFromText(a: Activity, day: int)
    ensures a.day == Str(IntToString(day)) ==> NormaliseActivity(a).day == Num(if day == 0 then 1 else day)
    ensures a.day == Str("") ==> NormaliseActivity(a).day == Num(1)
  {
    if a.day == Str(IntToString(day)) {
      ParseIntToString(day);
      assert Number(a.day) == Num(day);
    }
    if a.day == Str("") {
      assert Number(a.day) == Num(0);
    }
  }

  /**
   * A price or day typed with whitespace around it, a `+` or `-` sign or
   * leading zeros posts the integer it denotes; a day denoting 0 posts 1.
   */
  lemma TypedActivityNumbers(a: Activity, w1: string, sign: string, d: string, w2: string)
    requires AllWhitespace(w1) && AllWhitespace(w2)
    requires sign == "" || sign == "+" || sign == "-"
    requires |d| >= 1 && AllDigits(d)
    ensures var n := if sign == "-" then -(DigitsValue(d) as int) else DigitsValue(d);
      && (a.price == Str(w1 + sign + d + w2) ==> NormaliseActivity(a).price == Num(n))
      && (a.day == Str(w1 + sign + d + w2) ==> NormaliseActivity(a).day == Num(if n == 0 then 1 else n))
  {
    ParseTypedInteger(w1, sign, d, w2);
  }

  /** Normalising an already normalised payload changes nothing. */
  lemma NormaliseIdempotent(f: Form)
    ensures Normalise(Normalise(f)) == Normalise(f)
  {
    var p := Normalise(f);
    var q := Normalise(p);
    assert q.activities == p.activities by {
      forall i | 0 <= i < |p.activities| ensures q.activities[i] == p.activities[i] {
        assert NormaliseActivity(p.activities[i]) == p.activities[i];
      }
    }
    assert q.userDetails == p.userDetails;
    assert q.tripDetails == p.tripDetails;
    assert q.additionalServices == p.additionalServices;
  }

  /** Coercing the traveller count keeps a count that passed its rules. */
  lemma NormaliseKeepsUserRules(u: UserDetails)
    requires Validation.UserRulesHold(u)
    ensures Validation.UserRulesHold(u.(numberOfTravelers := Num(NumberOr(u.numberOfTravelers, 1))))
  {
    var n := NumberOr(u.numberOfTravelers, 1);
    assert n >= 1;
    assert Number(Num(n)) == Num(n);
  }

  /** A form that passes validation still passes it after normalisation. */
  lemma NormaliseKeepsSubmittable(f: Form)
    requires Validation.Submittable(f)
    ensures Validation.Submittable(Normalise(f))
  {
    var p := Normalise(f);
    Validation.SubmittableIff(f);
    NormaliseKeepsUserRules(f.userDetails);
    assert Validation.UserRulesHold(p.userDetails);
    assert Validation.TripRulesHold(p.tripDetails);
    forall i | 0 <= i < |p.activities|
      ensures Validation.ActivityRulesHold(p.activities[i])
    {
      assert Validation.ActivityRulesHold(f.activities[i]);
    }
    Validation.SubmittableIff(p);
  }
}
