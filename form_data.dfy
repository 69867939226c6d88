// The values held by the itinerary request form (src/components/ItineraryForm.jsx):
// one record per form section, the three repeatable field groups, and the
// defaults the form is mounted with and appends with.

module FormData {
  import opened JsValues

  /**
   * A date input. The browser gives either an empty string or a valid date;
   * a valid date is modelled by the instant `new Date(value)` denotes, in
   * milliseconds.
   */
  datatype DateInput = Blank | On(ms: int)

  datatype UserDetails = UserDetails(name: string, email: string, phone: string, numberOfTravelers: Value)

  datatype TripDetails = TripDetails(
    destination: string,
    departureFrom: string,
    departureDate: DateInput,
    arrivalDate: DateInput,
    numberOfDays: Value,
    numberOfNights: Value,
    tripType: string)

  datatype Activity = Activity(
    activityId: string,
    activityName: string,
    description: string,
    day: Value,
    timeSlot: string,
    price: Value,
    duration: string,
    notes: string)

  /** A flight row; `cabinClass` is the record's `class` key. */
  datatype Flight = Flight(
    date: string,
    airline: string,
    route: string,
    flightNumber: string,
    departureTime: string,
    arrivalTime: string,
    cabinClass: string)

  datatype Hotel = Hotel(
    city: string,
    checkIn: string,
    checkOut: string,
    nights: Value,
    hotelName: string,
    roomType: string,
    address: string)

  datatype PaymentPlan = PaymentPlan(totalAmount: Value, currency: Value, installments: seq<Value>)

  /** The visa record; `visaType` is the record's `type` key. */
  datatype Visa = Visa(required: bool, visaType: string, validity: string, processingDate: Option<string>)

  datatype AdditionalServices = AdditionalServices(
    scopeOfServices: seq<string>,
    specialNotes: string,
    paymentPlan: PaymentPlan,
    visa: Visa)

  /** Everything the form holds, and also the shape of the payload it posts. */
  datatype Form = Form(
    userDetails: UserDetails,
    tripDetails: TripDetails,
    activities: seq<Activity>,
    flights: seq<Flight>,
    hotels: seq<Hotel>,
    additionalServices: AdditionalServices)

  /** The activity appended by "Add Activity"; `id` stands for `act_${Date.now()}`. */
  function NewActivity(id: string): Activity {
    Activity(id, "", "", Num(1), "Morning", Num(0), "", "")
  }

  /** The flight appended by "Add Flight". */
  const NewFlight: Flight := Flight("", "", "", "", "", "", "Economy")

  /** The hotel appended by "Add Hotel". */
  const NewHotel: Hotel := Hotel("", "", "", Num(1), "", "Standard", "")

  /** The form's `defaultValues`: one blank activity, no flights and no hotels. */
  const DefaultForm: Form := Form(
    UserDetails("", "", "", Num(1)),
    TripDetails("", "", Blank, Blank, Num(1), Num(0), "leisure"),
    [NewActivity("act_1")],
    [],
    [],
    AdditionalServices([], "", PaymentPlan(Num(0), Str("INR"), []), Visa(false, "", "", None)))
}
