// The submission client of src/services/api.js, without its transport: the
// base URL, the response interceptor's translation of a failed request into
// one message, the result wrappers of `generateItinerary` and `healthCheck`,
// and the download URL. The network reply is an input.

module Api {
  import opened JsValues

  /** The fallback when `VITE_API_BASE_URL` is unset or empty. */
  const DefaultApiBaseUrl: string := "https://vigovia-render-1.onrender.com"

  /** `API_BASE_URL`: the configured base URL, or the fallback host. */
  function ApiBaseUrl(env: Option<string>): (base: string)
    ensures base != ""
    ensures env.Some? && env.value != "" ==> base == env.value
    ensures env.None? || env.value == "" ==> base == DefaultApiBaseUrl
  {
    if env.Some? && env.value != "" then env.value else DefaultApiBaseUrl
  }

  /** A failed request as axios reports it. */
  datatype RequestError =
    | ErrorStatus(status: int, dataMessage: Value)  // the server answered; `data.message`
    | NoResponse                                    // sent, but nothing came back
    | Setup(errorMessage: string)                   // anything else; `error.message`

  /** How an awaited request settles. */
  datatype Reply<T> = Fulfilled(data: T) | Rejected(error: RequestError)

  /** The summary the server returns for a generated itinerary. */
  datatype TripSummary = TripSummary(destination: string, duration: string, travelers: Value, activitiesCount: Value)

  datatype GeneratedItinerary = GeneratedItinerary(tripSummary: TripSummary, downloadUrl: string)

  /** The body of a successful generate request: `response.data`. */
  datatype ItineraryResponse = ItineraryResponse(data: GeneratedItinerary)

  const NoResponseMessage: string := "No response from server. Please check your connection."

  const StatusPrefix: string := "Request failed with status "

  /** The default message for an error status that carries no message of its own. */
  function StatusDefault(status: int): (msg: string)
    ensures status == 400 ==> msg == "Invalid request data"
    ensures status == 500 ==> msg == "Server error occurred"
    ensures status != 400 && status != 500 ==>
      |msg| > |StatusPrefix| && msg[..|StatusPrefix|] == StatusPrefix && ParseNumber(msg[|StatusPrefix|..]) == Some(status)
    ensures status != 400 && status != 500 ==> msg == StatusPrefix + IntToString(status)
  {
    if status == 400 then "Invalid request data"
    else if status == 500 then "Server error occurred"
    else
      var digits := IntToString(status);
      ParseIntToString(status);
      assert (StatusPrefix + digits)[|StatusPrefix|..] == digits;
      StatusPrefix + digits
  }

  /**
   * The message of the `Error` the response interceptor throws. A message
   * supplied by the server takes precedence over every default, and the
   * message is never empty.
   */
  function ErrorMessage(e: RequestError): (msg: string)
    ensures msg != ""
    ensures e.ErrorStatus? && Truthy(e.dataMessage) ==> msg == ToJsString(e.dataMessage)
    ensures e.ErrorStatus? && !Truthy(e.dataMessage) ==> msg == StatusDefault(e.status)
    ensures e.NoResponse? ==> msg == NoResponseMessage
    ensures e.Setup? && e.errorMessage != "" ==> msg == e.errorMessage
    ensures e.Setup? && e.errorMessage == "" ==> msg == "An unexpected error occurred"
  {
    match e
    case ErrorStatus(status, dataMessage) => ToJsString(Or(dataMessage, Str(StatusDefault(status))))
    case NoResponse => NoResponseMessage
    case Setup(m) => if m != "" then m else "An unexpected error occurred"
  }

  /** The object `generateItinerary` resolves to; it never rejects. */
  datatype ApiResult<T> = Success(data: T) | Failure(error: string)

  function GenerateItinerary(reply: Reply<ItineraryResponse>): (r: ApiResult<ItineraryResponse>)
    ensures r.Success? <==> reply.Fulfilled?
    ensures r.Success? ==> r.data == reply.data
    ensures r.Failure? ==> r.error == ErrorMessage(reply.error) && r.error != ""
  {
    match reply
    case Fulfilled(data) => Success(data)
    case Rejected(e) => Failure(ErrorMessage(e))
  }

  /** What `healthCheck` settles with: the body, or a thrown error's message. */
  datatype Settled<T> = Resolved(value: T) | Thrown(message: string)

  /** Every failure, whatever its class, becomes the one message "Server is not responding". */
  function HealthCheck<T>(reply: Reply<T>): (r: Settled<T>)
    ensures r.Resolved? <==> reply.Fulfilled?
    ensures r.Resolved? ==> r.value == reply.data
    ensures r.Thrown? ==> r.message == "Server is not responding"
  {
    match reply
    case Fulfilled(data) => Resolved(data)
    case Rejected(_) => Thrown("Server is not responding")
  }

  const PdfPath: string := "/generated-pdfs/"

  /** `getDownloadUrl(filename)`: the base URL, the PDF directory, then the file name. */
  function GetDownloadUrl(env: Option<string>, filename: string): (url: string)
    ensures |url| == |ApiBaseUrl(env)| + |PdfPath| + |filename|
    ensures url[..|ApiBaseUrl(env)|] == ApiBaseUrl(env)
    ensures url[|ApiBaseUrl(env)|..|ApiBaseUrl(env)| + |PdfPath|] == PdfPath
    ensures url[|ApiBaseUrl(env)| + |PdfPath|..] == filename
  {
    ApiBaseUrl(env) + PdfPath + filename
  }

  /** Distinct file names give distinct download URLs. */
  lemma DownloadUrlInjective(env: Option<string>, f1: string, f2: string)
    requires GetDownloadUrl(env, f1) == GetDownloadUrl(env, f2)
    ensures f1 == f2
  {
    var n := |ApiBaseUrl(env)| + |PdfPath|;
    assert f1 == GetDownloadUrl(env, f1)[n..];
  }
}
