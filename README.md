# Itinerary request form — a Dafny model

This project models the logic behind a single-page travel-itinerary request form. A traveller enters their details, the trip dates, a list of activities, and optional lists of flights and hotels. The form checks its rules, normalises the data and posts it to a service that renders a PDF. When that succeeds, the form shows a download link.

Modules, following the program's structure:

- `JsValues` (`js_values.dfy`): the JavaScript semantics the code relies on. This covers `Number(x)` (as an integer parse that may give NaN), the `||` default idiom, truthiness, `String(n)` for integers, and the whitespace class shared by `trim` and the regex `\s`.
- `FormData` (`form_data.dfy`): the form's records (user details, trip details, activity, flight, hotel, payment plan, visa), the `defaultValues` the form mounts with, and the rows that the add buttons append.
- `Validation` (`validation.dfy`): the rules declared in the `register(...)` calls, the `/^\S+@\S+$/i` email pattern, the `errors` object (each failing field mapped to its first failing rule's message), and the gate that `handleSubmit` applies on top of the browser's own input constraints.
- `Normaliser` (`normaliser.dfy`): the `processedData` that `onSubmit` builds. It recomputes nights and days from the two dates, coerces the numeric fields with `Number(x) || default`, and defaults the currency to `"INR"`. Object spreads carry every other field over unchanged.
- `Api` (`api.dfy`): the base URL with its fallback, the response interceptor's translation of a failed request into one message, the result wrappers of `generateItinerary` and `healthCheck`, and `getDownloadUrl`.
- `FormState` (`form_state.dfy`): the component's state as a class. It holds the form values, whose three field arrays are changed in place by the add and remove buttons, plus the `isGenerating` and `generatedPDF` flags that a submission sets. The download link is also here.

Inputs that come from outside the program are parameters:

- the environment's base URL is an `Option<string>`;
- the timestamp activity id is a `string`;
- the settled network request is a `Reply`, either fulfilled with the server's body or rejected with a `RequestError`;
- a date input is either blank or the instant in milliseconds that `new Date(value)` denotes.

Notes on the source:

- Only status 400 exactly is reported as "Invalid request data". Other 4xx statuses, such as 404, get "Request failed with status N". The model follows the code.
- A return date before the departure date is not guarded. The nights come out negative, and the days can be 0 or less (`Normaliser.ReversedDatesNotGuarded`).
- The activity day rule is `required: true`, which carries no message text, so its error message is the empty string.
- The `min: 1` rule fails only when the value reads as a number below 1. A value that reads as NaN does not fail it. Normalisation then turns that NaN into 1.

## Model

| member | source | states |
|---|---|---|
| `JsValues.Trim` | src/components/ItineraryForm.jsx:120-121 | the result is the run of the input that starts right after its leading whitespace and is followed only by whitespace: every character before the run and after it is whitespace, the run neither starts nor ends with whitespace, and a string without whitespace is unchanged |
| `JsValues.TrimPadded` | src/components/ItineraryForm.jsx:120-121 | whitespace padding around text that neither starts nor ends with whitespace is removed, and exactly that text is left |
| `JsValues.IntToString` | src/services/api.js:47 | `${status}` writes plain decimal: digits without a leading zero, 0 as exactly "0", preceded by `-` for a negative number, with no sign or whitespace otherwise |
| `JsValues.ParseNumber` | src/components/ItineraryForm.jsx:120-121 | `Number()` on a string is a number exactly when the trimmed string is blank (giving 0) or an optionally signed integer literal; otherwise it is NaN. The value of such a literal is given by `JsValues.ParseTypedInteger` |
| `JsValues.ParseTypedInteger` | src/components/ItineraryForm.jsx:120-121 | `Number()` of a typed integer ignores whitespace on either side, takes its sign from a leading `+` or `-`, and reads the digits as its magnitude (for example `" 0150 "` is 150 and `"+7"` is 7) |
| `JsValues.LeadingZero` | src/components/ItineraryForm.jsx:120-121 | a leading zero does not change the value of a run of digits |
| `JsValues.ParseIntToString` | src/services/api.js:47 | `Number(String(n))` is `n` for every integer: the rendering of a status or a typed number reads back as that number |
| `JsValues.Number` | src/components/ItineraryForm.jsx:120-121 | `Number(v)` is always a number or NaN: numbers are kept, strings are parsed, and undefined gives NaN |
| `JsValues.NumberOr` | src/components/ItineraryForm.jsx:120-125 | the `Number(v)`-or-`d` idiom gives the number `v` reads as when that is neither 0 nor NaN, and `d` otherwise; with `d != 0` the result is never 0 |
| `JsValues.ToJsString` | src/services/api.js:43-47 | the message `new Error(v)` carries is non-empty for a truthy value and is the string itself for a string |
| `Validation.EmailPatternScan` | src/components/ItineraryForm.jsx:249-255 | `/^\S+@\S+$/` matches exactly the strings with no whitespace that contain an `@` that is neither first nor last |
| `Validation.RequiredFieldErrors` | src/components/ItineraryForm.jsx:232-388 | name, phone, destination, departure-from and the two dates each fail exactly when empty (a date: when blank), with their own messages: "Name is required", "Phone number is required", "Destination is required", "Departure location is required", "Departure date is required", "Return date is required" |
| `Validation.SubmittableIff` | src/components/ItineraryForm.jsx:217 | once the browser lets the form submit, `onSubmit` is reached exactly when every `register` rule holds: name, email (pattern included), phone, traveller count (present and not below 1), destination, departure-from, both dates, and every activity's name and day |
| `Validation.EmailErrors` | src/components/ItineraryForm.jsx:249-255 | an empty email gives "Email is required"; a non-empty one that does not match the pattern gives "Invalid email address"; there is no email error exactly when the pattern matches |
| `Validation.TravelerCountErrors` | src/components/ItineraryForm.jsx:293-296 | an empty count gives "Number of travelers is required"; a count that reads below 1 gives "At least 1 traveler required"; otherwise there is no error |
| `Validation.EmptyNameBlocks` | src/components/ItineraryForm.jsx:232 | an empty traveller name is reported as "Name is required" and blocks the submission |
| `Validation.ActivityErrors` | src/components/ItineraryForm.jsx:439-452 | activity row `i` reports a missing name ("Activity name is required") and a missing day against its own index, and only then |
| `Validation.DefaultFormErrors` | src/components/ItineraryForm.jsx:30-76 | the form as mounted fails on exactly name, email, phone, destination, departure-from, both dates and the first activity's name |
| `Normaliser.CeilDiv` | src/components/ItineraryForm.jsx:115 | `Math.ceil(a / b)` is the integer `q` with `(q - 1) * b < a <= q * b` |
| `Normaliser.CeilDivUnique` | src/components/ItineraryForm.jsx:115 | that integer is unique, so the bound characterises the ceiling |
| `Normaliser.DaysDiff` | src/components/ItineraryForm.jsx:112-115 | `daysDiff` is a number exactly when both dates are set, and then it is the number of started days between them; otherwise it is NaN |
| `Normaliser.NormaliseActivity` | src/components/ItineraryForm.jsx:118-122 | an activity keeps every field except price and day; price becomes `Number(price)` with fallback 0, and day becomes `Number(day)` with fallback 1, which is never 0 |
| `Normaliser.Normalise` | src/components/ItineraryForm.jsx:127-147 | nights are recomputed as the started days between the dates and days as nights + 1, always overwriting the old values (both NaN when a date is blank); the traveller count falls back to 1 and the total to 0; the currency falls back to "INR" when falsy; activities keep their number and order; flights, hotels and every other field are carried over unchanged |
| `Normaliser.WholeDaysTrip` | src/components/ItineraryForm.jsx:111-137 | a trip of exactly `k` whole days has `k` nights and `k + 1` days |
| `Normaliser.ReversedDatesNotGuarded` | src/components/ItineraryForm.jsx:111-137 | a return date at least a day before the departure yields negative nights and at most 0 days |
| `Normaliser.PriceFromText` | src/components/ItineraryForm.jsx:120 | a price typed as an integer posts that integer, and a blank price posts 0 |
| `Normaliser.DayFromText` | src/components/ItineraryForm.jsx:121 | a day typed as an integer posts that integer, except that 0 becomes 1; a blank day posts 1 |
| `Normaliser.TypedActivityNumbers` | src/components/ItineraryForm.jsx:118-122 | a price or day typed with surrounding whitespace, a sign or leading zeros posts the integer it denotes; a day denoting 0 posts 1 |
| `Normaliser.NormaliseIdempotent` | src/components/ItineraryForm.jsx:118-147 | normalising an already normalised payload changes nothing |
| `Normaliser.NormaliseKeepsSubmittable` | src/components/ItineraryForm.jsx:118-147 | a form that passes every rule still passes them all after normalisation |
| `Api.ApiBaseUrl` | src/services/api.js:3 | the base URL is the configured value when it is set and non-empty, and the render host otherwise |
| `Api.StatusDefault` | src/services/api.js:41-48 | with no server message, 400 gives "Invalid request data" and 500 gives "Server error occurred"; any other status gives "Request failed with status " followed by the plain decimal rendering of the status, which reads back as the status |
| `Api.ErrorMessage` | src/services/api.js:37-55 | a server-supplied message wins for every status; no response gives the connection message; any other failure gives its own message, or "An unexpected error occurred" when that is empty; the message is never empty |
| `Api.GenerateItinerary` | src/services/api.js:65-83 | never throws: it succeeds with the response body exactly when the request was fulfilled, and otherwise fails with the interceptor's non-empty message |
| `Api.HealthCheck` | src/services/api.js:89-97 | resolves with the body exactly when the request was fulfilled; every failure, whatever its class, becomes "Server is not responding" |
| `Api.GetDownloadUrl` | src/services/api.js:104-106 | the URL is the base URL, then "/generated-pdfs/", then the file name, each recoverable from its position |
| `Api.DownloadUrlInjective` | src/services/api.js:104-106 | distinct file names give distinct download URLs |
| `FormState.DownloadHrefAsWritten` | src/components/ItineraryForm.jsx:753 | the link as written is the configured base URL, or `http://localhost:5001` when none is set, followed by the server's `downloadUrl` |
| `FormState.AsWrittenLinkMissesApiHost` | src/components/ItineraryForm.jsx:753 | with no base URL configured, the link as written differs from `getDownloadUrl` for the same file |
| `FormState.DownloadHref` | src/components/ItineraryForm.jsx:753 | the corrected link is the request's own base URL followed by the server's `downloadUrl` |
| `FormState.DownloadHrefMatchesApi` | src/components/ItineraryForm.jsx:753 | the corrected link for a file in the PDF directory equals `getDownloadUrl` for that file |
| `FormState.ItineraryForm.constructor` | src/components/ItineraryForm.jsx:21-76 | the form mounts with its default values, one activity, not generating, and no result |
| `FormState.ItineraryForm.Edit` | src/components/ItineraryForm.jsx:230-700 | editing inputs can change any field value but not the length of any field array; the flags are untouched (an over-approximation: fields with no input on the page may change too) |
| `FormState.ItineraryForm.AddActivity` | src/components/ItineraryForm.jsx:167-178 | exactly one activity is appended at the end (day 1, "Morning", price 0, the given id); everything else is unchanged |
| `FormState.ItineraryForm.AddFlight` | src/components/ItineraryForm.jsx:180-190 | exactly one flight is appended at the end, with class "Economy"; everything else is unchanged |
| `FormState.ItineraryForm.AddHotel` | src/components/ItineraryForm.jsx:192-202 | exactly one hotel is appended at the end, with 1 night and room type "Standard"; everything else is unchanged |
| `FormState.ItineraryForm.RemoveActivity` | src/components/ItineraryForm.jsx:421-429 | the row at the index is removed, with the rest kept in order, exactly when more than one activity remains; otherwise nothing changes, so at least one activity always remains |
| `FormState.ItineraryForm.RemoveFlight` | src/components/ItineraryForm.jsx:538-544 | the flight at the index is removed, with the rest kept in order; the list may become empty |
| `FormState.ItineraryForm.RemoveHotel` | src/components/ItineraryForm.jsx:615-621 | the hotel at the index is removed, with the rest kept in order; the list may become empty |
| `FormState.ItineraryForm.Submit` | src/components/ItineraryForm.jsx:105-149 | with the button enabled (not generating) and the browser's input constraints met, the `register` rules are evaluated; the submission starts (`isGenerating` true, payload = the normalised values) exactly when none fails; the form values are not changed |
| `FormState.ItineraryForm.Settle` | src/components/ItineraryForm.jsx:151-164 | once the request settles, `isGenerating` is false whatever happened; the result is stored only on success, and a failure keeps the previous result |
| `FormState.ItineraryForm.DownloadLink` | src/components/ItineraryForm.jsx:741-756 | a link is shown exactly when a result is stored; it is the corrected href for the result's `downloadUrl`, which equals the link as written whenever a base URL is configured |

## Findings

| source | as written | input that shows it | evidently intended | confidence | as-written member | corrected member |
|---|---|---|---|---|---|---|
| src/components/ItineraryForm.jsx:753 | the download link falls back to `http://localhost:5001` when `VITE_API_BASE_URL` is unset, but requests fall back to `https://vigovia-render-1.onrender.com` (src/services/api.js:3) | base URL unset, `downloadUrl` = `/generated-pdfs/a.pdf`: the link is `http://localhost:5001/generated-pdfs/a.pdf`, while the PDF was generated by `https://vigovia-render-1.onrender.com` | the link uses the same base URL as the request that generated the PDF | medium; not executed | `FormState.AsWrittenLinkMissesApiHost` | `FormState.DownloadHrefMatchesApi` |

## Left out

- FormState.ItineraryForm.DownloadLink: shows the corrected link (`FormState.DownloadHref`), not the link as written at src/components/ItineraryForm.jsx:753. The two agree when a base URL is configured. With none, the page links to `http://localhost:5001` followed by `downloadUrl` (`FormState.DownloadHrefAsWritten`; see Findings).
- The browser's own constraint validation is not modelled. The `<form>` at src/components/ItineraryForm.jsx:217 has no `noValidate`, so a failed native constraint stops the submit event before `handleSubmit` runs. These constraints are `type="email"` (248), `min="1" max="50"` on the traveller count (290-292), `min="1"` on the activity day (451) and hotel nights (654), and `min="0"` on the price (489) and total (686). The modelled gate is only the `register` rules. `Validation.Submittable` and `FormState.ItineraryForm.Submit` therefore accept some inputs the browser blocks, such as 51 travellers, day 0, price -5 or the email `a@b@c`. The day-0 case of `Normaliser.DayFromText` and `Normaliser.TypedActivityNumbers` is not reachable from the day input.
- JsValues.ParseNumber: reads only optionally signed decimal integers. In this model, fractions (`"150.5"`), exponents, hexadecimal, binary and octal literals, and `Infinity` all read as NaN, whereas JavaScript gives a number. Every numeric field is therefore an integer here.
- Normaliser.DaysDiff: JavaScript's date-string parsing, time zones and floating-point division are not modelled. A date is the integer millisecond instant it denotes, and the ceiling is exact integer ceiling division.
- axios itself is not modelled: transport, the 30-second timeout, headers, registration of the interceptors, and the request interceptor, which only logs. The settled request is an input.
- A response error whose body is `null` is not modelled. There, `data.message` would throw inside the interceptor.
- Toast notifications, `console.log` calls, JSX rendering and styling are not modelled. This includes the failure toast text `result.error || 'Failed to generate itinerary'`. Its fallback is never used, because `Api.GenerateItinerary` always fails with a non-empty message.
- The `catch` of `onSubmit` (src/components/ItineraryForm.jsx:159-161) only shows a toast, and its state effect is the same as the `finally`. In the model, neither normalisation nor `generateItinerary` can throw.
- The async suspension of `onSubmit` is modelled as two steps: `Submit` starts the request, and `Settle` ends it. Between them the submit button is disabled, which `Submit`'s precondition expresses.
- Activity ids built from `Date.now()` are a parameter. Their uniqueness is not claimed, since the code does not guarantee it.
- react-hook-form internals are not modelled: `field.id` generation, per-input binding (abstracted as `Edit`) and `handleSubmit`'s mechanics beyond "validate, then call".
- `import.meta.env` is not read. The base URL is the parameter `env`.
- src/components/Header.jsx, src/components/Footer.jsx, src/App.jsx and tailwind.config.js hold only markup, routing and styling, and are not part of this model.
