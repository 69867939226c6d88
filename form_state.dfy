// The state of the ItineraryForm component (src/components/ItineraryForm.jsx):
// the form values with their three repeatable field groups, changed in place
// by the add and remove buttons, and the `isGenerating` / `generatedPDF`
// flags that a submission sets.

module FormState {
  import opened JsValues
  import opened FormData
  import Validation
  import Normaliser
  import Api

  /** The fallback host of the download link as the component writes it. */
  const LinkFallback: string := "http://localhost:5001"

  /**
   * The "Download PDF" href as written: the environment's base URL, or
   * `http://localhost:5001` when it is unset, then the server's `downloadUrl`.
   */
  function DownloadHrefAsWritten(env: Option<string>, downloadUrl: string): (href: string)
    ensures env.Some? && env.value != "" ==> href == env.value + downloadUrl
    ensures env.None? || env.value == "" ==> href == LinkFallback + downloadUrl
  {
    (if env.Some? && env.value != "" then env.value else LinkFallback) + downloadUrl
  }

  /**
   * With no base URL configured, the link as written points at a different
   * host from the one the request was posted to and that `getDownloadUrl`
   * names.
   */
  lemma AsWrittenLinkMissesApiHost(filename: string)
    ensures DownloadHrefAsWritten(None, Api.PdfPath + filename) != Api.GetDownloadUrl(None, filename)
  {
    var asWritten := DownloadHrefAsWritten(None, Api.PdfPath + filename);
    var api := Api.GetDownloadUrl(None, filename);
    assert asWritten[4] == ':';
    assert api[4] == 's';
  }

  /** The download href, corrected to use the same base URL as the request. */
  function DownloadHref(env: Option<string>, downloadUrl: string): (href: string)
    ensures |href| == |Api.ApiBaseUrl(env)| + |downloadUrl|
    ensures href[..|Api.ApiBaseUrl(env)|] == Api.ApiBaseUrl(env)
    ensures href[|Api.ApiBaseUrl(env)|..] == downloadUrl
  {
    Api.ApiBaseUrl(env) + downloadUrl
  }

  /** The corrected link agrees with `getDownloadUrl` for a file in the PDF directory. */
  lemma DownloadHrefMatchesApi(env: Option<string>, filename: string)
    ensures DownloadHref(env, Api.PdfPath + filename) == Api.GetDownloadUrl(env, filename)
  {
    var base := Api.ApiBaseUrl(env);
    assert base + (Api.PdfPath + filename) == base + Api.PdfPath + filename;
  }

  class ItineraryForm {
    /** The form values, including the activity, flight and hotel field arrays. */
    var values: Form
    var isGenerating: bool
    var generatedPDF: Option<Api.ItineraryResponse>

    /** There is always at least one activity row. */
    ghost predicate Valid()
      reads this
    {
      |values.activities| >= 1
    }

    /** The form as mounted. */
    constructor ()
      ensures Valid()
      ensures values == DefaultForm && !isGenerating && generatedPDF == None
    {
      values := DefaultForm;
      isGenerating := false;
      generatedPDF := None;
    }

    /**
     * The user edits inputs: any field may change, the shape of the field
     * arrays may not. This over-approximates the inputs: fields the page has
     * no input for (activity ids, the trip length, currency, installments,
     * visa, scope of services) may change here too.
     */
    method Edit(next: Form)
      requires Valid()
      requires |next.activities| == |values.activities|
      requires |next.flights| == |values.flights| && |next.hotels| == |values.hotels|
      modifies this
      ensures Valid()
      ensures values == next
      ensures isGenerating == old(isGenerating) && generatedPDF == old(generatedPDF)
    {
      values := next;
    }

    /** "Add Activity": one default row at the end, `id` standing for the timestamp id. */
    method AddActivity(id: string)
      requires Valid()
      modifies this
      ensures Valid()
      ensures values == old(values).(activities := old(values.activities) + [NewActivity(id)])
      ensures isGenerating == old(isGenerating) && generatedPDF == old(generatedPDF)
    {
      values := values.(activities := values.activities + [NewActivity(id)]);
    }

    /** "Add Flight": one default row at the end. */
    method AddFlight()
      requires Valid()
      modifies this
      ensures Valid()
      ensures values == old(values).(flights := old(values.flights) + [NewFlight])
      ensures isGenerating == old(isGenerating) && generatedPDF == old(generatedPDF)
    {
      values := values.(flights := values.flights + [NewFlight]);
    }

    /** "Add Hotel": one default row at the end. */
    method AddHotel()
      requires Valid()
      modifies this
      ensures Valid()
      ensures values == old(values).(hotels := old(values.hotels) + [NewHotel])
      ensures isGenerating == old(isGenerating) && generatedPDF == old(generatedPDF)
    {
      values := values.(hotels := values.hotels + [NewHotel]);
    }

    /**
     * The delete button of activity row `index`. It is rendered only while
     * more than one activity remains, so the last one cannot be removed.
     */
    method RemoveActivity(index: nat) returns (removed: bool)
      requires Valid()
      requires index < |values.activities|
      modifies this
      ensures Valid()
      ensures removed <==> |old(values.activities)| > 1
      ensures removed ==>
        values == old(values).(activities := old(values.activities)[..index] + old(values.activities)[index + 1..])
      ensures !removed ==> values == old(values)
      ensures isGenerating == old(isGenerating) && generatedPDF == old(generatedPDF)
    {
      removed := |values.activities| > 1;
      if removed {
        values := values.(activities := values.activities[..index] + values.activities[index + 1..]);
      }
    }

    /** The delete button of flight row `index`; flights may be emptied. */
    method RemoveFlight(index: nat)
      requires Valid()
      requires index < |values.flights|
      modifies this
      ensures Valid()
      ensures values == old(values).(flights := old(values.flights)[..index] + old(values.flights)[index + 1..])
      ensures isGenerating == old(isGenerating) && generatedPDF == old(generatedPDF)
    {
      values := values.(flights := values.flights[..index] + values.flights[index + 1..]);
    }

    /** The delete button of hotel row `index`; hotels may be emptied. */
    method RemoveHotel(index: nat)
      requires Valid()
      requires index < |values.hotels|
      modifies this
      ensures Valid()
      ensures values == old(values).(hotels := old(values.hotels)[..index] + old(values.hotels)[index + 1..])
      ensures isGenerating == old(isGenerating) && generatedPDF == old(generatedPDF)
    {
      values := values.(hotels := values.hotels[..index] + values.hotels[index + 1..]);
    }

    /**
     * A click on the submit button, which is enabled only while nothing is
     * being generated. The rules run first; only when none fails does
     * `onSubmit` start: `isGenerating` becomes true and the normalised payload
     * is what gets posted. The form values themselves are not changed.
     */
    method Submit() returns (errors: map<Validation.FieldPath, string>, payload: Option<Form>)
      requires Valid() && !isGenerating
      modifies this
      ensures Valid() && values == old(values) && generatedPDF == old(generatedPDF)
      ensures errors == Validation.Errors(values)
      ensures payload.Some? <==> Validation.Submittable(values)
      ensures isGenerating <==> payload.Some?
      ensures payload.Some? ==> payload.value == Normaliser.Normalise(values)
    {
      errors := Validation.Errors(values);
      if errors == map[] {
        isGenerating := true;
        payload := Some(Normaliser.Normalise(values));
      } else {
        payload := None;
      }
    }

    /**
     * The end of `onSubmit` once the request settles: the result is stored
     * only on success, a failure leaves the previous result in place, and
     * `isGenerating` is false again whatever happened.
     */
    method Settle(reply: Api.Reply<Api.ItineraryResponse>) returns (result: Api.ApiResult<Api.ItineraryResponse>)
      requires Valid() && isGenerating
      modifies this
      ensures Valid() && values == old(values) && !isGenerating
      ensures result == Api.GenerateItinerary(reply)
      ensures result.Success? ==> generatedPDF == Some(result.data)
      ensures result.Failure? ==> generatedPDF == old(generatedPDF)
    {
      result := Api.GenerateItinerary(reply);
      if result.Success? {
        generatedPDF := Some(result.data);
      }
      isGenerating := false;
    }

    /**
     * The "Download PDF" link, shown once a result has been stored. It is the
     * corrected href; with a base URL configured it is the link as written.
     */
    function DownloadLink(env: Option<string>): (link: Option<string>)
      reads this
      ensures link.Some? <==> generatedPDF.Some?
      ensures link.Some? ==> link.value == DownloadHref(env, generatedPDF.value.data.downloadUrl)
      ensures link.Some? && env.Some? && env.value != "" ==>
        link.value == DownloadHrefAsWritten(env, generatedPDF.value.data.downloadUrl)
    {
      match generatedPDF
      case Some(response) => Some(DownloadHref(env, response.data.downloadUrl))
      case None => None
    }
  }
}
