/** The submit handler of the form (`generateEmail`): validation, the
    sequential batch of generation calls and the summary of the run. */
module Batch {
  import opened Wrappers
  import Seqs
  import opened Urls
  import opened Labs
  import Dedup

  /** A flat form object: field name to trimmed value. */
  type FormData = map<string, string>

  /** The personal fields the client requires, in declared order (public/script.js:194). */
  const RequiredPersonalFields: seq<string> := ["name", "school", "grade", "major", "academic_background"]

  const LabWebsiteField := "lab_website"

  /** `!data[field]`: the field is absent or empty. */
  predicate IsBlank(data: FormData, field: string) {
    field !in data || data[field] == ""
  }

  /** The required personal fields left blank (public/script.js:194-195):
      exactly the blank ones, in declared order. */
  function MissingPersonalFields(data: FormData): (missing: seq<string>)
    ensures Seqs.IsSubsequence(missing, RequiredPersonalFields)
    ensures forall f :: f in missing <==> f in RequiredPersonalFields && IsBlank(data, f)
  {
    Seqs.FilterMembers(RequiredPersonalFields, f => IsBlank(data, f));
    Seqs.Filter(RequiredPersonalFields, f => IsBlank(data, f))
  }

  /** The generation endpoint as the client sees it: the request body in,
      the generated email or the message of the thrown error out. */
  type Generator = FormData -> Result<string, string>

  /** `{ ...personalData, lab_website: url }`: the personal data with the lab
      website set, every other field as it was. */
  function RequestFor(personal: FormData, url: string): (form: FormData)
    ensures LabWebsiteField in form && form[LabWebsiteField] == url
    ensures forall k :: k != LabWebsiteField ==> (k in form <==> k in personal)
    ensures forall k :: k != LabWebsiteField && k in personal ==> form[k] == personal[k]
  {
    personal[LabWebsiteField := url]
  }

  datatype Status = Succeeded | Failed

  /** One slot of a batch run. The timestamp is not modelled. */
  datatype EmailResult = EmailResult(
    labUrl: string,
    status: Status,
    email: Option<string>,
    error: Option<string>,
    formData: FormData)

  predicate IsSucceeded(r: EmailResult) {
    r.status == Succeeded
  }

  predicate IsFailed(r: EmailResult) {
    r.status == Failed
  }

  /** A slot built by the batch loop: an email exactly when it succeeded, an
      error message exactly when it failed, and a request naming its own lab. */
  predicate WellFormed(r: EmailResult) {
    && (r.status == Succeeded <==> r.email.Some?)
    && (r.status == Succeeded <==> r.error.None?)
    && LabWebsiteField in r.formData && r.formData[LabWebsiteField] == r.labUrl
  }

  /** The slot recorded for one generation call (public/script.js:243-266). */
  function Attempt(url: string, form: FormData, outcome: Result<string, string>): (r: EmailResult)
    ensures r.labUrl == url && r.formData == form
    ensures r.status == Succeeded <==> outcome.Success?
    ensures outcome.Success? ==> r.email == Some(outcome.value)
    ensures outcome.Failure? ==> r.error == Some(outcome.error)
    ensures LabWebsiteField in form && form[LabWebsiteField] == url ==> WellFormed(r)
  {
    match outcome
    case Success(email) => EmailResult(url, Succeeded, Some(email), None, form)
    case Failure(message) => EmailResult(url, Failed, None, Some(message), form)
  }

  /** The progress text shown before call `current` of `total`. */
  datatype Progress = Progress(current: nat, total: nat, lab: string)

  /** The successful slots, in order. */
  function Successful(results: seq<EmailResult>): seq<EmailResult> {
    Seqs.Filter(results, IsSucceeded)
  }

  /** The batch loop (public/script.js:219-268): one call per target, in
      order, each awaited before the next. Every target gets exactly one
      request and one slot, whatever happened to the others, and
      `lastGeneratedEmails` receives the successful slots only. */
  method RunBatch(parse: UrlParser, personal: FormData, targets: seq<LabTarget>, generate: Generator)
    returns (results: seq<EmailResult>, lastGenerated: seq<EmailResult>,
             requests: seq<FormData>, progress: seq<Progress>)
    ensures |results| == |targets| && |requests| == |targets| && |progress| == |targets|
    ensures forall i :: 0 <= i < |targets| ==>
              && requests[i] == RequestFor(personal, targets[i].url)
              && results[i] == Attempt(targets[i].url, requests[i], generate(requests[i]))
              && progress[i] == Progress(i + 1, |targets|, ShortenUrl(parse, targets[i].url))
    ensures forall i :: 0 <= i < |targets| ==>
              && results[i].labUrl == targets[i].url
              && (results[i].status == Succeeded <==> generate(requests[i]).Success?)
              && WellFormed(results[i])
    ensures lastGenerated == Successful(results)
  {
    // Neither the request nor the progress line of a call depends on how
    // the earlier calls went, so both are laid out before the loop.
    requests := seq(|targets|, j requires 0 <= j < |targets| => RequestFor(personal, targets[j].url));
    progress := seq(|targets|, j requires 0 <= j < |targets| => Progress(j + 1, |targets|, ShortenUrl(parse, targets[j].url)));
    results, lastGenerated := [], [];
    var i := 0;
    while i < |targets|
      invariant 0 <= i <= |targets|
      invariant |results| == i
      invariant forall j :: 0 <= j < i ==> results[j] == Attempt(targets[j].url, requests[j], generate(requests[j]))
      invariant lastGenerated == Successful(results)
    {
      var slot := Attempt(targets[i].url, requests[i], generate(requests[i]));
      Seqs.FilterSnoc(results, slot, IsSucceeded);
      results := results + [slot];
      if slot.status == Succeeded {
        lastGenerated := lastGenerated + [slot];
      }
      i := i + 1;
    }
    forall i | 0 <= i < |targets|
      ensures results[i].labUrl == targets[i].url
      ensures results[i].status == Succeeded <==> generate(requests[i]).Success?
      ensures WellFormed(results[i])
    {
      assert results[i] == Attempt(targets[i].url, requests[i], generate(requests[i]));
    }
  }

  /** The three outcomes the user is told about (public/script.js:276-282). */
  datatype Summary =
    | AllSucceeded(successes: nat)
    | AllFailed
    | Mixed(successes: nat, failures: nat)

  /** The success and error counts of a run and its classification
      (public/script.js:273-282). */
  function Classify(results: seq<EmailResult>): (s: Summary)
    ensures s.AllSucceeded? <==> forall i :: 0 <= i < |results| ==> results[i].status == Succeeded
    ensures s.AllSucceeded? ==> s.successes == |results| && s.successes == |Successful(results)|
    ensures s.AllFailed? <==> results != [] && forall i :: 0 <= i < |results| ==> results[i].status == Failed
    ensures s.Mixed? <==>
              (exists i :: 0 <= i < |results| && results[i].status == Succeeded) &&
              (exists i :: 0 <= i < |results| && results[i].status == Failed)
    ensures s.Mixed? ==> 0 < s.successes && 0 < s.failures && s.successes + s.failures == |results|
    ensures s.Mixed? ==> s.successes == |Successful(results)| && s.failures == |Seqs.Filter(results, IsFailed)|
  {
    var successCount := |Seqs.Filter(results, IsSucceeded)|;
    var errorCount := |Seqs.Filter(results, IsFailed)|;
    Seqs.FilterPartition(results, IsSucceeded, IsFailed);
    Seqs.FilterEmpty(results, IsSucceeded);
    Seqs.FilterEmpty(results, IsFailed);
    if errorCount == 0 then AllSucceeded(successCount)
    else if successCount == 0 then AllFailed
    else Mixed(successCount, errorCount)
  }

  /** What one press of the generate button leads to. */
  datatype Submission =
    | MissingPersonalInfo(fields: seq<string>)
    | NoLabWebsites
    | Ran(removed: nat, targets: seq<LabTarget>, results: seq<EmailResult>,
          lastGenerated: seq<EmailResult>, requests: seq<FormData>,
          progress: seq<Progress>, summary: Summary)

  /** `generateEmail` (public/script.js:189-290) on the data read from the
      form. A blank required field, then an empty lab list, stops it before
      any request is made; otherwise the de-duplicated labs are generated in
      order and the run is classified. */
  method GenerateEmail(parse: UrlParser, personal: FormData, labWebsites: seq<LabTarget>, generate: Generator)
    returns (s: Submission)
    ensures s.MissingPersonalInfo? <==> MissingPersonalFields(personal) != []
    ensures s.MissingPersonalInfo? ==> s.fields == MissingPersonalFields(personal)
    ensures s.NoLabWebsites? <==> MissingPersonalFields(personal) == [] && labWebsites == []
    ensures s.Ran? ==>
              && s.targets == Dedup.FirstOccurrences(parse, labWebsites)
              && s.removed == |labWebsites| - |s.targets|
              && |s.results| == |s.targets| && |s.requests| == |s.targets|
              && (forall i :: 0 <= i < |s.targets| ==>
                    s.requests[i] == RequestFor(personal, s.targets[i].url) &&
                    s.results[i] == Attempt(s.targets[i].url, s.requests[i], generate(s.requests[i])))
              && |s.progress| == |s.targets|
              && (forall i :: 0 <= i < |s.targets| ==>
                    s.progress[i] == Progress(i + 1, |s.targets|, ShortenUrl(parse, s.targets[i].url)))
              && s.lastGenerated == Successful(s.results)
              && s.summary == Classify(s.results)
    ensures s.Ran? ==> s.targets != [] && (s.summary.AllSucceeded? ==> s.summary.successes > 0)
  {
    var missing := MissingPersonalFields(personal);
    if missing != [] {
      return MissingPersonalInfo(missing);
    }
    if labWebsites == [] {
      return NoLabWebsites;
    }
    var unique := Dedup.RemoveDuplicateWebsites(parse, labWebsites);
    assert unique != [] by {
      assert Dedup.IsFirstOccurrence(parse, labWebsites, 0);
      assert labWebsites[0] in unique;
    }
    var results, lastGenerated, requests, progress := RunBatch(parse, personal, unique, generate);
    s := Ran(|labWebsites| - |unique|, unique, results, lastGenerated, requests, progress, Classify(results));
  }
}
