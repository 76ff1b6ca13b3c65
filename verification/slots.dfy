/** The actions offered on one slot of a finished run: retry, copy and save.
    The page numbers its result items by their position in the full list of
    results (public/script.js:375-424), but the handlers look that position
    up in `lastGeneratedEmails`, which holds the successful results only
    (public/script.js:252, 529, 541, 568). The copy, save and retry-request
    actions are defined once, on a list of slots and a position; the code
    applies them to `Successful(run)` and the aligned reading to the run
    itself. The retry's update is modelled both as written
    (`RetryAsWritten`) and aligned (`RetrySlot`). */
module Slots {
  import opened Wrappers
  import Seqs
  import opened Batch
  import opened History

  predicate InRange(slots: seq<EmailResult>, index: int) {
    0 <= index < |slots|
  }

  /** The request a retry of position `index` sends (public/script.js:567-589):
      the stored form data of that slot, nothing when there is no such slot.
      On a well-formed slot it names the slot's own lab. */
  function RetryRequest(slots: seq<EmailResult>, index: int): (r: Option<FormData>)
    ensures r.Some? <==> InRange(slots, index)
    ensures r.Some? ==> r.value == slots[index].formData
    ensures r.Some? && WellFormed(slots[index]) ==> r.value[LabWebsiteField] == slots[index].labUrl
  {
    if InRange(slots, index) then Some(slots[index].formData) else None
  }

  /** `copySingleEmail(index)` (public/script.js:528-538): the text put on the
      clipboard, when slot `index` exists and succeeded. */
  function CopySingle(slots: seq<EmailResult>, index: int): (r: Option<string>)
    ensures r.Some? ==> InRange(slots, index) && slots[index].status == Succeeded && slots[index].email == Some(r.value)
    ensures InRange(slots, index) && slots[index].status == Succeeded && WellFormed(slots[index]) ==> r.Some?
  {
    if InRange(slots, index) && slots[index].status == Succeeded && slots[index].email.Some?
    then Some(slots[index].email.value)
    else None
  }

  /** `saveSingleToHistory(index)` (public/script.js:540-565): the entry for
      slot `index` goes first, when that slot exists and succeeded. */
  function SaveSingle(slots: seq<EmailResult>, index: int, history: seq<HistoryItem>, id: string): (r: seq<HistoryItem>)
    ensures !(InRange(slots, index) && slots[index].status == Succeeded) ==> r == history
    ensures InRange(slots, index) && slots[index].status == Succeeded ==>
              && r != [] && r[0] == EntryFor(slots[index], id) && r[0].labUrl == slots[index].labUrl
              && |r| == (if |history| + 1 <= HistoryLimit then |history| + 1 else HistoryLimit)
              && r[1..] == history[..|r| - 1]
  {
    if InRange(slots, index) && slots[index].status == Succeeded
    then SaveEntry(history, EntryFor(slots[index], id))
    else history
  }

  // ---------------------------------------------------------------------
  // As written: positions from the full results index `lastGeneratedEmails`.
  // ---------------------------------------------------------------------

  /** The in-memory part of `retrySingleEmail(index)` (public/script.js:567-636):
      an index with no entry changes nothing; a successful call replaces that
      entry's email and status, keeping its lab and form data; a failed call
      leaves the list as it was. */
  function RetryAsWritten(lastGenerated: seq<EmailResult>, index: int, generate: Generator): (r: seq<EmailResult>)
    ensures |r| == |lastGenerated|
    ensures forall j :: 0 <= j < |r| && j != index ==> r[j] == lastGenerated[j]
    ensures !InRange(lastGenerated, index) ==> r == lastGenerated
    ensures InRange(lastGenerated, index) && generate(lastGenerated[index].formData).Failure? ==> r == lastGenerated
    ensures InRange(lastGenerated, index) && generate(lastGenerated[index].formData).Success? ==>
              r[index] == lastGenerated[index].(email := Some(generate(lastGenerated[index].formData).value),
                                                status := Succeeded)
  {
    if !InRange(lastGenerated, index) then lastGenerated
    else
      var entry := lastGenerated[index];
      match generate(entry.formData)
      case Success(email) => lastGenerated[index := entry.(email := Some(email), status := Succeeded)]
      case Failure(_) => lastGenerated
  }

  /** The as-written lookup agrees with the run exactly when no call of the
      run failed: only then is `lastGeneratedEmails` the run itself. */
  lemma AlignedOnlyWithoutFailures(results: seq<EmailResult>)
    ensures Successful(results) == results <==> forall i :: 0 <= i < |results| ==> results[i].status == Succeeded
  {
    Seqs.FilterKeepsAll(results, IsSucceeded);
  }

  /** A retry of a successful entry keeps `lastGeneratedEmails` all-successful. */
  lemma RetryAsWrittenKeepsSuccesses(lastGenerated: seq<EmailResult>, index: int, generate: Generator)
    requires forall i :: 0 <= i < |lastGenerated| ==> lastGenerated[i].status == Succeeded
    ensures forall i :: 0 <= i < |lastGenerated| ==> RetryAsWritten(lastGenerated, index, generate)[i].status == Succeeded
  {
  }

  /** The run of two labs where the first call fails and the second succeeds. */
  const LabA := "https://a.example.edu/lab"
  const LabB := "https://b.example.edu/lab"

  function TwoLabRun(personal: FormData): seq<EmailResult> {
    [ Attempt(LabA, RequestFor(personal, LabA), Failure("timeout")),
      Attempt(LabB, RequestFor(personal, LabB), Success("Dear Professor B")) ]
  }

  /** The counterexample. Slot 0 (lab A) failed and shows a Retry button
      with index 0; slot 1 (lab B) succeeded and shows Copy and Save buttons
      with index 1. As written, retrying slot 0 regenerates the email for
      lab B, and copying or saving slot 1 does nothing at all. */
  lemma MisalignedSlotsCounterexample(personal: FormData, history: seq<HistoryItem>, id: string, generate: Generator)
    ensures var run := TwoLabRun(personal);
            var last := Successful(run);
            && run[0].status == Failed && run[1].status == Succeeded
            && last == [run[1]]
            && RetryRequest(last, 0) == Some(RequestFor(personal, LabB))
            && RetryRequest(last, 0).value[LabWebsiteField] != run[0].labUrl
            && CopySingle(last, 1) == None
            && SaveSingle(last, 1, history, id) == history
  {
    var run := TwoLabRun(personal);
    assert Successful(run) == [run[1]] by {
      assert Successful(run) == Seqs.Filter(run[1..], IsSucceeded);
      assert run[1..] == [run[1]];
      assert Seqs.Filter([run[1]], IsSucceeded) == [run[1]] + Seqs.Filter([run[1]][1..], IsSucceeded);
    }
  }

  // ---------------------------------------------------------------------
  // Aligned: the position addresses the run, as the page numbers it.
  // ---------------------------------------------------------------------

  /** A retry of slot `index` of the run. Only that slot changes: it keeps its
      lab and form data and becomes a success with the new email or a
      failure with the new message. */
  function RetrySlot(run: seq<EmailResult>, index: int, generate: Generator): (r: seq<EmailResult>)
    ensures |r| == |run|
    ensures forall j :: 0 <= j < |r| && j != index ==> r[j] == run[j]
    ensures !InRange(run, index) ==> r == run
    ensures InRange(run, index) ==>
              && r[index].labUrl == run[index].labUrl
              && r[index].formData == run[index].formData
              && (r[index].status == Succeeded <==> generate(run[index].formData).Success?)
    ensures InRange(run, index) && generate(run[index].formData).Success? ==>
              r[index].email == Some(generate(run[index].formData).value)
    ensures InRange(run, index) && generate(run[index].formData).Failure? ==>
              r[index].error == Some(generate(run[index].formData).error)
    ensures forall j :: 0 <= j < |run| && WellFormed(run[j]) ==> WellFormed(r[j])
  {
    if !InRange(run, index) then run
    else
      var slot := run[index];
      run[index := Attempt(slot.labUrl, slot.formData, generate(slot.formData))]
  }

  /** Addressed to the run, every action reaches the lab it is shown on: a
      retry resends that slot's own request, and copy and save act exactly
      when that slot succeeded, with that slot's email. */
  lemma AlignedActionsReachTheirSlot(run: seq<EmailResult>, index: int, history: seq<HistoryItem>, id: string)
    requires InRange(run, index) && WellFormed(run[index])
    ensures RetryRequest(run, index).Some? && RetryRequest(run, index).value[LabWebsiteField] == run[index].labUrl
    ensures CopySingle(run, index).Some? <==> run[index].status == Succeeded
    ensures CopySingle(run, index).Some? ==> Some(CopySingle(run, index).value) == run[index].email
    ensures run[index].status == Succeeded ==> SaveSingle(run, index, history, id)[0].labUrl == run[index].labUrl
  {
  }

  /** On the counterexample run, the aligned actions address the clicked lab:
      retrying slot 0 asks again for lab A, and copying slot 1 yields lab B's email. */
  lemma AlignedSlotsOnCounterexample(personal: FormData)
    ensures var run := TwoLabRun(personal);
            && RetryRequest(run, 0).value[LabWebsiteField] == LabA
            && CopySingle(run, 1) == Some("Dear Professor B")
  {
  }

  /** A retried slot's lab can be retried, copied or saved in turn: the
      aligned retry keeps the run's slots addressed to the same labs. */
  lemma RetrySlotKeepsLabs(run: seq<EmailResult>, index: int, generate: Generator)
    ensures forall j :: 0 <= j < |run| ==> RetrySlot(run, index, generate)[j].labUrl == run[j].labUrl
  {
  }

  /** Saving all successful slots reads the same entries from the run as
      from `lastGeneratedEmails` right after the batch, so that action is
      unaffected by the mismatch. */
  lemma SaveAllUnaffected(run: seq<EmailResult>)
    ensures Successful(Successful(run)) == Successful(run)
  {
    Seqs.FilterIdempotent(run, IsSucceeded);
  }
}
