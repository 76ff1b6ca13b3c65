/** The lab-website inputs of the form: the bounded counter of input groups
    and the collection of the non-empty URLs. */
module Labs {
  import opened Wrappers
  import Text

  /** One submitted lab website with its 1-based input position. */
  datatype LabTarget = LabTarget(url: string, index: nat)

  const MaxLabs := 5

  /** The lab-website input groups on the page, in order, and `labCount`.
      After each add or remove the inputs are numbered 1..|groups|. */
  datatype LabForm = LabForm(groups: seq<string>, labCount: nat)

  /** The state every add and remove keeps: the counter matches the number
      of groups and lies between 1 and 5. */
  predicate Consistent(f: LabForm) {
    f.labCount == |f.groups| && 1 <= f.labCount <= MaxLabs
  }

  /** The page starts with one empty input and `labCount = 1`. */
  const InitialForm := LabForm([""], 1)

  /** The initial page is consistent and hides its only remove button, so
      every page reachable by clicks stays consistent. */
  lemma InitialFormConsistent(actions: seq<LabAction>)
    ensures Consistent(InitialForm) && !RemoveButtonsShown(InitialForm)
    ensures Consistent(ApplyActions(InitialForm, actions))
  {
    ActionsKeepConsistent(InitialForm, actions);
  }

  /** `addLabWebsite` (public/script.js:82-112): a no-op once `labCount`
      reaches the maximum; otherwise one more (empty) input group. */
  function AddLabWebsite(f: LabForm): (r: LabForm)
    ensures f.labCount >= MaxLabs ==> r == f
    ensures f.labCount < MaxLabs ==> r.labCount == f.labCount + 1 && r.groups == f.groups + [""]
    ensures Consistent(f) ==> Consistent(r)
  {
    if f.labCount >= MaxLabs then f
    else LabForm(f.groups + [""], f.labCount + 1)
  }

  /** `updateRemoveButtons` (public/script.js:145-150): the remove buttons are
      displayed only while more than one lab is present. */
  predicate RemoveButtonsShown(f: LabForm) {
    f.labCount > 1
  }

  /** `removeLabWebsite` with `renumberLabWebsites` (public/script.js:114-135):
      the clicked group disappears, the rest keep their order and are
      renumbered, and `labCount` becomes the number of groups left. */
  function RemoveLabWebsite(f: LabForm, k: nat): (r: LabForm)
    requires k < |f.groups|
    ensures |r.groups| == |f.groups| - 1 && r.labCount == |r.groups|
    ensures forall i :: 0 <= i < k ==> r.groups[i] == f.groups[i]
    ensures forall i :: k <= i < |r.groups| ==> r.groups[i] == f.groups[i + 1]
    ensures Consistent(f) && RemoveButtonsShown(f) ==> Consistent(r)
  {
    var groups := f.groups[..k] + f.groups[k + 1..];
    LabForm(groups, |groups|)
  }

  /** A click on the add button or on the remove button of group `k`. */
  datatype LabAction = Add | Remove(k: nat)

  /** The effect of one click; a remove button is clickable only while it
      is displayed. */
  function Step(f: LabForm, a: LabAction): LabForm
  {
    match a
    case Add => AddLabWebsite(f)
    case Remove(k) => if k < |f.groups| && RemoveButtonsShown(f) then RemoveLabWebsite(f, k) else f
  }

  function ApplyActions(f: LabForm, actions: seq<LabAction>): LabForm
    decreases |actions|
  {
    if actions == [] then f else ApplyActions(Step(f, actions[0]), actions[1..])
  }

  /** Any sequence of clicks from a consistent form, in particular from the
      initial page, keeps the form consistent: `labCount` stays within 1..5. */
  lemma {:induction false} ActionsKeepConsistent(f: LabForm, actions: seq<LabAction>)
    requires Consistent(f)
    ensures Consistent(ApplyActions(f, actions))
    ensures 1 <= ApplyActions(f, actions).labCount <= MaxLabs
    decreases |actions|
  {
    if actions != [] {
      ActionsKeepConsistent(Step(f, actions[0]), actions[1..]);
    }
  }

  /** The value of input `lab_website_<i>`, `None` when there is no such input. */
  function InputValue(f: LabForm, i: nat): Option<string>
  {
    if 1 <= i <= |f.groups| then Some(f.groups[i - 1]) else None
  }

  /** On a consistent page, positions 1..labCount are exactly the inputs
      present, so `getLabWebsites` reads every input and nothing else. */
  lemma InputsMatchCounter(f: LabForm)
    requires Consistent(f)
    ensures forall i: nat :: InputValue(f, i).Some? <==> 1 <= i <= f.labCount
    ensures forall i: nat :: 1 <= i <= f.labCount ==> InputValue(f, i) == Some(f.groups[i - 1])
  {
  }

  /** Input `i` holds more than white space. */
  predicate Filled(field: nat -> Option<string>, i: nat) {
    field(i).Some? && Text.Trim(field(i).value) != ""
  }

  /** `getLabWebsites` (public/script.js:152-164): for positions 1..labCount,
      every input that exists and is not blank, trimmed, with its position. */
  method GetLabWebsites(field: nat -> Option<string>, labCount: nat) returns (websites: seq<LabTarget>)
    ensures forall k :: 0 <= k < |websites| ==> 1 <= websites[k].index <= labCount
    ensures forall k, m :: 0 <= k < m < |websites| ==> websites[k].index < websites[m].index
    ensures forall k :: 0 <= k < |websites| ==>
              Filled(field, websites[k].index) && websites[k].url == Text.Trim(field(websites[k].index).value)
    ensures forall i :: 1 <= i <= labCount && Filled(field, i) ==>
              exists k :: 0 <= k < |websites| && websites[k].index == i
    ensures forall k :: 0 <= k < |websites| ==> websites[k].url != ""
  {
    websites := [];
    var i := 1;
    while i <= labCount
      invariant 1 <= i <= labCount + 1
      invariant forall k :: 0 <= k < |websites| ==> 1 <= websites[k].index < i
      invariant forall k, m :: 0 <= k < m < |websites| ==> websites[k].index < websites[m].index
      invariant forall k :: 0 <= k < |websites| ==>
                  Filled(field, websites[k].index) && websites[k].url == Text.Trim(field(websites[k].index).value)
      invariant forall j :: 1 <= j < i && Filled(field, j) ==>
                  exists k :: 0 <= k < |websites| && websites[k].index == j
    {
      var input := field(i);
      if input.Some? && Text.Trim(input.value) != "" {
        ghost var before := websites;
        websites := websites + [LabTarget(Text.Trim(input.value), i)];
        assert forall k :: 0 <= k < |before| ==> websites[k] == before[k];
        assert websites[|websites| - 1].index == i;
      }
      i := i + 1;
    }
  }
}
