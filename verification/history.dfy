/** The saved lists of the client: the capped, newest-first history of
    emails and the personal-information templates. Only the in-memory
    lists are modelled; persisting them is not. */
module History {
  import opened Wrappers
  import Seqs
  import opened Batch

  /** A saved email. The timestamp is not modelled; the id is supplied by the caller. */
  datatype HistoryItem = HistoryItem(id: string, email: Option<string>, formData: FormData, labUrl: string)

  /** A saved set of personal information. The creation date is not modelled. */
  datatype Template = Template(id: string, name: string, data: FormData)

  const HistoryLimit := 50

  /** The history entry recorded for a slot (public/script.js:505-511). */
  function EntryFor(result: EmailResult, id: string): HistoryItem {
    HistoryItem(id, result.email, result.formData, result.labUrl)
  }

  /** `saveHistory` (public/script.js:794-805): the list is cut to its first
      50 entries, the newest ones. */
  function SaveHistory(history: seq<HistoryItem>): (r: seq<HistoryItem>)
    ensures |r| <= HistoryLimit
    ensures |r| == if |history| <= HistoryLimit then |history| else HistoryLimit
    ensures r == history[..|r|]
  {
    if |history| > HistoryLimit then history[..HistoryLimit] else history
  }

  /** Saving twice keeps the same list. */
  lemma SaveHistoryIdempotent(history: seq<HistoryItem>)
    ensures SaveHistory(SaveHistory(history)) == SaveHistory(history)
  {
  }

  /** `unshift` followed by `saveHistory`: the new entry comes first. */
  function SaveEntry(history: seq<HistoryItem>, item: HistoryItem): (r: seq<HistoryItem>)
    ensures r != [] && r[0] == item
    ensures |r| <= HistoryLimit
    ensures |r| == if |history| + 1 <= HistoryLimit then |history| + 1 else HistoryLimit
    ensures |r| - 1 <= |history| && r[1..] == history[..|r| - 1]
  {
    SaveHistory([item] + history)
  }

  /** `forEach(item => history.unshift(item))`: the items end up in
      reverse order in front of the old list. */
  method UnshiftEach(items: seq<HistoryItem>, history: seq<HistoryItem>) returns (h: seq<HistoryItem>)
    ensures |h| == |items| + |history|
    ensures forall j :: 0 <= j < |items| ==> h[j] == items[|items| - 1 - j]
    ensures h[|items|..] == history
  {
    h := history;
    var k := 0;
    while k < |items|
      invariant 0 <= k <= |items|
      invariant |h| == |history| + k
      invariant forall j :: 0 <= j < k ==> h[j] == items[k - 1 - j]
      invariant h[k..] == history
    {
      ghost var before := h;
      h := [items[k]] + h;
      assert forall j :: 1 <= j <= k ==> h[j] == before[j - 1];
      assert h[k + 1..] == before[k..];
      k := k + 1;
    }
  }

  /** `saveAllToHistory` (public/script.js:496-526): each successful slot is
      `unshift`ed in turn, so the last one ends up first and the old history
      follows, all cut to 50. With no successful slot nothing changes. The
      id of the k-th saved entry is `freshId(k)`. */
  method SaveAllToHistory(lastGenerated: seq<EmailResult>, history: seq<HistoryItem>, freshId: nat -> string)
    returns (updated: seq<HistoryItem>, saved: nat)
    ensures saved == |Successful(lastGenerated)|
    ensures saved == 0 ==> updated == history
    ensures saved > 0 ==> |updated| == if saved + |history| <= HistoryLimit then saved + |history| else HistoryLimit
    ensures saved > 0 ==> forall j :: 0 <= j < |updated| && j < saved ==>
              updated[j] == EntryFor(Successful(lastGenerated)[saved - 1 - j], freshId(saved - 1 - j))
    ensures saved > 0 ==> forall j :: saved <= j < |updated| ==> updated[j] == history[j - saved]
  {
    var successful := Successful(lastGenerated);
    saved := |successful|;
    if successful == [] {
      return history, 0;
    }
    var entries := seq(saved, k requires 0 <= k < saved => EntryFor(successful[k], freshId(k)));
    var h := UnshiftEach(entries, history);
    updated := SaveHistory(h);
    CappedUnshift(entries, history, h);
  }

  /** Cutting the result of `UnshiftEach` to 50 keeps the reversed items
      first and the old history after them. */
  lemma CappedUnshift(items: seq<HistoryItem>, history: seq<HistoryItem>, h: seq<HistoryItem>)
    requires |h| == |items| + |history|
    requires forall j :: 0 <= j < |items| ==> h[j] == items[|items| - 1 - j]
    requires h[|items|..] == history
    ensures |SaveHistory(h)| == if |items| + |history| <= HistoryLimit then |items| + |history| else HistoryLimit
    ensures forall j :: 0 <= j < |SaveHistory(h)| && j < |items| ==> SaveHistory(h)[j] == items[|items| - 1 - j]
    ensures forall j :: |items| <= j < |SaveHistory(h)| ==> SaveHistory(h)[j] == history[j - |items|]
  {
    var updated := SaveHistory(h);
    forall j | |items| <= j < |updated| ensures updated[j] == history[j - |items|] {
      assert updated[j] == h[j] == h[|items|..][j - |items|];
    }
  }

  /** Removing every element with the given id, keeping the rest in order. */
  function WithoutHistoryId(history: seq<HistoryItem>, id: string): (r: seq<HistoryItem>)
    ensures Seqs.IsSubsequence(r, history)
    ensures forall i :: 0 <= i < |r| ==> r[i].id != id
    ensures forall i :: 0 <= i < |history| && history[i].id != id ==> history[i] in r
    ensures |r| + |Seqs.Filter(history, (h: HistoryItem) => h.id == id)| == |history|
  {
    Seqs.FilterMembers(history, (h: HistoryItem) => h.id != id);
    Seqs.FilterPartition(history, (h: HistoryItem) => h.id != id, (h: HistoryItem) => h.id == id);
    Seqs.Filter(history, (h: HistoryItem) => h.id != id)
  }

  /** `deleteHistoryItem` (public/script.js:731-740): once confirmed, the
      entries with that id go and the list is saved again. */
  function DeleteHistoryItem(history: seq<HistoryItem>, id: string, confirmed: bool): (r: seq<HistoryItem>)
    ensures !confirmed ==> r == history
    ensures confirmed ==> Seqs.IsSubsequence(r, history) && |r| <= HistoryLimit
    ensures confirmed ==> forall i :: 0 <= i < |r| ==> r[i].id != id
    ensures confirmed && |history| <= HistoryLimit ==>
              forall i :: 0 <= i < |history| && history[i].id != id ==> history[i] in r
    ensures confirmed ==>
              |r| == if |WithoutHistoryId(history, id)| <= HistoryLimit then |WithoutHistoryId(history, id)| else HistoryLimit
    ensures confirmed ==> r == WithoutHistoryId(history, id)[..|r|]
  {
    if !confirmed then history
    else
      var kept := WithoutHistoryId(history, id);
      Seqs.SubsequencePrefix(kept, history, |SaveHistory(kept)|);
      SaveHistory(kept)
  }

  /** `deleteTemplate` (public/script.js:720-729): once confirmed, the
      templates with that id go and the others stay in order. */
  function DeleteTemplate(templates: seq<Template>, id: string, confirmed: bool): (r: seq<Template>)
    ensures !confirmed ==> r == templates
    ensures confirmed ==> Seqs.IsSubsequence(r, templates)
    ensures confirmed ==> forall i :: 0 <= i < |r| ==> r[i].id != id
    ensures confirmed ==> forall i :: 0 <= i < |templates| && templates[i].id != id ==> templates[i] in r
    ensures confirmed ==> |r| + |Seqs.Filter(templates, (t: Template) => t.id == id)| == |templates|
  {
    if !confirmed then templates
    else
      Seqs.FilterMembers(templates, (t: Template) => t.id != id);
      Seqs.FilterPartition(templates, (t: Template) => t.id != id, (t: Template) => t.id == id);
      Seqs.Filter(templates, (t: Template) => t.id != id)
  }
}
