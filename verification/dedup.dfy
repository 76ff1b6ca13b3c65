/** `removeDuplicateWebsites`: keep the first lab of each normalised URL key. */
module Dedup {
  import Seqs
  import opened Urls
  import opened Labs

  /** The de-duplication key of a lab target. */
  function Key(parse: UrlParser, t: LabTarget): string {
    NormalizeUrl(parse, t.url)
  }

  /** No earlier target of `ws` shares the key of `ws[i]`. */
  predicate IsFirstOccurrence(parse: UrlParser, ws: seq<LabTarget>, i: nat)
    requires i < |ws|
  {
    forall j :: 0 <= j < i ==> Key(parse, ws[j]) != Key(parse, ws[i])
  }

  /** Reference definition: the targets that are the first occurrence of
      their key, in input order. */
  function FirstOccurrences(parse: UrlParser, ws: seq<LabTarget>): seq<LabTarget>
    decreases |ws|
  {
    if ws == [] then []
    else
      var last := |ws| - 1;
      FirstOccurrences(parse, ws[..last]) + (if IsFirstOccurrence(parse, ws, last) then [ws[last]] else [])
  }

  /** The keys of the targets in `ws`. */
  function Keys(parse: UrlParser, ws: seq<LabTarget>): set<string> {
    set t | t in ws :: Key(parse, t)
  }

  predicate KeysDistinct(parse: UrlParser, ws: seq<LabTarget>) {
    forall a, b :: 0 <= a < b < |ws| ==> Key(parse, ws[a]) != Key(parse, ws[b])
  }

  /** `removeDuplicateWebsites` (public/script.js:292-302): a filter with a
      set of the keys seen so far. Its result is the first occurrence of each
      key, in input order: an order-preserving subsequence of the input whose
      keys are pairwise distinct and cover every input key. */
  method RemoveDuplicateWebsites(parse: UrlParser, websites: seq<LabTarget>) returns (unique: seq<LabTarget>)
    ensures unique == FirstOccurrences(parse, websites)
    ensures Seqs.IsSubsequence(unique, websites)
    ensures |unique| <= |websites|
    ensures KeysDistinct(parse, unique)
    ensures Keys(parse, unique) == Keys(parse, websites)
    ensures forall i :: 0 <= i < |websites| && IsFirstOccurrence(parse, websites, i) ==> websites[i] in unique
  {
    var seen: set<string> := {};
    unique := [];
    var i := 0;
    while i < |websites|
      invariant 0 <= i <= |websites|
      invariant seen == Keys(parse, websites[..i])
      invariant unique == FirstOccurrences(parse, websites[..i])
    {
      var key := NormalizeUrl(parse, websites[i].url);
      FirstOccurrencesStep(parse, websites, i);
      if key !in seen {
        seen := seen + {key};
        unique := unique + [websites[i]];
      }
      i := i + 1;
    }
    assert websites[..|websites|] == websites;
    FirstOccurrencesSubsequence(parse, websites);
    FirstOccurrencesDistinct(parse, websites);
    FirstOccurrencesKeys(parse, websites);
    FirstOccurrencesKeepFirsts(parse, websites);
    Seqs.SubsequenceMembers(unique, websites);
  }

  /** One step of the filter: the next target is kept exactly when its key
      has not been seen, and the seen keys grow by its key. */
  lemma FirstOccurrencesStep(parse: UrlParser, ws: seq<LabTarget>, i: nat)
    requires i < |ws|
    ensures FirstOccurrences(parse, ws[..i + 1]) ==
            FirstOccurrences(parse, ws[..i]) + (if Key(parse, ws[i]) in Keys(parse, ws[..i]) then [] else [ws[i]])
    ensures Keys(parse, ws[..i + 1]) == Keys(parse, ws[..i]) + {Key(parse, ws[i])}
  {
    var pre := ws[..i + 1];
    assert pre[..i] == ws[..i];
    assert pre == ws[..i] + [ws[i]];
    if Key(parse, ws[i]) in Keys(parse, ws[..i]) {
      var t :| t in ws[..i] && Key(parse, t) == Key(parse, ws[i]);
      var j :| 0 <= j < i && ws[..i][j] == t;
      assert pre[j] == t;
      assert !IsFirstOccurrence(parse, pre, i);
    } else {
      forall j | 0 <= j < i ensures Key(parse, pre[j]) != Key(parse, pre[i]) {
        assert pre[j] == ws[..i][j];
        assert ws[..i][j] in ws[..i];
      }
    }
  }

  /** The first occurrences form a subsequence of the input. */
  lemma {:induction false} FirstOccurrencesSubsequence(parse: UrlParser, ws: seq<LabTarget>)
    ensures Seqs.IsSubsequence(FirstOccurrences(parse, ws), ws)
    decreases |ws|
  {
    if ws != [] {
      var last := |ws| - 1;
      var init := ws[..last];
      var fo := FirstOccurrences(parse, init);
      FirstOccurrencesSubsequence(parse, init);
      Seqs.SubsequenceSnoc(fo, init, ws[last]);
      assert init + [ws[last]] == ws;
      if IsFirstOccurrence(parse, ws, last) {
        assert FirstOccurrences(parse, ws) == fo + [ws[last]];
      } else {
        assert FirstOccurrences(parse, ws) == fo;
      }
    }
  }

  /** The first occurrences cover every key of the input. */
  lemma {:induction false} FirstOccurrencesKeys(parse: UrlParser, ws: seq<LabTarget>)
    ensures Keys(parse, FirstOccurrences(parse, ws)) == Keys(parse, ws)
    decreases |ws|
  {
    if ws != [] {
      var last := |ws| - 1;
      var init := ws[..last];
      var fo := FirstOccurrences(parse, init);
      FirstOccurrencesKeys(parse, init);
      assert ws == init + [ws[last]];
      assert Keys(parse, ws) == Keys(parse, init) + {Key(parse, ws[last])};
      if IsFirstOccurrence(parse, ws, last) {
        assert FirstOccurrences(parse, ws) == fo + [ws[last]];
        assert Keys(parse, fo + [ws[last]]) == Keys(parse, fo) + {Key(parse, ws[last])};
      } else {
        assert FirstOccurrences(parse, ws) == fo;
        var j :| 0 <= j < last && Key(parse, ws[j]) == Key(parse, ws[last]);
        assert init[j] in init;
      }
    }
  }

  /** No two first occurrences share a key. */
  lemma {:induction false} FirstOccurrencesDistinct(parse: UrlParser, ws: seq<LabTarget>)
    ensures KeysDistinct(parse, FirstOccurrences(parse, ws))
    decreases |ws|
  {
    if ws != [] {
      var last := |ws| - 1;
      var init := ws[..last];
      var fo := FirstOccurrences(parse, init);
      FirstOccurrencesDistinct(parse, init);
      if IsFirstOccurrence(parse, ws, last) {
        FirstOccurrencesKeys(parse, init);
        forall a | 0 <= a < |fo| ensures Key(parse, fo[a]) != Key(parse, ws[last]) {
          assert Key(parse, fo[a]) in Keys(parse, fo);
          var j :| 0 <= j < |init| && Key(parse, init[j]) == Key(parse, fo[a]);
          assert init[j] == ws[j];
        }
        var r := fo + [ws[last]];
        forall a, b | 0 <= a < b < |r| ensures Key(parse, r[a]) != Key(parse, r[b]) {
          if b < |fo| {
            assert r[a] == fo[a] && r[b] == fo[b];
          } else {
            assert r[a] == fo[a] && r[b] == ws[last];
          }
        }
      }
    }
  }

  /** Every first occurrence of a key survives. */
  lemma {:induction false} FirstOccurrencesKeepFirsts(parse: UrlParser, ws: seq<LabTarget>)
    ensures forall i :: 0 <= i < |ws| && IsFirstOccurrence(parse, ws, i) ==> ws[i] in FirstOccurrences(parse, ws)
    decreases |ws|
  {
    if ws != [] {
      var last := |ws| - 1;
      var init := ws[..last];
      FirstOccurrencesKeepFirsts(parse, init);
      forall i | 0 <= i < |ws| && IsFirstOccurrence(parse, ws, i)
        ensures ws[i] in FirstOccurrences(parse, ws)
      {
        if i < last {
          assert init[i] == ws[i];
          assert IsFirstOccurrence(parse, init, i);
        }
      }
    }
  }
}
