/** Properties of the news-detail enrichment passes specified in NewsSpec. */
module NewsLemmas {
  import opened Wrappers
  import opened JsonValue
  import opened NewsSpec

  /** The retry pass never moves a record nor changes its `ItemId`. */
  lemma {:induction false} RetryDataKeepsIds(items: seq<Record>, failed: seq<Record>, fetch: Oracle)
    ensures |RetryData(items, failed, fetch)| == |items|
    ensures forall k :: 0 <= k < |items| ==>
      Lookup(RetryData(items, failed, fetch)[k], ItemIdKey) == Lookup(items[k], ItemIdKey)
  {
    if failed != [] {
      RetryDataKeepsIds(items, failed[..|failed| - 1], fetch);
    }
  }

  /** `findIndex` looks only at the `ItemId`s. */
  lemma {:induction false} FindIndexOnlyReadsIds(a: seq<Record>, b: seq<Record>, id: Json)
    requires |a| == |b|
    requires forall k :: 0 <= k < |a| ==> Lookup(a[k], ItemIdKey) == Lookup(b[k], ItemIdKey)
    ensures FindIndex(a, id) == FindIndex(b, id)
  {
    if a != [] && Lookup(a[0], ItemIdKey) != Some(id) {
      FindIndexOnlyReadsIds(a[1..], b[1..], id);
    }
  }

  /** Hence a lookup in the partly patched array finds what it would find in the original. */
  lemma RetryDataFindIndex(items: seq<Record>, failed: seq<Record>, fetch: Oracle, id: Json)
    ensures FindIndex(RetryData(items, failed, fetch), id) == FindIndex(items, id)
  {
    RetryDataKeepsIds(items, failed, fetch);
    FindIndexOnlyReadsIds(RetryData(items, failed, fetch), items, id);
  }

  /** What one more iteration of the full pass adds to the data and the counters. */
  lemma FullRunPrefixStep(items: seq<Record>, i: nat, fetch: Oracle)
    requires i < |items|
    ensures FullRunData(items[..i + 1], fetch) ==
      FullRunData(items[..i], fetch) + if HasId(items[i]) then [Enriched(items[i], fetch)] else []
    ensures SuccessCount(items[..i + 1], fetch) ==
      SuccessCount(items[..i], fetch) + if Fetched(items[i], fetch) then 1 else 0
    ensures FailureCount(items[..i + 1], fetch) ==
      FailureCount(items[..i], fetch) + if Fetched(items[i], fetch) then 0 else 1
  {
    var pre := items[..i + 1];
    assert pre[..|pre| - 1] == items[..i];
  }

  /** An iteration of the retry loop whose item has no id or whose call returned nothing truthy. */
  lemma RetryUnfetchedStep(items: seq<Record>, failed: seq<Record>, i: nat, fetch: Oracle)
    requires i < |failed| && !Fetched(failed[i], fetch)
    ensures RetryData(items, failed[..i + 1], fetch) == RetryData(items, failed[..i], fetch)
    ensures RetrySuccessCount(items, failed[..i + 1], fetch) == RetrySuccessCount(items, failed[..i], fetch)
    ensures StillFailedCount(failed[..i + 1], fetch) == StillFailedCount(failed[..i], fetch) + 1
  {
    var pre := failed[..i + 1];
    assert pre[..|pre| - 1] == failed[..i];
  }

  /** An iteration of the retry loop whose call returned a truthy body for the id `failed[i]`. */
  lemma RetryFetchedStep(items: seq<Record>, failed: seq<Record>, i: nat, fetch: Oracle)
    requires i < |failed| && Fetched(failed[i], fetch)
    ensures var cur := RetryData(items, failed[..i], fetch);
      var k := FindIndex(cur, IdOf(failed[i]));
      && RetryData(items, failed[..i + 1], fetch) ==
           (if k != -1 then cur[k := WithDetail(cur[k], Payload(failed[i], fetch))] else cur)
      && RetrySuccessCount(items, failed[..i + 1], fetch) ==
           RetrySuccessCount(items, failed[..i], fetch) + (if k != -1 then 1 else 0)
    ensures StillFailedCount(failed[..i + 1], fetch) == StillFailedCount(failed[..i], fetch)
  {
    var pre := failed[..i + 1];
    assert pre[..|pre| - 1] == failed[..i];
    RetryDataFindIndex(items, failed[..i], fetch, IdOf(failed[i]));
  }

  // ---------------------------------------------------------------------------
  // The full pass

  /** `Identified` keeps exactly the items with a truthy `ItemId`; the others are the missing-id count. */
  lemma {:induction false} IdentifiedIsFilter(items: seq<Record>)
    ensures forall r :: r in Identified(items) <==> r in items && HasId(r)
    ensures |Identified(items)| + MissingIdCount(items) == |items|
  {
    if items != [] {
      var init := items[..|items| - 1];
      IdentifiedIsFilter(init);
      assert items == init + [items[|items| - 1]];
    }
  }

  /** Every input item is counted exactly once, as a success or as a failure. */
  lemma {:induction false} FullRunCountsEveryItem(items: seq<Record>, fetch: Oracle)
    ensures SuccessCount(items, fetch) + FailureCount(items, fetch) == |items|
    ensures FailureCount(items, fetch) >= MissingIdCount(items)
  {
    if items != [] {
      FullRunCountsEveryItem(items[..|items| - 1], fetch);
    }
  }

  /**
    The full pass's output is the identified items in input order, each
    enriched: the output keeps no item without id and adds nothing.
  */
  lemma {:induction false} FullRunDataIsEnrichedIdentified(items: seq<Record>, fetch: Oracle)
    ensures |FullRunData(items, fetch)| == |Identified(items)|
    ensures forall k :: 0 <= k < |Identified(items)| ==>
      FullRunData(items, fetch)[k] == Enriched(Identified(items)[k], fetch)
  {
    if items != [] {
      FullRunDataIsEnrichedIdentified(items[..|items| - 1], fetch);
    }
  }

  /**
    An enriched item is the original item with `detail` set to the fetched
    payload when the call returned a truthy body, and the original item
    otherwise; no other field changes.
  */
  lemma EnrichedChangesOnlyDetail(r: Record, fetch: Oracle)
    ensures forall key :: key != DetailKey ==> Lookup(Enriched(r, fetch), key) == Lookup(r, key)
    ensures Fetched(r, fetch) ==> Lookup(Enriched(r, fetch), DetailKey) == Some(Payload(r, fetch))
    ensures !Fetched(r, fetch) ==> Enriched(r, fetch) == r
  {
  }

  /**
    The full pass's counters and output: `successful + failed` is the number of
    input items, while `total` counts only the identified ones, so the two agree
    exactly when every item has an `ItemId`.
  */
  lemma FullRunCounters(doc: InputDoc, fetch: Oracle)
    requires doc.data.GetOr([]) != []
    ensures var items := doc.data.GetOr([]);
      var out := FullRunOutcome(Present(doc), fetch);
      && out.Written?
      && out.result.retryStats.None?
      && out.result.successful + out.result.failed == |items|
      && out.result.total == |out.result.data| == |Identified(items)|
      && out.result.total + MissingIdCount(items) == |items|
      && (out.result.total == out.result.successful + out.result.failed <==> MissingIdCount(items) == 0)
  {
    var items := doc.data.GetOr([]);
    FullRunCountsEveryItem(items, fetch);
    FullRunDataIsEnrichedIdentified(items, fetch);
    IdentifiedIsFilter(items);
  }

  // ---------------------------------------------------------------------------
  // Traces

  lemma TraceAppend(t: seq<Event>, e: Event)
    ensures FetchIds(t + [e]) == FetchIds(t) + if e.Fetch? then [e.id] else []
    ensures DelayCount(t + [e]) == DelayCount(t) + if e.Delay? then 1 else 0
  {
    assert (t + [e])[..|t|] == t;
  }

  /** A pass calls the remote endpoint once per identified item, in order, and never for an item without id. */
  lemma {:induction false} PassTraceCalls(items: seq<Record>, n: nat)
    requires n <= |items|
    ensures FetchIds(PassTrace(items, n)) == IdentifiedIds(items[..n])
  {
    if n > 0 {
      var i := n - 1;
      PassTraceCalls(items, i);
      assert items[..n][..i] == items[..i];
      var prev := PassTrace(items, i);
      if HasId(items[i]) {
        var called := prev + [Fetch(IdOf(items[i]))];
        TraceAppend(prev, Fetch(IdOf(items[i])));
        TraceAppend(called, Delay);
        assert IdentifiedIds(items[..n]) == IdentifiedIds(items[..i]) + [IdOf(items[i])];
      } else {
        assert PassTrace(items, n) == prev;
        assert IdentifiedIds(items[..n]) == IdentifiedIds(items[..i]);
      }
    }
  }

  /**
    A pause follows every call except the call for the item at the last index;
    an item without id gets no pause.
  */
  lemma {:induction false} PassTraceDelays(items: seq<Record>, n: nat)
    requires n <= |items|
    ensures DelayCount(PassTrace(items, n)) ==
      |Identified(items[..n])| - if n == |items| && n > 0 && HasId(items[n - 1]) then 1 else 0
  {
    if n > 0 {
      var i := n - 1;
      PassTraceDelays(items, i);
      assert items[..n][..i] == items[..i];
      if HasId(items[i]) {
        var called := PassTrace(items, i) + [Fetch(IdOf(items[i]))];
        TraceAppend(PassTrace(items, i), Fetch(IdOf(items[i])));
        TraceAppend(called, Delay);
      }
    }
  }

  /** Every pause comes right after a remote call. */
  lemma {:induction false} DelayFollowsFetch(items: seq<Record>, n: nat)
    requires n <= |items|
    ensures forall j :: 0 <= j < |PassTrace(items, n)| && PassTrace(items, n)[j].Delay? ==>
      j > 0 && PassTrace(items, n)[j - 1].Fetch?
  {
    if n > 0 {
      var i := n - 1;
      DelayFollowsFetch(items, i);
      var prev, t := PassTrace(items, i), PassTrace(items, n);
      forall j | 0 <= j < |t| && t[j].Delay?
        ensures j > 0 && t[j - 1].Fetch?
      {
        if HasId(items[i]) {
          var called := prev + [Fetch(IdOf(items[i]))];
          assert t == called || t == called + [Delay];
          if j < |prev| {
            assert t[j] == prev[j];
            assert j > 0;
            assert t[j - 1] == prev[j - 1];
          } else {
            assert t[|prev|] == Fetch(IdOf(items[i]));
            assert j == |prev| + 1;
          }
        } else {
          assert t == prev;
        }
      }
    }
  }

  /** The events of the first `n` items are the start of the events of the first `m`. */
  lemma {:induction false} PassTracePrefix(items: seq<Record>, n: nat, m: nat)
    requires n <= m <= |items|
    ensures PassTrace(items, n) <= PassTrace(items, m)
    decreases m
  {
    if n < m {
      PassTracePrefix(items, n, m - 1);
      assert PassTrace(items, m - 1) <= PassTrace(items, m);
    }
  }

  /**
    Where the pauses fall: the call for an identified item `k` comes right after
    the events of the items before it, and the next event is a pause exactly
    when `k` is not the last index.
  */
  lemma PauseAfterCall(items: seq<Record>, k: nat)
    requires k < |items| && HasId(items[k])
    ensures var full, p := PassTrace(items, |items|), |PassTrace(items, k)|;
      p < |full| && full[p] == Fetch(IdOf(items[k])) &&
      (p + 1 < |full| && full[p + 1].Delay? <==> k < |items| - 1)
  {
    PassTracePrefix(items, k + 1, |items|);
  }

  // ---------------------------------------------------------------------------
  // The retry pass

  /** `FailedItems` keeps exactly the items still lacking a truthy `detail`. */
  lemma {:induction false} FailedItemsIsFilter(items: seq<Record>)
    ensures forall r :: r in FailedItems(items) <==> r in items && NeedsDetail(r)
    ensures |FailedItems(items)| <= |items|
  {
    if items != [] {
      var init := items[..|items| - 1];
      FailedItemsIsFilter(init);
      assert items == init + [items[|items| - 1]];
    }
  }

  /** `findIndex` finds every identified item of the array it searches. */
  lemma FindIndexFinds(items: seq<Record>, r: Record)
    requires r in items && HasId(r)
    ensures 0 <= FindIndex(items, IdOf(r)) < |items|
  {
    var j :| 0 <= j < |items| && items[j] == r;
    assert Lookup(items[j], ItemIdKey) == Some(IdOf(r));
  }

  /**
    Every retried item taken from the array is counted once: a success when
    its call returned a truthy body, still failed otherwise.
  */
  lemma {:induction false} RetryCountsAddUp(items: seq<Record>, failed: seq<Record>, fetch: Oracle)
    requires forall f :: f in failed ==> f in items
    ensures RetrySuccessCount(items, failed, fetch) + StillFailedCount(failed, fetch) == |failed|
  {
    if failed != [] {
      var last := failed[|failed| - 1];
      RetryCountsAddUp(items, failed[..|failed| - 1], fetch);
      if Fetched(last, fetch) {
        FindIndexFinds(items, last);
      }
    }
  }

  /**
    After retrying `fs`, item `k` has changed only if it is the first item
    with its id and some retried item with that id was fetched; it then holds
    that payload as `detail`. Nothing else moves or changes.
  */
  lemma {:induction false} RetryDataAt(items: seq<Record>, fs: seq<Record>, fetch: Oracle)
    ensures |RetryData(items, fs, fetch)| == |items|
    ensures forall k :: 0 <= k < |items| ==>
      RetryData(items, fs, fetch)[k] ==
        if FirstWithId(items, k) && RetriedOk(fs, IdOf(items[k]), fetch)
        then WithDetail(items[k], fetch(IdOf(items[k])).value)
        else items[k]
  {
    if fs != [] {
      var init, f := fs[..|fs| - 1], fs[|fs| - 1];
      RetryDataAt(items, init, fetch);
      var before := RetryData(items, init, fetch);
      forall k | 0 <= k < |items|
        ensures RetryData(items, fs, fetch)[k] ==
          if FirstWithId(items, k) && RetriedOk(fs, IdOf(items[k]), fetch)
          then WithDetail(items[k], fetch(IdOf(items[k])).value)
          else items[k]
      {
        if Fetched(f, fetch) {
          RetryDataFindIndex(items, init, fetch, IdOf(f));
          var j := FindIndex(items, IdOf(f));
          if j == k {
            assert HasId(items[k]) && IdOf(items[k]) == IdOf(f);
            assert FirstWithId(items, k) && RetriedOk(fs, IdOf(items[k]), fetch);
            PutPut(items[k], DetailKey, fetch(IdOf(f)).value, fetch(IdOf(f)).value);
          } else {
            assert FirstWithId(items, k) && RetriedOk(fs, IdOf(items[k]), fetch) ==>
              RetriedOk(init, IdOf(items[k]), fetch);
          }
        }
      }
    }
  }

  /** Retrying keeps the length and order of the array and every field but `detail`. */
  lemma RetryChangesOnlyDetail(items: seq<Record>, fs: seq<Record>, fetch: Oracle)
    ensures |RetryData(items, fs, fetch)| == |items|
    ensures forall k, key :: 0 <= k < |items| && key != DetailKey ==>
      Lookup(RetryData(items, fs, fetch)[k], key) == Lookup(items[k], key)
  {
    RetryDataAt(items, fs, fetch);
  }

  /** Retried item `j` was fetched and carries id `id`. */
  predicate RetriedOkAt(fs: seq<Record>, j: int, id: Json, fetch: Oracle) {
    0 <= j < |fs| && Fetched(fs[j], fetch) && IdOf(fs[j]) == id
  }

  /** `RetriedOk` as a quantifier over the retried items. */
  lemma {:induction false} RetriedOkWitness(fs: seq<Record>, id: Json, fetch: Oracle)
    ensures RetriedOk(fs, id, fetch) <==> exists j :: RetriedOkAt(fs, j, id, fetch)
  {
    if fs != [] {
      var init := fs[..|fs| - 1];
      RetriedOkWitness(init, id, fetch);
      if RetriedOk(init, id, fetch) {
        var j :| RetriedOkAt(init, j, id, fetch);
        assert fs[j] == init[j];
        assert RetriedOkAt(fs, j, id, fetch);
      } else if Fetched(fs[|fs| - 1], fetch) && IdOf(fs[|fs| - 1]) == id {
        assert RetriedOkAt(fs, |fs| - 1, id, fetch);
      }
      if exists j :: RetriedOkAt(fs, j, id, fetch) {
        var j :| RetriedOkAt(fs, j, id, fetch);
        if j < |init| {
          assert init[j] == fs[j];
          assert RetriedOkAt(init, j, id, fetch);
        }
      }
    }
  }

  /**
    With unique ids, the retry pass gives each item that lacked `detail` and
    whose call now returns a truthy body that payload as `detail`, and leaves
    every other item as it was.
  */
  lemma RetryWithUniqueIds(items: seq<Record>, fetch: Oracle)
    requires UniqueIds(items)
    ensures |RetryData(items, FailedItems(items), fetch)| == |items|
    ensures forall k :: 0 <= k < |items| ==>
      RetryData(items, FailedItems(items), fetch)[k] ==
        if NeedsDetail(items[k]) && Fetched(items[k], fetch)
        then WithDetail(items[k], Payload(items[k], fetch))
        else items[k]
  {
    var fs := FailedItems(items);
    RetryDataAt(items, fs, fetch);
    FailedItemsIsFilter(items);
    forall k | 0 <= k < |items| && HasId(items[k])
      ensures FirstWithId(items, k)
      ensures RetriedOk(fs, IdOf(items[k]), fetch) <==> NeedsDetail(items[k]) && Fetched(items[k], fetch)
    {
      UniqueIdRetried(items, fs, k, fetch);
    }
  }

  /** With unique ids, item `k` is the first with its id, and it was retried successfully exactly when it lacked detail and its call now succeeds. */
  lemma UniqueIdRetried(items: seq<Record>, fs: seq<Record>, k: nat, fetch: Oracle)
    requires UniqueIds(items) && k < |items| && HasId(items[k])
    requires forall r :: r in fs <==> r in items && NeedsDetail(r)
    ensures FirstWithId(items, k)
    ensures RetriedOk(fs, IdOf(items[k]), fetch) <==> NeedsDetail(items[k]) && Fetched(items[k], fetch)
  {
    var id := IdOf(items[k]);
    var m := FindIndex(items, id);
    assert HasId(items[m]) && IdOf(items[m]) == id;
    RetriedOkWitness(fs, id, fetch);
    if RetriedOk(fs, id, fetch) {
      var j :| RetriedOkAt(fs, j, id, fetch);
      assert fs[j] in items;
      var i :| 0 <= i < |items| && items[i] == fs[j];
      assert i == k;
    }
    if NeedsDetail(items[k]) && Fetched(items[k], fetch) {
      assert items[k] in fs;
      var j :| 0 <= j < |fs| && fs[j] == items[k];
      assert RetriedOkAt(fs, j, id, fetch);
    }
  }

  /**
    With unique ids, an item ends the retry pass with a truthy `detail`
    exactly when it had one before or its retry succeeded.
  */
  lemma RetryDetailIff(items: seq<Record>, fetch: Oracle)
    requires UniqueIds(items)
    ensures |RetryData(items, FailedItems(items), fetch)| == |items|
    ensures forall k :: 0 <= k < |items| ==>
      (!NeedsDetail(RetryData(items, FailedItems(items), fetch)[k]) <==>
        !NeedsDetail(items[k]) || Fetched(items[k], fetch))
  {
    RetryWithUniqueIds(items, fetch);
  }

  // ---------------------------------------------------------------------------
  // The retry pass's counters

  /**
    The retry pass's counters follow the script's formulas: `successful_details`
    grows by the retry successes and never decreases, every attempted retry is
    either a success or still failed, and `failed_details` adds the still-failed
    retries to the previous count minus the successes, which makes it twice the
    still-failed count when the previous count equalled the number attempted.
  */
  lemma RetryCounters(doc: PreviousDoc, input: Stored<InputDoc>, fetch: Oracle)
    requires FailedItems(doc.data.GetOr([])) != []
    ensures var out := RetryOutcome(Present(doc), input, fetch);
      && out.Written? && out.result.retryStats.Some?
      && var res, st := out.result, out.result.retryStats.value;
      && res.total == |res.data| == |doc.data.GetOr([])|
      && st.attempted == |FailedItems(doc.data.GetOr([]))|
      && st.succeeded + st.stillFailed == st.attempted
      && res.successful == doc.successful + st.succeeded
      && res.successful >= doc.successful
      && res.failed == doc.failed - st.succeeded + st.stillFailed
      && (doc.failed == st.attempted ==> res.failed == 2 * st.stillFailed)
  {
    var items := doc.data.GetOr([]);
    RetryWritten(doc, input, fetch);
    FailedItemsIsFilter(items);
    RetryCountsAddUp(items, FailedItems(items), fetch);
    RetryChangesOnlyDetail(items, FailedItems(items), fetch);
  }

  /** Every item a retry pass takes from its own array is counted once. */
  lemma RetriedFromOwnData(data: seq<Record>, fetch: Oracle)
    ensures RetrySuccessCount(data, FailedItems(data), fetch) + StillFailedCount(FailedItems(data), fetch) ==
      |FailedItems(data)|
  {
    FailedItemsIsFilter(data);
    RetryCountsAddUp(data, FailedItems(data), fetch);
  }

  /** The document a retry pass writes when it finds something to retry. */
  lemma RetryWritten(doc: PreviousDoc, input: Stored<InputDoc>, fetch: Oracle)
    requires FailedItems(doc.data.GetOr([])) != []
    ensures RetryOutcome(Present(doc), input, fetch).Written?
    ensures RetryOutcome(Present(doc), input, fetch).result.total == |doc.data.GetOr([])|
    ensures RetryOutcome(Present(doc), input, fetch).result.data ==
      RetryData(doc.data.GetOr([]), FailedItems(doc.data.GetOr([])), fetch)
    ensures RetryOutcome(Present(doc), input, fetch).result.successful ==
      doc.successful + RetrySuccessCount(doc.data.GetOr([]), FailedItems(doc.data.GetOr([])), fetch)
    ensures RetryOutcome(Present(doc), input, fetch).result.failed ==
      doc.failed - RetrySuccessCount(doc.data.GetOr([]), FailedItems(doc.data.GetOr([])), fetch)
        + StillFailedCount(FailedItems(doc.data.GetOr([])), fetch)
    ensures RetryOutcome(Present(doc), input, fetch).result.retryStats == Some(RetryStats(
      |FailedItems(doc.data.GetOr([]))|,
      RetrySuccessCount(doc.data.GetOr([]), FailedItems(doc.data.GetOr([])), fetch),
      StillFailedCount(FailedItems(doc.data.GetOr([])), fetch)))
  {
  }

  /** No item carries a truthy `detail` yet, as in a fresh input file. */
  predicate NoneHasDetail(items: seq<Record>) {
    forall r :: r in items ==> NeedsDetail(r)
  }

  /**
    On an input where no item carries a `detail` field yet, the items the full
    pass leaves for a retry are its failures minus the dropped items without id.
  */
  lemma {:induction false} FullRunLeavesFailed(items: seq<Record>, fetch: Oracle)
    requires NoneHasDetail(items)
    ensures |FailedItems(FullRunData(items, fetch))| + MissingIdCount(items) == FailureCount(items, fetch)
  {
    if items != [] {
      var init, last := items[..|items| - 1], items[|items| - 1];
      assert forall r :: r in init ==> r in items;
      FullRunLeavesFailed(init, fetch);
      var a := FullRunData(init, fetch);
      if HasId(last) {
        var x := Enriched(last, fetch);
        assert FullRunData(items, fetch) == a + [x];
        FailedItemsAppend(a, x);
        assert NeedsDetail(x) <==> !Fetched(last, fetch);
      } else {
        assert FullRunData(items, fetch) == a;
      }
    }
  }

  lemma FailedItemsAppend(a: seq<Record>, x: Record)
    ensures FailedItems(a + [x]) == FailedItems(a) + if NeedsDetail(x) then [x] else []
  {
    assert (a + [x])[..|a|] == a;
  }

  /** The full pass's result, read back by a retry pass. */
  function ReadBack(items: seq<Record>, fetch: Oracle): PreviousDoc
    requires items != []
  {
    var first := FullRunOutcome(Present(InputDoc(Some(items))), fetch).result;
    PreviousDoc(first.successful, first.failed, Some(first.data))
  }

  /**
    A full pass followed by a retry pass, as written: the retry's
    `failed_details` counts every item still failing twice, on top of the
    items dropped for a missing id.
  */
  lemma FullThenRetryDoubleCounts(items: seq<Record>, fetch1: Oracle, fetch2: Oracle)
    requires items != [] && NoneHasDetail(items)
    requires FailedItems(ReadBack(items, fetch1).data.value) != []
    ensures var out := RetryOutcome(Present(ReadBack(items, fetch1)), Missing, fetch2);
      && out.Written? && out.result.retryStats.Some?
      && out.result.failed == MissingIdCount(items) + 2 * out.result.retryStats.value.stillFailed
      && out.result.successful + out.result.failed == |items| + out.result.retryStats.value.stillFailed
  {
    var data := FullRunData(items, fetch1);
    assert ReadBack(items, fetch1) ==
      PreviousDoc(SuccessCount(items, fetch1), FailureCount(items, fetch1), Some(data));
    RetryWritten(ReadBack(items, fetch1), Missing, fetch2);
    FullRunCountsEveryItem(items, fetch1);
    FullRunLeavesFailed(items, fetch1);
    RetriedFromOwnData(data, fetch2);
  }

  /**
    The corrected counter: subtracting only the successes keeps
    `successful + failed` equal to the number of input items across a full
    pass and a retry pass, and leaves `failed` equal to the dropped items plus
    the items still failing.
  */
  lemma CorrectedRetryCountsEveryItem(items: seq<Record>, fetch1: Oracle, fetch2: Oracle)
    requires items != [] && NoneHasDetail(items)
    requires FailedItems(ReadBack(items, fetch1).data.value) != []
    ensures var prev := ReadBack(items, fetch1);
      var out := RetryOutcome(Present(prev), Missing, fetch2);
      && out.Written? && out.result.retryStats.Some?
      && var st := out.result.retryStats.value;
      && var failed := CorrectedRetryFailed(prev.failed, st.succeeded);
      && out.result.successful + failed == |items|
      && failed == MissingIdCount(items) + st.stillFailed
  {
    var data := FullRunData(items, fetch1);
    assert ReadBack(items, fetch1) ==
      PreviousDoc(SuccessCount(items, fetch1), FailureCount(items, fetch1), Some(data));
    RetryWritten(ReadBack(items, fetch1), Missing, fetch2);
    FullRunCountsEveryItem(items, fetch1);
    FullRunLeavesFailed(items, fetch1);
    RetriedFromOwnData(data, fetch2);
  }
}
