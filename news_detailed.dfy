/**
  The two entry points of the news-detail enrichment script. Each is a single
  sequential loop; the remote call is the oracle `fetch`, a courtesy pause is a
  `Delay` event in the returned trace, reading the input or previous-result
  file is a `Stored` value and writing the result file is the `Written` outcome.
*/
module NewsDetailed {
  import opened Wrappers
  import opened JsonValue
  import opened NewsSpec
  import NewsLemmas

  /**
    `fetchAllNewsDetails`: one pass over the input items, in order. An item
    without `ItemId` is counted failed and dropped; any other item is fetched
    and kept, with `detail` when the call returned a truthy body.
  */
  method FetchAllNewsDetails(input: Stored<InputDoc>, fetch: Oracle) returns (out: Outcome, trace: seq<Event>)
    ensures out == FullRunOutcome(input, fetch)
    ensures trace == FullRunTrace(input)
    ensures !input.Present? ==> out == Fatal && trace == []
    ensures input.Present? && input.doc.data.GetOr([]) == [] ==> out == Skipped && trace == []
  {
    if !input.Present? {
      return Fatal, [];
    }
    var newsItems := input.doc.data.GetOr([]);
    if |newsItems| == 0 {
      return Skipped, [];
    }

    var detailedNews: seq<Record> := [];
    var successCount, errorCount := 0, 0;
    trace := [];
    for i := 0 to |newsItems|
      invariant detailedNews == FullRunData(newsItems[..i], fetch)
      invariant successCount == SuccessCount(newsItems[..i], fetch)
      invariant errorCount == FailureCount(newsItems[..i], fetch)
      invariant trace == PassTrace(newsItems, i)
    {
      var newsItem := newsItems[i];
      NewsLemmas.FullRunPrefixStep(newsItems, i, fetch);
      if !HasId(newsItem) {
        errorCount := errorCount + 1;
        continue;
      }
      var newsId := IdOf(newsItem);
      var detail := fetch(newsId);
      trace := trace + [Fetch(newsId)];
      if JsTruthyOpt(detail) {
        detailedNews := detailedNews + [WithDetail(newsItem, detail.value)];
        successCount := successCount + 1;
      } else {
        detailedNews := detailedNews + [newsItem];
        errorCount := errorCount + 1;
      }
      if i < |newsItems| - 1 {
        trace := trace + [Delay];
      }
    }
    assert newsItems[..|newsItems|] == newsItems;
    out := Written(RunResult(|detailedNews|, successCount, errorCount, detailedNews, None));
  }

  /**
    `retryFailedDetails`: re-fetches the items of the previous result that still
    lack `detail`, patching each success into the full array in place at the
    first index holding that `ItemId`, then recomputes the counters.
  */
  method RetryFailedDetails(previous: Stored<PreviousDoc>, input: Stored<InputDoc>, fetch: Oracle)
    returns (out: Outcome, trace: seq<Event>)
    ensures out == RetryOutcome(previous, input, fetch)
    ensures trace == RetryTrace(previous, input)
    ensures previous.Present? && FailedItems(previous.doc.data.GetOr([])) == [] ==> out == Skipped && trace == []
  {
    if previous.Missing? {
      out, trace := FetchAllNewsDetails(input, fetch);
      return;
    }
    if previous.Unparsable? {
      return Fatal, [];
    }
    var doc := previous.doc;
    var newsItems := doc.data.GetOr([]);
    var failedItems := FailedItems(newsItems);
    if |failedItems| == 0 {
      return Skipped, [];
    }
    var data, successCount, stillFailedCount;
    data, successCount, stillFailedCount, trace := RetryLoop(newsItems, failedItems, fetch);
    NewsLemmas.RetryDataKeepsIds(newsItems, failedItems, fetch);
    assert |data| == |newsItems|;
    out := Written(RunResult(
      |data|,
      doc.successful + successCount,
      doc.failed - successCount + stillFailedCount,
      data,
      Some(RetryStats(|failedItems|, successCount, stillFailedCount))));
  }

  /**
    The loop of `retryFailedDetails`: successful retries overwrite one element
    of the full array, located by `findIndex`.
  */
  method RetryLoop(items: seq<Record>, failedItems: seq<Record>, fetch: Oracle)
    returns (newsItems: seq<Record>, successCount: nat, stillFailedCount: nat, trace: seq<Event>)
    ensures newsItems == RetryData(items, failedItems, fetch)
    ensures successCount == RetrySuccessCount(items, failedItems, fetch)
    ensures stillFailedCount == StillFailedCount(failedItems, fetch)
    ensures trace == PassTrace(failedItems, |failedItems|)
  {
    newsItems := items;
    successCount, stillFailedCount := 0, 0;
    trace := [];
    for i := 0 to |failedItems|
      invariant newsItems == RetryData(items, failedItems[..i], fetch)
      invariant successCount == RetrySuccessCount(items, failedItems[..i], fetch)
      invariant stillFailedCount == StillFailedCount(failedItems[..i], fetch)
      invariant trace == PassTrace(failedItems, i)
    {
      var newsItem := failedItems[i];
      if !HasId(newsItem) {
        NewsLemmas.RetryUnfetchedStep(items, failedItems, i, fetch);
        stillFailedCount := stillFailedCount + 1;
        continue;
      }
      var newsId := IdOf(newsItem);
      var detail := fetch(newsId);
      trace := trace + [Fetch(newsId)];
      if JsTruthyOpt(detail) {
        NewsLemmas.RetryFetchedStep(items, failedItems, i, fetch);
        var originalIndex := FindIndex(newsItems, newsId);
        if originalIndex != -1 {
          newsItems := newsItems[originalIndex := WithDetail(newsItems[originalIndex], detail.value)];
          successCount := successCount + 1;
        }
      } else {
        NewsLemmas.RetryUnfetchedStep(items, failedItems, i, fetch);
        stillFailedCount := stillFailedCount + 1;
      }
      if i < |failedItems| - 1 {
        trace := trace + [Delay];
      }
    }
    assert failedItems[..|failedItems|] == failedItems;
  }
}
