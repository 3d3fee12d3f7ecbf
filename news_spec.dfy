/**
  What the news-detail enrichment script computes, as functions: one function
  per loop of the script (the full pass and the retry pass), the counters they
  keep, the trace of remote calls and courtesy delays they make, and lemmas
  about all of these. The script's two `async` entry points are modelled as
  methods in module NewsDetailed, each proved equal to a function here.
*/
module NewsSpec {
  import opened Wrappers
  import opened JsonValue

  /** One news item: a JSON object. */
  type Record = Members

  /**
    The remote detail call for one `ItemId`: `None` when the request or the body
    parse throws (the call then returns `null`), otherwise the parsed body,
    whatever the HTTP status was.
  */
  type Oracle = Json -> Option<Json>

  /** What the pipeline does besides computing: a remote call, or a 1-second pause. */
  datatype Event = Fetch(id: Json) | Delay

  /** The ids a trace sends to the remote endpoint, in order. */
  function FetchIds(t: seq<Event>): seq<Json> {
    if t == [] then []
    else FetchIds(t[..|t| - 1]) + if t[|t| - 1].Fetch? then [t[|t| - 1].id] else []
  }

  /** The number of pauses in a trace. */
  function DelayCount(t: seq<Event>): nat {
    if t == [] then 0
    else DelayCount(t[..|t| - 1]) + if t[|t| - 1].Delay? then 1 else 0
  }

  const ItemIdKey: string := "ItemId"
  const DetailKey: string := "detail"

  /** The input document: its `data` array, `None` when the field is missing or falsy. */
  datatype InputDoc = InputDoc(data: Option<seq<Record>>)

  /** A previous result document, as the retry pass reads it back. */
  datatype PreviousDoc = PreviousDoc(successful: int, failed: int, data: Option<seq<Record>>)

  /** A JSON file on disk: absent, present but not parseable, or parsed. */
  datatype Stored<T> = Missing | Unparsable | Present(doc: T)

  datatype RetryStats = RetryStats(attempted: nat, succeeded: nat, stillFailed: nat)

  /** The document a pass writes: `total`, `successful_details`, `failed_details`, `data`, `retry_stats`. */
  datatype RunResult = RunResult(
    total: nat,
    successful: int,
    failed: int,
    data: seq<Record>,
    retryStats: Option<RetryStats>)

  /** How a pass ends: the process exits with status 1, it returns without writing, or it writes a result. */
  datatype Outcome = Fatal | Skipped | Written(result: RunResult)

  // ---------------------------------------------------------------------------
  // One item

  /** `if (!newsId)` fails: the item has a truthy `ItemId`. */
  predicate HasId(r: Record) {
    JsTruthyOpt(Lookup(r, ItemIdKey))
  }

  function IdOf(r: Record): Json
    requires HasId(r)
  {
    Lookup(r, ItemIdKey).value
  }

  /** The item has an id and its remote call returned a truthy body. */
  predicate Fetched(r: Record, fetch: Oracle) {
    HasId(r) && JsTruthyOpt(fetch(IdOf(r)))
  }

  function Payload(r: Record, fetch: Oracle): Json
    requires Fetched(r, fetch)
  {
    fetch(IdOf(r)).value
  }

  /** `{...r, detail: p}` */
  function WithDetail(r: Record, p: Json): Record {
    Put(r, DetailKey, p)
  }

  /** The record the full pass keeps for an identified item. */
  function Enriched(r: Record, fetch: Oracle): Record {
    if Fetched(r, fetch) then WithDetail(r, Payload(r, fetch)) else r
  }

  // ---------------------------------------------------------------------------
  // The full pass

  /** The items with a truthy `ItemId`, in input order. */
  function Identified(items: seq<Record>): seq<Record> {
    if items == [] then []
    else
      var init, last := items[..|items| - 1], items[|items| - 1];
      Identified(init) + if HasId(last) then [last] else []
  }

  /** Their ids, in input order. */
  function IdentifiedIds(items: seq<Record>): seq<Json> {
    if items == [] then []
    else
      var init, last := items[..|items| - 1], items[|items| - 1];
      IdentifiedIds(init) + if HasId(last) then [IdOf(last)] else []
  }

  function MissingIdCount(items: seq<Record>): nat {
    if items == [] then 0
    else MissingIdCount(items[..|items| - 1]) + if HasId(items[|items| - 1]) then 0 else 1
  }

  /** `detailedNews` after the loop has seen `items`. */
  function FullRunData(items: seq<Record>, fetch: Oracle): (data: seq<Record>)
    ensures |data| <= |items|
  {
    if items == [] then []
    else
      var init, last := items[..|items| - 1], items[|items| - 1];
      FullRunData(init, fetch) + if HasId(last) then [Enriched(last, fetch)] else []
  }

  /** `successCount`: one per item whose detail was fetched. */
  function SuccessCount(items: seq<Record>, fetch: Oracle): nat {
    if items == [] then 0
    else SuccessCount(items[..|items| - 1], fetch) + if Fetched(items[|items| - 1], fetch) then 1 else 0
  }

  /** `errorCount`: one per item without an id, and one per item whose call returned nothing truthy. */
  function FailureCount(items: seq<Record>, fetch: Oracle): nat {
    if items == [] then 0
    else
      var last := items[|items| - 1];
      FailureCount(items[..|items| - 1], fetch) +
        if !HasId(last) then 1 else if Fetched(last, fetch) then 0 else 1
  }

  /**
    The events of the first `n` iterations of a loop over `items`: an item
    without id adds nothing, any other adds its remote call and, unless it is
    the last item, a pause.
  */
  function PassTrace(items: seq<Record>, n: nat): (t: seq<Event>)
    requires n <= |items|
    ensures |t| <= 2 * n
  {
    if n == 0 then []
    else
      var i := n - 1;
      if !HasId(items[i]) then PassTrace(items, i)
      else
        var called := PassTrace(items, i) + [Fetch(IdOf(items[i]))];
        if i < |items| - 1 then called + [Delay] else called
  }

  /** The full pass, run on the input file. */
  function FullRunOutcome(input: Stored<InputDoc>, fetch: Oracle): (o: Outcome)
    ensures o.Fatal? <==> !input.Present?
    ensures o.Skipped? <==> input.Present? && input.doc.data.GetOr([]) == []
    ensures o.Written? ==> o.result.retryStats.None? && o.result.total <= |input.doc.data.GetOr([])|
  {
    match input
    case Missing => Fatal
    case Unparsable => Fatal
    case Present(doc) =>
      var items := doc.data.GetOr([]);
      if items == [] then Skipped
      else
        var data := FullRunData(items, fetch);
        Written(RunResult(|data|, SuccessCount(items, fetch), FailureCount(items, fetch), data, None))
  }

  function FullRunTrace(input: Stored<InputDoc>): seq<Event> {
    if input.Present? && input.doc.data.GetOr([]) != [] then
      var items := input.doc.data.GetOr([]);
      PassTrace(items, |items|)
    else []
  }

  // ---------------------------------------------------------------------------
  // The retry pass

  /** `!item.detail || item.detail === null`: the item still lacks its detail. */
  predicate NeedsDetail(r: Record) {
    !JsTruthyOpt(Lookup(r, DetailKey))
  }

  /** `newsItems.filter(...)`: the items still lacking detail, in order. */
  function FailedItems(items: seq<Record>): seq<Record> {
    if items == [] then []
    else
      var init, last := items[..|items| - 1], items[|items| - 1];
      FailedItems(init) + if NeedsDetail(last) then [last] else []
  }

  /** `items.findIndex(item => item.ItemId === id)` */
  function FindIndex(items: seq<Record>, id: Json): (k: int)
    ensures -1 <= k < |items|
    ensures k >= 0 ==> Lookup(items[k], ItemIdKey) == Some(id)
    ensures forall j :: 0 <= j < |items| && (k < 0 || j < k) ==> Lookup(items[j], ItemIdKey) != Some(id)
  {
    if items == [] then -1
    else if Lookup(items[0], ItemIdKey) == Some(id) then 0
    else
      var k := FindIndex(items[1..], id);
      if k < 0 then -1 else k + 1
  }

  /** One iteration of the retry loop, on the array as it stands. */
  function RetryStep(items: seq<Record>, f: Record, fetch: Oracle): seq<Record> {
    if Fetched(f, fetch) then
      var k := FindIndex(items, IdOf(f));
      if k >= 0 then items[k := WithDetail(items[k], Payload(f, fetch))] else items
    else items
  }

  /** `newsItems` after the retry loop has processed `failed`. */
  function RetryData(items: seq<Record>, failed: seq<Record>, fetch: Oracle): seq<Record> {
    if failed == [] then items
    else RetryStep(RetryData(items, failed[..|failed| - 1], fetch), failed[|failed| - 1], fetch)
  }

  /** `successCount` of the retry loop: a fetched item whose id is found in the array. */
  function RetrySuccessCount(items: seq<Record>, failed: seq<Record>, fetch: Oracle): nat {
    if failed == [] then 0
    else
      var last := failed[|failed| - 1];
      RetrySuccessCount(items, failed[..|failed| - 1], fetch) +
        if Fetched(last, fetch) && FindIndex(items, IdOf(last)) >= 0 then 1 else 0
  }

  /** `stillFailedCount`: an item without id, or one whose call returned nothing truthy. */
  function StillFailedCount(failed: seq<Record>, fetch: Oracle): nat {
    if failed == [] then 0
    else
      var last := failed[|failed| - 1];
      StillFailedCount(failed[..|failed| - 1], fetch) +
        if !HasId(last) then 1 else if Fetched(last, fetch) then 0 else 1
  }

  /** The retry pass; without a previous result file it runs the full pass instead. */
  function RetryOutcome(previous: Stored<PreviousDoc>, input: Stored<InputDoc>, fetch: Oracle): (o: Outcome)
    ensures previous.Missing? ==> o == FullRunOutcome(input, fetch)
    ensures previous.Unparsable? ==> o.Fatal?
    ensures previous.Present? ==> !o.Fatal?
    ensures previous.Present? ==> (o.Skipped? <==> FailedItems(previous.doc.data.GetOr([])) == [])
    ensures previous.Present? && o.Written? ==>
      o.result.total == |previous.doc.data.GetOr([])| && o.result.retryStats.Some? && o.result.retryStats.value.attempted > 0
  {
    match previous
    case Missing => FullRunOutcome(input, fetch)
    case Unparsable => Fatal
    case Present(doc) =>
      var items := doc.data.GetOr([]);
      var failed := FailedItems(items);
      if failed == [] then Skipped
      else
        var ok := RetrySuccessCount(items, failed, fetch);
        var still := StillFailedCount(failed, fetch);
        Written(RunResult(
          |items|,
          doc.successful + ok,
          doc.failed - ok + still,
          RetryData(items, failed, fetch),
          Some(RetryStats(|failed|, ok, still))))
  }

  function RetryTrace(previous: Stored<PreviousDoc>, input: Stored<InputDoc>): seq<Event> {
    match previous
    case Missing => FullRunTrace(input)
    case Unparsable => []
    case Present(doc) =>
      var failed := FailedItems(doc.data.GetOr([]));
      PassTrace(failed, |failed|)
  }

  // ---------------------------------------------------------------------------
  // Vocabulary for the retry pass's properties

  /** No two identified items share an `ItemId`. */
  predicate UniqueIds(items: seq<Record>) {
    forall i, j :: 0 <= i < |items| && 0 <= j < |items| && i != j && HasId(items[i]) && HasId(items[j]) ==>
      IdOf(items[i]) != IdOf(items[j])
  }

  /** Item `k` is the one `findIndex` returns for its own id. */
  predicate FirstWithId(items: seq<Record>, k: nat)
    requires k < |items|
  {
    HasId(items[k]) && FindIndex(items, IdOf(items[k])) == k
  }

  /** Some item of `fs` with id `id` was retried successfully. */
  function RetriedOk(fs: seq<Record>, id: Json, fetch: Oracle): (ok: bool)
    ensures ok ==> JsTruthyOpt(fetch(id))
  {
    if fs == [] then false
    else
      var last := fs[|fs| - 1];
      RetriedOk(fs[..|fs| - 1], id, fetch) || (Fetched(last, fetch) && IdOf(last) == id)
  }

  /** The failed counter a retry would need to keep `successful + failed` equal to the number of items. */
  function CorrectedRetryFailed(previousFailed: int, succeeded: nat): int {
    previousFailed - succeeded
  }
}
