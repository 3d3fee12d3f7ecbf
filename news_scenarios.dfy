/**
  Concrete runs of the news-detail passes: two items "A" and "B", where the
  first call for "B" fails. They exercise the specification functions of
  NewsSpec on small inputs.
*/
module NewsScenarios {
  import opened Wrappers
  import opened JsonValue
  import opened NewsSpec

  const ItemA: Record := [Member("ItemId", JStr("A"))]
  const ItemB: Record := [Member("ItemId", JStr("B"))]
  const DetailA: Json := JObj([Member("x", JNum(1))])
  const DetailB: Json := JObj([Member("y", JNum(2))])

  /** The first run's endpoint: a body for "A", a thrown error or an unparsable body for "B". */
  function FirstFetch(id: Json): Option<Json> {
    if id == JStr("A") then Some(DetailA) else None
  }

  /** The endpoint on retry: "B" now answers. */
  function SecondFetch(id: Json): Option<Json> {
    if id == JStr("B") then Some(DetailB) else None
  }

  /** The two fixed records, as the predicates of NewsSpec see them. */
  lemma ItemFacts()
    ensures Lookup(ItemA, ItemIdKey) == Some(JStr("A")) && HasId(ItemA) && IdOf(ItemA) == JStr("A")
    ensures Lookup(ItemB, ItemIdKey) == Some(JStr("B")) && HasId(ItemB) && IdOf(ItemB) == JStr("B")
    ensures WithDetail(ItemA, DetailA) == ItemA + [Member(DetailKey, DetailA)]
    ensures WithDetail(ItemB, DetailB) == ItemB + [Member(DetailKey, DetailB)]
    ensures Lookup(ItemA + [Member(DetailKey, DetailA)], ItemIdKey) == Some(JStr("A"))
    ensures NeedsDetail(ItemB) && !NeedsDetail(ItemA + [Member(DetailKey, DetailA)])
  {
    assert DetailKey[0] != ItemIdKey[0];
    assert KeysOf(ItemA) == [ItemIdKey];
    assert KeysOf(ItemB) == [ItemIdKey];
    var a := ItemA + [Member(DetailKey, DetailA)];
    assert a[..1] == ItemA;
  }

  /** A full pass over A and B: one success, one failure, B kept without `detail`, no pause after B. */
  lemma FullRunScenario()
    ensures FullRunOutcome(Present(InputDoc(Some([ItemA, ItemB]))), FirstFetch) ==
      Written(RunResult(2, 1, 1, [ItemA + [Member(DetailKey, DetailA)], ItemB], None))
    ensures FullRunTrace(Present(InputDoc(Some([ItemA, ItemB])))) ==
      [Fetch(JStr("A")), Delay, Fetch(JStr("B"))]
  {
    ItemFacts();
    var items := [ItemA, ItemB];
    assert Fetched(ItemA, FirstFetch) && !Fetched(ItemB, FirstFetch);
    assert Enriched(ItemA, FirstFetch) == ItemA + [Member(DetailKey, DetailA)];
    assert items[..1] == [ItemA];
    assert [ItemA][..0] == [];
    assert FullRunData([ItemA], FirstFetch) == [ItemA + [Member(DetailKey, DetailA)]];
    assert FullRunData(items, FirstFetch) == [ItemA + [Member(DetailKey, DetailA)], ItemB];
    assert SuccessCount([ItemA], FirstFetch) == 1 && FailureCount([ItemA], FirstFetch) == 0;
    assert SuccessCount(items, FirstFetch) == 1 && FailureCount(items, FirstFetch) == 1;
    assert PassTrace(items, 1) == [Fetch(JStr("A")), Delay];
  }

  /** Feeding that result back with "B" now answering: both succeed, one retry attempted and succeeded. */
  lemma RetryScenario()
    ensures RetryOutcome(Present(PreviousDoc(1, 1, Some([ItemA + [Member(DetailKey, DetailA)], ItemB]))), Missing, SecondFetch) ==
      Written(RunResult(2, 2, 0, [ItemA + [Member(DetailKey, DetailA)], ItemB + [Member(DetailKey, DetailB)]],
        Some(RetryStats(1, 1, 0))))
  {
    ItemFacts();
    var a := ItemA + [Member(DetailKey, DetailA)];
    var items := [a, ItemB];
    assert items[..1] == [a];
    assert [a][..0] == [];
    assert FailedItems([a]) == [];
    assert FailedItems(items) == [ItemB];
    assert [ItemB][..0] == [];
    assert Fetched(ItemB, SecondFetch);
    assert FindIndex([ItemB], JStr("B")) == 0;
    assert items[1..] == [ItemB];
    assert FindIndex(items, JStr("B")) == 1;
    assert RetryData(items, [ItemB], SecondFetch) == RetryStep(items, ItemB, SecondFetch);
    assert RetrySuccessCount(items, [ItemB], SecondFetch) == 1;
    assert StillFailedCount([ItemB], SecondFetch) == 0;
  }

  /**
    The same retry when "B" fails again: `failed_details` grows from 1 to 2,
    and `successful_details + failed_details` is 3 for a `total` of 2.
  */
  lemma RetryDoubleCountScenario()
    ensures RetryOutcome(Present(PreviousDoc(1, 1, Some([ItemA + [Member(DetailKey, DetailA)], ItemB]))), Missing, FirstFetch) ==
      Written(RunResult(2, 1, 2, [ItemA + [Member(DetailKey, DetailA)], ItemB], Some(RetryStats(1, 0, 1))))
  {
    ItemFacts();
    var a := ItemA + [Member(DetailKey, DetailA)];
    var items := [a, ItemB];
    assert items[..1] == [a];
    assert [a][..0] == [];
    assert FailedItems([a]) == [];
    assert FailedItems(items) == [ItemB];
    assert [ItemB][..0] == [];
    assert !Fetched(ItemB, FirstFetch);
    assert RetryData(items, [ItemB], FirstFetch) == items;
    assert RetrySuccessCount(items, [ItemB], FirstFetch) == 0;
    assert StillFailedCount([ItemB], FirstFetch) == 1;
  }
}
