/**
 Reading a paged list to its end, and the check that two owners' lists are
 scoped (scripts/smoke-local-integration.mjs). An item is its request's id.
 */
module PagedList {
  import opened Text

  const LIST_PAGE_SIZE := 100

  /** What the API answers a page's request. */
  datatype Answer = Answer(status: int, items: seq<string>, total: int)

  /** Page `page`, counted from one, of a list. */
  function PageOf(list: seq<string>, page: nat): (r: seq<string>)
    requires page >= 1
    ensures |r| <= LIST_PAGE_SIZE
  {
    var from := (page - 1) * LIST_PAGE_SIZE;
    if from >= |list| then [] else if from + LIST_PAGE_SIZE >= |list| then list[from..] else list[from..from + LIST_PAGE_SIZE]
  }

  /** A server that pages this list, where it answers at all. */
  ghost predicate Serves(answer: nat -> Answer, list: seq<string>) {
    forall page: nat :: page >= 1 && answer(page).status == 200 ==>
      answer(page).items == PageOf(list, page) && answer(page).total == |list|
  }

  /** max(1, ceil(n / 100)) */
  function PagesOf(n: nat): (r: nat)
    ensures r >= 1 && r * LIST_PAGE_SIZE >= n
    ensures r > 1 ==> (r - 1) * LIST_PAGE_SIZE < n
  {
    if n == 0 then 1 else (n + LIST_PAGE_SIZE - 1) / LIST_PAGE_SIZE
  }

  datatype Listing = Listed(items: seq<string>) | Failed(page: nat, status: int)

  lemma PagesJoin(list: seq<string>, page: nat)
    requires page >= 1 && (page - 1) * LIST_PAGE_SIZE <= |list|
    ensures var end := if page * LIST_PAGE_SIZE < |list| then page * LIST_PAGE_SIZE else |list|;
      list[..(page - 1) * LIST_PAGE_SIZE] + PageOf(list, page) == list[..end]
  {
  }

  /** `listAllAs`: against a server that pages a list, the whole list in as many
      requests as it has pages, or the first of them that is not answered 200. */
  method ListAll(answer: nat -> Answer, ghost list: seq<string>) returns (result: Listing, requests: nat)
    requires Serves(answer, list)
    ensures 1 <= requests <= PagesOf(|list|)
    ensures forall page: nat :: 1 <= page < requests ==> answer(page).status == 200
    ensures result.Listed? <==> answer(requests).status == 200
    ensures result.Listed? ==> requests == PagesOf(|list|) && result.items == list
    ensures result.Failed? ==> result == Failed(requests, answer(requests).status)
  {
    var items := [];
    var page := 1;
    while true
      invariant 1 <= page <= PagesOf(|list|)
      invariant page > 1 ==> (page - 1) * LIST_PAGE_SIZE < |list|
      invariant items == list[..(page - 1) * LIST_PAGE_SIZE]
      invariant forall earlier: nat :: 1 <= earlier < page ==> answer(earlier).status == 200
      decreases PagesOf(|list|) - page
    {
      var res := answer(page);
      if res.status != 200 { return Failed(page, res.status), page; }
      PagesJoin(list, page);
      items := items + res.items;
      if |res.items| == 0 || |items| >= res.total { return Listed(items), page; }
      page := page + 1;
    }
  }

  // ---------------------------------------------------------- two owners

  datatype Fault = MissingFromAlice(id: string) | MissingFromBob(id: string) | InAlices(id: string) | InBobs(id: string)

  /** Alice's and Bob's lists are scoped: each holds its owner's own requests, and
      none is in both. */
  predicate IsScoped(aliceIds: seq<string>, bobId: string, aliceList: seq<string>, bobList: seq<string>) {
    && (forall id :: id in aliceIds ==> id in aliceList)
    && bobId in bobList
    && (forall id :: id in aliceList ==> id !in bobList)
  }

  /** A fault is of something that is there. */
  predicate IsTrue(fault: Fault, aliceIds: seq<string>, bobId: string, aliceList: seq<string>, bobList: seq<string>) {
    match fault
    case MissingFromAlice(id) => id in aliceIds && id !in aliceList
    case MissingFromBob(id) => id == bobId && id !in bobList
    case InAlices(id) => id == bobId && id in aliceList
    case InBobs(id) => id in aliceList && id in bobList
  }

  /** `assertListsDisjoint`. */
  method AssertListsDisjoint(aliceIds: seq<string>, bobId: string, aliceList: seq<string>, bobList: seq<string>)
    returns (fault: Option<Fault>)
    ensures fault.None? <==> IsScoped(aliceIds, bobId, aliceList, bobList)
    ensures fault.Some? ==> IsTrue(fault.value, aliceIds, bobId, aliceList, bobList)
    ensures fault.Some? && !fault.value.MissingFromAlice? ==> forall id :: id in aliceIds ==> id in aliceList
    ensures fault.Some? && (fault.value.InAlices? || fault.value.InBobs?) ==> bobId in bobList
    ensures fault.Some? && fault.value.InBobs? ==> bobId !in aliceList
  {
    for k := 0 to |aliceIds|
      invariant forall j :: 0 <= j < k ==> aliceIds[j] in aliceList
    {
      if aliceIds[k] !in aliceList { return Some(MissingFromAlice(aliceIds[k])); }
    }
    if bobId !in bobList { return Some(MissingFromBob(bobId)); }
    if bobId in aliceList { return Some(InAlices(bobId)); }
    var all := aliceIds + aliceList;
    for k := 0 to |all|
      invariant forall j :: 0 <= j < k ==> all[j] !in bobList
    {
      if all[k] in bobList {
        assert all[k] in aliceIds || all[k] in aliceList;
        return Some(InBobs(all[k]));
      }
    }
    forall id | id in aliceList ensures id !in bobList {
      var j :| 0 <= j < |aliceList| && aliceList[j] == id;
      assert all[|aliceIds| + j] == id;
    }
    fault := None;
  }

  /** The smoke's scope check: read to their ends and accepted, the two owners'
      complete lists share no request and each holds its owner's own; and a
      scoped pair of lists that can be read is accepted. */
  method CheckScope(alice: nat -> Answer, ghost aliceAll: seq<string>, bob: nat -> Answer, ghost bobAll: seq<string>,
                    aliceIds: seq<string>, bobId: string)
    returns (accepted: bool)
    requires Serves(alice, aliceAll) && Serves(bob, bobAll)
    ensures accepted ==> IsScoped(aliceIds, bobId, aliceAll, bobAll)
    ensures (forall page: nat :: page >= 1 ==> alice(page).status == 200 && bob(page).status == 200)
      ==> (accepted <==> IsScoped(aliceIds, bobId, aliceAll, bobAll))
  {
    var aliceList, _ := ListAll(alice, aliceAll);
    if aliceList.Failed? { return false; }
    var bobList, _ := ListAll(bob, bobAll);
    if bobList.Failed? { return false; }
    var fault := AssertListsDisjoint(aliceIds, bobId, aliceList.items, bobList.items);
    accepted := fault.None?;
  }
}
