/** Collecting all pages of a listing. */
module PageCollection {
  import opened Wrappers

  const MAX_COLLECT_PAGES := 100

  /** The envelope of one page, with what the server says about it. */
  datatype Page = Page(items: seq<int>, total: int, page: int, pageSize: int)

  datatype Error = LimitExceeded

  function Min(a: int, b: int): int { if a < b then a else b }

  /** How many items n full pages have. */
  function Items(n: nat, size: nat): nat {
    if n == 0 then 0 else Items(n - 1, size) + size
  }

  lemma {:induction false} ItemsIsProduct(n: nat, size: nat)
    ensures Items(n, size) == n * size
  {
    if n > 0 {
      ItemsIsProduct(n - 1, size);
    }
  }

  lemma {:induction false} ItemsGrow(m: nat, n: nat, size: nat)
    requires m <= n
    ensures Items(m, size) <= Items(n, size)
  {
    if m < n {
      ItemsGrow(m, n - 1, size);
    }
  }

  /** The n-th page of a list cut into pages of a fixed size, numbered from 1. */
  function Slice(list: seq<int>, size: nat, n: nat): seq<int>
    requires n >= 1
  {
    list[Min(Items(n - 1, size), |list|)..Min(Items(n, size), |list|)]
  }

  /** The server cuts a fixed list into pages and reports its true length and page size. */
  ghost predicate Serves(first: Page, fetch: int -> Page, list: seq<int>, size: nat) {
    && size >= 1
    && first == Page(Slice(list, size, 1), |list|, 1, size)
    && forall n: nat :: n >= 1 ==> fetch(n) == Page(Slice(list, size, n), |list|, n, size)
  }

  /** Where the collection stands after n pages of a faithful server. */
  ghost predicate Collected(list: seq<int>, size: nat, n: nat, items: seq<int>, last: seq<int>) {
    && n >= 1 && items == list[..Min(Items(n, size), |list|)]
    && (last != [] || list == [])
    && (n == 1 || Items(n - 1, size) < |list|)
  }

  lemma FirstPage(list: seq<int>, size: nat)
    requires size >= 1
    ensures Collected(list, size, 1, Slice(list, size, 1), Slice(list, size, 1))
  {
    assert Slice(list, size, 1) == list[..Min(size, |list|)];
  }

  /** One page more: there is something on it, and a short one is the last. */
  lemma OnePageMore(list: seq<int>, size: nat, n: nat, items: seq<int>, last: seq<int>)
    requires size >= 1 && Collected(list, size, n, items, last) && |items| < |list|
    ensures var page := Slice(list, size, n + 1);
      Collected(list, size, n + 1, items + page, page) && (|page| < size ==> items + page == list)
  {
    assert items + Slice(list, size, n + 1) == list[..Min(Items(n + 1, size), |list|)];
  }

  lemma AllCollected(list: seq<int>, size: nat, n: nat, items: seq<int>, last: seq<int>)
    requires size >= 1 && Collected(list, size, n, items, last) && n <= MAX_COLLECT_PAGES && |items| >= |list|
    ensures items == list && |list| <= MAX_COLLECT_PAGES * size
  {
    ItemsGrow(n, MAX_COLLECT_PAGES, size);
    ItemsIsProduct(MAX_COLLECT_PAGES, size);
  }

  lemma TooMany(list: seq<int>, size: nat, items: seq<int>, last: seq<int>)
    requires Collected(list, size, MAX_COLLECT_PAGES, items, last) && |items| < |list|
    ensures |list| > MAX_COLLECT_PAGES * size
  {
    ItemsIsProduct(MAX_COLLECT_PAGES, size);
  }

  /** The page after n more fetches. */
  function PageAfter(first: Page, fetch: int -> Page, n: nat): Page {
    if n == 0 then first else fetch(first.page + n)
  }

  /** The items of the first page and n more. */
  function Gathered(first: Page, fetch: int -> Page, n: nat): seq<int> {
    if n == 0 then first.items else Gathered(first, fetch, n - 1) + PageAfter(first, fetch, n).items
  }

  /** There is more to fetch after n more pages: items are missing, and the last page was neither empty nor short. */
  predicate HasMore(first: Page, fetch: int -> Page, n: nat) {
    && |Gathered(first, fetch, n)| < first.total && PageAfter(first, fetch, n).items != []
    && (n > 0 ==> |PageAfter(first, fetch, n).items| >= PageAfter(first, fetch, n).pageSize)
  }

  /** As long as there is more, the next page is fetched, up to the limit. */
  ghost predicate Fetches(first: Page, fetch: int -> Page, n: nat) {
    forall k :: 0 <= k < n ==> HasMore(first, fetch, k) && first.page + k < MAX_COLLECT_PAGES
  }

  /** Where it ends after n more pages: at the limit if there is more, and with all that was gathered otherwise. */
  ghost predicate EndsWith(first: Page, fetch: int -> Page, n: nat, r: Result<seq<int>, Error>) {
    if HasMore(first, fetch, n) then r == Err(LimitExceeded) && first.page + n >= MAX_COLLECT_PAGES
    else r == Ok(Gathered(first, fetch, n))
  }

  /** collectAllPages; `first` answers the initial query and `fetch` one for a given page. */
  method CollectAllPages(first: Page, fetch: int -> Page)
    returns (r: Result<seq<int>, Error>, last: Page, fetches: nat)
    ensures fetches >= 1 && (first.page >= 1 ==> fetches <= MAX_COLLECT_PAGES)
    ensures last == PageAfter(first, fetch, fetches - 1)
    ensures Fetches(first, fetch, fetches - 1) && EndsWith(first, fetch, fetches - 1, r)
  {
    var allItems := first.items;
    var currentPage := first.page;
    last, fetches := first, 1;
    while |allItems| < first.total && last.items != []
      invariant fetches >= 1 && fetches - currentPage == 1 - first.page
      invariant currentPage <= MAX_COLLECT_PAGES || currentPage == first.page
      invariant allItems == Gathered(first, fetch, fetches - 1) && last == PageAfter(first, fetch, fetches - 1)
      invariant fetches > 1 ==> |last.items| >= last.pageSize
      invariant Fetches(first, fetch, fetches - 1)
      decreases MAX_COLLECT_PAGES - currentPage
    {
      if currentPage >= MAX_COLLECT_PAGES {
        return Err(LimitExceeded), last, fetches;
      }
      currentPage := currentPage + 1;
      last := fetch(currentPage);
      fetches := fetches + 1;
      allItems := allItems + last.items;
      if |last.items| < last.pageSize {
        break;
      }
    }
    return Ok(allItems), last, fetches;
  }

  // ---------- a faithful server ----------

  /** The page after n more fetches is the one a faithful server gives. */
  ghost predicate Served(first: Page, fetch: int -> Page, list: seq<int>, size: nat, n: nat) {
    PageAfter(first, fetch, n) == Page(Slice(list, size, n + 1), |list|, n + 1, size)
  }

  lemma ServesPage(first: Page, fetch: int -> Page, list: seq<int>, size: nat, n: nat)
    requires Serves(first, fetch, list, size)
    ensures Served(first, fetch, list, size, n) && size > 0 && first.page == 1 && first.total == |list|
  {
  }

  /** Where the collection stands after n more fetches from a faithful server. */
  ghost predicate SoFar(first: Page, fetch: int -> Page, list: seq<int>, size: nat, n: nat) {
    && Collected(list, size, n + 1, Gathered(first, fetch, n), PageAfter(first, fetch, n).items)
    && (n > 0 && |PageAfter(first, fetch, n).items| < size ==> Gathered(first, fetch, n) == list)
  }

  lemma StartsSo(first: Page, fetch: int -> Page, list: seq<int>, size: nat)
    requires size > 0 && Served(first, fetch, list, size, 0)
    ensures SoFar(first, fetch, list, size, 0)
  {
    FirstPage(list, size);
  }

  lemma GoesOnSo(first: Page, fetch: int -> Page, list: seq<int>, size: nat, n: nat)
    requires n > 0 && size > 0 && Served(first, fetch, list, size, n) && SoFar(first, fetch, list, size, n - 1)
    requires |Gathered(first, fetch, n - 1)| < |list|
    ensures SoFar(first, fetch, list, size, n)
  {
    OnePageMore(list, size, n, Gathered(first, fetch, n - 1), PageAfter(first, fetch, n - 1).items);
  }

  /** What is missing from a list of that length is what there is more of. */
  lemma MoreIsMissing(first: Page, fetch: int -> Page, list: seq<int>, size: nat, n: nat)
    requires first.total == |list| && PageAfter(first, fetch, n).pageSize == size
    requires SoFar(first, fetch, list, size, n)
    ensures HasMore(first, fetch, n) <==> |Gathered(first, fetch, n)| < |list|
  {
  }

  lemma {:induction false} CollectedSoFar(first: Page, fetch: int -> Page, list: seq<int>, size: nat, n: nat)
    requires Serves(first, fetch, list, size) && Fetches(first, fetch, n)
    ensures SoFar(first, fetch, list, size, n)
  {
    ServesPage(first, fetch, list, size, n);
    if n == 0 {
      StartsSo(first, fetch, list, size);
    } else {
      FewerFetches(first, fetch, n);
      CollectedSoFar(first, fetch, list, size, n - 1);
      GoesOnSo(first, fetch, list, size, n);
    }
  }

  lemma FewerFetches(first: Page, fetch: int -> Page, n: nat)
    requires n > 0 && Fetches(first, fetch, n)
    ensures Fetches(first, fetch, n - 1) && first.page + n <= MAX_COLLECT_PAGES
    ensures |Gathered(first, fetch, n - 1)| < first.total
  {
    assert HasMore(first, fetch, n - 1);
  }

  /** A faithful server gives the whole list in order exactly if it fits in 100 pages, and the limit error otherwise. */
  lemma FaithfulIsWhole(first: Page, fetch: int -> Page, list: seq<int>, size: nat, n: nat,
                        r: Result<seq<int>, Error>)
    requires Serves(first, fetch, list, size) && Fetches(first, fetch, n) && EndsWith(first, fetch, n, r)
    ensures r == if |list| <= MAX_COLLECT_PAGES * size then Ok(list) else Err(LimitExceeded)
  {
    CollectedSoFar(first, fetch, list, size, n);
    ServesPage(first, fetch, list, size, n);
    if n > 0 {
      FewerFetches(first, fetch, n);
    }
    WholeOrLimit(first, fetch, list, size, n, r);
  }

  lemma WholeOrLimit(first: Page, fetch: int -> Page, list: seq<int>, size: nat, n: nat, r: Result<seq<int>, Error>)
    requires size > 0 && first.page == 1 && n < MAX_COLLECT_PAGES
    requires first.total == |list| && PageAfter(first, fetch, n).pageSize == size
    requires SoFar(first, fetch, list, size, n)
    requires EndsWith(first, fetch, n, r)
    ensures r == if |list| <= MAX_COLLECT_PAGES * size then Ok(list) else Err(LimitExceeded)
  {
    MoreIsMissing(first, fetch, list, size, n);
    if HasMore(first, fetch, n) {
      TooMany(list, size, Gathered(first, fetch, n), PageAfter(first, fetch, n).items);
    } else {
      AllCollected(list, size, n + 1, Gathered(first, fetch, n), PageAfter(first, fetch, n).items);
    }
  }
}
