/** Reading a backend collection page by page, from a server that may answer anything. */
module CollectionPages {
  import opened Wrappers

  const PAGE_SIZE := 100

  /** One reply: a page with what the server says about it, or a request that failed. */
  datatype Reply<T> = CollectionPage(items: seq<T>, page: nat, perPage: nat, totalPages: nat) | Unusable(error: string)

  datatype ListError = InvalidLimits | InvalidPage | TooManyRecords | Transport(error: string)

  function CeilDiv(n: nat, d: nat): (q: nat)
    requires d > 0
    ensures q * d >= n && (n > 0 ==> (q - 1) * d < n)
  {
    (n + d - 1) / d
  }

  predicate ValidPage<T>(reply: Reply<T>, requested: nat, maximumPages: nat) {
    && reply.CollectionPage?
    && reply.page == requested && 1 <= reply.perPage <= PAGE_SIZE && reply.totalPages <= maximumPages
  }

  /** The items of pages 1 to `count`, in order. */
  function Concatenation<T>(server: nat -> Reply<T>, count: nat): seq<T> {
    if count == 0 then []
    else Concatenation(server, count - 1) + (if server(count).CollectionPage? then server(count).items else [])
  }

  /** The first `count` pages are all usable and say that more follow. */
  ghost predicate KeepsGoing<T>(server: nat -> Reply<T>, count: nat, maximumRecords: nat) {
    forall k: nat | 1 <= k <= count ::
      && ValidPage(server(k), k, CeilDiv(maximumRecords, PAGE_SIZE))
      && k < server(k).totalPages && |Concatenation(server, k)| <= maximumRecords
  }

  /** `server` answers the request for each page. Whatever it answers, at most as many pages are asked
      for as the record limit needs; the records returned are those pages' items in order; and an error
      names what was wrong with the last page asked for, the pages before it being in order. */
  method ListCollection<T>(server: nat -> Reply<T>, maximumRecords: nat, maximumResponseBytes: nat)
    returns (r: Result<seq<T>, ListError>, requests: nat)
    ensures maximumRecords == 0 || maximumResponseBytes == 0 <==> r == Err(InvalidLimits)
    ensures requests <= CeilDiv(maximumRecords, PAGE_SIZE) && (r != Err(InvalidLimits) ==> requests >= 1)
    ensures requests >= 1 ==> KeepsGoing(server, requests - 1, maximumRecords)
    ensures r.Ok? ==>
              && ValidPage(server(requests), requests, CeilDiv(maximumRecords, PAGE_SIZE))
              && server(requests).totalPages <= requests
              && r.value == Concatenation(server, requests) && |r.value| <= maximumRecords
    ensures r.Ok? ==> forall k: nat | 1 <= k <= requests ::
                        && server(k).CollectionPage? && server(k).page == k && 1 <= server(k).perPage <= 100
                        && 100 * server(k).totalPages < maximumRecords + 100
    ensures r == Err(InvalidPage) ==>
              var reply := server(requests);
              reply.CollectionPage? &&
              (reply.page != requests || reply.perPage == 0
               || reply.perPage > 100
               || 100 * reply.totalPages >= maximumRecords + 100)
    ensures r.Err? && r.error.Transport? ==> server(requests) == Unusable(r.error.error)
    ensures r == Err(InvalidPage) ==>
              server(requests).CollectionPage?
                  && !ValidPage(server(requests), requests, CeilDiv(maximumRecords, PAGE_SIZE))
    ensures r == Err(TooManyRecords) ==>
              && ValidPage(server(requests), requests, CeilDiv(maximumRecords, PAGE_SIZE))
              && |Concatenation(server, requests)| > maximumRecords
  {
    if maximumRecords == 0 || maximumResponseBytes == 0 {
      return Err(InvalidLimits), 0;
    }
    var maximumPages := CeilDiv(maximumRecords, PAGE_SIZE);
    var records: seq<T> := [];
    var page := 1;
    while true
      invariant 1 <= page <= maximumPages
      invariant records == Concatenation(server, page - 1) && |records| <= maximumRecords
      invariant KeepsGoing(server, page - 1, maximumRecords)
      decreases maximumPages - page
    {
      var reply := server(page);
      if reply.Unusable? {
        return Err(Transport(reply.error)), page;
      }
      if !ValidPage(reply, page, maximumPages) {
        return Err(InvalidPage), page;
      }
      records := records + reply.items;
      if |records| > maximumRecords {
        return Err(TooManyRecords), page;
      }
      if page >= reply.totalPages {
        return Ok(records), page;
      }
      page := page + 1;
    }
  }

  function Smaller(a: nat, b: nat): nat {
    if a < b then a else b
  }

  /** What is on the pages up to `count` of a list cut into pages. */
  function Pages<T>(all: seq<T>, perPage: nat, count: nat): seq<T> {
    all[..Smaller(count * perPage, |all|)]
  }

  /** The items of page `k`. */
  function PageOf<T>(all: seq<T>, perPage: nat, k: nat): seq<T> {
    if k == 0 then [] else Pages(all, perPage, k)[Smaller((k - 1) * perPage, |Pages(all, perPage, k)|)..]
  }

  /** A server whose collection is fixed and consistently paged. */
  ghost predicate Serves<T>(server: nat -> Reply<T>, all: seq<T>, perPage: nat) {
    && 1 <= perPage <= PAGE_SIZE
    && forall k: nat :: server(k) == CollectionPage(PageOf(all, perPage, k), k, perPage, CeilDiv(|all|, perPage))
  }

  lemma MorePagesCoverMore(fewer: nat, more: nat, perPage: nat)
    requires fewer <= more
    ensures fewer * perPage <= more * perPage
  {
    assert more * perPage == fewer * perPage + (more - fewer) * perPage;
  }

  lemma NextPage<T>(all: seq<T>, perPage: nat, count: nat)
    ensures Pages(all, perPage, count) + PageOf(all, perPage, count + 1) == Pages(all, perPage, count + 1)
  {
    MorePagesCoverMore(count, count + 1, perPage);
  }

  lemma NoPages<T>(all: seq<T>, perPage: nat)
    ensures Pages(all, perPage, 0) == []
  {
  }

  /** The concatenated pages of a fixed collection are its beginning. */
  lemma {:induction false} PagesAreAPrefix<T>(server: nat -> Reply<T>, all: seq<T>, perPage: nat, count: nat)
    requires Serves(server, all, perPage)
    ensures Concatenation(server, count) == Pages(all, perPage, count)
  {
    hide Pages, PageOf;
    if count == 0 {
      NoPages(all, perPage);
    } else {
      PagesAreAPrefix(server, all, perPage, count - 1);
      NextPage(all, perPage, count - 1);
      assert server(count).items == PageOf(all, perPage, count);
    }
  }

  /** A fixed collection is read whole by any call that succeeds. */
  lemma SuccessIsTheWholeCollection<T>(server: nat -> Reply<T>, all: seq<T>, perPage: nat, requests: nat)
    requires Serves(server, all, perPage) && requests >= 1 && server(requests).totalPages <= requests
    ensures Concatenation(server, requests) == all
  {
    PagesAreAPrefix(server, all, perPage, requests);
    assert server(requests).totalPages == CeilDiv(|all|, perPage);
    MorePagesCoverMore(CeilDiv(|all|, perPage), requests, perPage);
  }
}
