/**
  The paging loops of clients/clients.go and extrabbitmq/queue_discovery.go against the listing
  they are meant to reproduce.
 */
module Paging {
  import opened Wrappers

  const PAGE_SIZE: nat := 500

  datatype Page<T> = Page(items: seq<T>, pageCount: int, totalCount: int)

  /** What the server answers when asked for a page; each page is asked for at most once. */
  type Server<T> = nat -> Result<Page<T>, string>

  ghost predicate PageCountBounded<T>(serve: Server<T>, bound: int) {
    forall p: nat :: serve(p).Success? ==> serve(p).value.pageCount <= bound
  }

  function Min(a: int, b: int): int { if a < b then a else b }

  /** max(1, ceil(total / 500)) */
  function PagesNeeded(total: nat): (n: nat)
    ensures n >= 1 && PAGE_SIZE * (n - 1) <= total && total <= PAGE_SIZE * n
    ensures total > 0 ==> PAGE_SIZE * (n - 1) < total
  {
    if total == 0 then 1 else (total + PAGE_SIZE - 1) / PAGE_SIZE
  }

  /** The server holds exactly this list, cut into pages of 500, and reports consistent counts. */
  ghost predicate Serves<T>(serve: Server<T>, list: seq<T>) {
    forall p: nat :: 1 <= p <= PagesNeeded(|list|) ==>
      serve(p).Success? && serve(p).value.totalCount == |list| &&
      (|list| > 0 ==> serve(p).value.pageCount == PagesNeeded(|list|)) &&
      serve(p).value.items == list[PAGE_SIZE * (p - 1)..Min(PAGE_SIZE * p, |list|)]
  }

  /** The items of pages 1..n, in order. */
  function Collected<T>(serve: Server<T>, n: nat): seq<T> {
    if n == 0 then []
    else Collected(serve, n - 1) + if serve(n).Success? then serve(n).value.items else []
  }

  lemma {:induction false} CollectedIsPrefix<T>(serve: Server<T>, list: seq<T>, n: nat)
    requires Serves(serve, list) && n <= PagesNeeded(|list|)
    ensures Collected(serve, n) == list[..Min(PAGE_SIZE * n, |list|)]
  {
    if n > 0 {
      CollectedIsPrefix(serve, list, n - 1);
      var from, to := PAGE_SIZE * (n - 1), Min(PAGE_SIZE * n, |list|);
      PageStarts(|list|, n);
      assert serve(n).Success? && serve(n).value.items == list[from..to];
      Joined(list, from, to);
    }
  }

  lemma PageStarts(total: nat, n: nat)
    requires 1 <= n <= PagesNeeded(total)
    ensures PAGE_SIZE * (n - 1) <= Min(PAGE_SIZE * n, total)
  {
  }

  lemma Joined<T>(list: seq<T>, from: nat, to: nat)
    requires from <= to <= |list|
    ensures list[..from] + list[from..to] == list[..to]
  {
  }

  /** The loops' stop condition after the items of `page` are in. */
  predicate Stops<T>(paged: Page<T>, fetched: nat, page: nat) {
    |paged.items| == 0 || fetched >= paged.totalCount || page >= paged.pageCount
  }

  /** Against a server of `list` the stop condition holds at the last page only, and then everything is in. */
  lemma StopsAtLastPage<T>(serve: Server<T>, list: seq<T>, page: nat)
    requires Serves(serve, list) && 1 <= page <= PagesNeeded(|list|)
    ensures serve(page).Success?
    ensures Stops(serve(page).value, |Collected(serve, page)|, page) <==> page == PagesNeeded(|list|)
    ensures page == PagesNeeded(|list|) ==> Collected(serve, page) == list
  {
    CollectedIsPrefix(serve, list, page);
    var n := PagesNeeded(|list|);
    assert serve(page).Success? && serve(page).value.totalCount == |list|;
    if page < n {
      assert PAGE_SIZE * page <= PAGE_SIZE * (n - 1) < |list|;
      assert |serve(page).value.items| == PAGE_SIZE;
    } else {
      assert Min(PAGE_SIZE * page, |list|) == |list|;
      assert list[..|list|] == list;
    }
  }

  /** Page `p` is answered and the loop goes on to the next one. */
  predicate GoesOn<T>(serve: Server<T>, p: nat) {
    serve(p).Success? && !Stops(serve(p).value, |Collected(serve, p)|, p)
  }

  /** What that means page by page: answered, not empty, more announced than fetched, and not the last page. */
  lemma GoesOnIff<T>(serve: Server<T>, p: nat)
    ensures GoesOn(serve, p) <==>
            serve(p).Success? && serve(p).value.items != [] &&
            |Collected(serve, p)| < serve(p).value.totalCount && p < serve(p).value.pageCount
  {
  }

  /** The run of requests ends with page `n`: the first page that fails or meets the stop condition. */
  ghost predicate EndsAt<T>(serve: Server<T>, n: nat) {
    && n >= 1
    && (forall p: nat :: 1 <= p < n ==> GoesOn(serve, p))
    && !GoesOn(serve, n)
  }

  /** Against a server of `list` the loops make max(1, ceil(|list| / 500)) requests and collect exactly the list. */
  lemma PagedEqualsUnpaged<T>(serve: Server<T>, list: seq<T>, n: nat)
    requires Serves(serve, list) && EndsAt(serve, n)
    ensures n == PagesNeeded(|list|) && serve(n).Success? && Collected(serve, n) == list
  {
    var last := PagesNeeded(|list|);
    StopsAtLastPage(serve, list, last);
    if n < last { StopsAtLastPage(serve, list, n); }
    assert 1 <= last < n ==> GoesOn(serve, last);
  }

  /** The items collected from any server are those of its pages, in the order of the pages. */
  lemma {:induction false} CollectedPageByPage<T>(serve: Server<T>, n: nat, p: nat)
    requires 1 <= p <= n && serve(p).Success?
    ensures |Collected(serve, p - 1)| + |serve(p).value.items| <= |Collected(serve, n)|
    ensures p == n ==> |Collected(serve, p - 1)| + |serve(p).value.items| == |Collected(serve, n)|
    ensures Collected(serve, n)[|Collected(serve, p - 1)|..][..|serve(p).value.items|] == serve(p).value.items
  {
    if p < n {
      CollectedPageByPage(serve, n - 1, p);
      var from, k, front := |Collected(serve, p - 1)|, |serve(p).value.items|, Collected(serve, n - 1);
      assert Collected(serve, n)[from..][..k] == front[from..][..k];
    }
  }

  /** Against any server whose reported page count is bounded the loops stop within max(1, bound) requests. */
  lemma RequestsBounded<T>(serve: Server<T>, bound: int, n: nat)
    requires PageCountBounded(serve, bound) && EndsAt(serve, n)
    ensures n == 1 || n <= bound
  {
    if n > 1 { assert GoesOn(serve, n - 1); }
  }

  /** A server with a bounded page count has a page at which the loops stop. */
  lemma BoundedServerStops<T>(serve: Server<T>, bound: int) returns (last: nat)
    requires PageCountBounded(serve, bound)
    ensures last >= 1 && !GoesOn(serve, last) && (last == 1 || last <= bound)
  {
    last := if bound <= 1 then 1 else bound;
  }

  /**
    `ListAllExchanges`. `requests` is the number of requests made. The server must fail or stop the
    loop at some page; against any other the loop of the source never ends.
   */
  method ListAllExchanges<T>(serve: Server<T>, ghost last: nat) returns (r: Result<seq<T>, string>, requests: nat)
    requires last >= 1 && !GoesOn(serve, last)
    ensures EndsAt(serve, requests)
    ensures r == if serve(requests).Failure? then Failure(serve(requests).error) else Success(Collected(serve, requests))
  {
    var all: seq<T> := [];
    var page: nat := 1;
    while true
      invariant 1 <= page <= last
      invariant all == Collected(serve, page - 1)
      invariant forall p: nat :: 1 <= p < page ==> GoesOn(serve, p)
      decreases last - page
    {
      var answer := serve(page);
      if answer.Failure? {
        return Failure(answer.error), page;
      }
      var paged := answer.value;
      all := all + paged.items;
      if |paged.items| == 0 || |all| >= paged.totalCount || page >= paged.pageCount {
        return Success(all), page;
      }
      page := page + 1;
    }
  }

  function Mapped<T, U>(f: T -> U, xs: seq<T>): seq<U> {
    seq(|xs|, i requires 0 <= i < |xs| => f(xs[i]))
  }

  /** Converts one page of queues, appending the targets to `out`. */
  method AppendTargets<T, U>(out: seq<U>, ghost before: seq<T>, items: seq<T>, toTarget: T -> U) returns (r: seq<U>)
    requires out == Mapped(toTarget, before)
    ensures r == Mapped(toTarget, before + items)
  {
    r := out;
    for k := 0 to |items|
      invariant r == Mapped(toTarget, before + items[..k])
    {
      r := r + [toTarget(items[k])];
    }
    assert items[..|items|] == items;
  }

  /** The handler of `getAllQueues`; `toTarget` is `toQueueTarget` with its constant arguments. */
  method GetAllQueues<T, U>(serve: Server<T>, toTarget: T -> U, ghost last: nat)
    returns (r: Result<seq<U>, string>, requests: nat)
    requires last >= 1 && !GoesOn(serve, last)
    ensures EndsAt(serve, requests)
    ensures serve(requests).Failure? ==> r == Failure(serve(requests).error)
    ensures serve(requests).Success? ==>
              var queues := Collected(serve, requests);
              && r.Success? && |r.value| == |queues|
              && forall i :: 0 <= i < |queues| ==> r.value[i] == toTarget(queues[i])
  {
    var out: seq<U> := [];
    var page: nat := 1;
    var fetched := 0;
    while true
      invariant 1 <= page <= last
      invariant out == Mapped(toTarget, Collected(serve, page - 1)) && fetched == |out|
      invariant forall p: nat :: 1 <= p < page ==> GoesOn(serve, p)
      decreases last - page
    {
      var answer := serve(page);
      if answer.Failure? {
        return Failure(answer.error), page;
      }
      var paged := answer.value;
      assert Collected(serve, page) == Collected(serve, page - 1) + paged.items;
      if |paged.items| == 0 {
        assert Collected(serve, page - 1) + [] == Collected(serve, page - 1);
        return Success(out), page;
      }
      out := AppendTargets(out, Collected(serve, page - 1), paged.items, toTarget);
      fetched := fetched + |paged.items|;
      if fetched >= paged.totalCount || page >= paged.pageCount {
        return Success(out), page;
      }
      page := page + 1;
    }
  }
}
