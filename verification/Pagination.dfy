/** Streaming the pages of a list from a REST API: the loop of the HTTP client, the paginator that
    tells it where to go on, and a server that holds the list. */
module Pagination {
  import opened Arithmetic
  import opened Outcomes
  import opened Sequences

  /** Items are not looked into. */
  type Item = string

  /** A decoded JSON body: lists under their names, and whatever else there is. */
  datatype Json = Items(items: seq<Item>) | Other

  type Body = map<string, Json>

  /** The query of a page URL: the page number or offset, and the limit. */
  datatype Query = Query(position: int, limit: int)

  function CountResults(resultsField: string, body: Option<Body>): nat {
    if resultsField == "" || body.None? || resultsField !in body.value then 0
    else match body.value[resultsField]
      case Items(items) => |items|
      case Other => 0
  }

  class OffsetPaginator {
    const pageSize: int
    const resultsField: string
    const useOffset: bool
    var currentPage: int
    var currentOffset: int
    var started: bool

    constructor (pageSize: int, resultsField: string, useOffset: bool)
      ensures this.pageSize == pageSize && this.resultsField == resultsField && this.useOffset == useOffset && !started
    {
      this.pageSize, this.resultsField, this.useOffset := pageSize, resultsField, useOffset;
      currentPage, currentOffset, started := 0, 0, false;
    }

    function BuildQuery(): Query
      reads this
    {
      Query(if useOffset then currentOffset else currentPage, pageSize)
    }

    /** The next page to ask for, given the body of the last one; None when there is no more. */
    method NextPage(body: Option<Body>) returns (next: Option<Query>)
      modifies this
      ensures started
      ensures !old(started) ==> next == Some(BuildQuery()) && currentPage == 1 && currentOffset == 0
      ensures old(started) && CountResults(resultsField, body) < pageSize ==>
                next == None && currentPage == old(currentPage) && currentOffset == old(currentOffset)
      ensures old(started) && CountResults(resultsField, body) >= pageSize ==>
                && next == Some(BuildQuery())
                && currentPage == old(currentPage) + (if useOffset then 0 else 1)
                && currentOffset == old(currentOffset) + (if useOffset then pageSize else 0)
    {
      if !started {
        started := true;
        currentPage := 1;
        currentOffset := 0;
        return Some(BuildQuery());
      }
      var count := CountResults(resultsField, body);
      if count < pageSize {
        return None;
      }
      if useOffset {
        currentOffset := currentOffset + pageSize;
      } else {
        currentPage := currentPage + 1;
      }
      return Some(BuildQuery());
    }
  }

  // ----- The server -----

  /** The items from a place on, at most the limit. */
  function Page(items: seq<Item>, from: nat, limit: nat): seq<Item> {
    if from >= |items| then []
    else if from + limit <= |items| then items[from..from + limit]
    else items[from..]
  }

  /** The place a query means: an absolute offset, or a page counted from one. */
  function PlaceOf(q: Query, useOffset: bool): int {
    if useOffset then q.position else (q.position - 1) * q.limit
  }

  /** A server sends an object with the list under a name of its own, or the bare array. */
  datatype Server = Named(items: seq<Item>, field: string) | Bare(items: seq<Item>)

  /** The client decodes objects only; the response to an array has no body. */
  function BodyOf(server: Server, page: seq<Item>): Option<Body> {
    match server
    case Named(_, field) => Some(map[field := Items(page)])
    case Bare(_) => None
  }

  /** What happens to a request besides the server's answer. */
  datatype Event = Fine | Cancelled | FetchFailed(error: string) | HandlerFailed(error: string)

  /** The paginator finds the server's list. */
  predicate Finds(resultsField: string, server: Server) {
    server.Named? && resultsField != "" && resultsField == server.field
  }

  /** The pages that a whole stream brings from a place on. If the paginator does not find the
      list, it takes every page for the last one. */
  function Pages(items: seq<Item>, pageSize: nat, from: nat, finds: bool): seq<seq<Item>>
    requires pageSize > 0
    decreases |items| + pageSize - from
  {
    var page := Page(items, from, pageSize);
    if |page| < pageSize || !finds then [page] else [page] + Pages(items, pageSize, from + pageSize, finds)
  }

  lemma NextPlace(k: int, size: int)
    ensures (k + 1) * size == k * size + size
  {
  }

  /** The pages handled so far, with those from a place on, are all the pages. */
  ghost predicate Streaming(server: Server, size: nat, finds: bool, handled: seq<seq<Item>>, place: nat)
    requires size > 0
  {
    handled + Pages(server.items, size, place, finds) == Pages(server.items, size, 0, finds)
  }

  lemma StreamStep(server: Server, size: nat, finds: bool, handled: seq<seq<Item>>, place: nat)
    requires size > 0 && Streaming(server, size, finds, handled, place)
    ensures var pages, page := Pages(server.items, size, 0, finds), Page(server.items, place, size);
            && handled <= pages && |handled| < |pages|
            && (if |page| < size || !finds then handled + [page] == pages
                else place < |server.items| && Streaming(server, size, finds, handled + [page], place + size))
  {
    var page := Page(server.items, place, size);
    var rest := if |page| < size || !finds then [] else Pages(server.items, size, place + size, finds);
    assert handled + ([page] + rest) == handled + [page] + rest;
  }

  lemma CountOfPage(resultsField: string, server: Server, page: seq<Item>)
    ensures CountResults(resultsField, BodyOf(server, page))
            == if Finds(resultsField, server) then |page| else 0
  {
  }

  /** The specification of a stream: what was handled, how many requests were made, how it ended. */
  ghost predicate Streamed(pages: seq<seq<Item>>, events: nat -> Event, handled: seq<seq<Item>>, requests: nat,
                           error: Option<Event>)
  {
    && handled <= pages
    && (forall i | 0 <= i < |handled| :: events(i) == Fine)
    && if |handled| == |pages| then error == None && requests == |pages|
       else events(|handled|) != Fine && error == Some(events(|handled|))
            && requests == |handled| + if events(|handled|).Cancelled? then 0 else 1
  }

  /** A response without a body is not handed over and is taken for the last. */
  ghost predicate StreamedNothing(events: nat -> Event, handled: seq<seq<Item>>, requests: nat, error: Option<Event>) {
    && handled == []
    && (if events(0).Cancelled? || events(0).FetchFailed? then error == Some(events(0)) else error == None)
    && requests == if events(0).Cancelled? then 0 else 1
  }

  /** StreamPages, with a paginator as new. Its loop ends because each full page uses up as many of
      the server's items; a page size that is not positive would let it go on for ever. The requests ask
      for one page after the other, by offsets from zero or by page numbers from one. */
  method StreamPages(p: OffsetPaginator, server: Server, events: nat -> Event)
    returns (handled: seq<seq<Item>>, requests: nat, error: Option<Event>, asked: seq<Query>)
    requires p.pageSize > 0 && !p.started
    modifies p
    ensures server.Named? ==>
              Streamed(Pages(server.items, p.pageSize, 0, Finds(p.resultsField, server)),
                       events, handled, requests, error)
    ensures server.Bare? ==> StreamedNothing(events, handled, requests, error)
    ensures |asked| == requests
    ensures forall i | 0 <= i < requests :: asked[i] == Query(if p.useOffset then i * p.pageSize else i + 1, p.pageSize)
  {
    hide Pages, Streaming, Finds, Page, CountResults, BodyOf;
    var size := p.pageSize;
    ghost var finds := Finds(p.resultsField, server);
    ghost var pages := Pages(server.items, size, 0, finds);
    handled, requests, error, asked := [], 0, None, [];
    var next := p.NextPage(None);
    ghost var place: nat := 0;
    StreamNone(server, size, finds);
    while next.Some?
      invariant p.started && error == None
      invariant if server.Named? then requests == |handled|
                else handled == [] && requests == (if next.Some? then 0 else 1)
                     && (requests == 1 ==> !events(0).Cancelled? && !events(0).FetchFailed?)
      invariant |asked| == requests
      invariant forall i | 0 <= i < requests :: asked[i] == Query(if p.useOffset then i * size else i + 1, size)
      invariant next.Some? ==> place == requests * size && (!p.useOffset ==> p.currentPage == requests + 1)
      invariant next.Some? ==> next.value == p.BuildQuery() && PlaceOf(next.value, p.useOffset) == place
      invariant server.Named? ==>
                  if next.Some? then Streaming(server, size, finds, handled, place) else handled == pages
      invariant place <= |server.items| + size
      invariant forall i | 0 <= i < |handled| :: events(i) == Fine
      decreases if next.Some? then |server.items| + size - place + 1 else 0
    {
      if server.Named? {
        StreamStep(server, size, finds, handled, place);
      }
      var event := events(requests);
      if event.Cancelled? {
        return handled, requests, Some(event), asked;
      }
      asked := asked + [next.value];
      requests := requests + 1;
      if event.FetchFailed? {
        return handled, requests, Some(event), asked;
      }
      var page := Page(server.items, PlaceOf(next.value, p.useOffset), next.value.limit);
      var body := BodyOf(server, page);
      BodyOfNamed(server, page);
      if body.Some? {
        if event.HandlerFailed? {
          return handled, requests, Some(event), asked;
        }
        handled := handled + [page];
      }
      CountOfPage(p.resultsField, server, page);
      FindsNamed(p.resultsField, server);
      ghost var before := p.currentPage;
      next := p.NextPage(body);
      NextPlace(before - 1, size);
      NextPlace(requests - 1, size);
      if next.Some? {
        place := place + size;
      }
    }
  }

  lemma BodyOfNamed(server: Server, page: seq<Item>)
    ensures BodyOf(server, page).Some? <==> server.Named?
  {
  }

  lemma FindsNamed(resultsField: string, server: Server)
    ensures Finds(resultsField, server) ==> server.Named?
  {
  }

  lemma StreamNone(server: Server, size: nat, finds: bool)
    requires size > 0
    ensures Streaming(server, size, finds, [], 0)
  {
  }

  // ----- What the pages are -----

  lemma {:induction false} PagesConcat(items: seq<Item>, pageSize: nat, from: nat)
    requires pageSize > 0 && from <= |items|
    ensures Concat(Pages(items, pageSize, from, true)) == items[from..]
    decreases |items| - from
  {
    var page := Page(items, from, pageSize);
    if |page| < pageSize {
      assert [page][1..] == [];
    } else {
      var rest := Pages(items, pageSize, from + pageSize, true);
      PagesConcat(items, pageSize, from + pageSize);
      assert ([page] + rest)[1..] == rest;
      assert items[from..] == items[from..from + pageSize] + items[from + pageSize..];
    }
  }

  lemma QuotientStep(n: nat, d: nat)
    requires d > 0
    ensures n < d ==> n / d == 0
    ensures n >= d ==> n / d == (n - d) / d + 1
  {
    if n >= d {
      var q, r := (n - d) / d, (n - d) % d;
      assert n == d * (q + 1) + r;
      QuotientIs(n, d, q + 1, r);
    }
  }

  lemma {:induction false} PageCount(items: seq<Item>, pageSize: nat, from: nat)
    requires pageSize > 0 && from <= |items|
    ensures |Pages(items, pageSize, from, true)| == (|items| - from) / pageSize + 1
    decreases |items| - from
  {
    QuotientStep(|items| - from, pageSize);
    if |items| - from >= pageSize {
      PageCount(items, pageSize, from + pageSize);
    }
  }

  /** Against a server that holds n items, a stream whose paginator finds the list makes
      floor(n / pageSize) + 1 requests and its pages are all the items in order, each once. */
  lemma PagesAreComplete(items: seq<Item>, pageSize: nat)
    requires pageSize > 0
    ensures Concat(Pages(items, pageSize, 0, true)) == items
    ensures |Pages(items, pageSize, 0, true)| == |items| / pageSize + 1
  {
    PagesConcat(items, pageSize, 0);
    PageCount(items, pageSize, 0);
  }

  /** The pages that an undisturbed stream hands over. */
  function Delivered(server: Server, pageSize: nat, resultsField: string): seq<seq<Item>>
    requires pageSize > 0
  {
    if server.Bare? then [] else Pages(server.items, pageSize, 0, Finds(resultsField, server))
  }

  /** A stream brings all items exactly when the server names its list and the paginator is given
      that name or one page is enough. Of a bare array nothing arrives, so that it is complete only
      if there is nothing. With an empty results field a stream never goes beyond the first page. */
  lemma CompleteIff(server: Server, pageSize: nat, resultsField: string)
    requires pageSize > 0
    ensures Concat(Delivered(server, pageSize, resultsField)) == server.items
            <==> if server.Bare? then server.items == []
                 else Finds(resultsField, server) || |server.items| <= pageSize
    ensures resultsField == "" ==> |Delivered(server, pageSize, resultsField)| <= 1
  {
    if Finds(resultsField, server) {
      PagesAreComplete(server.items, pageSize);
    } else if server.Named? {
      var page := Page(server.items, 0, pageSize);
      assert Pages(server.items, pageSize, 0, false) == [page] && [page][1..] == [];
      assert Concat([page]) == page + [];
      assert |page| <= pageSize;
    }
  }

  /** A response counts as a page only by the list under the results field; without a body, the field, or a
      list there, it counts for nothing. */
  lemma OnlyListsCount(resultsField: string, body: Option<Body>)
    ensures CountResults(resultsField, body) > 0 ==>
              && resultsField != "" && body.Some? && resultsField in body.value && body.value[resultsField].Items?
              && CountResults(resultsField, body) == |body.value[resultsField].items|
    ensures forall items: seq<Item> :: resultsField != "" && body == Some(map[resultsField := Items(items)]) ==>
              CountResults(resultsField, body) == |items|
  {
  }
}
