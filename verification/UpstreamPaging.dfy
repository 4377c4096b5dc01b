/** The loops that fetch every page of an upstream list, and the list endpoint built on them. */
module UpstreamPaging {
  import opened Text
  import opened Scope
  import opened Authorizer
  import opened ListFilter
  import Observation

  /** One page of an upstream answer; absent parts are `None`. */
  datatype PageBody<+T> = PageBody(result: Option<seq<T>>, totalPages: Option<int>)

  datatype PageResponse<+T> = PageOk(body: PageBody<T>) | PageFailed

  function Items<T>(body: PageBody<T>): seq<T> {
    if body.result.Some? then body.result.value else []
  }

  function DeclaredPages<T>(body: PageBody<T>): int {
    if body.totalPages.Some? then body.totalPages.value else 1
  }

  type Server<!T> = (int, int) -> PageResponse<T>

  /** Pages 1 to `k` all arrive and each but the last declares that more follow. */
  ghost predicate Continues<T(!new)>(serve: Server<T>, perPage: int, k: nat) {
    forall page | 1 <= page <= k ::
      && serve(page, perPage).PageOk?
      && serve(page, perPage).body.totalPages.Some? && page < serve(page, perPage).body.totalPages.value
  }

  ghost function Collected<T(!new)>(serve: Server<T>, perPage: int, k: nat): seq<T> {
    if k == 0 then []
    else
      Collected(serve, perPage, k - 1)
      + if serve(k, perPage).PageOk? && serve(k, perPage).body.result.Some? then serve(k, perPage).body.result.value
        else []
  }

  /** `page` is where the loop stops: the first page that fails, declares no further page, or
      declares nothing. */
  ghost predicate StopsAt<T(!new)>(serve: Server<T>, perPage: int, page: int) {
    && page >= 1
    && Continues(serve, perPage, page - 1)
    && (serve(page, perPage).PageOk? && serve(page, perPage).body.totalPages.Some? ==>
          page >= serve(page, perPage).body.totalPages.value)
  }

  /** A walk watched for some number of pages: ended, with what it found or with an error, or
      still going on with what it has found so far. The source sets no limit. */
  datatype Walk<+T> = Ended(found: Option<seq<T>>) | StillWalking(sofar: seq<T>)

  /** What the walk finds: the pages up to where it stops, unless that one fails; all the pages
      while none of them stops it. */
  ghost predicate Walked<T(!new)>(serve: Server<T>, perPage: int, watched: nat, walk: Walk<T>) {
    match walk
    case Ended(found) =>
      (exists last: nat | last <= watched ::
        && StopsAt(serve, perPage, last)
        && found == if serve(last, perPage).PageOk? then Some(Collected(serve, perPage, last)) else None)
    case StillWalking(sofar) => Continues(serve, perPage, watched) && sofar == Collected(serve, perPage, watched)
  }

  /** The walk ends exactly when one of the pages stops it. */
  lemma WalkEndsExactly<T(!new)>(serve: Server<T>, perPage: int, watched: nat, walk: Walk<T>)
    requires Walked(serve, perPage, watched, walk)
    ensures walk.Ended? <==> exists last: nat | last <= watched :: StopsAt(serve, perPage, last)
  {
  }

  const DEFAULT_RECORDS_PER_PAGE := 100
  const DEFAULT_ZONES_PER_PAGE := 50

  function PageSize(requested: Option<int>, default: int): int {
    if requested.Some? then requested.value else default
  }

  /** `list_all_records`; the error raised on a failed page is `Ended(None)`. */
  method ListAllRecords<T(!new)>(serve: Server<T>, requested: Option<int>, watched: nat) returns (walk: Walk<T>)
    ensures Walked(serve, if requested.Some? then requested.value else 100, watched, walk)
  {
    var perPage := PageSize(requested, DEFAULT_RECORDS_PER_PAGE);
    var records: seq<T> := [];
    var page := 1;
    while page <= watched
      invariant 1 <= page <= watched + 1
      invariant Continues(serve, perPage, page - 1)
      invariant records == Collected(serve, perPage, page - 1)
    {
      var response := serve(page, perPage);
      if response.PageFailed? {
        assert StopsAt(serve, perPage, page);
        return Ended(None);
      }
      records := records + Items(response.body);
      if page >= DeclaredPages(response.body) {
        assert StopsAt(serve, perPage, page);
        return Ended(Some(records));
      }
      page := page + 1;
    }
    walk := StillWalking(records);
  }

  /** `_fetch_all_zones`: the same walk, but a failed page ends it with what was found so far. */
  method FetchAllZones<T(!new)>(serve: Server<T>, requested: Option<int>, watched: nat)
    returns (zones: seq<T>, ended: bool)
    ensures var perPage := if requested.Some? then requested.value else 50;
      if ended then
        exists last: nat | last <= watched ::
          StopsAt(serve, perPage, last) && zones == Collected(serve, perPage, last)
      else
        Continues(serve, perPage, watched) && zones == Collected(serve, perPage, watched)
  {
    var perPage := PageSize(requested, DEFAULT_ZONES_PER_PAGE);
    zones := [];
    var page := 1;
    while page <= watched
      invariant 1 <= page <= watched + 1
      invariant Continues(serve, perPage, page - 1)
      invariant zones == Collected(serve, perPage, page - 1)
    {
      var response := serve(page, perPage);
      if response.PageFailed? {
        assert StopsAt(serve, perPage, page);
        return zones, true;
      }
      zones := zones + Items(response.body);
      if page >= DeclaredPages(response.body) {
        assert StopsAt(serve, perPage, page);
        return zones, true;
      }
      page := page + 1;
    }
    ended := false;
  }

  /** `list_credential_zones`: the cached list if there is one, otherwise the walk of
      `list_all_records` over the zones, whose result is cached if Redis takes it. A failed
      page raises and leaves the cache as it was. */
  method ListCredentialZones<T(!new)>(cached: Option<seq<T>>, serve: Server<T>, stores: bool, watched: nat)
    returns (walk: Walk<T>, cache: Option<seq<T>>)
    ensures cached.Some? ==> walk == Ended(cached) && cache == cached
    ensures cached.None? ==> Walked(serve, 50, watched, walk)
    ensures cached.None? ==> cache == if stores && walk.Ended? then walk.found else None
  {
    if cached.Some? {
      return Ended(cached), cached;
    }
    walk := ListAllRecords(serve, Some(DEFAULT_ZONES_PER_PAGE), watched);
    cache := if stores && walk.Ended? then walk.found else None;
  }

  /** An upstream that pages a fixed list consistently. */
  function Consistent<T>(items: seq<T>): Server<T> {
    (page: int, perPage: int) =>
      PageOk(PageBody(Some(PaginateAndResultInfo(items, page, perPage).0), Some(TotalPages(|items|, perPage))))
  }

  lemma {:induction false} CollectedIsFirstPages<T(!new)>(items: seq<T>, perPage: int, k: nat)
    ensures Collected(Consistent(items), perPage, k) == FirstPages(items, perPage, k)
  {
    if k > 0 {
      CollectedIsFirstPages(items, perPage, k - 1);
    }
  }

  /** Against a consistent upstream the walk stops at the last page (at page 1 of an empty
      list) and has collected exactly the list. */
  lemma WalkCollectsAll<T(!new)>(items: seq<T>, perPage: int, last: int)
    requires perPage >= 1 && StopsAt(Consistent(items), perPage, last)
    ensures Collected(Consistent(items), perPage, last) == items
    ensures last == if items == [] then 1 else TotalPages(|items|, perPage)
  {
    var serve, pages := Consistent(items), TotalPages(|items|, perPage);
    TotalPagesExact(|items|, perPage);
    assert serve(last, perPage).PageOk?;
    assert last >= pages;
    if last > 1 {
      assert Continues(serve, perPage, last - 1);
      assert last - 1 < DeclaredPages(serve(last - 1, perPage).body);
    }
    CollectedIsFirstPages(items, perPage, last);
    FirstPagesIsPrefix(items, perPage, last);
    ProductMonotone(pages, last, perPage);
  }

  /** A consistent upstream does not keep the walk beyond its last page. */
  lemma WalkReachesEnd<T(!new)>(items: seq<T>, perPage: int, watched: nat, walk: Walk<T>)
    requires perPage >= 1 && watched >= 1 && watched >= TotalPages(|items|, perPage)
    requires Walked(Consistent(items), perPage, watched, walk)
    ensures walk == Ended(Some(items))
  {
    var serve := Consistent(items);
    assert serve(watched, perPage).PageOk?;
    if walk.Ended? {
      var last: nat :| last <= watched && StopsAt(serve, perPage, last)
        && walk.found == if serve(last, perPage).PageOk? then Some(Collected(serve, perPage, last)) else None;
      assert serve(last, perPage).PageOk?;
      WalkCollectsAll(items, perPage, last);
    }
  }

  /** `list_dns_records` end to end: fetch every page, filter, page locally. The result is the
      same as if the endpoint had the upstream's list at hand, and an upstream request is made
      only when some rule names the zone. */
  method ListDnsRecords(rules: seq<Rule>, zoneId: string, ghost items: seq<Record>, serve: Server<Record>,
                        watched: nat, page: int, perPage: int)
    returns (response: Observation.ListResponse, asked: bool)
    requires serve == Consistent(items)
    requires watched >= 1 && watched >= TotalPages(|items|, DEFAULT_RECORDS_PER_PAGE)
    ensures response == Observation.ListDnsRecords(rules, zoneId, items, page, perPage)
    ensures asked <==> exists i | 0 <= i < |rules| :: rules[i].zoneId == zoneId
  {
    if !Observation.AnyRuleFor(rules, zoneId) {
      var (_, info) := PaginateAndResultInfo<Record>([], page, perPage);
      return Observation.ListOk([], info), false;
    }
    var all := ListAllRecords(serve, None, watched);
    WalkReachesEnd(items, DEFAULT_RECORDS_PER_PAGE, watched, all);
    asked := true;
    match all.found
    case None => response := Observation.ListCrash;
    case Some(records) =>
      match FilterRecords(records, rules, zoneId)
      case None => response := Observation.ListCrash;
      case Some(authorized) =>
        var (out, info) := PaginateAndResultInfo(authorized, page, perPage);
        response := Observation.ListOk(out, info);
  }
}
