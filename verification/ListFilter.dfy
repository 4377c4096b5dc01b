/** Filtering a record list to what a token may read, and paging the result locally. */
module ListFilter {
  import opened Text
  import opened Scope
  import opened RuleTheorems
  import opened Raising
  import opened Authorizer

  function ReadVerdict(rules: seq<Rule>, zoneId: string, record: Record): Verdict {
    MatchRules(rules, zoneId, record.image.name, record.image.rtype, record.id, Read)
  }

  /** `None` stands for an error raised while matching one of the records. */
  function FilterRecords(records: seq<Record>, rules: seq<Rule>, zoneId: string): Option<seq<Record>> {
    if records == [] then Some([])
    else
      var verdict := ReadVerdict(rules, zoneId, records[0]);
      if verdict == Raised then None
      else match FilterRecords(records[1..], rules, zoneId)
           case None => None
           case Some(rest) => Some(if verdict == Granted then [records[0]] + rest else rest)
  }

  /** Where Python puts a slice bound in a list of `n` elements. */
  function SliceBound(i: int, n: nat): nat {
    if i < 0 then (if i + n < 0 then 0 else i + n) else if i > n then n else i
  }

  /** `s[start:end]` as Python reads it, for any integers. */
  function Slice<T>(s: seq<T>, start: int, end: int): seq<T> {
    var lo, hi := SliceBound(start, |s|), SliceBound(end, |s|);
    if lo <= hi then s[lo..hi] else []
  }

  datatype ResultInfo = ResultInfo(page: int, perPage: int, count: nat, totalCount: nat, totalPages: int)

  function TotalPages(total: nat, perPage: int): int {
    if perPage > 0 then -((0 - total) / perPage) else 0
  }

  function PaginateAndResultInfo<T>(records: seq<T>, page: int, perPage: int): (seq<T>, ResultInfo) {
    var start := (page - 1) * perPage;
    var pageRecords := Slice(records, start, start + perPage);
    (pageRecords, ResultInfo(page, perPage, |pageRecords|, |records|, TotalPages(|records|, perPage)))
  }

  /** The number of pages is the least number whose pages hold every record. */
  lemma TotalPagesExact(total: nat, perPage: nat)
    requires perPage >= 1
    ensures var pages := TotalPages(total, perPage);
      && 0 <= pages
      && total <= pages * perPage
      && (pages > 0 ==> (pages - 1) * perPage < total)
  {
    var q, r := (0 - total) / perPage, (0 - total) % perPage;
    assert 0 - total == q * perPage + r;
    assert total == (-q) * perPage - r;
    assert q <= 0;
    assert (-q - 1) * perPage == (-q) * perPage - perPage;
  }

  function Min(a: int, b: int): int {
    if a < b then a else b
  }

  /** A page numbered from 1 is the corresponding chunk of the list, cut off at its end. */
  lemma PageIsChunk<T>(records: seq<T>, page: int, perPage: int)
    requires page >= 1 && perPage >= 1
    ensures 0 <= Min((page - 1) * perPage, |records|) <= Min(page * perPage, |records|)
    ensures PaginateAndResultInfo(records, page, perPage).0
      == records[Min((page - 1) * perPage, |records|)..Min(page * perPage, |records|)]
  {
    assert (page - 1) * perPage >= 0;
    assert page * perPage == (page - 1) * perPage + perPage;
  }

  /** The first `k` pages, one after the other. */
  function FirstPages<T>(records: seq<T>, perPage: int, k: nat): seq<T> {
    if k == 0 then [] else FirstPages(records, perPage, k - 1) + PaginateAndResultInfo(records, k, perPage).0
  }

  lemma {:induction false} FirstPagesIsPrefix<T>(records: seq<T>, perPage: int, k: nat)
    requires perPage >= 1
    ensures 0 <= Min(k * perPage, |records|)
    ensures FirstPages(records, perPage, k) == records[..Min(k * perPage, |records|)]
  {
    hide PaginateAndResultInfo;
    ProductStep(k, perPage);
    if k > 0 {
      FirstPagesIsPrefix(records, perPage, k - 1);
      PageIsChunk(records, k, perPage);
      ChunksJoin(records, Min((k - 1) * perPage, |records|), Min(k * perPage, |records|));
    }
  }

  lemma ProductStep(k: nat, perPage: int)
    requires perPage >= 1
    ensures k * perPage >= 0 && (k > 0 ==> (k - 1) * perPage >= 0 && k * perPage == (k - 1) * perPage + perPage)
  {
  }

  lemma ChunksJoin<T>(records: seq<T>, from: nat, to: nat)
    requires from <= to <= |records|
    ensures records[..from] + records[from..to] == records[..to]
  {
  }

  /** The client's pages partition the list: pages 1 to `total_pages` concatenate to it, each
      of them but the last is full, and every page beyond is empty. */
  lemma PagesPartition<T>(records: seq<T>, perPage: int)
    requires perPage >= 1
    ensures FirstPages(records, perPage, TotalPages(|records|, perPage)) == records
    ensures forall page | 1 <= page < TotalPages(|records|, perPage) ::
      |PaginateAndResultInfo(records, page, perPage).0| == perPage
    ensures forall page | page > TotalPages(|records|, perPage) ::
      PaginateAndResultInfo(records, page, perPage).0 == []
  {
    var pages := TotalPages(|records|, perPage);
    TotalPagesExact(|records|, perPage);
    FirstPagesIsPrefix(records, perPage, pages);
    forall page | page >= 1
      ensures page < pages ==> |PaginateAndResultInfo(records, page, perPage).0| == perPage
      ensures page > pages ==> PaginateAndResultInfo(records, page, perPage).0 == []
    {
      PageIsChunk(records, page, perPage);
      if page < pages {
        ProductMonotone(page, pages - 1, perPage);
        assert page * perPage == (page - 1) * perPage + perPage;
      } else if page > pages {
        ProductMonotone(pages, page - 1, perPage);
        ProductMonotone(page - 1, page, perPage);
      }
    }
  }

  lemma ProductMonotone(a: int, b: int, c: int)
    requires a <= b && c >= 0
    ensures a * c <= b * c
  {
  }

  /** Whatever page numbers a client sends, negative ones included, it only ever receives a
      contiguous run of the filtered list, with the counts of that run and of that list, the least
      number of pages that hold the list (none for a page size below one), and its own numbers. */
  lemma AnyPageIsARun<T>(records: seq<T>, page: int, perPage: int) returns (from: nat)
    ensures var (out, info) := PaginateAndResultInfo(records, page, perPage);
      && from + |out| <= |records|
      && out == records[from..from + |out|]
      && info.count == |out| && info.totalCount == |records|
      && info.page == page && info.perPage == perPage
      && (if perPage >= 1 then
            0 <= info.totalPages && |records| <= info.totalPages * perPage
            && (info.totalPages > 0 ==> (info.totalPages - 1) * perPage < |records|)
          else info.totalPages == 0)
  {
    var start := (page - 1) * perPage;
    var lo, hi := SliceBound(start, |records|), SliceBound(start + perPage, |records|);
    from := if lo <= hi then lo else 0;
    if perPage >= 1 {
      TotalPagesExact(|records|, perPage);
    }
  }

  /** A negative page counts from the end of the list, as Python's negative indices do, and page 0
      is empty. */
  lemma PageFromTheEnd<T>(records: seq<T>, page: int, perPage: int)
    requires page <= 0 && perPage >= 1
    ensures 0 <= FromEnd(|records|, (page - 1) * perPage) <= FromEnd(|records|, page * perPage) <= |records|
    ensures PaginateAndResultInfo(records, page, perPage).0
      == if page == 0 then []
         else records[FromEnd(|records|, (page - 1) * perPage)..FromEnd(|records|, page * perPage)]
  {
    assert (page - 1) * perPage == page * perPage - perPage;
    ProductMonotone(page, 0, perPage);
    if page < 0 {
      ProductMonotone(page, -1, perPage);
    }
  }

  /** The place `back` before the end, or the start of a shorter list. */
  function FromEnd(n: nat, back: int): int {
    if n + back < 0 then 0 else n + back
  }

  /** The records of the list that the rules let the token read, in order. */
  ghost function ReadableOf(records: seq<Record>, rules: seq<Rule>, zoneId: string): seq<Record> {
    if records == [] then []
    else
      var rest := ReadableOf(records[1..], rules, zoneId);
      if Readable(rules, zoneId, records[0]) then [records[0]] + rest else rest
  }

  /** Some rule of the token covers reading the record. */
  ghost predicate Readable(rules: seq<Rule>, zoneId: string, record: Record) {
    InReach(rules, zoneId, record.image, record.id, Read)
  }

  predicate NamesNormalize(records: seq<Record>) {
    forall i | 0 <= i < |records| :: CanonicalName(records[i].image.name).Some?
  }

  lemma ReadVerdictMeaning(rules: seq<Rule>, zoneId: string, record: Record)
    requires CanonicalName(record.image.name).Some?
    ensures ReadVerdict(rules, zoneId, record) == Granted ==> Readable(rules, zoneId, record)
    ensures ReadVerdict(rules, zoneId, record) == Refused ==> !Readable(rules, zoneId, record)
  {
    hide MatchRules, InReach, CanonicalName;
    if Readable(rules, zoneId, record) {
      InReachNotRefused(rules, zoneId, record.image, record.id, Read);
    } else {
      OutOfReachNotGranted(rules, zoneId, record.image, record.id, Read);
    }
  }

  /** Filtering keeps the readable records, in order, when no record makes matching raise. */
  lemma {:induction false} FilterKeepsReadable(records: seq<Record>, rules: seq<Rule>, zoneId: string)
    requires NamesNormalize(records)
    requires forall i | 0 <= i < |records| :: ReadVerdict(rules, zoneId, records[i]) != Raised
    ensures FilterRecords(records, rules, zoneId) == Some(ReadableOf(records, rules, zoneId))
  {
    hide ReadVerdict, Readable, CanonicalName;
    if records != [] {
      ReadVerdictMeaning(rules, zoneId, records[0]);
      FilterKeepsReadable(records[1..], rules, zoneId);
    }
  }

  lemma {:induction false} FilterRaises(records: seq<Record>, i: nat, rules: seq<Rule>, zoneId: string)
    requires i < |records| && ReadVerdict(rules, zoneId, records[i]) == Raised
    ensures FilterRecords(records, rules, zoneId) == None
  {
    hide ReadVerdict;
    if i > 0 {
      FilterRaises(records[1..], i - 1, rules, zoneId);
    }
  }

  /** Matching never raises on a read, whatever the record. */
  ghost predicate ShieldedReads(rules: seq<Rule>, zoneId: string) {
    forall rtype, recordId :: Shielded(rules, zoneId, rtype, recordId, Read)
  }

  lemma FilterShielded(records: seq<Record>, rules: seq<Rule>, zoneId: string)
    requires NamesNormalize(records) && ShieldedReads(rules, zoneId)
    ensures FilterRecords(records, rules, zoneId) == Some(ReadableOf(records, rules, zoneId))
  {
    hide MatchRules, Shielded, CanonicalName;
    forall i | 0 <= i < |records| ensures ReadVerdict(rules, zoneId, records[i]) != Raised {
      var record := records[i];
      assert Shielded(rules, zoneId, record.image.rtype, record.id, Read);
      ShieldedNeverRaises(rules, zoneId, record.image.rtype, record.id, Read, record.image.name);
    }
    FilterKeepsReadable(records, rules, zoneId);
  }

  /** A record whose name normalizes and on which reading raises. */
  lemma UnshieldedRecord(rules: seq<Rule>, zoneId: string, rtype: Option<string>,
                         recordId: Option<string>) returns (record: Record)
    requires !Shielded(rules, zoneId, rtype, recordId, Read)
    ensures record.id == recordId && record.zoneId == None && CanonicalName(record.image.name).Some?
    ensures ReadVerdict(rules, zoneId, record) == Raised
  {
    hide MatchRules, Shielded, CanonicalName;
    record := Record(recordId, None, Image(Some(Unmatched(rules)), rtype), None);
    UnmatchedName(rules);
    UnshieldedRaises(rules, zoneId, rtype, recordId, Read);
  }

  /** Filtering keeps exactly the readable records of every list, in order, exactly when every
      broken rule stands behind a nameless one that grants reading. */
  lemma FilterMeaning(rules: seq<Rule>, zoneId: string)
    ensures (forall records | NamesNormalize(records) ::
               FilterRecords(records, rules, zoneId) == Some(ReadableOf(records, rules, zoneId)))
      <==> ShieldedReads(rules, zoneId)
  {
    hide ReadVerdict, Shielded, Readable, CanonicalName;
    if ShieldedReads(rules, zoneId) {
      forall records | NamesNormalize(records)
        ensures FilterRecords(records, rules, zoneId) == Some(ReadableOf(records, rules, zoneId))
      {
        FilterShielded(records, rules, zoneId);
      }
    } else {
      var rtype, recordId :| !Shielded(rules, zoneId, rtype, recordId, Read);
      var record := UnshieldedRecord(rules, zoneId, rtype, recordId);
      FilterRaises([record], 0, rules, zoneId);
      assert NamesNormalize([record]);
    }
  }

  /** When whatever is out of reach is refused, filtering a list and filtering its readable
      records come to the same. */
  lemma {:induction false} FilterOfReadable(records: seq<Record>, rules: seq<Rule>, zoneId: string)
    requires forall i | 0 <= i < |records| ::
      !Readable(rules, zoneId, records[i]) ==> ReadVerdict(rules, zoneId, records[i]) == Refused
    ensures FilterRecords(records, rules, zoneId) == FilterRecords(ReadableOf(records, rules, zoneId), rules, zoneId)
  {
    hide ReadVerdict, Readable;
    if records != [] {
      FilterOfReadable(records[1..], rules, zoneId);
      var rest := ReadableOf(records[1..], rules, zoneId);
      assert ([records[0]] + rest)[1..] == rest;
    }
  }

  /** With no rule for the zone there is nothing to read, so answering an empty list without
      asking the upstream loses nothing. */
  lemma {:induction false} NoRuleReadsNothing(records: seq<Record>, rules: seq<Rule>, zoneId: string)
    requires forall i | 0 <= i < |rules| :: rules[i].zoneId != zoneId
    ensures ReadableOf(records, rules, zoneId) == []
  {
    if records != [] {
      NoRuleReadsNothing(records[1..], rules, zoneId);
    }
  }
}
