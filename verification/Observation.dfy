/** What a token can observe of a zone through `GET` by id and through the list endpoint:
    nothing but the records it may read. */
module Observation {
  import opened Text
  import opened Scope
  import opened RuleTheorems
  import opened Raising
  import opened Authorizer
  import opened ListFilter

  datatype GetResponse = GetOk(record: Record) | GetError(error: ApiError) | GetCrash

  datatype ListResponse = ListOk(records: seq<Record>, info: ResultInfo) | ListCrash

  /** The upstream's answer to a fetch by id. */
  function Lookup(records: seq<Record>, recordId: string): Fetched {
    if records == [] then Missing
    else if records[0].id == Some(recordId) then Found(records[0])
    else Lookup(records[1..], recordId)
  }

  function GetDnsRecord(rules: seq<Rule>, zoneId: string, records: seq<Record>, recordId: string): GetResponse {
    match AuthorizeDnsRequest(rules, Get, zoneId, recordId, None, (zone, id) => Lookup(records, id))
    case Crashed => GetCrash
    case Decided(decision) =>
      if decision.allowed && decision.preImage.Some? then GetOk(decision.preImage.value)
      else if decision.error.Some? then GetError(decision.error.value)
      else GetCrash
  }

  predicate AnyRuleFor(rules: seq<Rule>, zoneId: string) {
    exists i | 0 <= i < |rules| :: rules[i].zoneId == zoneId
  }

  function ListDnsRecords(rules: seq<Rule>, zoneId: string, records: seq<Record>, page: int,
                          perPage: int): ListResponse {
    if !AnyRuleFor(rules, zoneId) then
      ListOk([], PaginateAndResultInfo<Record>([], page, perPage).1)
    else match FilterRecords(records, rules, zoneId)
         case None => ListCrash
         case Some(authorized) =>
           var (out, info) := PaginateAndResultInfo(authorized, page, perPage);
           ListOk(out, info)
  }

  /** A token without a rule for the zone is told that the zone is empty, whatever is in it. */
  lemma NoRuleSeesEmpty(rules: seq<Rule>, zoneId: string, records: seq<Record>, page: int, perPage: int)
    requires forall rule | rule in rules :: rule.zoneId != zoneId
    ensures ListDnsRecords(rules, zoneId, records, page, perPage).ListOk?
    ensures var response := ListDnsRecords(rules, zoneId, records, page, perPage);
      response.records == [] && response.info.count == 0 && response.info.totalCount == 0
  {
    var from := AnyPageIsARun<Record>([], page, perPage);
  }

  /** A zone as the upstream lists it: every record under an id of its own, and no record that
      claims to belong to another zone. */
  ghost predicate WellFormed(records: seq<Record>, zoneId: string) {
    && NamesNormalize(records)
    && (forall i | 0 <= i < |records| ::
          records[i].id.Some? && (records[i].zoneId == None || records[i].zoneId == Some(zoneId)))
    && (forall i, j | 0 <= i < j < |records| :: records[i].id != records[j].id)
  }

  lemma {:induction false} LookupFinds(records: seq<Record>, recordId: string)
    ensures Lookup(records, recordId).Found? ==>
      Lookup(records, recordId).record in records && Lookup(records, recordId).record.id == Some(recordId)
    ensures !Lookup(records, recordId).FetchFailed?
    ensures (exists record | record in records :: record.id == Some(recordId)) ==> Lookup(records, recordId).Found?
  {
    if records != [] {
      LookupFinds(records[1..], recordId);
      if record :| record in records && record.id == Some(recordId) && records[0].id != Some(recordId) {
        assert record in records[1..];
      }
    }
  }

  lemma {:induction false} ReadableMembers(records: seq<Record>, rules: seq<Rule>, zoneId: string)
    ensures forall record ::
      (record in ReadableOf(records, rules, zoneId) <==> record in records && Readable(rules, zoneId, record))
  {
    if records != [] {
      ReadableMembers(records[1..], rules, zoneId);
      assert records == [records[0]] + records[1..];
    }
  }

  lemma SameIdSameRecord(records: seq<Record>, zoneId: string, a: Record, b: Record)
    requires WellFormed(records, zoneId) && a in records && b in records && a.id == b.id
    ensures a == b
  {
  }

  lemma LookupIs(records: seq<Record>, zoneId: string, record: Record)
    requires WellFormed(records, zoneId) && record in records
    ensures Lookup(records, record.id.value) == Found(record)
  {
    LookupFinds(records, record.id.value);
    SameIdSameRecord(records, zoneId, record, Lookup(records, record.id.value).record);
  }

  /** `GET` by id returns a record if it is readable, and the fixed 404 if none is. */
  ghost predicate GetIsExact(rules: seq<Rule>, zoneId: string, records: seq<Record>, recordId: string) {
    && (forall record | record in ReadableOf(records, rules, zoneId) && record.id == Some(recordId) ::
          GetDnsRecord(rules, zoneId, records, recordId) == GetOk(record))
    && ((forall record | record in ReadableOf(records, rules, zoneId) :: record.id != Some(recordId)) ==>
          GetDnsRecord(rules, zoneId, records, recordId) == GetError(NO_SUCH_RECORD))
  }

  lemma GetOfFound(rules: seq<Rule>, zoneId: string, records: seq<Record>, record: Record)
    requires WellFormed(records, zoneId) && record in records
    ensures GetDnsRecord(rules, zoneId, records, record.id.value)
      == match ReadVerdict(rules, zoneId, record)
         case Granted => GetOk(record)
         case Refused => GetError(NO_SUCH_RECORD)
         case Raised => GetCrash
  {
    hide MatchRules, Lookup, CanonicalName;
    LookupIs(records, zoneId, record);
    var i :| 0 <= i < |records| && records[i] == record;
    assert record.id.Some? && (record.zoneId == None || record.zoneId == Some(zoneId));
  }

  lemma GetOfMissing(rules: seq<Rule>, zoneId: string, records: seq<Record>, recordId: string)
    requires forall record | record in records :: record.id != Some(recordId)
    ensures GetDnsRecord(rules, zoneId, records, recordId) == GetError(NO_SUCH_RECORD)
  {
    hide MatchRules, Lookup;
    LookupFinds(records, recordId);
  }

  lemma GetShielded(rules: seq<Rule>, zoneId: string, records: seq<Record>, recordId: string)
    requires WellFormed(records, zoneId)
    requires forall rtype :: Shielded(rules, zoneId, rtype, Some(recordId), Read)
    ensures GetIsExact(rules, zoneId, records, recordId)
  {
    hide MatchRules, Shielded, CanonicalName, GetDnsRecord, InReach;
    ReadableMembers(records, rules, zoneId);
    if record :| record in records && record.id == Some(recordId) {
      GetOfFound(rules, zoneId, records, record);
      ReadVerdictMeaning(rules, zoneId, record);
      assert Shielded(rules, zoneId, record.image.rtype, Some(recordId), Read);
      ShieldedNeverRaises(rules, zoneId, record.image.rtype, Some(recordId), Read, record.image.name);
      forall other | other in records && other.id == Some(recordId) ensures other == record {
        SameIdSameRecord(records, zoneId, other, record);
      }
    } else {
      GetOfMissing(rules, zoneId, records, recordId);
    }
  }

  lemma OneRecordZone(record: Record, zoneId: string)
    requires record.id.Some? && record.zoneId == None && CanonicalName(record.image.name).Some?
    ensures WellFormed([record], zoneId) && record in [record]
  {
    hide CanonicalName;
  }

  /** `GET` by id answers for every zone exactly by what is readable, exactly when every broken
      rule for the id stands behind a nameless one that grants reading. */
  lemma GetMeaning(rules: seq<Rule>, zoneId: string, recordId: string)
    ensures (forall records | WellFormed(records, zoneId) :: GetIsExact(rules, zoneId, records, recordId))
      <==> forall rtype :: Shielded(rules, zoneId, rtype, Some(recordId), Read)
  {
    hide WellFormed, Shielded, GetIsExact, ReadVerdict;
    if forall rtype :: Shielded(rules, zoneId, rtype, Some(recordId), Read) {
      forall records | WellFormed(records, zoneId) ensures GetIsExact(rules, zoneId, records, recordId) {
        GetShielded(rules, zoneId, records, recordId);
      }
    } else {
      var rtype :| !Shielded(rules, zoneId, rtype, Some(recordId), Read);
      var record := UnshieldedRecord(rules, zoneId, rtype, Some(recordId));
      OneRecordZone(record, zoneId);
      GetOfFound(rules, zoneId, [record], record);
      CrashIsInexact(rules, zoneId, record, recordId);
    }
  }

  lemma CrashIsInexact(rules: seq<Rule>, zoneId: string, record: Record, recordId: string)
    requires GetDnsRecord(rules, zoneId, [record], recordId) == GetCrash
    requires record.id == Some(recordId)
    ensures !GetIsExact(rules, zoneId, [record], recordId)
  {
    hide GetDnsRecord, InReach;
    ReadableMembers([record], rules, zoneId);
    if Readable(rules, zoneId, record) {
      assert record in ReadableOf([record], rules, zoneId);
    } else {
      assert forall other | other in ReadableOf([record], rules, zoneId) :: other.id != Some(recordId);
    }
  }

  /** The list endpoint is the local paging of the readable records. */
  ghost predicate ListIsExact(rules: seq<Rule>, zoneId: string, records: seq<Record>, page: int, perPage: int) {
    var readable := ReadableOf(records, rules, zoneId);
    ListDnsRecords(rules, zoneId, records, page, perPage)
      == ListOk(PaginateAndResultInfo(readable, page, perPage).0, PaginateAndResultInfo(readable, page, perPage).1)
  }

  lemma ListShielded(rules: seq<Rule>, zoneId: string, records: seq<Record>, page: int, perPage: int)
    requires NamesNormalize(records) && ShieldedReads(rules, zoneId)
    ensures ListIsExact(rules, zoneId, records, page, perPage)
  {
    hide NamesNormalize, ShieldedReads;
    FilterShielded(records, rules, zoneId);
    if !AnyRuleFor(rules, zoneId) {
      NoRuleReadsNothing(records, rules, zoneId);
    }
  }

  /** The list endpoint pages the readable records of every zone exactly when every broken rule
      stands behind a nameless one that grants reading. */
  lemma ListMeaning(rules: seq<Rule>, zoneId: string)
    ensures (forall records, page, perPage | NamesNormalize(records) ::
               ListIsExact(rules, zoneId, records, page, perPage))
      <==> ShieldedReads(rules, zoneId)
  {
    hide Shielded, ListIsExact, ReadVerdict, CanonicalName;
    if ShieldedReads(rules, zoneId) {
      forall records, page, perPage | NamesNormalize(records)
        ensures ListIsExact(rules, zoneId, records, page, perPage)
      {
        ListShielded(rules, zoneId, records, page, perPage);
      }
    } else {
      var rtype, recordId :| !Shielded(rules, zoneId, rtype, recordId, Read);
      var record := UnshieldedRecord(rules, zoneId, rtype, recordId);
      assert NamesNormalize([record]);
      UnshieldedHasRule(rules, zoneId, rtype, recordId);
      FilterRaises([record], 0, rules, zoneId);
      ListCrashes(rules, zoneId, [record], 1, 1);
      assert !ListIsExact(rules, zoneId, [record], 1, 1);
    }
  }

  lemma UnshieldedHasRule(rules: seq<Rule>, zoneId: string, rtype: Option<string>, recordId: Option<string>)
    requires !Shielded(rules, zoneId, rtype, recordId, Read)
    ensures AnyRuleFor(rules, zoneId)
  {
  }

  lemma ListCrashes(rules: seq<Rule>, zoneId: string, records: seq<Record>, page: int, perPage: int)
    requires AnyRuleFor(rules, zoneId) && FilterRecords(records, rules, zoneId) == None
    ensures ListDnsRecords(rules, zoneId, records, page, perPage) == ListCrash
    ensures !ListIsExact(rules, zoneId, records, page, perPage)
  {
  }

  /** List and get agree: where the filter goes through, a record of the list survives it and
      belongs to no other zone exactly when `GET` on it is allowed. */
  lemma {:induction false} ListAndGetAgree(records: seq<Record>, rules: seq<Rule>, zoneId: string, record: Record)
    requires record in records && record.id.Some? && FilterRecords(records, rules, zoneId).Some?
    ensures (record in FilterRecords(records, rules, zoneId).value
             && (record.zoneId == None || record.zoneId == Some(zoneId)))
      <==> Allowed(AuthorizeDnsRequest(rules, Get, zoneId, record.id.value, None, (zone, id) => Found(record)))
  {
    hide MatchRules;
    AllowedMeaning(rules, Get, zoneId, record.id.value, None, (zone, id) => Found(record));
    SurvivesByVerdict(records, rules, zoneId, record);
  }

  lemma {:induction false} SurvivesByVerdict(records: seq<Record>, rules: seq<Rule>, zoneId: string, record: Record)
    requires record in records && FilterRecords(records, rules, zoneId).Some?
    ensures record in FilterRecords(records, rules, zoneId).value <==> ReadVerdict(rules, zoneId, record) == Granted
  {
    hide ReadVerdict;
    if record in records[1..] {
      SurvivesByVerdict(records[1..], rules, zoneId, record);
    } else {
      assert record == records[0];
      NewToFilter(records[1..], rules, zoneId, record);
    }
  }

  lemma {:induction false} NewToFilter(records: seq<Record>, rules: seq<Rule>, zoneId: string, record: Record)
    requires record !in records && FilterRecords(records, rules, zoneId).Some?
    ensures record !in FilterRecords(records, rules, zoneId).value
  {
    hide ReadVerdict;
    if records != [] {
      NewToFilter(records[1..], rules, zoneId, record);
    }
  }

  ghost predicate SameGets(rules: seq<Rule>, zoneId: string, one: seq<Record>, two: seq<Record>) {
    forall recordId :: GetDnsRecord(rules, zoneId, one, recordId) == GetDnsRecord(rules, zoneId, two, recordId)
  }

  ghost predicate SameLists(rules: seq<Rule>, zoneId: string, one: seq<Record>, two: seq<Record>) {
    forall page, perPage ::
      ListDnsRecords(rules, zoneId, one, page, perPage) == ListDnsRecords(rules, zoneId, two, page, perPage)
  }

  /** Records that a broken rule is for, under whatever id, are readable by a nameless rule. */
  ghost predicate CompensatedReads(rules: seq<Rule>, zoneId: string) {
    forall rtype, recordId :: Compensated(rules, zoneId, rtype, Some(recordId), Read)
  }

  lemma UnreadableRefused(rules: seq<Rule>, zoneId: string, record: Record)
    requires CompensatedReads(rules, zoneId) && record.id.Some? && CanonicalName(record.image.name).Some?
    requires !Readable(rules, zoneId, record)
    ensures ReadVerdict(rules, zoneId, record) == Refused
  {
    hide MatchRules, Compensated, InReach, CanonicalName;
    assert Compensated(rules, zoneId, record.image.rtype, Some(record.id.value), Read);
    OutOfReachRefused(rules, zoneId, record.image, record.id, Read);
  }

  lemma SameGetByReadable(rules: seq<Rule>, zoneId: string, one: seq<Record>, two: seq<Record>, recordId: string)
    requires WellFormed(one, zoneId) && WellFormed(two, zoneId) && CompensatedReads(rules, zoneId)
    requires ReadableOf(one, rules, zoneId) == ReadableOf(two, rules, zoneId)
    ensures GetDnsRecord(rules, zoneId, one, recordId) == GetDnsRecord(rules, zoneId, two, recordId)
  {
    hide MatchRules, GetDnsRecord, CompensatedReads, InReach, CanonicalName;
    ReadableMembers(one, rules, zoneId);
    ReadableMembers(two, rules, zoneId);
    if record :| record in ReadableOf(one, rules, zoneId) && record.id == Some(recordId) {
      GetOfFound(rules, zoneId, one, record);
      GetOfFound(rules, zoneId, two, record);
    } else {
      GetOfUnreadable(rules, zoneId, one, recordId);
      GetOfUnreadable(rules, zoneId, two, recordId);
    }
  }

  lemma GetOfUnreadable(rules: seq<Rule>, zoneId: string, records: seq<Record>, recordId: string)
    requires WellFormed(records, zoneId) && CompensatedReads(rules, zoneId)
    requires forall record | record in ReadableOf(records, rules, zoneId) :: record.id != Some(recordId)
    ensures GetDnsRecord(rules, zoneId, records, recordId) == GetError(NO_SUCH_RECORD)
  {
    hide MatchRules, GetDnsRecord, CompensatedReads, InReach, CanonicalName;
    ReadableMembers(records, rules, zoneId);
    if record :| record in records && record.id == Some(recordId) {
      UnreadableRefused(rules, zoneId, record);
      GetOfFound(rules, zoneId, records, record);
    } else {
      GetOfMissing(rules, zoneId, records, recordId);
    }
  }

  lemma SameListByReadable(rules: seq<Rule>, zoneId: string, one: seq<Record>, two: seq<Record>, page: int,
                           perPage: int)
    requires WellFormed(one, zoneId) && WellFormed(two, zoneId) && CompensatedReads(rules, zoneId)
    requires ReadableOf(one, rules, zoneId) == ReadableOf(two, rules, zoneId)
    ensures ListDnsRecords(rules, zoneId, one, page, perPage) == ListDnsRecords(rules, zoneId, two, page, perPage)
  {
    hide ReadVerdict, Readable, CompensatedReads, PaginateAndResultInfo, CanonicalName;
    forall i | 0 <= i < |one| && !Readable(rules, zoneId, one[i])
      ensures ReadVerdict(rules, zoneId, one[i]) == Refused
    {
      UnreadableRefused(rules, zoneId, one[i]);
    }
    forall i | 0 <= i < |two| && !Readable(rules, zoneId, two[i])
      ensures ReadVerdict(rules, zoneId, two[i]) == Refused
    {
      UnreadableRefused(rules, zoneId, two[i]);
    }
    FilterOfReadable(one, rules, zoneId);
    FilterOfReadable(two, rules, zoneId);
  }

  ghost predicate HidesTheRest(rules: seq<Rule>, zoneId: string, one: seq<Record>, two: seq<Record>) {
    && WellFormed(one, zoneId) && WellFormed(two, zoneId)
    && ReadableOf(one, rules, zoneId) == ReadableOf(two, rules, zoneId)
    ==> SameGets(rules, zoneId, one, two) && SameLists(rules, zoneId, one, two)
  }

  /** What lies outside the scope never shows, exactly: any two zones that agree on the records
      that a token may read, in order, answer its every by-id GET and list request alike,
      exactly when the records that a broken rule is for are readable by a nameless one. */
  lemma NothingOutsideShows(rules: seq<Rule>, zoneId: string)
    ensures (forall one, two :: HidesTheRest(rules, zoneId, one, two)) <==> CompensatedReads(rules, zoneId)
  {
    hide WellFormed, ReadableOf, Compensated, GetDnsRecord, ListDnsRecords;
    if CompensatedReads(rules, zoneId) {
      forall one, two
        ensures HidesTheRest(rules, zoneId, one, two)
      {
        if WellFormed(one, zoneId) && WellFormed(two, zoneId)
           && ReadableOf(one, rules, zoneId) == ReadableOf(two, rules, zoneId) {
          forall recordId
            ensures GetDnsRecord(rules, zoneId, one, recordId) == GetDnsRecord(rules, zoneId, two, recordId)
          {
            SameGetByReadable(rules, zoneId, one, two, recordId);
          }
          forall page, perPage
            ensures ListDnsRecords(rules, zoneId, one, page, perPage)
              == ListDnsRecords(rules, zoneId, two, page, perPage)
          {
            SameListByReadable(rules, zoneId, one, two, page, perPage);
          }
        }
      }
    } else {
      var rtype, recordId :| !Compensated(rules, zoneId, rtype, Some(recordId), Read);
      var record := LeakedRecord(rules, zoneId, rtype, recordId);
      assert !SameGets(rules, zoneId, [record], []);
      assert !HidesTheRest(rules, zoneId, [record], []);
    }
  }

  /** An unreadable record whose existence shows: its zone and the empty one are alike in what
      may be read, and are told apart by one GET and by every list request. */
  lemma LeakedRecord(rules: seq<Rule>, zoneId: string, rtype: Option<string>, recordId: string) returns (record: Record)
    requires !Compensated(rules, zoneId, rtype, Some(recordId), Read)
    ensures WellFormed([record], zoneId) && WellFormed([], zoneId)
    ensures ReadableOf([record], rules, zoneId) == ReadableOf([], rules, zoneId) == []
    ensures GetDnsRecord(rules, zoneId, [record], recordId) == GetCrash
    ensures GetDnsRecord(rules, zoneId, [], recordId) == GetError(NO_SUCH_RECORD)
    ensures ListDnsRecords(rules, zoneId, [record], 1, 1) == ListCrash
    ensures ListDnsRecords(rules, zoneId, [], 1, 1).ListOk?
  {
    hide MatchRules, Compensated, InReach, CanonicalName, Lookup, AuthorizeDnsRequest;
    var image := Revealing(rules, rtype);
    UncompensatedReveals(rules, zoneId, rtype, Some(recordId), Read);
    record := Record(Some(recordId), None, image, None);
    OneRecordZone(record, zoneId);
    GetOfFound(rules, zoneId, [record], record);
    GetOfMissing(rules, zoneId, [], recordId);
    UncompensatedHasRule(rules, zoneId, rtype, Some(recordId));
    FilterRaises([record], 0, rules, zoneId);
    ListCrashes(rules, zoneId, [record], 1, 1);
  }

  lemma UncompensatedHasRule(rules: seq<Rule>, zoneId: string, rtype: Option<string>, recordId: Option<string>)
    requires !Compensated(rules, zoneId, rtype, recordId, Read)
    ensures AnyRuleFor(rules, zoneId)
  {
  }

  /** The two zones answer every request alike exactly when they agree on what may be read. */
  ghost predicate ToldApartByReadable(rules: seq<Rule>, zoneId: string, one: seq<Record>, two: seq<Record>) {
    WellFormed(one, zoneId) && WellFormed(two, zoneId) ==>
      (SameGets(rules, zoneId, one, two) && SameLists(rules, zoneId, one, two)
       <==> ReadableOf(one, rules, zoneId) == ReadableOf(two, rules, zoneId))
  }

  lemma ShieldedTellsApart(rules: seq<Rule>, zoneId: string, one: seq<Record>, two: seq<Record>)
    requires ShieldedReads(rules, zoneId)
    ensures ToldApartByReadable(rules, zoneId, one, two)
  {
    hide WellFormed, Shielded, GetDnsRecord, ListDnsRecords, PaginateAndResultInfo;
    if WellFormed(one, zoneId) && WellFormed(two, zoneId) {
      var r1, r2 := ReadableOf(one, rules, zoneId), ReadableOf(two, rules, zoneId);
      if r1 == r2 {
        ShieldedIsCompensated(rules, zoneId);
        NothingOutsideShows(rules, zoneId);
        assert HidesTheRest(rules, zoneId, one, two);
      }
      if SameLists(rules, zoneId, one, two) {
        var n := |r1| + |r2| + 1;
        NamesOfZone(one, zoneId);
        NamesOfZone(two, zoneId);
        ListShielded(rules, zoneId, one, 1, n);
        ListShielded(rules, zoneId, two, 1, n);
        LargePageShowsAll(r1, n);
        LargePageShowsAll(r2, n);
      }
    }
  }

  /** A record under an id that no rule lists is treated like one without an id. */
  lemma UnlistedIdIsNone(rules: seq<Rule>, zoneId: string, rtype: Option<string>)
    requires !Shielded(rules, zoneId, rtype, None, Read)
    ensures !Shielded(rules, zoneId, rtype, Some(UnlistedId(rules)), Read)
  {
    hide UnlistedId;
    forall i | 0 <= i < |rules|
      ensures rules[i].Admits(zoneId, rtype, Some(UnlistedId(rules))) <==> rules[i].Admits(zoneId, rtype, None)
    {
      IdUnlisted(rules, i);
    }
  }

  lemma ReadableThoughRaising(rules: seq<Rule>, zoneId: string, rtype: Option<string>, recordId: string)
    requires !Shielded(rules, zoneId, rtype, Some(recordId), Read)
    requires Compensated(rules, zoneId, rtype, Some(recordId), Read)
    ensures InReach(rules, zoneId, Revealing(rules, rtype), Some(recordId), Read)
  {
    hide Unmatched, NameMatches;
    UnmatchedName(rules);
    var j :| 0 <= j < |rules| && Nameless(rules[j], zoneId, rtype, Some(recordId), Read);
    assert rules[j] in rules;
    assert Grants(rules[j], zoneId, Some(Unmatched(rules)), rtype, Some(recordId), Read);
  }

  /** What a record on which reading raises makes of its zone. */
  lemma RaisingRecord(rules: seq<Rule>, zoneId: string, record: Record)
    requires record.id.Some? && record.zoneId == None && CanonicalName(record.image.name).Some?
    requires ReadVerdict(rules, zoneId, record) == Raised && AnyRuleFor(rules, zoneId)
    ensures WellFormed([record], zoneId)
    ensures forall id ::
      (GetDnsRecord(rules, zoneId, [record], id)
       == if id == record.id.value then GetCrash else GetError(NO_SUCH_RECORD))
    ensures forall page, perPage :: ListDnsRecords(rules, zoneId, [record], page, perPage) == ListCrash
  {
    hide MatchRules, GetDnsRecord, CanonicalName;
    OneRecordZone(record, zoneId);
    GetOfFound(rules, zoneId, [record], record);
    forall id | id != record.id.value
      ensures GetDnsRecord(rules, zoneId, [record], id) == GetError(NO_SUCH_RECORD)
    {
      GetOfMissing(rules, zoneId, [record], id);
    }
    FilterRaises([record], 0, rules, zoneId);
  }

  /** Where reading raises, two zones are confused: either what may not be read shows, or what
      may be read does not. */
  lemma UnshieldedConfuses(rules: seq<Rule>, zoneId: string, rtype: Option<string>, recordId: string)
    returns (one: seq<Record>, two: seq<Record>)
    requires !Shielded(rules, zoneId, rtype, Some(recordId), Read)
    ensures !ToldApartByReadable(rules, zoneId, one, two)
  {
    hide Shielded, MatchRules, InReach, CanonicalName, WellFormed, GetDnsRecord, ListDnsRecords, Compensated, Unmatched;
    if Compensated(rules, zoneId, rtype, Some(recordId), Read) {
      var image := Revealing(rules, rtype);
      var a, b := Record(Some(recordId), None, image, None), Record(Some(recordId), None, image, Some(""));
      UnmatchedName(rules);
      UnshieldedRaises(rules, zoneId, rtype, Some(recordId), Read);
      UnshieldedHasRule(rules, zoneId, rtype, Some(recordId));
      RaisingRecord(rules, zoneId, a);
      RaisingRecord(rules, zoneId, b);
      ReadableThoughRaising(rules, zoneId, rtype, recordId);
      one, two := [a], [b];
      assert ReadableOf(one, rules, zoneId) == one && ReadableOf(two, rules, zoneId) == two;
      assert one[0] != two[0];
    } else {
      var record := LeakedRecord(rules, zoneId, rtype, recordId);
      one, two := [record], [];
      assert GetDnsRecord(rules, zoneId, one, recordId) != GetDnsRecord(rules, zoneId, two, recordId);
    }
  }

  /** Observational equivalence, exactly: that any two zones answer every by-id GET and every
      list request of a token alike exactly when they agree on the records that the token may
      read, in order, holds exactly when reading never raises. What lies outside the scope then
      never shows, and everything inside it does. */
  lemma ObservationalEquivalence(rules: seq<Rule>, zoneId: string)
    ensures (forall one, two :: ToldApartByReadable(rules, zoneId, one, two)) <==> ShieldedReads(rules, zoneId)
  {
    hide Shielded, ToldApartByReadable;
    if ShieldedReads(rules, zoneId) {
      forall one, two ensures ToldApartByReadable(rules, zoneId, one, two) {
        ShieldedTellsApart(rules, zoneId, one, two);
      }
    } else {
      var rtype, recordId :| !Shielded(rules, zoneId, rtype, recordId, Read);
      if recordId == None {
        UnlistedIdIsNone(rules, zoneId, rtype);
      }
      var id := if recordId.Some? then recordId.value else UnlistedId(rules);
      var one, two := UnshieldedConfuses(rules, zoneId, rtype, id);
    }
  }

  lemma NamesOfZone(records: seq<Record>, zoneId: string)
    requires WellFormed(records, zoneId)
    ensures NamesNormalize(records)
  {
  }

  lemma ShieldedIsCompensated(rules: seq<Rule>, zoneId: string)
    requires ShieldedReads(rules, zoneId)
    ensures CompensatedReads(rules, zoneId)
  {
    hide Broken, Nameless;
    forall rtype, recordId ensures Compensated(rules, zoneId, rtype, Some(recordId), Read) {
      assert Shielded(rules, zoneId, rtype, Some(recordId), Read);
    }
  }

  lemma LargePageShowsAll<T>(records: seq<T>, perPage: int)
    requires perPage >= |records|
    ensures PaginateAndResultInfo(records, 1, perPage).0 == records
  {
  }
}
