/** What is issued resolves: a minted or rotated token, presented as it was returned. */
module TokenRoundTrip {
  import Traces
  import opened Text
  import opened Scope
  import opened TokenLayout
  import opened RulesCache
  import opened TokenLifecycle
  import opened TokenSafety
  import opened TokenTheorems

  /** A resolve that nothing interferes with, up to the cache. */
  function Presenting(rid: nat, full: string, clock: int, tokenId: string): seq<Action> {
    [Begin(rid, full), Do(rid, ReadRow(clock, Some(tokenId))), Do(rid, ReadCredential)]
  }

  /** The rules of a row version that no cache entry is kept for. */
  function Loading(rid: nat, fails: bool, stored: bool): seq<Action> {
    [Do(rid, ReadCache(fails)), Do(rid, SelectRules), Do(rid, WriteCache(stored))]
  }

  predicate Uncached(s: State, row: TokenRow) {
    RulesKey(row.lookupId, row.version) !in s.cache
  }

  predicate Present(s: State, full: string, clock: int, tokenId: string) {
    && tokenId in s.tokens
    && ParseScopedToken(full).Some? && ParseScopedToken(full).value.0 == s.tokens[tokenId].lookupId
    && Accepts(s.tokens[tokenId], full, clock) && s.tokens[tokenId].credentialId in s.credentials
  }

  lemma PresentingRuns(s: State, rid: nat, full: string, clock: int, tokenId: string)
    requires rid !in s.resolvers && Present(s, full, clock, tokenId)
    ensures Run(s, Presenting(rid, full, clock, tokenId))
      == Some(SetResolver(s, rid, CredentialRead(full, tokenId, s.tokens[tokenId])))
  {
    var row := s.tokens[tokenId];
    var s1 := SetResolver(s, rid, Started(full));
    var s2 := SetResolver(s, rid, RowRead(full, tokenId, row));
    Traces.RunNext(Step, s, [], Begin(rid, full));
    assert [] + [Begin(rid, full)] == [Begin(rid, full)];
    assert s1.resolvers[rid := RowRead(full, tokenId, row)] == s2.resolvers;
    var two := [Begin(rid, full), Do(rid, ReadRow(clock, Some(tokenId)))];
    Traces.RunNext(Step, s, [Begin(rid, full)], Do(rid, ReadRow(clock, Some(tokenId))));
    assert [Begin(rid, full)] + [Do(rid, ReadRow(clock, Some(tokenId)))] == two;
    Traces.RunNext(Step, s, two, Do(rid, ReadCredential));
    assert two + [Do(rid, ReadCredential)] == Presenting(rid, full, clock, tokenId);
    var last := CredentialRead(full, tokenId, row);
    assert s2.resolvers[rid := last] == s.resolvers[rid := last];
  }

  lemma LoadingRuns(s: State, rid: nat, full: string, tokenId: string, row: TokenRow, fails: bool, stored: bool)
    requires rid in s.resolvers && s.resolvers[rid] == CredentialRead(full, tokenId, row) && Uncached(s, row)
    ensures Run(s, Loading(rid, fails, stored)).Some?
    ensures var t := Run(s, Loading(rid, fails, stored)).value;
      rid in t.resolvers && t.resolvers[rid] == Resolved(full, tokenId, row.version, RulesOf(RowsOf(s.rules, tokenId)))
  {
    var rows := RowsOf(s.rules, tokenId);
    Traces.RunNext(Step, s, [], Do(rid, ReadCache(fails)));
    assert [] + [Do(rid, ReadCache(fails))] == [Do(rid, ReadCache(fails))];
    var two := [Do(rid, ReadCache(fails)), Do(rid, SelectRules)];
    Traces.RunNext(Step, s, [Do(rid, ReadCache(fails))], Do(rid, SelectRules));
    assert [Do(rid, ReadCache(fails))] + [Do(rid, SelectRules)] == two;
    Traces.RunNext(Step, s, two, Do(rid, WriteCache(stored)));
    assert two + [Do(rid, WriteCache(stored))] == Loading(rid, fails, stored);
  }

  /** Nothing is cached for a lookup id that was just issued. */
  lemma FreshUncached(s: State, lookupId: string, version: nat)
    requires CacheInv(s) && lookupId !in s.owner
    ensures RulesKey(lookupId, version) !in s.cache
  {
    var key := RulesKey(lookupId, version);
    if key in s.cache {
      var l: string, v: nat, w: nat :| EntryOk(s, key, l, v, w);
      RulesKeyInjective(l, v, lookupId, version);
    }
  }

  /** The operations that return a token string, and what they return it for. */
  predicate Issues(s: State, service: Service, tokenId: string, full: string) {
    match service
    case Mint(t, _, _, _, _, _, lookupId, secret) => t == tokenId && full == FullToken(s.brand, lookupId, secret)
    case Rotate(_, t, lookupId, secret) => t == tokenId && full == FullToken(s.brand, lookupId, secret)
    case _ => false
  }

  lemma IssuedRow(s: State, service: Service, tokenId: string, full: string)
    requires Inv(s) && ServeStep(s, service).Some? && Issues(s, service, tokenId, full) && '_' !in s.brand
    ensures var t := ServeStep(s, service).value;
      && tokenId in t.tokens && t.tokens[tokenId].tokenHash == Digest(full) && Uncached(t, t.tokens[tokenId])
      && ParseScopedToken(full).Some? && ParseScopedToken(full).value.0 == t.tokens[tokenId].lookupId
  {
    var t := ServeStep(s, service).value;
    ServeSummary(s, service);
    ParseGenerated(s.brand, service.lookupId, service.secret);
    FreshUncached(s, service.lookupId, t.tokens[tokenId].version);
  }

  /** A token resolves as it was issued. In any run, the string that mint or rotate returns
      resolves at once, whatever Redis does, to its row's stored rules, as long as the row is
      active, has not expired, and has its credential. */
  lemma IssuedTokenResolves(brand: string, credentials: map<string, string>, actions: seq<Action>, service: Service,
                            tokenId: string, full: string, rid: nat, clock: int, fails: bool, stored: bool)
    requires '_' !in brand && Run(Init(brand, credentials), actions).Some?
    requires var s := Run(Init(brand, credentials), actions).value;
      && rid !in s.resolvers
      && ServeStep(s, service).Some? && Issues(s, service, tokenId, full)
    requires var t := ServeStep(Run(Init(brand, credentials), actions).value, service).value;
      && tokenId in t.tokens && t.tokens[tokenId].status == Active && t.tokens[tokenId].credentialId in t.credentials
      && !(t.tokens[tokenId].expiresAt.Some? && t.tokens[tokenId].expiresAt.value < clock)
    ensures var t := ServeStep(Run(Init(brand, credentials), actions).value, service).value;
      && Run(t, Presenting(rid, full, clock, tokenId) + Loading(rid, fails, stored)).Some?
      && var u := Run(t, Presenting(rid, full, clock, tokenId) + Loading(rid, fails, stored)).value;
      && tokenId in t.rules && rid in u.resolvers
      && u.resolvers[rid] == Resolved(full, tokenId, t.tokens[tokenId].version, RulesOf(t.rules[tokenId]))
  {
    InitInv(brand, credentials);
    RunKeepsInv(Init(brand, credentials), actions);
    RunKeepsBrand(Init(brand, credentials), actions);
    var s := Run(Init(brand, credentials), actions).value;
    var t := ServeStep(s, service).value;
    IssuedRow(s, service, tokenId, full);
    ServeKeepsInv(s, service);
    ServeKeepsResolvers(s, service);
    PresentingRuns(t, rid, full, clock, tokenId);
    var mid := Run(t, Presenting(rid, full, clock, tokenId)).value;
    Traces.RunAppend(Step, t, Presenting(rid, full, clock, tokenId), Loading(rid, fails, stored));
    LoadingRuns(mid, rid, full, tokenId, t.tokens[tokenId], fails, stored);
  }

  /** A resolve that finds the rules in the cache. */
  function Hitting(rid: nat): seq<Action> {
    [Do(rid, ReadCache(false))]
  }

  lemma CachedAfterStoring(s: State, rid: nat, full: string, tokenId: string, row: TokenRow, fails: bool)
    requires rid in s.resolvers && s.resolvers[rid] == CredentialRead(full, tokenId, row) && Uncached(s, row)
    ensures Run(s, Loading(rid, fails, true)).Some?
    ensures var t := Run(s, Loading(rid, fails, true)).value; var key := RulesKey(row.lookupId, row.version);
      && t == s.(cache := t.cache, resolvers := t.resolvers)
      && key in t.cache && t.cache[key] == RulesToCache(RowsOf(s.rules, tokenId))
      && forall other | other in s.resolvers && other != rid ::
           other in t.resolvers && t.resolvers[other] == s.resolvers[other]
  {
    hide RulesKey, RulesToCache, RulesOf;
    Traces.RunNext(Step, s, [], Do(rid, ReadCache(fails)));
    assert [] + [Do(rid, ReadCache(fails))] == [Do(rid, ReadCache(fails))];
    var two := [Do(rid, ReadCache(fails)), Do(rid, SelectRules)];
    Traces.RunNext(Step, s, [Do(rid, ReadCache(fails))], Do(rid, SelectRules));
    assert [Do(rid, ReadCache(fails))] + [Do(rid, SelectRules)] == two;
    Traces.RunNext(Step, s, two, Do(rid, WriteCache(true)));
    assert two + [Do(rid, WriteCache(true))] == Loading(rid, fails, true);
  }

  lemma HittingRuns(s: State, rid: nat, full: string, tokenId: string, row: TokenRow, rows: seq<RuleRow>)
    requires rid in s.resolvers && s.resolvers[rid] == CredentialRead(full, tokenId, row)
    requires RulesKey(row.lookupId, row.version) in s.cache
    requires s.cache[RulesKey(row.lookupId, row.version)] == RulesToCache(rows)
    ensures Run(s, Hitting(rid)).Some? && rid in Run(s, Hitting(rid)).value.resolvers
    ensures Run(s, Hitting(rid)).value.resolvers[rid] == Resolved(full, tokenId, row.version, RulesOf(rows))
  {
    hide RulesKey, RulesToCache, RulesOf;
    CacheListRoundTrip(rows);
    Traces.RunNext(Step, s, [], Do(rid, ReadCache(false)));
    assert [] + [Do(rid, ReadCache(false))] == Hitting(rid);
  }

  /** The cache serves. When one resolve has loaded a token's rules and Redis has stored them, the
      next one is over at its cache read, with the same rules and without a SELECT. */
  lemma SecondResolveHits(s: State, rid: nat, full: string, tokenId: string, fails: bool, again: nat, clock: int)
    requires rid in s.resolvers && again !in s.resolvers && Present(s, full, clock, tokenId)
    requires s.resolvers[rid] == CredentialRead(full, tokenId, s.tokens[tokenId]) && Uncached(s, s.tokens[tokenId])
    ensures Run(s, Loading(rid, fails, true)).Some?
    ensures var t := Run(s, Loading(rid, fails, true)).value;
      && Run(t, Presenting(again, full, clock, tokenId) + Hitting(again)).Some?
      && var u := Run(t, Presenting(again, full, clock, tokenId) + Hitting(again)).value;
      && rid in t.resolvers && again in u.resolvers && u.resolvers[again].Resolved? && t.resolvers[rid].Resolved?
      && u.resolvers[again].rules == t.resolvers[rid].rules == RulesOf(RowsOf(s.rules, tokenId))
  {
    hide RulesKey, RulesToCache, RulesOf, ParseScopedToken, Step, Accepts;
    LoadingRuns(s, rid, full, tokenId, s.tokens[tokenId], fails, true);
    CachedAfterStoring(s, rid, full, tokenId, s.tokens[tokenId], fails);
    var t := Run(s, Loading(rid, fails, true)).value;
    LoadingKeepsAway(s, rid, fails, again);
    PresentingRuns(t, again, full, clock, tokenId);
    var mid := Run(t, Presenting(again, full, clock, tokenId)).value;
    Traces.RunAppend(Step, t, Presenting(again, full, clock, tokenId), Hitting(again));
    HittingRuns(mid, again, full, tokenId, s.tokens[tokenId], RowsOf(s.rules, tokenId));
  }

  lemma LoadingKeepsAway(s: State, rid: nat, fails: bool, other: nat)
    requires Run(s, Loading(rid, fails, true)).Some? && rid in s.resolvers && other !in s.resolvers
    ensures other !in Run(s, Loading(rid, fails, true)).value.resolvers
  {
    hide Step;
    var actions := Loading(rid, fails, true);
    AwayStep(s, rid, actions, other);
  }

  lemma {:induction false} AwayStep(s: State, rid: nat, actions: seq<Action>, other: nat)
    requires Run(s, actions).Some? && rid in s.resolvers && other !in s.resolvers
    requires forall i | 0 <= i < |actions| :: actions[i].Do? && actions[i].rid == rid
    ensures other !in Run(s, actions).value.resolvers
    decreases |actions|
  {
    hide Advance;
    if actions != [] {
      AdvanceSummary(s, rid, actions[0].move);
      AwayStep(Step(s, actions[0]).value, rid, actions[1..], other);
    }
  }

  /** Every row's hash is that of a string that the services issued. */
  ghost predicate HashesIssued(s: State) {
    forall t | t in s.tokens :: IssuedHash(s.brand, s.tokens[t].tokenHash)
  }

  ghost predicate IssuedHash(brand: string, hash: Digest) {
    exists lookupId, secret ::
      Drawn(lookupId, LOOKUP_ID_LEN) && Drawn(secret, SECRET_LEN) && hash == Digest(FullToken(brand, lookupId, secret))
  }

  predicate Unresolved(r: Resolver) {
    r.Started? || r.Rejected?
  }

  ghost predicate NoneResolves(s: State) {
    HashesIssued(s) && forall rid | rid in s.resolvers :: Unresolved(s.resolvers[rid])
  }

  /** The hash that a service operation leaves in a row: the one it was, or one newly issued. */
  lemma ServeHash(s: State, service: Service, t: string)
    requires HashesIssued(s) && ServeStep(s, service).Some? && t in ServeStep(s, service).value.tokens
    ensures IssuedHash(s.brand, ServeStep(s, service).value.tokens[t].tokenHash)
  {
    hide FullToken;
    match service
    case Mint(_, _, _, _, _, _, _, _) =>
    case Rotate(_, _, _, _) =>
    case Revoke(_, _) =>
    case DeleteCredential(_, _) =>
    case EditRules(_, _) =>
  }

  /** With an underscore in the brand, no string has an issued hash and parses. */
  lemma IssuedUnparsed(brand: string, full: string)
    requires '_' in brand && IssuedHash(brand, Digest(full))
    ensures ParseScopedToken(full) == None
  {
    hide ParseScopedToken, FullToken;
    var lookupId, secret :| Drawn(lookupId, LOOKUP_ID_LEN) && Drawn(secret, SECRET_LEN)
      && Digest(full) == Digest(FullToken(brand, lookupId, secret));
    ParseGenerated(brand, lookupId, secret);
  }

  lemma ReadRowRejects(s: State, rid: nat, full: string, clock: int, found: Option<string>)
    requires '_' in s.brand && HashesIssued(s) && ReadRowStep(s, rid, full, clock, found).Some?
    ensures ReadRowStep(s, rid, full, clock, found) == Some(SetResolver(s, rid, Rejected(full)))
  {
    hide ParseScopedToken, IssuedHash;
    if found.Some? && found.value in s.tokens && s.tokens[found.value].tokenHash == Digest(full) {
      IssuedUnparsed(s.brand, full);
    }
  }

  lemma StepKeepsUnresolved(s: State, a: Action)
    requires '_' in s.brand && NoneResolves(s) && Step(s, a).Some?
    ensures NoneResolves(Step(s, a).value)
  {
    hide IssuedHash, ParseScopedToken;
    var t := Step(s, a).value;
    StepKeepsBrand(s, a);
    match a
    case Serve(service) =>
      ServeKeepsResolvers(s, service);
      forall x | x in t.tokens ensures IssuedHash(t.brand, t.tokens[x].tokenHash) {
        ServeHash(s, service, x);
      }
    case CacheLose(_) =>
    case Begin(_, _) =>
    case Do(rid, move) =>
      AdvanceSummary(s, rid, move);
      RejectedStays(s, rid, move);
      ReadRowRejects(s, rid, s.resolvers[rid].full, move.now, move.found);
  }

  lemma {:induction false} RunKeepsUnresolved(s: State, actions: seq<Action>)
    requires '_' in s.brand && NoneResolves(s) && Run(s, actions).Some?
    ensures NoneResolves(Run(s, actions).value)
    decreases |actions|
  {
    hide Step, NoneResolves;
    if actions != [] {
      StepKeepsUnresolved(s, actions[0]);
      StepKeepsBrand(s, actions[0]);
      RunKeepsUnresolved(Step(s, actions[0]).value, actions[1..]);
    }
  }

  /** With an underscore in the brand no token ever resolves: in every run every resolve, of any
      string, is waiting for its row or rejected. */
  lemma UnderscoreNeverResolves(brand: string, credentials: map<string, string>, actions: seq<Action>, rid: nat)
    requires '_' in brand && Run(Init(brand, credentials), actions).Some?
    requires rid in Run(Init(brand, credentials), actions).value.resolvers
    ensures var r := Run(Init(brand, credentials), actions).value.resolvers[rid]; r.Started? || r.Rejected?
  {
    RunKeepsUnresolved(Init(brand, credentials), actions);
  }
}
