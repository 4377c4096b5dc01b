/** What holds of the token lifecycle in every run: no resolve returns rules older than the
    version it read, and nothing revives a dead token. */
module TokenSafety {
  import opened Text
  import opened Scope
  import opened TokenLayout
  import opened RulesCache
  import opened TokenLifecycle

  /** Every row's lookup id was issued for that row, so no two rows share one. */
  ghost predicate OwnerInv(s: State) {
    && (forall t | t in s.tokens :: s.tokens[t].lookupId in s.owner && s.owner[s.tokens[t].lookupId] == t)
    && (forall l | l in s.owner :: s.owner[l] in s.tokens)
  }

  ghost predicate HistoryInv(s: State) {
    && s.tokens.Keys == s.rules.Keys == s.history.Keys
    && (forall t | t in s.tokens ::
          s.tokens[t].version in s.history[t] && s.history[t][s.tokens[t].version] == s.rules[t])
    && (forall t, v | t in s.tokens && v in s.history[t] :: v <= s.tokens[t].version)
  }

  /** The cache entry holds the rules of version `w` of its row, under a version `v` not later. */
  ghost predicate EntryOk(s: State, key: string, l: string, v: nat, w: nat) {
    && key in s.cache && key == RulesKey(l, v) && v <= w
    && l in s.owner && s.owner[l] in s.history && w in s.history[s.owner[l]]
    && s.cache[key] == RulesToCache(s.history[s.owner[l]][w])
  }

  ghost predicate CacheInv(s: State) {
    forall key | key in s.cache :: exists l: string, v: nat, w: nat :: EntryOk(s, key, l, v, w)
  }

  /** The row that a resolve has read: an earlier or the current state of the row that the
      presented token was issued for. */
  ghost predicate ReadOk(s: State, full: string, tokenId: string, row: TokenRow) {
    && ParseScopedToken(full).Some? && ParseScopedToken(full).value.0 == row.lookupId
    && row.lookupId in s.owner && s.owner[row.lookupId] == tokenId
    && tokenId in s.tokens && row.version <= s.tokens[tokenId].version
  }

  ghost predicate HasVersion(s: State, tokenId: string, w: nat) {
    tokenId in s.history && w in s.history[tokenId]
  }

  ghost predicate RowsSince(s: State, tokenId: string, version: nat, rows: seq<RuleRow>) {
    exists w: nat :: HasVersion(s, tokenId, w) && version <= w && rows == s.history[tokenId][w]
  }

  ghost predicate RulesSince(s: State, tokenId: string, version: nat, rules: seq<Rule>) {
    exists w: nat :: HasVersion(s, tokenId, w) && version <= w && rules == RulesOf(s.history[tokenId][w])
  }

  ghost predicate ResolverOk(s: State, r: Resolver) {
    match r
    case Started(_) => true
    case Rejected(_) => true
    case RowRead(full, t, row) => ReadOk(s, full, t, row)
    case CredentialRead(full, t, row) => ReadOk(s, full, t, row)
    case Missed(full, t, row) => ReadOk(s, full, t, row)
    case Selected(full, t, row, rows) => ReadOk(s, full, t, row) && RowsSince(s, t, row.version, rows)
    case Resolved(full, t, version, rules) =>
      && ParseScopedToken(full).Some? && ParseScopedToken(full).value.0 in s.owner
      && s.owner[ParseScopedToken(full).value.0] == t
      && RulesSince(s, t, version, rules)
  }

  ghost predicate ResolverInv(s: State) {
    forall rid | rid in s.resolvers :: ResolverOk(s, s.resolvers[rid])
  }

  ghost predicate Inv(s: State) {
    OwnerInv(s) && HistoryInv(s) && CacheInv(s) && ResolverInv(s)
  }

  /** What only ever grows. */
  ghost predicate Grows(s: State, t: State) {
    && (forall l | l in s.owner :: l in t.owner && t.owner[l] == s.owner[l])
    && (forall x | x in s.tokens :: x in t.tokens && s.tokens[x].version <= t.tokens[x].version)
    && (forall x | x in s.history :: x in t.history)
    && (forall x, v | x in s.history && v in s.history[x] :: v in t.history[x] && t.history[x][v] == s.history[x][v])
  }

  lemma ResolverKept(s: State, t: State, r: Resolver)
    requires Grows(s, t) && ResolverOk(s, r)
    ensures ResolverOk(t, r)
  {
    match r
    case Selected(_, x, row, rows) =>
      var w: nat :| HasVersion(s, x, w) && row.version <= w && rows == s.history[x][w];
      assert HasVersion(t, x, w);
    case Resolved(_, x, version, rules) =>
      var w: nat :| HasVersion(s, x, w) && version <= w && rules == RulesOf(s.history[x][w]);
      assert HasVersion(t, x, w);
    case _ =>
  }

  lemma EntryKept(s: State, t: State, key: string)
    requires Grows(s, t) && CacheInv(s)
    requires key in s.cache && key in t.cache && t.cache[key] == s.cache[key]
    ensures exists l: string, v: nat, w: nat :: EntryOk(t, key, l, v, w)
  {
    var l: string, v: nat, w: nat :| EntryOk(s, key, l, v, w);
    assert EntryOk(t, key, l, v, w);
  }

  /** What one service operation does to one row: nothing, or a new version of it. */
  ghost predicate RowStep(s: State, t: State, x: string)
    requires x in s.tokens && x in t.tokens && x in s.rules && x in t.rules
  {
    || (t.tokens[x] == s.tokens[x] && t.rules[x] == s.rules[x])
    || t.tokens[x].version == s.tokens[x].version + 1
  }

  ghost predicate Served(s: State, t: State) {
    && t.cache == s.cache && t.resolvers == s.resolvers
    && t.history == Noted(t.tokens, t.rules, s.history)
    && (forall l | l in s.owner :: l in t.owner && t.owner[l] == s.owner[l])
    && s.tokens.Keys <= t.tokens.Keys && t.tokens.Keys == t.rules.Keys
    && (forall x | x in s.tokens :: x in s.rules && RowStep(s, t, x))
    && (forall x | x in t.tokens && x !in s.tokens :: t.tokens[x].version == 1)
  }

  lemma MintSummary(s: State, service: Service)
    requires HistoryInv(s) && service.Mint? && ServeStep(s, service).Some?
    ensures Served(s, ServeStep(s, service).value)
  {
  }

  lemma RotateSummary(s: State, service: Service)
    requires HistoryInv(s) && service.Rotate? && ServeStep(s, service).Some?
    ensures Served(s, ServeStep(s, service).value)
  {
  }

  lemma RevokeSummary(s: State, service: Service)
    requires HistoryInv(s) && service.Revoke? && ServeStep(s, service).Some?
    ensures Served(s, ServeStep(s, service).value)
  {
  }

  lemma DeleteSummary(s: State, service: Service)
    requires HistoryInv(s) && service.DeleteCredential? && ServeStep(s, service).Some?
    ensures Served(s, ServeStep(s, service).value)
  {
  }

  lemma EditSummary(s: State, service: Service)
    requires HistoryInv(s) && service.EditRules? && ServeStep(s, service).Some?
    ensures Served(s, ServeStep(s, service).value)
  {
  }

  lemma ServeSummary(s: State, service: Service)
    requires HistoryInv(s) && ServeStep(s, service).Some?
    ensures Served(s, ServeStep(s, service).value)
  {
    match service
    case Mint(_, _, _, _, _, _, _, _) => MintSummary(s, service);
    case Rotate(_, _, _, _) => RotateSummary(s, service);
    case Revoke(_, _) => RevokeSummary(s, service);
    case DeleteCredential(_, _) => DeleteSummary(s, service);
    case EditRules(_, _) => EditSummary(s, service);
  }

  lemma ServeOwner(s: State, service: Service)
    requires OwnerInv(s) && ServeStep(s, service).Some?
    ensures OwnerInv(ServeStep(s, service).value)
  {
    match service
    case Mint(_, _, _, _, _, _, _, _) =>
    case Rotate(_, _, _, _) =>
    case Revoke(_, _) =>
    case DeleteCredential(_, _) =>
    case EditRules(_, _) =>
  }

  lemma NotedAt(tokens: map<string, TokenRow>, rules: map<string, seq<RuleRow>>,
                history: map<string, map<nat, seq<RuleRow>>>, x: string)
    requires x in tokens && x in rules
    ensures x in Noted(tokens, rules, history)
    ensures Noted(tokens, rules, history)[x]
      == (if x in history then history[x] else map[])[tokens[x].version := rules[x]]
  {
  }

  /** One row's history after one service operation. */
  ghost predicate RowHistory(s: State, t: State, x: string)
    requires x in t.tokens && x in t.rules && x in t.history
  {
    && t.tokens[x].version in t.history[x] && t.history[x][t.tokens[x].version] == t.rules[x]
    && (forall v | v in t.history[x] :: v <= t.tokens[x].version)
    && (x in s.tokens && x in s.history ==>
          s.tokens[x].version <= t.tokens[x].version
          && forall v | v in s.history[x] :: v in t.history[x] && t.history[x][v] == s.history[x][v])
  }

  lemma ServedRow(s: State, t: State, x: string)
    requires HistoryInv(s) && Served(s, t) && x in t.tokens
    ensures x in t.history && RowHistory(s, t, x)
  {
    NotedAt(t.tokens, t.rules, s.history, x);
    if x in s.tokens {
      assert RowStep(s, t, x);
      assert t.history[x] == s.history[x][t.tokens[x].version := t.rules[x]];
      assert s.tokens[x].version in s.history[x] && s.history[x][s.tokens[x].version] == s.rules[x];
    } else {
      assert x !in s.history;
    }
  }

  lemma ServedHistory(s: State, t: State)
    requires HistoryInv(s) && Served(s, t)
    ensures HistoryInv(t) && Grows(s, t)
  {
    forall x | x in t.tokens ensures x in t.history && RowHistory(s, t, x) {
      ServedRow(s, t, x);
    }
    assert t.history.Keys == t.tokens.Keys;
  }

  lemma ServeKeepsInv(s: State, service: Service)
    requires Inv(s) && ServeStep(s, service).Some?
    ensures Inv(ServeStep(s, service).value) && Grows(s, ServeStep(s, service).value)
  {
    var t := ServeStep(s, service).value;
    ServeSummary(s, service);
    ServeOwner(s, service);
    ServedHistory(s, t);
    forall key | key in t.cache ensures exists l: string, v: nat, w: nat :: EntryOk(t, key, l, v, w) {
      EntryKept(s, t, key);
    }
    forall rid | rid in t.resolvers ensures ResolverOk(t, t.resolvers[rid]) {
      ResolverKept(s, t, s.resolvers[rid]);
    }
  }

  /** A step of a resolve leaves the database alone and moves one resolver. */
  ghost predicate Resolving(s: State, rid: nat, t: State) {
    && t == s.(resolvers := t.resolvers, cache := t.cache)
    && rid in s.resolvers && rid in t.resolvers && t.resolvers == s.resolvers[rid := t.resolvers[rid]]
  }

  /** The resolver that moved presents the same string. */
  ghost predicate SameFull(s: State, rid: nat, t: State) {
    rid in s.resolvers && rid in t.resolvers && t.resolvers[rid].full == s.resolvers[rid].full
  }

  lemma SetMoves(s: State, rid: nat, r: Resolver)
    requires rid in s.resolvers && r.full == s.resolvers[rid].full
    ensures var t := SetResolver(s, rid, r); Resolving(s, rid, t) && SameFull(s, rid, t) && t.cache == s.cache
  {
  }

  lemma ReadRowSets(s: State, rid: nat, full: string, now: int, found: Option<string>) returns (r: Resolver)
    requires ReadRowStep(s, rid, full, now, found).Some?
    ensures r.full == full && ReadRowStep(s, rid, full, now, found) == Some(SetResolver(s, rid, r))
  {
    hide ParseScopedToken, Accepts, SetResolver;
    r := Rejected(full);
    if ReadRowStep(s, rid, full, now, found) != Some(SetResolver(s, rid, r)) {
      r := RowRead(full, found.value, s.tokens[found.value]);
    }
  }

  lemma AdvanceReadRow(s: State, rid: nat, move: Move)
    requires rid in s.resolvers && Advance(s, rid, move).Some? && move.ReadRow?
    ensures var t := Advance(s, rid, move).value; Resolving(s, rid, t) && SameFull(s, rid, t) && t.cache == s.cache
  {
    hide SetResolver, ReadRowStep, ReadCacheStep, Resolving, SameFull, RulesKey, RulesToCache, RulesOf;
    var r := ReadRowSets(s, rid, s.resolvers[rid].full, move.now, move.found);
    SetMoves(s, rid, r);
  }

  lemma AdvanceReadCache(s: State, rid: nat, move: Move)
    requires rid in s.resolvers && Advance(s, rid, move).Some? && move.ReadCache?
    ensures var t := Advance(s, rid, move).value; Resolving(s, rid, t) && SameFull(s, rid, t) && t.cache == s.cache
  {
    hide RulesKey, RulesToCache, CacheToRules, RulesOf, ReadRowStep, Resolving, SameFull, SetResolver;
    var r := ReadCacheSets(s, rid, s.resolvers[rid], move.fails);
    SetMoves(s, rid, r);
  }

  lemma ReadCacheSets(s: State, rid: nat, p: Resolver, fails: bool) returns (r: Resolver)
    requires p.CredentialRead?
    ensures r.full == p.full && ReadCacheStep(s, rid, p.full, p.tokenId, p.row, fails) == SetResolver(s, rid, r)
  {
    hide RulesKey, CacheToRules, SetResolver;
    var key := RulesKey(p.row.lookupId, p.row.version);
    r := if fails || key !in s.cache then Missed(p.full, p.tokenId, p.row)
         else match CacheToRules(s.cache[key])
              case None => Rejected(p.full)
              case Some(rules) => Resolved(p.full, p.tokenId, p.row.version, rules);
  }

  lemma AdvanceOther(s: State, rid: nat, move: Move)
    requires rid in s.resolvers && Advance(s, rid, move).Some? && !move.ReadRow? && !move.ReadCache?
    ensures var t := Advance(s, rid, move).value; Resolving(s, rid, t) && SameFull(s, rid, t)
    ensures !move.WriteCache? ==> Advance(s, rid, move).value.cache == s.cache
  {
    hide RulesKey, RulesToCache, CacheToRules, RulesOf, ReadRowStep, ReadCacheStep;
  }

  lemma AdvanceSummary(s: State, rid: nat, move: Move)
    requires rid in s.resolvers && Advance(s, rid, move).Some?
    ensures Resolving(s, rid, Advance(s, rid, move).value)
    ensures SameFull(s, rid, Advance(s, rid, move).value)
    ensures !move.WriteCache? ==> Advance(s, rid, move).value.cache == s.cache
  {
    hide Advance, Resolving, SameFull;
    if move.ReadRow? {
      AdvanceReadRow(s, rid, move);
    } else if move.ReadCache? {
      AdvanceReadCache(s, rid, move);
    } else {
      AdvanceOther(s, rid, move);
    }
  }

  lemma ReadRowOk(s: State, rid: nat, full: string, now: int, found: Option<string>)
    requires OwnerInv(s) && ReadRowStep(s, rid, full, now, found).Some?
    ensures var t := ReadRowStep(s, rid, full, now, found).value;
      rid in t.resolvers && ResolverOk(s, t.resolvers[rid])
  {
    hide ParseScopedToken, Accepts, RowsSince, RulesSince;
  }

  /** A cache hit returns the rules of some version not older than the one read. */
  lemma ReadCacheOk(s: State, rid: nat, full: string, tokenId: string, row: TokenRow, fails: bool)
    requires CacheInv(s) && ReadOk(s, full, tokenId, row)
    ensures var t := ReadCacheStep(s, rid, full, tokenId, row, fails);
      rid in t.resolvers && ResolverOk(s, t.resolvers[rid])
  {
    var key := RulesKey(row.lookupId, row.version);
    if !fails && key in s.cache {
      var l: string, v: nat, w: nat :| EntryOk(s, key, l, v, w);
      RulesKeyInjective(l, v, row.lookupId, row.version);
      CacheListRoundTrip(s.history[tokenId][w]);
      assert HasVersion(s, tokenId, w);
    }
  }

  lemma SelectOk(s: State, full: string, tokenId: string, row: TokenRow)
    requires HistoryInv(s) && ReadOk(s, full, tokenId, row)
    ensures RowsSince(s, tokenId, row.version, s.rules[tokenId])
  {
    assert HasVersion(s, tokenId, s.tokens[tokenId].version);
  }

  lemma WriteOk(s: State, t: State, full: string, tokenId: string, row: TokenRow, rows: seq<RuleRow>)
    requires CacheInv(s) && ReadOk(s, full, tokenId, row) && RowsSince(s, tokenId, row.version, rows)
    requires t == s.(resolvers := t.resolvers, cache := t.cache)
    requires t.cache == s.cache || t.cache == s.cache[RulesKey(row.lookupId, row.version) := RulesToCache(rows)]
    ensures CacheInv(t)
    ensures RulesSince(s, tokenId, row.version, RulesOf(rows))
  {
    var w: nat :| HasVersion(s, tokenId, w) && row.version <= w && rows == s.history[tokenId][w];
    var written := RulesKey(row.lookupId, row.version);
    forall key | key in t.cache ensures exists l: string, v: nat, w: nat :: EntryOk(t, key, l, v, w) {
      if t.cache != s.cache && key == written {
        assert EntryOk(t, key, row.lookupId, row.version, w);
      } else {
        EntryKept(s, t, key);
      }
    }
  }

  lemma AdvanceOk(s: State, rid: nat, move: Move)
    requires Inv(s) && rid in s.resolvers && Advance(s, rid, move).Some?
    ensures var t := Advance(s, rid, move).value;
      rid in t.resolvers && ResolverOk(s, t.resolvers[rid]) && CacheInv(t)
  {
    var r, t := s.resolvers[rid], Advance(s, rid, move).value;
    assert ResolverOk(s, r);
    AdvanceSummary(s, rid, move);
    match move
    case ReadRow(now, found) => ReadRowOk(s, rid, r.full, now, found); SameCache(s, t);
    case ReadCredential => SameCache(s, t);
    case ReadCache(fails) => ReadCacheOk(s, rid, r.full, r.tokenId, r.row, fails); SameCache(s, t);
    case SelectRules => SelectOk(s, r.full, r.tokenId, r.row); SameCache(s, t);
    case WriteCache(_) => WriteOk(s, t, r.full, r.tokenId, r.row, r.rows);
  }

  lemma SameCache(s: State, t: State)
    requires CacheInv(s) && t == s.(resolvers := t.resolvers)
    ensures CacheInv(t)
  {
    forall key | key in t.cache ensures exists l: string, v: nat, w: nat :: EntryOk(t, key, l, v, w) {
      EntryKept(s, t, key);
    }
  }

  lemma StepKeepsInv(s: State, a: Action)
    requires Inv(s) && Step(s, a).Some?
    ensures Inv(Step(s, a).value) && Grows(s, Step(s, a).value)
  {
    var t := Step(s, a).value;
    match a
    case Serve(service) => ServeKeepsInv(s, service);
    case CacheLose(_) => LosingCache(s, t); KeptResolvers(s, t);
    case Begin(_, _) => SameCache(s, t); KeptResolvers(s, t);
    case Do(rid, move) =>
      AdvanceSummary(s, rid, move);
      AdvanceOk(s, rid, move);
      KeptResolvers(s, t);
  }

  lemma LosingCache(s: State, t: State)
    requires CacheInv(s) && t == s.(cache := t.cache)
    requires forall key | key in t.cache :: key in s.cache && t.cache[key] == s.cache[key]
    ensures CacheInv(t)
  {
    hide EntryOk;
    forall key | key in t.cache ensures exists l: string, v: nat, w: nat :: EntryOk(t, key, l, v, w) {
      EntryKept(s, t, key);
    }
  }

  lemma KeptResolvers(s: State, t: State)
    requires ResolverInv(s) && t == s.(resolvers := t.resolvers, cache := t.cache)
    requires forall rid | rid in t.resolvers && !(rid in s.resolvers && t.resolvers[rid] == s.resolvers[rid]) ::
      ResolverOk(s, t.resolvers[rid])
    ensures ResolverInv(t) && Grows(s, t)
  {
    forall rid | rid in t.resolvers ensures ResolverOk(t, t.resolvers[rid]) {
      ResolverKept(s, t, t.resolvers[rid]);
    }
  }

  lemma {:induction false} RunKeepsInv(s: State, actions: seq<Action>)
    requires Inv(s) && Run(s, actions).Some?
    ensures Inv(Run(s, actions).value) && Grows(s, Run(s, actions).value)
    decreases |actions|
  {
    hide Step;
    if actions != [] {
      StepKeepsInv(s, actions[0]);
      RunKeepsInv(Step(s, actions[0]).value, actions[1..]);
    }
  }
}
