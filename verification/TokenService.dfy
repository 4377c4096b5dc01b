/** The management services and the token resolver as code over the tables and the cache. What
    the code does is a run of the lifecycle machine. */
module TokenService {
  import Traces
  import opened Text
  import opened Scope
  import opened TokenLayout
  import opened RulesCache
  import opened TokenLifecycle
  import opened TokenSafety
  import opened TokenTheorems
  import opened TokenRows
  import Minting

  /** A rule as a client asks for it, with the id its row will have. */
  datatype Candidate = Candidate(id: string, rule: Rule, contentLock: Option<string>)

  function RulesIn(candidates: seq<Candidate>): seq<Rule> {
    seq(|candidates|, i requires 0 <= i < |candidates| => candidates[i].rule)
  }

  function RowsIn(tokenId: string, candidates: seq<Candidate>): seq<RuleRow> {
    seq(|candidates|, i requires 0 <= i < |candidates| =>
      RuleRow(candidates[i].id, tokenId, candidates[i].rule, candidates[i].contentLock))
  }

  lemma RunTwo(s: State, a: Action, b: Action)
    requires Step(s, a).Some?
    ensures Run(s, [a, b]) == Step(Step(s, a).value, b)
  {
    Traces.RunNext(Step, s, [], a);
    assert [] + [a] == [a];
    Traces.RunNext(Step, s, [a], b);
    assert [a] + [b] == [a, b];
  }

  /** Every row is as the operation leaves it, column by column, and there are no others. */
  ghost predicate RowsChange(s: State, service: Service, tokens: map<string, TokenRow>) {
    && tokens.Keys == s.tokens.Keys
    && forall x | x in tokens :: RowChanges(s, service, x, s.tokens[x], tokens[x])
  }

  lemma ServedRows(s: State, service: Service, tokens: map<string, TokenRow>)
    requires ServeStep(s, service).Some? && ServeStep(s, service).value.tokens == tokens && !service.Mint?
    ensures RowsChange(s, service, tokens)
  {
    hide ServeStep;
    forall x ensures x in tokens <==> x in s.tokens {
      ServeChanges(s, service, x);
    }
    forall x | x in tokens ensures RowChanges(s, service, x, s.tokens[x], tokens[x]) {
      ServeChanges(s, service, x);
    }
  }

  /** The steps of others leave a resolve where it is. */
  predicate Others(rid: nat, a: Action) {
    match a
    case Begin(other, _) => other != rid
    case Do(other, _) => other != rid
    case _ => true
  }

  lemma OthersKeepResolver(s: State, rid: nat, a: Action)
    requires rid in s.resolvers && Others(rid, a) && Step(s, a).Some?
    ensures var t := Step(s, a).value; rid in t.resolvers && t.resolvers[rid] == s.resolvers[rid]
  {
    match a
    case Serve(service) => ServeKeepsResolvers(s, service);
    case CacheLose(_) =>
    case Begin(_, _) =>
    case Do(other, move) => AdvanceSummary(s, other, move);
  }

  /** What the outside world does to one resolve: the clock reading, and Redis. */
  datatype Fate = Fate(clock: int, cacheFails: bool, cacheStores: bool)

  /** What a resolve returns: the token's row id and version, and its rules. */
  datatype Context = Context(tokenId: string, version: nat, rules: seq<Rule>)

  /** The resolve's own move is the one that its fate calls for. */
  predicate Justified(move: Move, fate: Fate) {
    match move
    case ReadRow(now, _) => now == fate.clock
    case ReadCache(fails) => fails == fate.cacheFails
    case WriteCache(stored) => stored == fate.cacheStores
    case _ => true
  }

  predicate Allows(rid: nat, fate: Fate, a: Action) {
    a.Do? && a.rid == rid ==> Justified(a.move, fate)
  }

  /** A run from `s` to `t` in which every move of resolve `rid` is justified. */
  ghost predicate Executed(s: State, trace: seq<Action>, rid: nat, fate: Fate, t: State) {
    Traces.Executed(Step, Permits(rid, fate), s, trace, t)
  }

  function Permits(rid: nat, fate: Fate): (State, Action) -> bool {
    (s: State, a: Action) => Allows(rid, fate, a)
  }

  /** How a resolve ends. */
  function Ended(full: string, context: Option<Context>): Resolver {
    match context
    case None => Rejected(full)
    case Some(c) => Resolved(full, c.tokenId, c.version, c.rules)
  }

  /** The tables and the cache, with the code that works on them. */
  class Store {
    const brand: string
    var tokens: map<string, TokenRow>
    var rules: map<string, seq<RuleRow>>
    var credentials: map<string, string>
    var cache: map<string, seq<RuleDict>>
    var resolvers: map<nat, Resolver>
    var owner: map<string, string>
    var history: map<string, map<nat, seq<RuleRow>>>

    constructor (brand: string, credentials: map<string, string>)
      ensures this.brand == brand && View() == Init(brand, credentials)
    {
      this.brand, this.credentials := brand, credentials;
      tokens, rules, cache, resolvers, owner, history := map[], map[], map[], map[], map[], map[];
    }

    function View(): State
      reads this
    {
      State(brand, tokens, rules, credentials, cache, resolvers, owner, history)
    }

    /** The commit: the rows are visible to others from here on. */
    method Commit()
      modifies this`history
      ensures history == Noted(tokens, rules, old(history))
    {
      history := Noted(tokens, rules, history);
    }

    /** `cache_del`, whose errors are swallowed. */
    method CacheDel(key: string, redisUp: bool) returns (ghost lost: set<string>)
      modifies this`cache
      ensures lost == (if redisUp then {key} else {})
      ensures cache == old(cache) - lost
    {
      lost := {};
      if redisUp {
        cache := cache - {key};
        lost := {key};
      }
    }

    /** `mint_scoped_token`. The row id, the lookup id and the secret are drawn fresh. */
    method MintScopedToken(tokenId: string, userId: string, credentialId: string, expiresAt: Option<int>,
                           candidates: seq<Candidate>, zoneNames: map<string, string>, lookupId: string, secret: string)
      returns (full: Option<string>)
      requires tokenId !in tokens && FreshlyDrawn(View(), lookupId, secret)
      modifies this
      ensures full.Some? <==>
        && credentialId in old(credentials) && old(credentials)[credentialId] == userId
        && candidates != [] && forall i | 0 <= i < |candidates| :: Minting.RuleValid(candidates[i].rule, zoneNames)
      ensures full.Some? ==>
        && full.value == brand + "_" + lookupId + "_" + secret
        && tokens == old(tokens)[tokenId := TokenRow(userId, credentialId, lookupId, Digest(full.value), 1, Active,
                                                     expiresAt)]
        && Step(old(View()), Serve(Mint(tokenId, userId, credentialId, expiresAt, RowsIn(tokenId, candidates),
                                        true, lookupId, secret))) == Some(View())
      ensures full.None? ==> View() == old(View())
    {
      hide Minting.RuleValid;
      if credentialId !in credentials || credentials[credentialId] != userId {
        return None;
      }
      var wanted := RulesIn(candidates);
      var valid, requests := Minting.ValidateScopeRules(wanted, zoneNames);
      assert forall i | 0 <= i < |candidates| :: wanted[i] == candidates[i].rule;
      if !valid {
        return None;
      }
      var generated := FullToken(brand, lookupId, secret);
      tokens := tokens[tokenId := TokenRow(userId, credentialId, lookupId, Digest(generated), 1, Active, expiresAt)];
      var rows: seq<RuleRow> := [];
      for i := 0 to |candidates|
        invariant rows == RowsIn(tokenId, candidates)[..i]
      {
        rows := rows + [RuleRow(candidates[i].id, tokenId, candidates[i].rule, candidates[i].contentLock)];
      }
      assert rows == RowsIn(tokenId, candidates);
      rules := rules[tokenId := rows];
      owner := owner[lookupId := tokenId];
      Commit();
      return Some(generated);
    }

    /** `rotate_scoped_token`: a new lookup id and secret, a new version, and then the cached
        rules of the old ones deleted. */
    method RotateScopedToken(userId: string, tokenId: string, lookupId: string, secret: string, redisUp: bool)
      returns (full: Option<string>, ghost lost: set<string>)
      requires FreshlyDrawn(View(), lookupId, secret)
      modifies this
      ensures full.Some? <==> tokenId in old(tokens) && old(tokens)[tokenId].userId == userId
      ensures full.Some? ==>
        && full.value == brand + "_" + lookupId + "_" + secret
        && RowsChange(old(View()), TokenLifecycle.Rotate(userId, tokenId, lookupId, secret), tokens)
        && Run(old(View()), [Serve(Rotate(userId, tokenId, lookupId, secret)), CacheLose(lost)]) == Some(View())
        && var was := old(tokens)[tokenId];
        && lost == (if redisUp then {RulesKey(was.lookupId, was.version)} else {})
      ensures full.None? ==> View() == old(View())
    {
      if tokenId !in tokens || tokens[tokenId].userId != userId {
        return None, {};
      }
      var oldLookupId, oldVersion := tokens[tokenId].lookupId, tokens[tokenId].version;
      var generated := FullToken(brand, lookupId, secret);
      var row := tokens[tokenId];
      row := row.(lookupId := lookupId);
      row := row.(tokenHash := Digest(generated));
      row := row.(version := oldVersion + 1);
      tokens := tokens[tokenId := row];
      owner := owner[lookupId := tokenId];
      Commit();
      ghost var served := Serve(Rotate(userId, tokenId, lookupId, secret));
      assert Step(old(View()), served) == Some(View());
      ServedRows(old(View()), served.service, tokens);
      lost := CacheDel(RulesKey(oldLookupId, oldVersion), redisUp);
      RunTwo(old(View()), served, CacheLose(lost));
      full := Some(generated);
    }

    /** `revoke_scoped_token`. */
    method RevokeScopedToken(userId: string, tokenId: string, redisUp: bool) returns (found: bool,
                             ghost lost: set<string>)
      modifies this
      ensures found <==> tokenId in old(tokens) && old(tokens)[tokenId].userId == userId
      ensures found ==>
        && RowsChange(old(View()), TokenLifecycle.Revoke(userId, tokenId), tokens)
        && Run(old(View()), [Serve(Revoke(userId, tokenId)), CacheLose(lost)]) == Some(View())
        && var was := old(tokens)[tokenId];
        && lost == (if redisUp then {RulesKey(was.lookupId, was.version)} else {})
      ensures !found ==> View() == old(View())
    {
      if tokenId !in tokens || tokens[tokenId].userId != userId {
        return false, {};
      }
      var row := tokens[tokenId];
      var oldVersion := row.version;
      row := row.(status := Revoked);
      row := row.(version := oldVersion + 1);
      tokens := tokens[tokenId := row];
      Commit();
      ghost var served := Serve(Revoke(userId, tokenId));
      assert Step(old(View()), served) == Some(View());
      ServedRows(old(View()), served.service, tokens);
      lost := CacheDel(RulesKey(row.lookupId, oldVersion), redisUp);
      RunTwo(old(View()), served, CacheLose(lost));
      found := true;
    }

    /** Revokes one row in the open transaction, and deletes its cached rules. */
    method RevokeRowAt(t: string, redisUp: bool) returns (ghost lost: set<string>)
      requires t in tokens
      modifies this`tokens, this`cache
      ensures tokens == old(tokens)[t := RevokeRow(old(tokens)[t])]
      ensures lost == (if redisUp then {KeyOf(old(tokens)[t])} else {})
      ensures cache == old(cache) - lost
    {
      var row := tokens[t];
      var oldLookupId, oldVersion := row.lookupId, row.version;
      row := row.(status := Revoked);
      row := row.(version := oldVersion + 1);
      tokens := tokens[t := row];
      lost := CacheDel(RulesKey(oldLookupId, oldVersion), redisUp);
    }

    /** The loop over the active tokens of a credential, in whatever order they come. */
    method RevokeDependents(credentialId: string, redisUp: bool) returns (ghost lost: set<string>)
      modifies this`tokens, this`cache
      ensures tokens == CascadeRows(old(tokens), credentialId)
      ensures cache == old(cache) - lost
      ensures redisUp ==> KeysLost(old(tokens), credentialId, {}, lost)
    {
      var pending := set t | t in tokens && Dependent(tokens[t], credentialId);
      lost := {};
      ghost var was, cached := tokens, cache;
      while pending != {}
        invariant forall t | t in pending :: t in was && Dependent(was[t], credentialId)
        invariant tokens == Partly(was, credentialId, pending)
        invariant cache == cached - lost
        invariant redisUp ==> KeysLost(was, credentialId, pending, lost)
        decreases |pending|
      {
        var t :| t in pending;
        PartlyNext(was, credentialId, pending, t);
        ghost var gone := RevokeRowAt(t, redisUp);
        MinusTwice(cached, lost, gone);
        if redisUp {
          KeysLostNext(was, credentialId, pending, lost, t);
        }
        lost := lost + gone;
        pending := pending - {t};
      }
    }

    /** `delete_credential`: every active token on the credential is revoked and its cached rules
        are deleted; then the credential goes, in one transaction with the revocations. */
    method DeleteCredential(userId: string, credentialId: string, redisUp: bool)
      returns (found: bool, ghost lost: set<string>)
      modifies this
      ensures found <==> credentialId in old(credentials) && old(credentials)[credentialId] == userId
      ensures found ==>
        Run(old(View()), [CacheLose(lost), Serve(TokenLifecycle.DeleteCredential(userId, credentialId))])
        == Some(View())
      ensures found ==>
        RowsChange(old(View()), TokenLifecycle.DeleteCredential(userId, credentialId), tokens)
        && credentials == old(credentials) - {credentialId}
      ensures found && redisUp ==> KeysLost(old(tokens), credentialId, {}, lost)
      ensures !found ==> View() == old(View())
    {
      if credentialId !in credentials || credentials[credentialId] != userId {
        return false, {};
      }
      lost := RevokeDependents(credentialId, redisUp);
      credentials := credentials - {credentialId};
      Commit();
      RunTwo(old(View()), CacheLose(lost), Serve(TokenLifecycle.DeleteCredential(userId, credentialId)));
      ghost var lossy := Step(old(View()), CacheLose(lost)).value;
      ServedRows(lossy, TokenLifecycle.DeleteCredential(userId, credentialId), tokens);
      found := true;
    }

    method Load(s: State)
      requires s.brand == brand
      modifies this
      ensures View() == s
    {
      tokens, rules, credentials, cache := s.tokens, s.rules, s.credentials, s.cache;
      resolvers, owner, history := s.resolvers, s.owner, s.history;
    }

    /** What happens while resolve `rid` awaits: of the proposed actions, those that are not its
        own and are enabled. */
    method Interfere(rid: nat, fate: Fate, schedule: seq<Action>) returns (ghost done: seq<Action>)
      requires rid in resolvers
      modifies this
      ensures Executed(old(View()), done, rid, fate, View())
      ensures rid in resolvers && resolvers[rid] == old(resolvers[rid])
    {
      done := [];
      for i := 0 to |schedule|
        invariant Executed(old(View()), done, rid, fate, View())
        invariant rid in resolvers && resolvers[rid] == old(resolvers[rid])
      {
        var a := schedule[i];
        if Others(rid, a) {
          var next := Step(View(), a);
          if next.Some? {
            ghost var mid := View();
            OthersKeepResolver(mid, rid, a);
            StepKeepsBrand(mid, a);
            Traces.ExecutedOne(Step, Permits(rid, fate), mid, a);
            Load(next.value);
            Traces.Then(Step, Permits(rid, fate), old(View()), done, mid, [a], View());
            done := done + [a];
          }
        }
      }
    }

    /** The indexed SELECT by lookup id. */
    method FindByLookupId(lookupId: string) returns (found: Option<string>)
      ensures Finds(tokens, lookupId, found)
    {
      if t :| t in tokens && tokens[t].lookupId == lookupId {
        found := Some(t);
      } else {
        found := None;
      }
    }

    /** The token parsed, its row found, and the row checked. */
    method Authenticate(rid: nat, full: string, fate: Fate)
      returns (context: Option<(string, TokenRow)>, ghost move: Move)
      requires rid in resolvers && resolvers[rid] == Started(full)
      modifies this`resolvers
      ensures Executed(old(View()), [Do(rid, move)], rid, fate, View())
      ensures context.Some? ==>
        && ParseScopedToken(full).Some? && context.value.0 in tokens && context.value.1 == tokens[context.value.0]
        && tokens[context.value.0].lookupId == ParseScopedToken(full).value.0
        && MayUse(tokens[context.value.0], full, fate.clock)
      ensures OwnerInv(old(View())) && context.None? && ParseScopedToken(full).Some? ==>
        forall x | x in tokens && tokens[x].lookupId == ParseScopedToken(full).value.0 ::
          !MayUse(tokens[x], full, fate.clock)
      ensures rid in resolvers
      ensures resolvers[rid]
        == if context.Some? then RowRead(full, context.value.0, context.value.1) else Rejected(full)
    {
      context := None;
      move := ReadRow(fate.clock, None);
      var parsed := ParseScopedToken(full);
      if parsed.Some? {
        var found := FindByLookupId(parsed.value.0);
        move := ReadRow(fate.clock, found);
        if found.Some? {
          var row := tokens[found.value];
          if row.tokenHash == Digest(full) && row.status == Active
             && !(row.expiresAt.Some? && row.expiresAt.value < fate.clock) {
            context := Some((found.value, row));
          }
        }
      }
      Traces.ExecutedOne(Step, Permits(rid, fate), View(), Do(rid, move));
      var next := if context.Some? then RowRead(full, context.value.0, context.value.1) else Rejected(full);
      resolvers := resolvers[rid := next];
    }

    /** The credential that the token forwards through. */
    method FindCredential(rid: nat, full: string, tokenId: string, row: TokenRow, fate: Fate) returns (known: bool)
      requires rid in resolvers && resolvers[rid] == RowRead(full, tokenId, row)
      modifies this`resolvers
      ensures Executed(old(View()), [Do(rid, ReadCredential)], rid, fate, View())
      ensures rid in resolvers
      ensures resolvers[rid] == if known then CredentialRead(full, tokenId, row) else Rejected(full)
    {
      Traces.ExecutedOne(Step, Permits(rid, fate), View(), Do(rid, ReadCredential));
      known := row.credentialId in credentials;
      resolvers := resolvers[rid := if known then CredentialRead(full, tokenId, row) else Rejected(full)];
    }

    /** The cached rules, if Redis answers and has them. */
    method ReadCachedRules(rid: nat, full: string, tokenId: string, row: TokenRow, fate: Fate)
      returns (missed: bool, context: Option<Context>)
      requires rid in resolvers && resolvers[rid] == CredentialRead(full, tokenId, row)
      modifies this`resolvers
      ensures Executed(old(View()), [Do(rid, ReadCache(fate.cacheFails))], rid, fate, View())
      ensures rid in resolvers
      ensures resolvers[rid] == if missed then Missed(full, tokenId, row) else Ended(full, context)
    {
      Traces.ExecutedOne(Step, Permits(rid, fate), View(), Do(rid, ReadCache(fate.cacheFails)));
      var key := RulesKey(row.lookupId, row.version);
      missed, context := fate.cacheFails || key !in cache, None;
      if missed {
        resolvers := resolvers[rid := Missed(full, tokenId, row)];
      } else {
        var restored := CacheToRules(cache[key]);
        if restored.Some? {
          context := Some(Context(tokenId, row.version, restored.value));
        }
        resolvers := resolvers[rid := Ended(full, context)];
      }
    }

    method SelectStoredRules(rid: nat, full: string, tokenId: string, row: TokenRow, fate: Fate)
      returns (rows: seq<RuleRow>)
      requires rid in resolvers && resolvers[rid] == Missed(full, tokenId, row)
      modifies this`resolvers
      ensures Executed(old(View()), [Do(rid, SelectRules)], rid, fate, View())
      ensures rid in resolvers && resolvers[rid] == Selected(full, tokenId, row, rows)
    {
      Traces.ExecutedOne(Step, Permits(rid, fate), View(), Do(rid, SelectRules));
      rows := if tokenId in rules then rules[tokenId] else [];
      resolvers := resolvers[rid := Selected(full, tokenId, row, rows)];
    }

    /** The rules written under the key of the version that was read, whatever it is by now. */
    method WriteCachedRules(rid: nat, full: string, tokenId: string, row: TokenRow, rows: seq<RuleRow>, fate: Fate)
      returns (context: Context)
      requires rid in resolvers && resolvers[rid] == Selected(full, tokenId, row, rows)
      modifies this`resolvers, this`cache
      ensures Executed(old(View()), [Do(rid, WriteCache(fate.cacheStores))], rid, fate, View())
      ensures rid in resolvers && resolvers[rid] == Ended(full, Some(context))
    {
      Traces.ExecutedOne(Step, Permits(rid, fate), View(), Do(rid, WriteCache(fate.cacheStores)));
      if fate.cacheStores {
        cache := cache[RulesKey(row.lookupId, row.version) := RulesToCache(rows)];
      }
      context := Context(tokenId, row.version, RulesOf(rows));
      resolvers := resolvers[rid := Ended(full, Some(context))];
    }

    /** `_load_rules`. */
    method LoadRules(rid: nat, full: string, tokenId: string, row: TokenRow, fate: Fate, schedules: seq<seq<Action>>)
      returns (context: Option<Context>, ghost trace: seq<Action>)
      requires rid in resolvers && resolvers[rid] == CredentialRead(full, tokenId, row)
      requires |schedules| == 2
      modifies this
      ensures Executed(old(View()), trace, rid, fate, View())
      ensures rid in resolvers && resolvers[rid] == Ended(full, context)
    {
      hide Traces.Executed;
      ghost var start := View();
      var missed;
      missed, context := ReadCachedRules(rid, full, tokenId, row, fate);
      trace := [Do(rid, ReadCache(fate.cacheFails))];
      if !missed {
        return;
      }
      ghost var mid := View();
      ghost var more := Interfere(rid, fate, schedules[0]);
      Traces.Then(Step, Permits(rid, fate), start, trace, mid, more, View());
      trace := trace + more;
      mid := View();
      var rows := SelectStoredRules(rid, full, tokenId, row, fate);
      Traces.Then(Step, Permits(rid, fate), start, trace, mid, [Do(rid, SelectRules)], View());
      trace := trace + [Do(rid, SelectRules)];
      mid := View();
      more := Interfere(rid, fate, schedules[1]);
      Traces.Then(Step, Permits(rid, fate), start, trace, mid, more, View());
      trace := trace + more;
      mid := View();
      var c := WriteCachedRules(rid, full, tokenId, row, rows, fate);
      Traces.Then(Step, Permits(rid, fate), start, trace, mid, [Do(rid, WriteCache(fate.cacheStores))], View());
      trace := trace + [Do(rid, WriteCache(fate.cacheStores))];
      context := Some(c);
    }

    method BeginResolve(rid: nat, full: string, fate: Fate)
      requires rid !in resolvers
      modifies this`resolvers
      ensures Executed(old(View()), [Begin(rid, full)], rid, fate, View())
      ensures rid in resolvers && resolvers[rid] == Started(full)
    {
      Traces.ExecutedOne(Step, Permits(rid, fate), View(), Begin(rid, full));
      resolvers := resolvers[rid := Started(full)];
    }

    /** The resolve up to the credential. */
    method ReadTokenAndCredential(rid: nat, full: string, fate: Fate, schedules: seq<seq<Action>>)
      returns (context: Option<(string, TokenRow)>, ghost trace: seq<Action>)
      requires rid !in resolvers && |schedules| == 2
      modifies this
      ensures Executed(old(View()), trace, rid, fate, View())
      ensures rid in resolvers
      ensures resolvers[rid]
        == if context.Some? then CredentialRead(full, context.value.0, context.value.1) else Rejected(full)
    {
      hide Traces.Executed;
      ghost var start := View();
      BeginResolve(rid, full, fate);
      trace := [Begin(rid, full)];
      ghost var mid := View();
      ghost var more := Interfere(rid, fate, schedules[0]);
      Traces.Then(Step, Permits(rid, fate), start, trace, mid, more, View());
      trace := trace + more;
      mid := View();
      ghost var move;
      context, move := Authenticate(rid, full, fate);
      Traces.Then(Step, Permits(rid, fate), start, trace, mid, [Do(rid, move)], View());
      trace := trace + [Do(rid, move)];
      if context.None? {
        return;
      }
      mid := View();
      more := Interfere(rid, fate, schedules[1]);
      Traces.Then(Step, Permits(rid, fate), start, trace, mid, more, View());
      trace := trace + more;
      mid := View();
      var known := FindCredential(rid, full, context.value.0, context.value.1, fate);
      Traces.Then(Step, Permits(rid, fate), start, trace, mid, [Do(rid, ReadCredential)], View());
      trace := trace + [Do(rid, ReadCredential)];
      if !known {
        context := None;
      }
    }

    /** `resolve_scoped_token`: whatever happens at the awaits is a run of the machine, in which
        this resolve's moves are justified and it ends with what it returns. */
    method ResolveScopedToken(rid: nat, full: string, fate: Fate, schedules: seq<seq<Action>>)
      returns (context: Option<Context>, ghost trace: seq<Action>)
      requires rid !in resolvers && |schedules| == 5
      modifies this
      ensures Run(old(View()), trace) == Some(View())
      ensures Executed(old(View()), trace, rid, fate, View())
      ensures rid in resolvers && resolvers[rid] == Ended(full, context)
      ensures context.Some? ==> exists i: nat :: RowReadAt(old(View()), trace, i, fate.clock, rid, full,
                                                           context.value.tokenId)
    {
      hide Traces.Executed;
      ghost var start := View();
      var found;
      found, trace := ReadTokenAndCredential(rid, full, fate, schedules[..2]);
      context := None;
      if found.Some? {
        ghost var mid := View();
        ghost var more := Interfere(rid, fate, schedules[2]);
        Traces.Then(Step, Permits(rid, fate), start, trace, mid, more, View());
        trace := trace + more;
        mid := View();
        context, more := LoadRules(rid, full, found.value.0, found.value.1, fate, schedules[3..]);
        Traces.Then(Step, Permits(rid, fate), start, trace, mid, more, View());
        trace := trace + more;
      }
      Traces.ExecutedRuns(Step, Permits(rid, fate), start, trace, View());
      if context.Some? {
        ReadAtItsClock(start, trace, rid, fate, View(), full, context.value.tokenId);
      }
    }
  }

  /** The row that a resolve goes on with was usable at the clock reading of its own row read. */
  lemma ReadAtItsClock(s0: State, trace: seq<Action>, rid: nat, fate: Fate, t: State, full: string, tokenId: string)
    requires rid !in s0.resolvers && Run(s0, trace) == Some(t) && Executed(s0, trace, rid, fate, t)
    requires rid in t.resolvers && t.resolvers[rid].Resolved?
    requires t.resolvers[rid].full == full && t.resolvers[rid].tokenId == tokenId
    ensures exists i: nat :: RowReadAt(s0, trace, i, fate.clock, rid, full, tokenId)
  {
    hide Step, Traces.Executed, MayUse;
    PastWasRead(s0, trace, rid);
    var i: nat, now: int :| RowReadAt(s0, trace, i, now, rid, full, tokenId);
    Traces.ExecutedAllows(Step, Permits(rid, fate), s0, trace, t, i);
    assert RowReadAt(s0, trace, i, fate.clock, rid, full, tokenId);
  }

  function KeyOf(row: TokenRow): string {
    RulesKey(row.lookupId, row.version)
  }

  /** The cache keys of the active tokens on the credential, but for those still pending. */
  ghost predicate KeysLost(tokens: map<string, TokenRow>, credentialId: string, pending: set<string>,
                           lost: set<string>) {
    forall t | t in tokens && t !in pending && Dependent(tokens[t], credentialId) :: KeyOf(tokens[t]) in lost
  }

  lemma KeysLostNext(tokens: map<string, TokenRow>, credentialId: string, pending: set<string>, lost: set<string>,
                     t: string)
    requires KeysLost(tokens, credentialId, pending, lost) && t in tokens
    ensures KeysLost(tokens, credentialId, pending - {t}, lost + {KeyOf(tokens[t])})
  {
  }

  lemma MinusTwice<K, V>(m: map<K, V>, a: set<K>, b: set<K>)
    ensures m - a - b == m - (a + b)
  {
  }

  /** The rows when every dependent one outside `pending` is revoked. */
  ghost function Partly(tokens: map<string, TokenRow>, credentialId: string, pending: set<string>): map<string,
                        TokenRow> {
    map t | t in tokens ::
      if Dependent(tokens[t], credentialId) && t !in pending then RevokeRow(tokens[t]) else tokens[t]
  }

  lemma PartlyNext(tokens: map<string, TokenRow>, credentialId: string, pending: set<string>, t: string)
    requires t in pending && t in tokens && Dependent(tokens[t], credentialId)
    ensures t in Partly(tokens, credentialId, pending) && Partly(tokens, credentialId, pending)[t] == tokens[t]
    ensures Partly(tokens, credentialId, pending - {t})
      == Partly(tokens, credentialId, pending)[t := RevokeRow(tokens[t])]
  {
  }
}
