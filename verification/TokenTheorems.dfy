/** The token lifecycle's promises over whole runs. */
module TokenTheorems {
  import opened Text
  import opened Scope
  import opened TokenLayout
  import opened RulesCache
  import opened TokenLifecycle
  import opened TokenSafety

  lemma InitInv(brand: string, credentials: map<string, string>)
    ensures Inv(Init(brand, credentials))
  {
  }

  /** The rules that the row had at some version from `version` on, up to now. */
  ghost predicate NotOlder(s: State, tokenId: string, version: nat, rules: seq<Rule>) {
    exists w: nat ::
      HasVersion(s, tokenId, w) && version <= w <= CurrentVersion(s, tokenId) && rules == RulesOf(s.history[tokenId][w])
  }

  ghost function CurrentVersion(s: State, tokenId: string): nat {
    if tokenId in s.tokens then s.tokens[tokenId].version else 0
  }

  /** No stale rules. In every run, with rule edits, cache losses and failures at any point, a
      resolve returns rules no older than the version it read, for the row that the presented
      token was issued for. */
  lemma NoStaleRules(brand: string, credentials: map<string, string>, actions: seq<Action>, rid: nat)
    requires Run(Init(brand, credentials), actions).Some?
    requires var s := Run(Init(brand, credentials), actions).value; rid in s.resolvers && s.resolvers[rid].Resolved?
    ensures var s := Run(Init(brand, credentials), actions).value; var r := s.resolvers[rid];
      && ParseScopedToken(r.full).Some?
      && ParseScopedToken(r.full).value.0 in s.owner && s.owner[ParseScopedToken(r.full).value.0] == r.tokenId
      && NotOlder(s, r.tokenId, r.version, r.rules)
  {
    InitInv(brand, credentials);
    RunKeepsInv(Init(brand, credentials), actions);
    var s := Run(Init(brand, credentials), actions).value;
    var r := s.resolvers[rid];
    assert ResolverOk(s, r);
    var w: nat :| HasVersion(s, r.tokenId, w) && r.version <= w && r.rules == RulesOf(s.history[r.tokenId][w]);
    assert w <= CurrentVersion(s, r.tokenId);
  }

  /** Only mint has ever written the rules of any row. */
  ghost predicate Steady(s: State) {
    forall x, v | x in s.history && x in s.rules && v in s.history[x] :: s.history[x][v] == s.rules[x]
  }

  ghost predicate NoEdits(actions: seq<Action>) {
    forall i | 0 <= i < |actions| :: !(actions[i].Serve? && actions[i].service.EditRules?)
  }

  lemma ServeKeepsRules(s: State, service: Service)
    requires HistoryInv(s) && !service.EditRules? && ServeStep(s, service).Some?
    ensures var t := ServeStep(s, service).value;
      forall x | x in s.rules :: x in t.rules && t.rules[x] == s.rules[x]
  {
    match service
    case Mint(_, _, _, _, _, _, _, _) =>
    case Rotate(_, _, _, _) =>
    case Revoke(_, _) =>
    case DeleteCredential(_, _) =>
  }

  lemma StepSteady(s: State, a: Action)
    requires Inv(s) && Steady(s) && Step(s, a).Some? && !(a.Serve? && a.service.EditRules?)
    ensures Steady(Step(s, a).value)
  {
    var t := Step(s, a).value;
    match a
    case Serve(service) =>
      ServeSummary(s, service);
      ServeKeepsRules(s, service);
      forall x, v | x in t.history && x in t.rules && v in t.history[x]
        ensures t.history[x][v] == t.rules[x]
      {
        NotedAt(t.tokens, t.rules, s.history, x);
      }
    case CacheLose(_) =>
    case Begin(_, _) =>
    case Do(rid, move) => AdvanceSummary(s, rid, move);
  }

  lemma {:induction false} RunSteady(s: State, actions: seq<Action>)
    requires Inv(s) && Steady(s) && Run(s, actions).Some? && NoEdits(actions)
    ensures Inv(Run(s, actions).value) && Steady(Run(s, actions).value)
    decreases |actions|
  {
    hide Step;
    if actions != [] {
      StepSteady(s, actions[0]);
      StepKeepsInv(s, actions[0]);
      RunSteady(Step(s, actions[0]).value, actions[1..]);
    }
  }

  /** Cache transparency. In every run of the repository's own operations, which write rules only
      when they mint, what a resolve returns, from the cache or not, is attribute for attribute
      the row's stored rules; so every request is decided as the stored rows decide it. */
  lemma CacheTransparent(brand: string, credentials: map<string, string>, actions: seq<Action>, rid: nat)
    requires Run(Init(brand, credentials), actions).Some? && NoEdits(actions)
    requires var s := Run(Init(brand, credentials), actions).value; rid in s.resolvers && s.resolvers[rid].Resolved?
    ensures var s := Run(Init(brand, credentials), actions).value; var r := s.resolvers[rid];
      r.tokenId in s.rules && r.rules == RulesOf(s.rules[r.tokenId])
  {
    InitInv(brand, credentials);
    RunSteady(Init(brand, credentials), actions);
    var s := Run(Init(brand, credentials), actions).value;
    var r := s.resolvers[rid];
    assert ResolverOk(s, r);
    var w: nat :| HasVersion(s, r.tokenId, w) && r.version <= w && r.rules == RulesOf(s.history[r.tokenId][w]);
  }

  /** A lookup id that was issued and can no longer resolve: its row is revoked or has been
      rotated to another lookup id. */
  ghost predicate Dead(s: State, lookupId: string) {
    && lookupId in s.owner && s.owner[lookupId] in s.tokens
    && var row := s.tokens[s.owner[lookupId]];
    && (row.status == Revoked || row.lookupId != lookupId)
  }

  lemma ServeKeepsDead(s: State, service: Service, lookupId: string)
    requires Dead(s, lookupId) && ServeStep(s, service).Some?
    ensures Dead(ServeStep(s, service).value, lookupId)
  {
    match service
    case Mint(_, _, _, _, _, _, _, _) =>
    case Rotate(_, _, _, _) =>
    case Revoke(_, _) =>
    case DeleteCredential(_, _) =>
    case EditRules(_, _) =>
  }

  lemma StepKeepsDead(s: State, a: Action, lookupId: string)
    requires Dead(s, lookupId) && Step(s, a).Some?
    ensures Dead(Step(s, a).value, lookupId)
  {
    match a
    case Serve(service) => ServeKeepsDead(s, service, lookupId);
    case CacheLose(_) =>
    case Begin(_, _) =>
    case Do(rid, move) => AdvanceSummary(s, rid, move);
  }

  ghost predicate Presents(r: Resolver, lookupId: string) {
    ParseScopedToken(r.full).Some? && ParseScopedToken(r.full).value.0 == lookupId
  }

  /** No resolve of the lookup id outside `early` has got past its row read. */
  ghost predicate LateRejected(s: State, early: set<nat>, lookupId: string) {
    forall rid | rid in s.resolvers && rid !in early && Presents(s.resolvers[rid], lookupId) ::
      s.resolvers[rid].Started? || s.resolvers[rid].Rejected?
  }

  /** Reading the row of a dead lookup id rejects. */
  lemma DeadRowRejects(s: State, rid: nat, full: string, now: int, found: Option<string>, lookupId: string)
    requires OwnerInv(s) && Dead(s, lookupId)
    requires ParseScopedToken(full).Some? && ParseScopedToken(full).value.0 == lookupId
    requires ReadRowStep(s, rid, full, now, found).Some?
    ensures rid in ReadRowStep(s, rid, full, now, found).value.resolvers
    ensures ReadRowStep(s, rid, full, now, found).value.resolvers[rid] == Rejected(full)
  {
  }

  lemma StepKeepsLate(s: State, a: Action, early: set<nat>, lookupId: string)
    requires OwnerInv(s) && Dead(s, lookupId) && LateRejected(s, early, lookupId) && Step(s, a).Some?
    ensures LateRejected(Step(s, a).value, early, lookupId)
  {
    match a
    case Serve(service) => ServeKeepsResolvers(s, service);
    case CacheLose(_) =>
    case Begin(_, _) =>
    case Do(rid, move) =>
      AdvanceSummary(s, rid, move);
      var r := s.resolvers[rid];
      if rid !in early && Presents(r, lookupId) {
        if r.Started? && move.ReadRow? {
          DeadRowRejects(s, rid, r.full, move.now, move.found, lookupId);
        } else {
          RejectedStays(s, rid, move);
        }
      }
  }

  lemma RejectedStays(s: State, rid: nat, move: Move)
    requires rid in s.resolvers && Advance(s, rid, move).Some?
    ensures !s.resolvers[rid].Rejected?
    ensures s.resolvers[rid].Started? ==> move.ReadRow?
  {
  }

  lemma ServeKeepsResolvers(s: State, service: Service)
    requires ServeStep(s, service).Some?
    ensures ServeStep(s, service).value.resolvers == s.resolvers
  {
    match service
    case Mint(_, _, _, _, _, _, _, _) =>
    case Rotate(_, _, _, _) =>
    case Revoke(_, _) =>
    case DeleteCredential(_, _) =>
    case EditRules(_, _) =>
  }

  lemma {:induction false} RunKeepsLate(s: State, actions: seq<Action>, early: set<nat>, lookupId: string)
    requires Inv(s) && Dead(s, lookupId) && LateRejected(s, early, lookupId) && Run(s, actions).Some?
    ensures Dead(Run(s, actions).value, lookupId) && LateRejected(Run(s, actions).value, early, lookupId)
    decreases |actions|
  {
    hide Step;
    if actions != [] {
      StepKeepsInv(s, actions[0]);
      StepKeepsDead(s, actions[0], lookupId);
      StepKeepsLate(s, actions[0], early, lookupId);
      RunKeepsLate(Step(s, actions[0]).value, actions[1..], early, lookupId);
    }
  }

  lemma StepKeepsBrand(s: State, a: Action)
    requires Step(s, a).Some?
    ensures Step(s, a).value.brand == s.brand
  {
    match a
    case Serve(Mint(_, _, _, _, _, _, _, _)) =>
    case Serve(_) =>
    case CacheLose(_) =>
    case Begin(_, _) =>
    case Do(rid, move) => AdvanceSummary(s, rid, move);
  }

  lemma {:induction false} RunKeepsBrand(s: State, actions: seq<Action>)
    requires Run(s, actions).Some?
    ensures Run(s, actions).value.brand == s.brand
    decreases |actions|
  {
    hide Step;
    if actions != [] {
      StepKeepsBrand(s, actions[0]);
      RunKeepsBrand(Step(s, actions[0]).value, actions[1..]);
    }
  }

  /** The operations that end every token string issued for a row so far: revoking it, rotating
      it, and deleting the credential it forwards through. */
  ghost predicate Ends(s: State, service: Service, tokenId: string) {
    && tokenId in s.tokens
    && match service
       case Revoke(_, t) => t == tokenId
       case Rotate(_, t, _, _) => t == tokenId
       case DeleteCredential(_, c) => s.tokens[tokenId].credentialId == c
       case _ => false
  }

  lemma EndsKills(s: State, service: Service, tokenId: string, lookupId: string)
    requires OwnerInv(s) && ServeStep(s, service).Some? && Ends(s, service, tokenId)
    requires lookupId in s.owner && s.owner[lookupId] == tokenId
    ensures Dead(ServeStep(s, service).value, lookupId)
  {
    match service
    case Revoke(_, _) =>
    case Rotate(_, _, _, _) =>
    case DeleteCredential(_, _) =>
  }

  /** Revocation and rotation are final. Once a row is revoked or rotated, or its credential is
      deleted, no resolve that reads the row afterwards ever succeeds with any token string
      issued for the row before, in any continuation: no rotation, rule edit or late cache
      write revives it. */
  lemma RevocationIsFinal(brand: string, credentials: map<string, string>, before: seq<Action>, service: Service,
                          after: seq<Action>, tokenId: string, lookupId: string, rid: nat)
    requires Run(Init(brand, credentials), before).Some?
    requires var s := Run(Init(brand, credentials), before).value;
      && ServeStep(s, service).Some? && Ends(s, service, tokenId)
      && lookupId in s.owner && s.owner[lookupId] == tokenId
      && (rid in s.resolvers ==> s.resolvers[rid].Started?)
      && Run(ServeStep(s, service).value, after).Some?
    ensures var s := Run(Init(brand, credentials), before).value;
      var t := Run(ServeStep(s, service).value, after).value;
      rid in t.resolvers && Presents(t.resolvers[rid], lookupId) ==>
        t.resolvers[rid].Started? || t.resolvers[rid].Rejected?
  {
    InitInv(brand, credentials);
    RunKeepsInv(Init(brand, credentials), before);
    var s := Run(Init(brand, credentials), before).value;
    var mid := ServeStep(s, service).value;
    ServeKeepsInv(s, service);
    ServeKeepsResolvers(s, service);
    EndsKills(s, service, tokenId, lookupId);
    var early := set r | r in s.resolvers && !s.resolvers[r].Started?;
    RunKeepsLate(mid, after, early, lookupId);
  }
}
