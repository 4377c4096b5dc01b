/** What becomes of a token's row over a run, told by the operations of the run alone: whose it
    is, which string it answers to, whether it is active and until when. */
module TokenRows {
  import Traces
  import opened Text
  import opened Scope
  import opened TokenLayout
  import opened RulesCache
  import opened TokenLifecycle
  import opened TokenSafety
  import opened TokenTheorems

  /** The mint of the row, among the operations. */
  ghost function MintOf(actions: seq<Action>, x: string): (mint: Option<Service>)
    ensures mint.Some? ==> mint.value.Mint? && mint.value.tokenId == x
  {
    if actions == [] then None
    else
      var last := actions[|actions| - 1];
      if last.Serve? && last.service.Mint? && last.service.tokenId == x then Some(last.service)
      else MintOf(actions[..|actions| - 1], x)
  }

  /** The lookup id and the secret that were last issued for the row. */
  ghost function LastIssue(actions: seq<Action>, x: string): Option<(string, string)> {
    if actions == [] then None
    else
      var last := actions[|actions| - 1];
      if last.Serve? && (last.service.Mint? || last.service.Rotate?) && last.service.tokenId == x then
        Some((last.service.lookupId, last.service.secret))
      else LastIssue(actions[..|actions| - 1], x)
  }

  /** The rules that were last written for the row. */
  ghost function LastRules(actions: seq<Action>, x: string): Option<seq<RuleRow>> {
    if actions == [] then None
    else
      var last := actions[|actions| - 1];
      if last.Serve? && (last.service.Mint? || last.service.EditRules?) && last.service.tokenId == x then
        Some(last.service.rows)
      else LastRules(actions[..|actions| - 1], x)
  }

  ghost predicate RevokedIn(actions: seq<Action>, x: string) {
    exists i | 0 <= i < |actions| ::
      actions[i].Serve? && actions[i].service.Revoke? && actions[i].service.tokenId == x
  }

  ghost predicate DeletedIn(actions: seq<Action>, c: string) {
    exists i | 0 <= i < |actions| ::
      actions[i].Serve? && actions[i].service.DeleteCredential? && actions[i].service.credentialId == c
  }

  /** One row before and after a service operation, column by column. */
  ghost predicate RowChanges(s: State, service: Service, x: string, row: TokenRow, next: TokenRow) {
    && next.userId == row.userId && next.credentialId == row.credentialId && next.expiresAt == row.expiresAt
    && (if service.Rotate? && service.tokenId == x then
          && next.lookupId == service.lookupId
          && next.tokenHash == Digest(s.brand + "_" + service.lookupId + "_" + service.secret)
        else next.lookupId == row.lookupId && next.tokenHash == row.tokenHash)
    && (if (service.Revoke? && service.tokenId == x)
           || (service.DeleteCredential? && service.credentialId == row.credentialId) then next.status == Revoked
        else next.status == row.status)
    && next.version ==
       if (service.Rotate? && service.tokenId == x) || (service.Revoke? && service.tokenId == x)
          || (service.EditRules? && service.tokenId == x)
          || (service.DeleteCredential? && service.credentialId == row.credentialId && row.status == Active)
       then row.version + 1 else row.version
  }

  /** A row as it is minted. */
  ghost predicate RowMinted(s: State, service: Service, row: TokenRow) {
    && service.Mint?
    && row.userId == service.userId && row.credentialId == service.credentialId
    && row.expiresAt == service.expiresAt && row.lookupId == service.lookupId
    && row.tokenHash == Digest(s.brand + "_" + service.lookupId + "_" + service.secret)
    && row.version == 1 && row.status == Active
  }

  /** A service operation is the owner's: of the row, or of the credential. */
  ghost predicate ByOwner(s: State, service: Service) {
    match service
    case Mint(_, u, c, _, _, valid, _, _) => valid && c in s.credentials && s.credentials[c] == u
    case Rotate(u, x, _, _) => x in s.tokens && s.tokens[x].userId == u
    case Revoke(u, x) => x in s.tokens && s.tokens[x].userId == u
    case DeleteCredential(u, c) => c in s.credentials && s.credentials[c] == u
    case EditRules(x, _) => x in s.tokens
  }

  /** An operation succeeds only for the owner, and for the owner always, given fresh draws. */
  lemma ServedByOwner(s: State, service: Service)
    ensures ServeStep(s, service).Some?
      <==> ByOwner(s, service)
           && (service.Mint? ==> service.tokenId !in s.tokens)
           && (service.Mint? || service.Rotate? ==>
                 && |service.lookupId| == 16 && IsAlnum(service.lookupId) && service.lookupId !in s.owner
                 && |service.secret| == 40 && IsAlnum(service.secret))
  {
    hide Noted, CascadeRows, MintRow, RotateRow;
    match service
    case Mint(_, _, _, _, _, _, _, _) =>
    case Rotate(_, _, _, _) =>
    case Revoke(_, _) =>
    case DeleteCredential(_, _) =>
    case EditRules(_, _) =>
  }

  /** What every operation does to every row. */
  lemma ServeChanges(s: State, service: Service, x: string)
    requires ServeStep(s, service).Some?
    ensures var t := ServeStep(s, service).value;
      if service.Mint? && service.tokenId == x then x in t.tokens && RowMinted(s, service, t.tokens[x])
      else if x in s.tokens then x in t.tokens && RowChanges(s, service, x, s.tokens[x], t.tokens[x])
      else x !in t.tokens
    ensures var t := ServeStep(s, service).value;
      && (x in t.rules <==> x in s.rules || (service.Mint? && service.tokenId == x)
                            || (service.EditRules? && service.tokenId == x))
      && (x in t.rules ==>
            (t.rules[x] ==
             if (service.Mint? || service.EditRules?) && service.tokenId == x then service.rows else s.rules[x]))
    ensures var t := ServeStep(s, service).value;
      && t.brand == s.brand
      && t.credentials == if service.DeleteCredential? then s.credentials - {service.credentialId} else s.credentials
  {
    hide Noted, FreshlyDrawn;
    match service
    case Mint(_, _, _, _, _, _, _, _) =>
    case Rotate(_, _, _, _) =>
    case Revoke(_, _) =>
    case DeleteCredential(_, _) =>
    case EditRules(_, _) =>
  }

  lemma OtherChanges(s: State, a: Action)
    requires Step(s, a).Some? && !a.Serve?
    ensures var t := Step(s, a).value;
      t.brand == s.brand && t.tokens == s.tokens && t.rules == s.rules && t.credentials == s.credentials
      && t.owner == s.owner
  {
    hide ServeStep, Advance;
    if a.Do? {
      AdvanceSummary(s, a.rid, a.move);
    }
  }

  /** The row is what the operations say. */
  ghost predicate RowLogged(brand: string, actions: seq<Action>, x: string, row: TokenRow) {
    && MintOf(actions, x).Some?
    && var mint := MintOf(actions, x).value;
    && row.userId == mint.userId && row.credentialId == mint.credentialId && row.expiresAt == mint.expiresAt
    && LastIssue(actions, x).Some?
    && var (lookupId, secret) := LastIssue(actions, x).value;
    && Drawn(lookupId, 16) && Drawn(secret, 40)
    && row.lookupId == lookupId && row.tokenHash == Digest(brand + "_" + lookupId + "_" + secret)
    && (row.status == Revoked <==> RevokedIn(actions, x) || DeletedIn(actions, row.credentialId))
  }

  ghost predicate Logged(brand: string, credentials: map<string, string>, actions: seq<Action>, s: State) {
    && s.brand == brand
    && (forall x :: x in s.tokens <==> MintOf(actions, x).Some?)
    && (forall x | x in s.tokens :: RowLogged(brand, actions, x, s.tokens[x]))
    && (forall x | x in s.tokens :: x in s.rules && LastRules(actions, x) == Some(s.rules[x]))
    && (forall x | RevokedIn(actions, x) :: x in s.tokens)
    && (forall c :: c in s.credentials <==> c in credentials && !DeletedIn(actions, c))
    && (forall c | c in s.credentials :: s.credentials[c] == credentials[c])
    && (forall c | DeletedIn(actions, c) :: c in credentials)
  }

  lemma LogNext(actions: seq<Action>, a: Action)
    ensures forall x ::
      (RevokedIn(actions + [a], x) <==>
         RevokedIn(actions, x) || (a.Serve? && a.service.Revoke? && a.service.tokenId == x))
    ensures forall c ::
      (DeletedIn(actions + [a], c) <==>
         DeletedIn(actions, c) || (a.Serve? && a.service.DeleteCredential? && a.service.credentialId == c))
  {
    var all := actions + [a];
    assert all[|actions|] == a;
    forall x | RevokedIn(actions, x) ensures RevokedIn(all, x) {
      var i :| 0 <= i < |actions| && actions[i].Serve? && actions[i].service.Revoke?
        && actions[i].service.tokenId == x;
      assert all[i] == actions[i];
    }
    forall c | DeletedIn(actions, c) ensures DeletedIn(all, c) {
      var i :| 0 <= i < |actions| && actions[i].Serve? && actions[i].service.DeleteCredential?
        && actions[i].service.credentialId == c;
      assert all[i] == actions[i];
    }
  }

  lemma IssueNext(actions: seq<Action>, a: Action, x: string)
    ensures MintOf(actions + [a], x)
      == if a.Serve? && a.service.Mint? && a.service.tokenId == x then Some(a.service) else MintOf(actions, x)
    ensures LastIssue(actions + [a], x)
      == if a.Serve? && (a.service.Mint? || a.service.Rotate?) && a.service.tokenId == x
         then Some((a.service.lookupId, a.service.secret)) else LastIssue(actions, x)
    ensures LastRules(actions + [a], x)
      == if a.Serve? && (a.service.Mint? || a.service.EditRules?) && a.service.tokenId == x
         then Some(a.service.rows) else LastRules(actions, x)
  {
    assert (actions + [a])[..|actions|] == actions;
  }

  lemma RowStaysLogged(brand: string, credentials: map<string, string>, actions: seq<Action>, s: State,
                       service: Service, x: string)
    requires Logged(brand, credentials, actions, s) && ServeStep(s, service).Some?
    requires x in ServeStep(s, service).value.tokens
    ensures RowLogged(brand, actions + [Serve(service)], x, ServeStep(s, service).value.tokens[x])
  {
    hide ServeStep, RevokedIn, DeletedIn, MintOf, LastIssue, IsAlnum;
    ServeChanges(s, service, x);
    ServedByOwner(s, service);
    LogNext(actions, Serve(service));
    IssueNext(actions, Serve(service), x);
  }

  lemma StepStaysLogged(brand: string, credentials: map<string, string>, actions: seq<Action>, s: State, a: Action)
    requires Logged(brand, credentials, actions, s) && Step(s, a).Some?
    ensures Logged(brand, credentials, actions + [a], Step(s, a).value)
  {
    hide Step, ServeStep, RevokedIn, DeletedIn, MintOf, LastIssue, LastRules, RowLogged;
    var t := Step(s, a).value;
    LogNext(actions, a);
    forall x
      ensures MintOf(actions + [a], x).Some? <==> x in t.tokens
      ensures x in t.tokens <==> x in s.tokens || (a.Serve? && a.service.Mint? && a.service.tokenId == x)
    {
      IssueNext(actions, a, x);
      ServedTokens(s, a, x);
    }
    forall x | x in t.tokens
      ensures RowLogged(brand, actions + [a], x, t.tokens[x])
      ensures x in t.rules && LastRules(actions + [a], x) == Some(t.rules[x])
    {
      ServedRules(s, a, x);
      IssueNext(actions, a, x);
      ServedTokens(s, a, x);
      if a.Serve? {
        StepServes(s, a.service);
        RowStaysLogged(brand, credentials, actions, s, a.service, x);
      } else {
        OtherChanges(s, a);
        OtherStaysLogged(brand, actions, a, x, s.tokens[x]);
      }
    }
    ServedCredentials(s, a);
  }

  lemma StepServes(s: State, service: Service)
    ensures Step(s, Serve(service)) == ServeStep(s, service)
  {
  }

  lemma OtherStaysLogged(brand: string, actions: seq<Action>, a: Action, x: string, row: TokenRow)
    requires RowLogged(brand, actions, x, row) && !a.Serve?
    ensures RowLogged(brand, actions + [a], x, row)
  {
    hide RevokedIn, DeletedIn, MintOf, LastIssue, Drawn;
    LogNext(actions, a);
    IssueNext(actions, a, x);
  }

  lemma ServedTokens(s: State, a: Action, x: string)
    requires Step(s, a).Some?
    ensures var t := Step(s, a).value;
      x in t.tokens <==> x in s.tokens || (a.Serve? && a.service.Mint? && a.service.tokenId == x)
  {
    hide ServeStep, Advance;
    if a.Serve? {
      ServeChanges(s, a.service, x);
    } else {
      OtherChanges(s, a);
    }
  }

  lemma ServedRules(s: State, a: Action, x: string)
    requires Step(s, a).Some? && (x in s.tokens ==> x in s.rules)
    ensures var t := Step(s, a).value;
      x in t.tokens ==>
        && x in t.rules
        && if a.Serve? && (a.service.Mint? || a.service.EditRules?) && a.service.tokenId == x
           then t.rules[x] == a.service.rows else x in s.rules && t.rules[x] == s.rules[x]
  {
    hide ServeStep, Advance;
    if a.Serve? {
      ServeChanges(s, a.service, x);
    } else {
      OtherChanges(s, a);
    }
  }

  lemma ServedCredentials(s: State, a: Action)
    requires Step(s, a).Some?
    ensures var t := Step(s, a).value;
      && t.brand == s.brand
      && (if a.Serve? && a.service.DeleteCredential? then
            a.service.credentialId in s.credentials && t.credentials == s.credentials - {a.service.credentialId}
          else t.credentials == s.credentials)
      && (a.Serve? && a.service.Revoke? ==> a.service.tokenId in s.tokens)
  {
    hide ServeStep, Advance;
    if a.Serve? {
      ServeChanges(s, a.service, "");
      ServedByOwner(s, a.service);
    } else {
      OtherChanges(s, a);
    }
  }

  lemma InitLogged(brand: string, credentials: map<string, string>)
    ensures Logged(brand, credentials, [], Init(brand, credentials))
  {
  }

  /** In every run every row is what the operations of the run say: it was minted, and has the
      owner, the credential and the expiry of its mint; it answers to the string last issued for
      it; and it is revoked exactly when it was, or its credential was deleted. */
  lemma {:induction false} RowsAreLogged(brand: string, credentials: map<string, string>, actions: seq<Action>)
    requires Run(Init(brand, credentials), actions).Some?
    ensures Logged(brand, credentials, actions, Run(Init(brand, credentials), actions).value)
    decreases |actions|
  {
    hide Step, Logged, Init;
    if actions == [] {
      InitLogged(brand, credentials);
    } else {
      var n := |actions| - 1;
      Traces.RunLast(Step, Init(brand, credentials), actions);
      RowsAreLogged(brand, credentials, actions[..n]);
      StepStaysLogged(brand, credentials, actions[..n], Run(Init(brand, credentials), actions[..n]).value, actions[n]);
      assert actions[..n] + [actions[n]] == actions;
    }
  }

  /** Over a run, whoever it is that has an operation done: a row or a credential is touched only
      by its owner, who is the user that minted the row, or had the credential at the start. */
  lemma OnlyOwnersServe(brand: string, credentials: map<string, string>, actions: seq<Action>, i: nat)
    requires Run(Init(brand, credentials), actions).Some? && i < |actions| && actions[i].Serve?
    ensures match actions[i].service
      case Mint(_, u, c, _, _, valid, _, _) => valid && c in credentials && credentials[c] == u
      case Rotate(u, x, _, _) => MintOf(actions[..i], x).Some? && MintOf(actions[..i], x).value.userId == u
      case Revoke(u, x) => MintOf(actions[..i], x).Some? && MintOf(actions[..i], x).value.userId == u
      case DeleteCredential(u, c) => c in credentials && credentials[c] == u
      case EditRules(x, _) => MintOf(actions[..i], x).Some?
  {
    hide Step, ServeStep, MintOf, DeletedIn, RevokedIn, LastIssue, LastRules, Init;
    RunSplitsAt(Init(brand, credentials), actions, i);
    RowsAreLogged(brand, credentials, actions[..i]);
    var s := Run(Init(brand, credentials), actions[..i]).value;
    StepServes(s, actions[i].service);
    ServedByOwner(s, actions[i].service);
  }

  lemma {:induction false} RunSplitsAt(s: State, actions: seq<Action>, i: nat)
    requires Run(s, actions).Some? && i < |actions|
    ensures Run(s, actions[..i]).Some? && Step(Run(s, actions[..i]).value, actions[i]).Some?
    decreases |actions|
  {
    hide Step;
    Traces.RunLast(Step, s, actions);
    if i < |actions| - 1 {
      RunSplitsAt(s, actions[..|actions| - 1], i);
      assert actions[..|actions| - 1][..i] == actions[..i];
    }
  }

  /** The row that the string belongs to, if it may be used now. */
  predicate MayUse(row: TokenRow, full: string, now: int) {
    row.tokenHash == Digest(full) && row.status == Active && (row.expiresAt.None? || now <= row.expiresAt.value)
  }

  /** The row read accepts exactly when some row with the presented lookup id has the string's
      hash, is active and has not expired; otherwise it ends the resolve. */
  lemma RowReadExactly(s: State, rid: nat, full: string, now: int, found: Option<string>)
    requires OwnerInv(s) && ReadRowStep(s, rid, full, now, found).Some?
    ensures var t := ReadRowStep(s, rid, full, now, found).value; var parsed := ParseScopedToken(full);
      && rid in t.resolvers
      && (t.resolvers[rid] == Rejected(full)
          || (found.Some? && found.value in s.tokens
              && t.resolvers[rid] == RowRead(full, found.value, s.tokens[found.value])))
      && (t.resolvers[rid].RowRead?
          <==> parsed.Some? && exists x | x in s.tokens ::
                 s.tokens[x].lookupId == parsed.value.0 && MayUse(s.tokens[x], full, now))
  {
    hide ParseScopedToken;
  }

  /** The string is the last one issued for the row, which has not been ended or expired. */
  ghost predicate Usable(brand: string, actions: seq<Action>, x: string, full: string, now: int) {
    && MintOf(actions, x).Some? && LastIssue(actions, x).Some?
    && var (lookupId, secret) := LastIssue(actions, x).value;
    && full == brand + "_" + lookupId + "_" + secret
    && var mint := MintOf(actions, x).value;
    && !RevokedIn(actions, x) && !DeletedIn(actions, mint.credentialId)
    && (mint.expiresAt.Some? ==> now <= mint.expiresAt.value)
  }

  lemma UsableIsMayUse(brand: string, credentials: map<string, string>, actions: seq<Action>, s: State, x: string,
                       full: string, now: int)
    requires Logged(brand, credentials, actions, s)
    ensures Usable(brand, actions, x, full, now) <==> x in s.tokens && MayUse(s.tokens[x], full, now)
  {
    hide MintOf, LastIssue, RevokedIn, DeletedIn, Drawn;
  }

  lemma UsableParses(brand: string, credentials: map<string, string>, actions: seq<Action>, s: State, x: string,
                     full: string, now: int)
    requires Logged(brand, credentials, actions, s) && x in s.tokens && MayUse(s.tokens[x], full, now)
    ensures '_' in brand ==> ParseScopedToken(full) == None
    ensures '_' !in brand ==> ParseScopedToken(full).Some? && ParseScopedToken(full).value.0 == s.tokens[x].lookupId
  {
    hide MintOf, LastIssue, RevokedIn, DeletedIn, ParseScopedToken, IsAlnum;
    var (lookupId, secret) := LastIssue(actions, x).value;
    ParseGenerated(brand, lookupId, secret);
  }

  /** Who gets in. In every run, whatever has happened to the cache, the row read of a presented
      string succeeds if and only if the brand has no underscore and the string is the last one
      issued for some token, by mint or rotation, which was not revoked, whose credential was not
      deleted, and which has not reached the expiry that it was minted with. Otherwise the resolve
      is rejected. */
  lemma AcceptedExactly(brand: string, credentials: map<string, string>, actions: seq<Action>, rid: nat, full: string,
                        now: int, found: Option<string>)
    requires Run(Init(brand, credentials), actions).Some?
    requires var s := Run(Init(brand, credentials), actions).value;
      && rid in s.resolvers && s.resolvers[rid] == Started(full)
      && Step(s, Do(rid, ReadRow(now, found))).Some?
    ensures var t := Step(Run(Init(brand, credentials), actions).value, Do(rid, ReadRow(now, found))).value;
      && rid in t.resolvers && (t.resolvers[rid].RowRead? || t.resolvers[rid] == Rejected(full))
      && (t.resolvers[rid].RowRead?
          <==> '_' !in brand && exists x :: Usable(brand, actions, x, full, now))
  {
    hide ReadRowStep, Usable, MayUse, Logged, OwnerInv, ParseScopedToken;
    var s := Run(Init(brand, credentials), actions).value;
    InitInv(brand, credentials);
    RunKeepsInv(Init(brand, credentials), actions);
    RowsAreLogged(brand, credentials, actions);
    RowReadExactly(s, rid, full, now, found);
    forall x ensures Usable(brand, actions, x, full, now) <==> x in s.tokens && MayUse(s.tokens[x], full, now) {
      UsableIsMayUse(brand, credentials, actions, s, x, full, now);
    }
    forall x | x in s.tokens && MayUse(s.tokens[x], full, now)
      ensures '_' in brand ==> ParseScopedToken(full) == None
      ensures '_' !in brand ==> ParseScopedToken(full).Some? && ParseScopedToken(full).value.0 == s.tokens[x].lookupId
    {
      UsableParses(brand, credentials, actions, s, x, full, now);
    }
  }

  /** The rules of a token are those that it was minted with, unless they are edited: that is what
      every resolve of it returns. */
  lemma ResolvesToMinted(brand: string, credentials: map<string, string>, actions: seq<Action>, rid: nat)
    requires Run(Init(brand, credentials), actions).Some? && NoEdits(actions)
    requires var s := Run(Init(brand, credentials), actions).value; rid in s.resolvers && s.resolvers[rid].Resolved?
    ensures var r := Run(Init(brand, credentials), actions).value.resolvers[rid];
      MintOf(actions, r.tokenId).Some? && r.rules == RulesOf(MintOf(actions, r.tokenId).value.rows)
  {
    hide Step, RulesOf, Logged, OwnerInv, HistoryInv, CacheInv, ResolverInv;
    var s := Run(Init(brand, credentials), actions).value;
    CacheTransparent(brand, credentials, actions, rid);
    RowsAreLogged(brand, credentials, actions);
    InitInv(brand, credentials);
    RunKeepsInv(Init(brand, credentials), actions);
    LoggedRules(brand, credentials, actions, s, s.resolvers[rid].tokenId);
    UneditedRules(actions, s.resolvers[rid].tokenId);
  }

  lemma LoggedRules(brand: string, credentials: map<string, string>, actions: seq<Action>, s: State, x: string)
    requires Logged(brand, credentials, actions, s) && HistoryInv(s) && x in s.rules
    ensures LastRules(actions, x) == Some(s.rules[x])
  {
    hide LastRules, RowLogged, MintOf, LastIssue, RevokedIn, DeletedIn;
  }

  lemma {:induction false} UneditedRules(actions: seq<Action>, x: string)
    requires NoEdits(actions) && LastRules(actions, x).Some?
    ensures MintOf(actions, x).Some? && LastRules(actions, x).value == MintOf(actions, x).value.rows
  {
    var last := actions[|actions| - 1];
    if !(last.Serve? && last.service.Mint? && last.service.tokenId == x) {
      UneditedRules(actions[..|actions| - 1], x);
    }
  }

  /** The resolve has got past its row read. */
  predicate PastRow(r: Resolver) {
    !r.Started? && !r.Rejected?
  }

  /** Only a row read that finds a usable row gets a resolve past it, and later steps keep its
      token. */
  lemma PastByRead(s: State, a: Action, rid: nat)
    requires Step(s, a).Some?
    requires rid in Step(s, a).value.resolvers && PastRow(Step(s, a).value.resolvers[rid])
    ensures var r := Step(s, a).value.resolvers[rid];
      || (rid in s.resolvers && PastRow(s.resolvers[rid])
          && s.resolvers[rid].full == r.full && s.resolvers[rid].tokenId == r.tokenId)
      || (a.Do? && a.rid == rid && a.move.ReadRow? && a.move.found == Some(r.tokenId)
          && r.tokenId in s.tokens && MayUse(s.tokens[r.tokenId], r.full, a.move.now))
  {
    hide ServeStep, Advance, MayUse;
    match a
    case Serve(service) => ServeKeepsResolvers(s, service);
    case CacheLose(_) =>
    case Begin(_, _) =>
    case Do(other, move) =>
      AdvanceSummary(s, other, move);
      if other == rid {
        if move.ReadRow? {
          PastNow(s, rid, move);
        } else {
          PastBefore(s, rid, move);
        }
      }
  }

  lemma PastNow(s: State, rid: nat, move: Move)
    requires rid in s.resolvers && Advance(s, rid, move).Some? && move.ReadRow?
    requires rid in Advance(s, rid, move).value.resolvers && PastRow(Advance(s, rid, move).value.resolvers[rid])
    ensures var r := Advance(s, rid, move).value.resolvers[rid];
      && move.found == Some(r.tokenId) && r.tokenId in s.tokens && MayUse(s.tokens[r.tokenId], r.full, move.now)
  {
    hide ParseScopedToken, ReadCacheStep, RulesToCache, RulesOf;
  }

  lemma PastBefore(s: State, rid: nat, move: Move)
    requires rid in s.resolvers && Advance(s, rid, move).Some? && !move.ReadRow?
    requires rid in Advance(s, rid, move).value.resolvers && PastRow(Advance(s, rid, move).value.resolvers[rid])
    ensures var r := Advance(s, rid, move).value.resolvers[rid];
      PastRow(s.resolvers[rid]) && s.resolvers[rid].full == r.full && s.resolvers[rid].tokenId == r.tokenId
  {
    hide ReadRowStep, ReadCacheStep, RulesToCache, RulesOf, RulesKey;
    if move.ReadCache? {
      CacheKeepsToken(s, rid, s.resolvers[rid], move.fails);
    }
  }

  lemma CacheKeepsToken(s: State, rid: nat, p: Resolver, fails: bool)
    requires p.CredentialRead?
    ensures var t := ReadCacheStep(s, rid, p.full, p.tokenId, p.row, fails);
      rid in t.resolvers
      && (PastRow(t.resolvers[rid]) ==> t.resolvers[rid].full == p.full && t.resolvers[rid].tokenId == p.tokenId)
  {
    hide CacheToRules, RulesKey, SetResolver;
    var key := RulesKey(p.row.lookupId, p.row.version);
    var r := if fails || key !in s.cache then Missed(p.full, p.tokenId, p.row)
             else match CacheToRules(s.cache[key])
                  case None => Rejected(p.full)
                  case Some(rules) => Resolved(p.full, p.tokenId, p.row.version, rules);
    SetIs(s, rid, r);
  }

  lemma SetIs(s: State, rid: nat, r: Resolver)
    ensures rid in SetResolver(s, rid, r).resolvers && SetResolver(s, rid, r).resolvers[rid] == r
  {
  }

  /** A token without its credential does not get further than its row. */
  lemma CredentialReadExactly(s: State, rid: nat)
    requires Step(s, Do(rid, ReadCredential)).Some?
    ensures rid in s.resolvers && s.resolvers[rid].RowRead?
    ensures var r := s.resolvers[rid]; var t := Step(s, Do(rid, ReadCredential)).value;
      && rid in t.resolvers
      && t.resolvers[rid] == if r.row.credentialId in s.credentials then CredentialRead(r.full, r.tokenId, r.row)
                             else Rejected(r.full)
  {
  }

  /** The resolve has its credential. */
  predicate PastCredential(r: Resolver) {
    PastRow(r) && !r.RowRead?
  }

  lemma PastByCredential(s: State, a: Action, rid: nat)
    requires Step(s, a).Some?
    requires rid in Step(s, a).value.resolvers && PastCredential(Step(s, a).value.resolvers[rid])
    ensures rid in s.resolvers
    ensures PastCredential(s.resolvers[rid])
      || (a == Do(rid, ReadCredential) && s.resolvers[rid].RowRead?
          && s.resolvers[rid].row.credentialId in s.credentials)
  {
    hide ServeStep, RulesToCache, RulesOf, CacheToRules, ParseScopedToken;
    match a
    case Serve(service) => ServeKeepsResolvers(s, service);
    case CacheLose(_) =>
    case Begin(_, _) =>
    case Do(other, move) => AdvanceSummary(s, other, move);
  }

  /** Step `i` of the run read the credential of the resolve's token, and found it. */
  ghost predicate CredentialReadAt(s0: State, actions: seq<Action>, i: nat, rid: nat) {
    && i < |actions| && actions[i] == Do(rid, ReadCredential) && Run(s0, actions[..i]).Some?
    && var s := Run(s0, actions[..i]).value;
    && rid in s.resolvers && s.resolvers[rid].RowRead? && s.resolvers[rid].row.credentialId in s.credentials
  }

  /** In any run in which a resolve begins, it succeeds only after it has found the credential. */
  lemma {:induction false} ResolvedHadCredential(s0: State, actions: seq<Action>, rid: nat) returns (i: nat)
    requires rid !in s0.resolvers && Run(s0, actions).Some?
    requires var t := Run(s0, actions).value; rid in t.resolvers && PastCredential(t.resolvers[rid])
    ensures CredentialReadAt(s0, actions, i, rid)
    decreases |actions|
  {
    hide Step, PastCredential;
    var n := |actions| - 1;
    Traces.RunLast(Step, s0, actions);
    var s := Run(s0, actions[..n]).value;
    PastByCredential(s, actions[n], rid);
    if PastCredential(s.resolvers[rid]) {
      i := ResolvedHadCredential(s0, actions[..n], rid);
      assert actions[..n][..i] == actions[..i];
    } else {
      i := n;
    }
  }

  /** No resolve is stuck: whatever the state, one that is not over has a next step. */
  lemma ResolveProceeds(s: State, rid: nat, now: int) returns (move: Move)
    requires rid in s.resolvers && !s.resolvers[rid].Resolved? && !s.resolvers[rid].Rejected?
    ensures Step(s, Do(rid, move)).Some?
  {
    hide ParseScopedToken, RulesKey, CacheToRules, RulesToCache, RulesOf;
    match s.resolvers[rid]
    case Started(full) =>
      var found := FindRow(s.tokens, if ParseScopedToken(full).Some? then ParseScopedToken(full).value.0 else "");
      move := ReadRow(now, found);
    case RowRead(_, _, _) => move := ReadCredential;
    case CredentialRead(_, _, _) => move := ReadCache(false);
    case Missed(_, _, _) => move := SelectRules;
    case Selected(_, _, _, _) => move := WriteCache(false);
  }

  lemma FindRow(tokens: map<string, TokenRow>, lookupId: string) returns (found: Option<string>)
    ensures Finds(tokens, lookupId, found)
  {
    if x :| x in tokens && tokens[x].lookupId == lookupId {
      found := Some(x);
    } else {
      found := None;
    }
  }

  /** Step `i` of the run read the token's row for the resolve, and found it usable. */
  ghost predicate RowReadAt(s0: State, actions: seq<Action>, i: nat, now: int, rid: nat, full: string, tokenId: string)
  {
    && i < |actions| && actions[i] == Do(rid, ReadRow(now, Some(tokenId)))
    && Run(s0, actions[..i]).Some?
    && var s := Run(s0, actions[..i]).value;
    && tokenId in s.tokens && MayUse(s.tokens[tokenId], full, now)
  }

  ghost predicate RowWasRead(s0: State, actions: seq<Action>, rid: nat, full: string, tokenId: string) {
    exists i: nat, now: int :: RowReadAt(s0, actions, i, now, rid, full, tokenId)
  }

  /** In any run in which a resolve begins, it gets past its row read only by one. */
  lemma {:induction false} PastWasRead(s0: State, actions: seq<Action>, rid: nat)
    requires rid !in s0.resolvers && Run(s0, actions).Some?
    requires var t := Run(s0, actions).value; rid in t.resolvers && PastRow(t.resolvers[rid])
    ensures var r := Run(s0, actions).value.resolvers[rid]; RowWasRead(s0, actions, rid, r.full, r.tokenId)
    decreases |actions|
  {
    hide Step, MayUse;
    var n := |actions| - 1;
    Traces.RunLast(Step, s0, actions);
    var s, r := Run(s0, actions[..n]).value, Run(s0, actions).value.resolvers[rid];
    PastByRead(s, actions[n], rid);
    if rid in s.resolvers && PastRow(s.resolvers[rid])
       && s.resolvers[rid].full == r.full && s.resolvers[rid].tokenId == r.tokenId {
      PastWasRead(s0, actions[..n], rid);
      var i: nat, now: int :| RowReadAt(s0, actions[..n], i, now, rid, r.full, r.tokenId);
      assert actions[..n][..i] == actions[..i];
      assert RowReadAt(s0, actions, i, now, rid, r.full, r.tokenId);
    } else {
      assert RowReadAt(s0, actions, n, actions[n].move.now, rid, r.full, r.tokenId);
    }
  }
}
