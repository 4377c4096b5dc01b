/** Scoped tokens, their rules and the version-keyed rules cache as a state machine: service
    operations, cache losses, and resolves that are in progress, in any interleaving. */
module TokenLifecycle {
  import Traces
  import opened Text
  import opened Scope
  import opened TokenLayout
  import opened RulesCache

  datatype Status = Active | Revoked

  /** The hash of a token string: opaque, and different for different strings. */
  datatype Digest = Digest(of: string)

  datatype TokenRow = TokenRow(
    userId: string,
    credentialId: string,
    lookupId: string,
    tokenHash: Digest,
    version: nat,
    status: Status,
    expiresAt: Option<int>)

  /** A resolve in progress: the token row as it was read, then the rules. */
  datatype Resolver =
    | Started(full: string)
    | RowRead(full: string, tokenId: string, row: TokenRow)
    | CredentialRead(full: string, tokenId: string, row: TokenRow)
    | Missed(full: string, tokenId: string, row: TokenRow)
    | Selected(full: string, tokenId: string, row: TokenRow, rows: seq<RuleRow>)
    | Resolved(full: string, tokenId: string, version: nat, rules: seq<Rule>)
    | Rejected(full: string)

  /** `owner` records every lookup id ever issued with the row it was issued for, and `history`
      the rules of each row by version; both are bookkeeping that no operation decides on,
      except that lookup ids are drawn fresh. */
  datatype State = State(
    brand: string,
    tokens: map<string, TokenRow>,
    rules: map<string, seq<RuleRow>>,
    credentials: map<string, string>,
    cache: map<string, seq<RuleDict>>,
    resolvers: map<nat, Resolver>,
    owner: map<string, string>,
    history: map<string, map<nat, seq<RuleRow>>>)

  /** The operations of the management services, each one transaction. `valid` is the outcome of
      validating the rules of a token to be minted. `EditRules` is the rule
      edit with a version bump that the cache is designed for; the services have none. */
  datatype Service =
    | Mint(tokenId: string, userId: string, credentialId: string, expiresAt: Option<int>,
           rows: seq<RuleRow>, valid: bool, lookupId: string, secret: string)
    | Rotate(userId: string, tokenId: string, lookupId: string, secret: string)
    | Revoke(userId: string, tokenId: string)
    | DeleteCredential(userId: string, credentialId: string)
    | EditRules(tokenId: string, rows: seq<RuleRow>)

  datatype Move =
    | ReadRow(now: int, found: Option<string>)
    | ReadCredential
    | ReadCache(fails: bool)
    | SelectRules
    | WriteCache(stored: bool)

  datatype Action =
    | Serve(service: Service)
    | CacheLose(keys: set<string>)
    | Begin(rid: nat, full: string)
    | Do(rid: nat, move: Move)

  predicate FreshlyDrawn(s: State, lookupId: string, secret: string) {
    Drawn(lookupId, LOOKUP_ID_LEN) && Drawn(secret, SECRET_LEN) && lookupId !in s.owner
  }

  predicate Owns(s: State, userId: string, tokenId: string) {
    tokenId in s.tokens && s.tokens[tokenId].userId == userId
  }

  function MintRow(s: State, userId: string, credentialId: string, expiresAt: Option<int>, lookupId: string,
                   secret: string): TokenRow {
    TokenRow(userId, credentialId, lookupId, Digest(FullToken(s.brand, lookupId, secret)), 1, Active, expiresAt)
  }

  function RotateRow(s: State, row: TokenRow, lookupId: string, secret: string): TokenRow {
    row.(lookupId := lookupId, tokenHash := Digest(FullToken(s.brand, lookupId, secret)), version := row.version + 1)
  }

  function RevokeRow(row: TokenRow): TokenRow {
    row.(status := Revoked, version := row.version + 1)
  }

  predicate Dependent(row: TokenRow, credentialId: string) {
    row.credentialId == credentialId && row.status == Active
  }

  function CascadeRows(tokens: map<string, TokenRow>, credentialId: string): map<string, TokenRow> {
    map t | t in tokens :: if Dependent(tokens[t], credentialId) then RevokeRow(tokens[t]) else tokens[t]
  }

  function RowsOf(rules: map<string, seq<RuleRow>>, tokenId: string): seq<RuleRow> {
    if tokenId in rules then rules[tokenId] else []
  }

  /** The history once every row's current rules are noted under its current version. */
  function Noted(tokens: map<string, TokenRow>, rules: map<string, seq<RuleRow>>,
                 history: map<string, map<nat, seq<RuleRow>>>): map<string, map<nat, seq<RuleRow>>>
  {
    map t | t in tokens ::
      var past: map<nat, seq<RuleRow>> := if t in history then history[t] else map[];
      past[tokens[t].version := RowsOf(rules, t)]
  }

  function WithRows(s: State, tokens: map<string, TokenRow>, rules: map<string, seq<RuleRow>>): State {
    s.(tokens := tokens, rules := rules, history := Noted(tokens, rules, s.history))
  }

  /** `None` when the operation raises, which changes nothing. */
  function ServeStep(s: State, service: Service): Option<State> {
    match service
    case Mint(t, userId, credentialId, expiresAt, rows, valid, lookupId, secret) =>
      if t in s.tokens || !FreshlyDrawn(s, lookupId, secret) then None
      else if credentialId !in s.credentials || s.credentials[credentialId] != userId then None
      else if !valid then None
      else
        Some(WithRows(s.(owner := s.owner[lookupId := t]),
                      s.tokens[t := MintRow(s, userId, credentialId, expiresAt, lookupId, secret)], s.rules[t := rows]))
    case Rotate(userId, t, lookupId, secret) =>
      if !Owns(s, userId, t) || !FreshlyDrawn(s, lookupId, secret) then None
      else
        Some(WithRows(s.(owner := s.owner[lookupId := t]),
                      s.tokens[t := RotateRow(s, s.tokens[t], lookupId, secret)], s.rules))
    case Revoke(userId, t) =>
      if !Owns(s, userId, t) then None
      else Some(WithRows(s, s.tokens[t := RevokeRow(s.tokens[t])], s.rules))
    case DeleteCredential(userId, c) =>
      if c !in s.credentials || s.credentials[c] != userId then None
      else Some(WithRows(s.(credentials := s.credentials - {c}), CascadeRows(s.tokens, c), s.rules))
    case EditRules(t, rows) =>
      if t !in s.tokens then None
      else
        Some(WithRows(s, s.tokens[t := s.tokens[t].(version := s.tokens[t].version + 1)], s.rules[t := rows]))
  }

  /** The checks on the row found for the presented token. */
  predicate Accepts(row: TokenRow, full: string, now: int) {
    && row.tokenHash == Digest(full)
    && row.status == Active
    && !(row.expiresAt.Some? && row.expiresAt.value < now)
  }

  function SetResolver(s: State, rid: nat, r: Resolver): State {
    s.(resolvers := s.resolvers[rid := r])
  }

  /** `found` is what the indexed SELECT by lookup id returns. */
  predicate Finds(tokens: map<string, TokenRow>, lookupId: string, found: Option<string>) {
    if found.Some? then found.value in tokens && tokens[found.value].lookupId == lookupId
    else forall t | t in tokens :: tokens[t].lookupId != lookupId
  }

  function ReadRowStep(s: State, rid: nat, full: string, now: int, found: Option<string>): Option<State> {
    match ParseScopedToken(full)
    case None => Some(SetResolver(s, rid, Rejected(full)))
    case Some((lookupId, _)) =>
      if !Finds(s.tokens, lookupId, found) then None
      else if found == None || !Accepts(s.tokens[found.value], full, now) then Some(SetResolver(s, rid, Rejected(full)))
      else Some(SetResolver(s, rid, RowRead(full, found.value, s.tokens[found.value])))
  }

  function ReadCacheStep(s: State, rid: nat, full: string, tokenId: string, row: TokenRow, fails: bool): State {
    var key := RulesKey(row.lookupId, row.version);
    if fails || key !in s.cache then SetResolver(s, rid, Missed(full, tokenId, row))
    else match CacheToRules(s.cache[key])
         case None => SetResolver(s, rid, Rejected(full))
         case Some(rules) => SetResolver(s, rid, Resolved(full, tokenId, row.version, rules))
  }

  function Advance(s: State, rid: nat, move: Move): Option<State>
    requires rid in s.resolvers
  {
    var r := s.resolvers[rid];
    match move
    case ReadRow(now, found) => if r.Started? then ReadRowStep(s, rid, r.full, now, found) else None
    case ReadCredential =>
      if !r.RowRead? then None
      else if r.row.credentialId in s.credentials then
        Some(SetResolver(s, rid, CredentialRead(r.full, r.tokenId, r.row)))
      else Some(SetResolver(s, rid, Rejected(r.full)))
    case ReadCache(fails) =>
      if r.CredentialRead? then Some(ReadCacheStep(s, rid, r.full, r.tokenId, r.row, fails)) else None
    case SelectRules =>
      if !r.Missed? then None
      else Some(SetResolver(s, rid, Selected(r.full, r.tokenId, r.row, RowsOf(s.rules, r.tokenId))))
    case WriteCache(stored) =>
      if !r.Selected? then None
      else
        var key := RulesKey(r.row.lookupId, r.row.version);
        var cache := if stored then s.cache[key := RulesToCache(r.rows)] else s.cache;
        Some(SetResolver(s, rid, Resolved(r.full, r.tokenId, r.row.version, RulesOf(r.rows))).(cache := cache))
  }

  /** `None` when the action is not enabled, or is an operation that raises. */
  function Step(s: State, a: Action): Option<State> {
    match a
    case Serve(service) => ServeStep(s, service)
    case CacheLose(keys) => Some(s.(cache := s.cache - keys))
    case Begin(rid, full) => if rid in s.resolvers then None else Some(SetResolver(s, rid, Started(full)))
    case Do(rid, move) => if rid in s.resolvers then Advance(s, rid, move) else None
  }

  function Run(s: State, actions: seq<Action>): Option<State> {
    Traces.Run(Step, s, actions)
  }

  function Init(brand: string, credentials: map<string, string>): State {
    State(brand, map[], map[], credentials, map[], map[], map[], map[])
  }
}
