/** The OAuth access token of one credential as a state machine: any number of requests that
    need the token, the login callback that replaces it, and the passing of time, in any
    interleaving. Different credentials share neither row nor cache entry. */
module OAuthRefresh {
  import Traces
  import opened Text

  /** `locking` is whether the database has row locks (MySQL) or not (SQLite). */
  datatype Config = Config(locking: bool, skew: int)

  /** The credential's row. `stampedAt` is the clock reading that `expiresAt` was counted from;
      no step decides on it. */
  datatype Row = Row(
    access: Option<string>,
    refresh: Option<string>,
    expiresAt: Option<int>,
    version: nat,
    stampedAt: int)

  /** A cached access token, the time it expires at, and the time it was written. */
  datatype Cached = Cached(token: string, until: int, wroteAt: int)

  /** What the authorization server knows of an access token it issued. */
  datatype Issue = Issue(at: int, expiresIn: Option<int>)

  /** A token response; the access token is optional only towards the login callback. */
  datatype Tokens = Tokens(access: Option<string>, refresh: Option<string>, expiresIn: Option<int>)

  datatype Phase =
    | Started
    | Missed
    | RowRead(row: Row)
    | Refreshing(row: Row, readAt: int)
    | Awaiting(row: Row, readAt: int)
    | Granted(row: Row, readAt: int, access: string, refresh: Option<string>, expiresIn: Option<int>)
    | Updated(access: string, expiresIn: Option<int>)
    | Returned(token: string)
    | Failed
    | Closed(outcome: Option<string>)

  /** A refresh grant sent: by whom, with which refresh token, of which row version. */
  datatype Sent = Sent(q: nat, token: string, version: nat)

  /** A refresh persisted: by whom, and the row version that it replaced. */
  datatype Write = Write(q: nat, from: nat)

  /** An access token handed to a request, and the time its lifetime was counted from. */
  datatype Handed = Handed(q: nat, token: string, at: int, stamp: int)

  /** `issued` and `refreshIssued` are the server's; `refreshAt`, `sent`, `writes` and `handed`
      record what happened. */
  datatype State = State(
    now: int,
    row: Row,
    holder: Option<nat>,
    cache: Option<Cached>,
    phases: map<nat, Phase>,
    issued: map<string, Issue>,
    refreshIssued: set<string>,
    refreshAt: map<nat, Option<string>>,
    sent: seq<Sent>,
    writes: seq<Write>,
    handed: seq<Handed>)

  datatype Move =
    | ReadCache(fails: bool)
    | ReadRow
    | CheckExpiry
    | Send
    | Grant(access: string, refresh: Option<string>, expiresIn: Option<int>)
    | Fail
    | Update
    | WriteCache(stored: bool)
    | Close

  datatype Action =
    | Begin(q: nat)
    | Do(q: nat, move: Move)
    | Callback(tokens: Tokens, issuedAt: int)
    | CacheLose
    | Tick(seconds: nat)

  /** Python truth of a token in a response: an empty one counts as absent. */
  function Given(token: Option<string>): Option<string> {
    if token == Some("") then None else token
  }

  function OrElse(token: Option<string>, kept: Option<string>): Option<string> {
    if token.Some? then token else kept
  }

  function Expiry(from: int, expiresIn: Option<int>): Option<int> {
    if expiresIn.Some? then Some(from + expiresIn.value) else None
  }

  function Max(a: int, b: int): int {
    if a < b then b else a
  }

  /** The cache entry's time to live. */
  function Ttl(config: Config, expiresIn: int): int {
    Max(expiresIn - config.skew, 1)
  }

  /** The row after the login callback. */
  function CallbackRow(row: Row, tokens: Tokens, now: int): Row {
    Row(OrElse(Given(tokens.access), row.access), OrElse(Given(tokens.refresh), row.refresh),
        Expiry(now, tokens.expiresIn), row.version + 1, now)
  }

  /** The row after a refresh of the row as it was read. */
  function RefreshedRow(row: Row, readAt: int, access: string, refresh: Option<string>, expiresIn: Option<int>): Row {
    Row(Some(access), OrElse(Given(refresh), row.refresh), Expiry(readAt, expiresIn), row.version + 1, readAt)
  }

  predicate StillValid(config: Config, row: Row, now: int) {
    row.expiresAt.Some? && row.expiresAt.value - config.skew > now
  }

  function Goto(s: State, q: nat, phase: Phase): State {
    s.(phases := s.phases[q := phase])
  }

  /** The request has its token. */
  function Hand(s: State, q: nat, token: string, stamp: int): State {
    Goto(s, q, Returned(token)).(handed := s.handed + [Handed(q, token, s.now, stamp)])
  }

  function Released(s: State, q: nat): Option<nat> {
    if s.holder == Some(q) then None else s.holder
  }

  predicate NewTokens(s: State, access: Option<string>, refresh: Option<string>) {
    && (access.Some? ==> access.value !in s.issued)
    && (refresh.Some? ==> refresh.value !in s.refreshIssued)
  }

  /** The server issues tokens that it never issued before. */
  function IssueTokens(s: State, access: Option<string>, refresh: Option<string>, expiresIn: Option<int>,
                       at: int): State {
    s.(issued := if access.Some? then s.issued[access.value := Issue(at, expiresIn)] else s.issued,
       refreshIssued := if refresh.Some? then s.refreshIssued + {refresh.value} else s.refreshIssued)
  }

  function WithRow(s: State, row: Row): State {
    s.(row := row, refreshAt := s.refreshAt[row.version := row.refresh])
  }

  /** The clock is read, and the row's own token is returned while it is valid. */
  function CheckStep(config: Config, s: State, q: nat, row: Row): State {
    if StillValid(config, row, s.now) then
      if row.access.Some? then Hand(s, q, row.access.value, row.stampedAt) else Goto(s, q, Failed)
    else if row.refresh.Some? then Goto(s, q, Refreshing(row, s.now))
    else Goto(s, q, Failed)
  }

  function GrantStep(s: State, q: nat, row: Row, readAt: int,
                     access: string, refresh: Option<string>, expiresIn: Option<int>): Option<State>
  {
    if !NewTokens(s, Some(access), Given(refresh)) then None
    else
      Some(Goto(IssueTokens(s, Some(access), Given(refresh), expiresIn, s.now), q,
                Granted(row, readAt, access, refresh, expiresIn)))
  }

  /** The conditional update: without effect on the row unless its version is the one read. */
  function UpdateStep(s: State, q: nat, row: Row, readAt: int,
                      access: string, refresh: Option<string>, expiresIn: Option<int>): State
  {
    var t := Goto(s, q, Updated(access, expiresIn)).(holder := Released(s, q));
    if s.row.version != row.version then t
    else
      WithRow(t, RefreshedRow(row, readAt, access, refresh, expiresIn)).(writes := s.writes + [Write(q, row.version)])
  }

  function WriteCacheStep(config: Config, s: State, q: nat, access: string, expiresIn: Option<int>,
                          stored: bool): State {
    var entry :=
      if stored && expiresIn.Some? then Some(Cached(access, s.now + Ttl(config, expiresIn.value), s.now)) else s.cache;
    Hand(s, q, access, s.now).(cache := entry)
  }

  function Advance(config: Config, s: State, q: nat, move: Move): Option<State>
    requires q in s.phases
  {
    var p := s.phases[q];
    match move
    case ReadCache(fails) =>
      if !p.Started? then None
      else if !fails && s.cache.Some? && s.now < s.cache.value.until then
        Some(Hand(s, q, s.cache.value.token, s.cache.value.wroteAt))
      else Some(Goto(s, q, Missed))
    case ReadRow =>
      if !p.Missed? || (config.locking && s.holder.Some?) then None
      else Some(Goto(s, q, RowRead(s.row)).(holder := if config.locking then Some(q) else s.holder))
    case CheckExpiry => if p.RowRead? then Some(CheckStep(config, s, q, p.row)) else None
    case Send =>
      if !p.Refreshing? || p.row.refresh.None? then None
      else
        Some(Goto(s, q, Awaiting(p.row, p.readAt)).(
          sent := s.sent + [Sent(q, p.row.refresh.value, p.row.version)]))
    case Grant(access, refresh, expiresIn) =>
      if p.Awaiting? then GrantStep(s, q, p.row, p.readAt, access, refresh, expiresIn) else None
    case Fail => if p.Missed? || p.Awaiting? || p.Granted? then Some(Goto(s, q, Failed)) else None
    case Update =>
      if p.Granted? then Some(UpdateStep(s, q, p.row, p.readAt, p.access, p.refresh, p.expiresIn)) else None
    case WriteCache(stored) =>
      if p.Updated? then Some(WriteCacheStep(config, s, q, p.access, p.expiresIn, stored)) else None
    case Close =>
      if p.Returned? then Some(Goto(s, q, Closed(Some(p.token))).(holder := Released(s, q)))
      else if p.Failed? then Some(Goto(s, q, Closed(None)).(holder := Released(s, q)))
      else None
  }

  /** The login callback, one transaction; it waits for a row lock. Its clock reading comes
      after the server issued the tokens. */
  function CallbackStep(config: Config, s: State, tokens: Tokens, issuedAt: int): Option<State> {
    if (config.locking && s.holder.Some?) || issuedAt > s.now then None
    else if !NewTokens(s, Given(tokens.access), Given(tokens.refresh)) then None
    else
      Some(WithRow(IssueTokens(s, Given(tokens.access), Given(tokens.refresh), tokens.expiresIn, issuedAt),
                   CallbackRow(s.row, tokens, s.now)))
  }

  /** `None` when the action is not enabled. */
  function Step(config: Config, s: State, a: Action): Option<State> {
    match a
    case Begin(q) => if q in s.phases then None else Some(Goto(s, q, Started))
    case Do(q, move) => if q in s.phases then Advance(config, s, q, move) else None
    case Callback(tokens, issuedAt) => CallbackStep(config, s, tokens, issuedAt)
    case CacheLose => Some(s.(cache := None))
    case Tick(seconds) => Some(s.(now := s.now + seconds))
  }

  /** The machine as a step function. */
  function Steps(config: Config): (State, Action) -> Option<State> {
    (s: State, a: Action) => Step(config, s, a)
  }

  function Run(config: Config, s: State, actions: seq<Action>): Option<State> {
    Traces.Run(Steps(config), s, actions)
  }

  /** The credential's row before any login has filled it in. */
  function Init(now: int): State {
    var row := Row(None, None, None, 0, now);
    State(now, row, None, None, map[], map[], {}, map[0 := None], [], [], [])
  }
}
