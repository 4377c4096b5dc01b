/** The mutation protocol as a state machine: any number of requests by any tokens, whose
    steps interleave freely. Between a request's steps every other request may move. */
module MutationProtocol {
  import Traces
  import opened Text
  import opened Scope
  import opened Authorizer

  /** A record at the upstream, reachable under one zone. */
  datatype Stored = Stored(zone: string, record: Record)

  /** A mutating request with the rules its token had when it was resolved. */
  datatype Request = Request(
    rules: seq<Rule>,
    m: Method,
    zoneId: string,
    recordId: string,
    body: Option<Body>,
    credentialId: string)

  predicate Mutating(m: Method) {
    m == Post || m == Patch || m == Put || m == DeleteMethod
  }

  function Op(request: Request): Need {
    match request.m
    case Post => Create
    case DeleteMethod => Delete
    case _ => Write
  }

  /** How a request ends: a denial, an answer from the upstream (with the position of the
      forward in the event log), an exception, or the fail-closed 503. */
  datatype Reply =
    | Denied(error: Option<ApiError>, pre: Option<Record>)
    | Sent(pre: Option<Record>, event: nat)
    | Broken
    | Unavailable

  /** Where a request stands. `exempt` requests take no record lock. */
  datatype Phase =
    | Received
    | Resolving(exempt: bool)
    | RowLocked(exempt: bool)
    | Resolved(exempt: bool)
    | Inside(exempt: bool)
    | Forwarding(exempt: bool, pre: Option<Record>)
    | Leaving(exempt: bool, reply: Reply)
    | Closing(reply: Reply)
    | Finished(reply: Reply)

  /** One forward to the upstream: the record the request fetched, and the record the upstream
      had when the forward reached it. */
  datatype Event = Event(q: nat, pre: Option<Record>, found: Option<Record>, applied: bool)

  datatype Audit = Audit(q: nat, allowed: bool, pre: Option<Record>)

  datatype State = State(
    upstream: map<string, Stored>,
    usedIds: set<string>,
    rowLocks: map<string, nat>,
    recordLocks: map<string, nat>,
    requests: map<nat, Request>,
    phases: map<nat, Phase>,
    fetched: set<nat>,
    events: seq<Event>,
    audits: seq<Audit>)

  /** The record lock's name, an arbitrary function of zone and record id. */
  type LockName = (string, string) -> string

  /** The pure decisions that the protocol calls: the lock's name, the exemption test, and the
      authorization of a create and of a by-id mutation. The protocol's own laws hold of any
      such decisions; `ProxyConfig` are the proxy's. */
  datatype Config = Config(
    lockName: LockName,
    exempt: Request -> bool,
    authorizeCreate: Request -> Outcome,
    authorizeById: (Request, Fetched) -> Outcome)

  function ProxyConfig(lockName: LockName): Config {
    Config(
      lockName,
      (request: Request) => IsLockExempt(request.rules, request.zoneId, request.recordId, Op(request)),
      (request: Request) => AuthorizeCreate(request.rules, request.zoneId, request.body),
      (request: Request, fetched: Fetched) =>
        AuthorizeDnsRequest(request.rules, request.m, request.zoneId, request.recordId, request.body,
          (zone, id) => fetched))
  }

  datatype Move =
    | Decide
    | UseCachedAuth
    | LockRow
    | RowTimeOut
    | RowStillFresh
    | RowRefreshed
    | RowFailed
    | Enter
    | TimeOut
    | Fetch(fails: bool)
    | Forward(applied: bool, answered: bool, newId: string)
    | Leave
    | Close

  datatype Action = Spawn(q: nat, request: Request) | Do(q: nat, move: Move)

  function LookupStored(upstream: map<string, Stored>, zoneId: string, recordId: string): Fetched {
    if recordId in upstream && upstream[recordId].zone == zoneId then Found(upstream[recordId].record) else Missing
  }

  function FoundRecord(upstream: map<string, Stored>, request: Request): Option<Record> {
    var fetched := LookupStored(upstream, request.zoneId, request.recordId);
    if fetched.Found? then Some(fetched.record) else None
  }

  /** What the upstream does with a forwarded request that it accepts. */
  function Effect(upstream: map<string, Stored>, request: Request, newId: string): map<string, Stored> {
    var body := BodyOrEmpty(request.body);
    if request.m == Post then
      upstream[newId := Stored(request.zoneId,
        Record(Some(newId), Some(request.zoneId), Image(body.name.Or(None), body.rtype.Or(None)),
               body.content.Or(None)))]
    else if LookupStored(upstream, request.zoneId, request.recordId).Missing? then upstream
    else if request.m == DeleteMethod then upstream - {request.recordId}
    else
      var record := upstream[request.recordId].record;
      upstream[request.recordId := Stored(request.zoneId,
        record.(image := MergePatchImage(record.image, body), content := body.content.Or(record.content)))]
  }

  function Goto(s: State, q: nat, phase: Phase): State {
    s.(phases := s.phases[q := phase])
  }

  function Release(locks: map<string, nat>, q: nat): map<string, nat> {
    map name | name in locks && locks[name] != q :: locks[name]
  }

  function DecideStep(config: Config, s: State, q: nat, request: Request): State {
    if request.m == Post then
      match config.authorizeCreate(request)
      case Crashed => Goto(s, q, Closing(Broken))
      case Decided(d) =>
        if d.allowed then Goto(s, q, Resolving(true)) else Goto(s, q, Closing(Denied(d.error, None)))
    else
      Goto(s, q, Resolving(config.exempt(request)))
  }

  function EnterStep(config: Config, s: State, q: nat, request: Request, exempt: bool): Option<State> {
    var name := config.lockName(request.zoneId, request.recordId);
    if request.m == Post then Some(Goto(s, q, Forwarding(exempt, None)))
    else if exempt then Some(Goto(s, q, Inside(exempt)))
    else if name in s.recordLocks then None
    else Some(Goto(s, q, Inside(exempt)).(recordLocks := s.recordLocks[name := q]))
  }

  function FetchStep(config: Config, s: State, q: nat, request: Request, exempt: bool, fails: bool): State {
    var fetched := if fails then FetchFailed else LookupStored(s.upstream, request.zoneId, request.recordId);
    var outcome := config.authorizeById(request, fetched);
    var next :=
      match outcome
      case Crashed => Leaving(exempt, Broken)
      case Decided(d) =>
        if d.allowed then Forwarding(exempt, d.preImage) else Leaving(exempt, Denied(d.error, d.preImage));
    Goto(s, q, next).(fetched := s.fetched + {q})
  }

  /** The upstream may apply the forward or not, and may answer or not, independently. */
  function ForwardStep(s: State, q: nat, request: Request, exempt: bool, pre: Option<Record>,
                       applied: bool, answered: bool, newId: string): Option<State>
  {
    if request.m == Post && newId in s.usedIds then None
    else
      var event := Event(q, pre, FoundRecord(s.upstream, request), applied);
      var reply := if answered then Sent(pre, |s.events|) else Broken;
      Some(Goto(s, q, Leaving(exempt, reply)).(
        upstream := if applied then Effect(s.upstream, request, newId) else s.upstream,
        usedIds := if request.m == Post then s.usedIds + {newId} else s.usedIds,
        events := s.events + [event]))
  }

  /** Leaving the request: its session closes, which ends any row lock it still has, after the
      audit entry is written if there is one to write. */
  function CloseStep(s: State, q: nat, reply: Reply): State {
    var audits :=
      match reply
      case Denied(_, pre) => s.audits + [Audit(q, false, pre)]
      case Sent(pre, _) => s.audits + [Audit(q, true, pre)]
      case _ => s.audits;
    Goto(s, q, Finished(reply)).(rowLocks := Release(s.rowLocks, q), audits := audits)
  }

  function Advance(config: Config, s: State, q: nat, move: Move): Option<State>
    requires q in s.requests && q in s.phases
  {
    var request, phase := s.requests[q], s.phases[q];
    match move
    case Decide => if phase.Received? then Some(DecideStep(config, s, q, request)) else None
    case UseCachedAuth => if phase.Resolving? then Some(Goto(s, q, Resolved(phase.exempt))) else None
    case LockRow =>
      if phase.Resolving? && request.credentialId !in s.rowLocks then
        Some(Goto(s, q, RowLocked(phase.exempt)).(rowLocks := s.rowLocks[request.credentialId := q]))
      else None
    case RowTimeOut => if phase.Resolving? then Some(Goto(s, q, Closing(Broken))) else None
    case RowStillFresh => if phase.RowLocked? then Some(Goto(s, q, Resolved(phase.exempt))) else None
    case RowRefreshed =>
      if phase.RowLocked? then Some(Goto(s, q, Resolved(phase.exempt)).(rowLocks := Release(s.rowLocks, q))) else None
    case RowFailed => if phase.RowLocked? then Some(Goto(s, q, Closing(Broken))) else None
    case Enter => if phase.Resolved? then EnterStep(config, s, q, request, phase.exempt) else None
    case TimeOut => if phase.Resolved? && !phase.exempt then Some(Goto(s, q, Closing(Unavailable))) else None
    case Fetch(fails) => if phase.Inside? then Some(FetchStep(config, s, q, request, phase.exempt, fails)) else None
    case Forward(applied, answered, newId) =>
      if phase.Forwarding? then ForwardStep(s, q, request, phase.exempt, phase.pre, applied, answered, newId) else None
    case Leave =>
      if phase.Leaving? then
        Some(Goto(s, q, Closing(phase.reply)).(recordLocks := Release(s.recordLocks, q)))
      else None
    case Close => if phase.Closing? then Some(CloseStep(s, q, phase.reply)) else None
  }

  /** `None` when the action is not enabled. */
  function Step(config: Config, s: State, a: Action): Option<State> {
    match a
    case Spawn(q, request) =>
      if q in s.requests || !Mutating(request.m) then None
      else Some(s.(requests := s.requests[q := request], phases := s.phases[q := Received]))
    case Do(q, move) =>
      if q in s.requests && q in s.phases then Advance(config, s, q, move) else None
  }

  /** The machine as a step function. */
  function Steps(config: Config): (State, Action) -> Option<State> {
    (s: State, a: Action) => Step(config, s, a)
  }

  function Run(config: Config, s: State, actions: seq<Action>): Option<State> {
    Traces.Run(Steps(config), s, actions)
  }

  function Init(upstream: map<string, Stored>): State {
    State(upstream, upstream.Keys, map[], map[], map[], map[], {}, [], [])
  }
}
