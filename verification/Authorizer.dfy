/** The per-method authorization decision for one proxied DNS-record request. */
module Authorizer {
  import opened Text
  import opened Fqdn
  import opened Scope
  import opened RuleTheorems
  import opened Raising

  datatype Method = Post | Get | Patch | Put | DeleteMethod | OtherMethod(text: string)

  const FORBIDDEN := 9109
  const RECORD_NOT_FOUND := 81044

  datatype ApiError = ApiError(status: int, code: int, message: string)

  const INSUFFICIENT_SCOPE := ApiError(403, FORBIDDEN, "Authorization error: insufficient scope")
  const UNSUPPORTED_METHOD := ApiError(403, FORBIDDEN, "Authorization error: unsupported method")
  const NO_SUCH_RECORD := ApiError(404, RECORD_NOT_FOUND, "Record does not exist.")

  /** A record payload as the upstream sends it. */
  datatype Record = Record(id: Option<string>, zoneId: Option<string>, image: Image, content: Option<string>)

  /** `FetchFailed` stands for an upstream error other than 404, which raises. */
  datatype Fetched = Found(record: Record) | Missing | FetchFailed

  datatype AuthDecision = AuthDecision(
    allowed: bool,
    needsLock: bool,
    error: Option<ApiError>,
    preImage: Option<Record>)

  /** `Crashed` stands for an exception that reaches the caller. */
  datatype Outcome = Decided(decision: AuthDecision) | Crashed

  const EMPTY_BODY := Body(Absent, Absent, Absent)

  function BodyOrEmpty(body: Option<Body>): Body {
    if body.Some? then body.value else EMPTY_BODY
  }

  /** The operation a by-id method performs; `None` for methods that have none. */
  function OpOf(m: Method): Option<Need> {
    match m
    case Get => Some(Read)
    case Patch => Some(Write)
    case Put => Some(Write)
    case DeleteMethod => Some(Delete)
    case _ => None
  }

  function Deny(needsLock: bool, error: ApiError, preImage: Option<Record>): Outcome {
    Decided(AuthDecision(false, needsLock, Some(error), preImage))
  }

  function AuthorizeCreate(rules: seq<Rule>, zoneId: string, body: Option<Body>): Outcome {
    var b := BodyOrEmpty(body);
    match MatchRules(rules, zoneId, b.name.Or(None), b.rtype.Or(None), None, Create)
    case Granted => Decided(AuthDecision(true, false, None, None))
    case Refused => Deny(false, INSUFFICIENT_SCOPE, None)
    case Raised => Crashed
  }

  /** The decision once the record has been fetched. */
  function AuthorizeFetched(rules: seq<Rule>, m: Method, op: Need, zoneId: string, recordId: string,
                            body: Option<Body>, needsLock: bool, fetched: Fetched): Outcome
  {
    match fetched
    case FetchFailed => Crashed
    case Missing => Deny(needsLock, NO_SUCH_RECORD, None)
    case Found(pre) =>
      if pre.zoneId != None && pre.zoneId != Some(zoneId) then Deny(needsLock, NO_SUCH_RECORD, None)
      else
        match MatchRules(rules, zoneId, pre.image.name, pre.image.rtype, Some(recordId), op)
        case Raised => Crashed
        case Refused => Deny(needsLock, NO_SUCH_RECORD, Some(pre))
        case Granted =>
          var post := MergePatchImage(pre.image, BodyOrEmpty(body));
          if (m == Patch || m == Put) && post != pre.image then
            match MatchRules(rules, zoneId, post.name, post.rtype, Some(recordId), op)
            case Raised => Crashed
            case Refused => Deny(needsLock, INSUFFICIENT_SCOPE, Some(pre))
            case Granted => Decided(AuthDecision(true, needsLock, None, Some(pre)))
          else Decided(AuthDecision(true, needsLock, None, Some(pre)))
  }

  function AuthorizeDnsRequest(rules: seq<Rule>, m: Method, zoneId: string, recordId: string,
                               body: Option<Body>, fetch: (string, string) -> Fetched): Outcome
  {
    if m == Post then AuthorizeCreate(rules, zoneId, body)
    else match OpOf(m)
         case None => Deny(false, UNSUPPORTED_METHOD, None)
         case Some(op) =>
           var needsLock := m != Get && !IsLockExempt(rules, zoneId, recordId, op);
           AuthorizeFetched(rules, m, op, zoneId, recordId, body, needsLock, fetch(zoneId, recordId))
  }

  /** The fetched record belongs to the request's zone and the rules grant `op` on it. */
  predicate Authorized(rules: seq<Rule>, op: Need, zoneId: string, recordId: string, fetched: Fetched) {
    && fetched.Found?
    && (fetched.record.zoneId == None || fetched.record.zoneId == Some(zoneId))
    && MatchRules(rules, zoneId, fetched.record.image.name, fetched.record.image.rtype, Some(recordId), op) == Granted
  }

  /** What the record would look like after the request. */
  function PostImage(m: Method, body: Option<Body>, pre: Image): Image {
    if m == Patch || m == Put then MergePatchImage(pre, BodyOrEmpty(body)) else pre
  }

  predicate Allowed(outcome: Outcome) {
    outcome.Decided? && outcome.decision.allowed
  }

  /** A by-id request is allowed exactly when the rules grant its operation on the record as
      fetched and on the record as it would become; the decision then carries the fetched
      record. */
  lemma AllowedMeaning(rules: seq<Rule>, m: Method, zoneId: string, recordId: string,
                       body: Option<Body>, fetch: (string, string) -> Fetched)
    requires OpOf(m).Some?
    ensures var op, fetched := OpOf(m).value, fetch(zoneId, recordId);
      Allowed(AuthorizeDnsRequest(rules, m, zoneId, recordId, body, fetch)) <==>
        && Authorized(rules, op, zoneId, recordId, fetched)
        && var post := PostImage(m, body, fetched.record.image);
           MatchRules(rules, zoneId, post.name, post.rtype, Some(recordId), op) == Granted
    ensures Allowed(AuthorizeDnsRequest(rules, m, zoneId, recordId, body, fetch)) ==>
      fetch(zoneId, recordId).Found?
      && AuthorizeDnsRequest(rules, m, zoneId, recordId, body, fetch).decision.preImage
         == Some(fetch(zoneId, recordId).record)
  {
  }

  /** What the other methods come to, whatever the upstream has: a create is allowed exactly when
      the rules grant it on the name and the type that it asks for, without a record id, is told
      403 when they do not, and needs no lock; a method that has no operation is refused. */
  lemma OtherMethodsMeaning(rules: seq<Rule>, m: Method, zoneId: string, recordId: string, body: Option<Body>,
                            fetch: (string, string) -> Fetched)
    requires m == Post || m.OtherMethod?
    ensures var name := if body.Some? && body.value.name.Present? then body.value.name.value else None;
      var rtype := if body.Some? && body.value.rtype.Present? then body.value.rtype.value else None;
      AuthorizeDnsRequest(rules, m, zoneId, recordId, body, fetch)
      == if m.OtherMethod? then
           Decided(AuthDecision(false, false,
                                Some(ApiError(403, 9109, "Authorization error: unsupported method")), None))
         else match MatchRules(rules, zoneId, name, rtype, None, Create)
              case Granted => Decided(AuthDecision(true, false, None, None))
              case Refused =>
                Decided(AuthDecision(false, false,
                                     Some(ApiError(403, 9109, "Authorization error: insufficient scope")), None))
              case Raised => Crashed
  {
    hide MatchRules;
  }

  /** The lock the decision asks for is the lock the router takes: a mutation needs it exactly
      when it is not exempt, whatever was fetched. */
  lemma NeedsLockIsNotExempt(rules: seq<Rule>, m: Method, zoneId: string, recordId: string,
                             body: Option<Body>, fetch: (string, string) -> Fetched)
    requires OpOf(m).Some? && AuthorizeDnsRequest(rules, m, zoneId, recordId, body, fetch).Decided?
    ensures AuthorizeDnsRequest(rules, m, zoneId, recordId, body, fetch).decision.needsLock
      <==> m != Get && !IsLockExempt(rules, zoneId, recordId, OpOf(m).value)
  {
  }

  /** What a caller sees of a request that is not allowed: an error response, or a server error
      for an exception. */
  datatype Seen = Error(error: ApiError) | ServerError | Nothing

  function SeenBy(outcome: Outcome): Seen {
    match outcome
    case Crashed => ServerError
    case Decided(d) => if d.error.Some? then Error(d.error.value) else Nothing
  }

  /** Matching the record as it stands, or as it would become, raises. */
  predicate MatchingRaises(rules: seq<Rule>, m: Method, op: Need, zoneId: string, recordId: string,
                           body: Option<Body>, fetched: Fetched)
  {
    && fetched.Found? && (fetched.record.zoneId == None || fetched.record.zoneId == Some(zoneId))
    && var pre := fetched.record.image; var post := PostImage(m, body, pre);
    && (MatchRules(rules, zoneId, pre.name, pre.rtype, Some(recordId), op) == Raised
        || (MatchRules(rules, zoneId, pre.name, pre.rtype, Some(recordId), op) == Granted
            && MatchRules(rules, zoneId, post.name, post.rtype, Some(recordId), op) == Raised))
  }

  /** What denials show. The response is the fixed 404 exactly when the record is not authorized
      and nothing raises, so missing, foreign and unauthorized records look alike; it is a server
      error exactly when the fetch fails or matching raises; and a 403 on a by-id request is only
      ever shown to a caller who may already operate on the record as it stands. */
  lemma DenialsDoNotLeak(rules: seq<Rule>, m: Method, zoneId: string, recordId: string,
                         body: Option<Body>, fetch: (string, string) -> Fetched)
    requires OpOf(m).Some?
    ensures var op, fetched := OpOf(m).value, fetch(zoneId, recordId);
      var seen := SeenBy(AuthorizeDnsRequest(rules, m, zoneId, recordId, body, fetch));
      && (seen == ServerError
          <==> fetched.FetchFailed? || MatchingRaises(rules, m, op, zoneId, recordId, body, fetched))
      && (seen == Error(NO_SUCH_RECORD)
          <==> !Authorized(rules, op, zoneId, recordId, fetched) && seen != ServerError)
      && (seen.Error? && seen.error.status == 403 ==>
            && Authorized(rules, op, zoneId, recordId, fetched)
            && (m == Patch || m == Put)
            && PostImage(m, body, fetched.record.image) != fetched.record.image)
  {
    hide MatchRules;
  }

  function DecideOn(rules: seq<Rule>, m: Method, zoneId: string, recordId: string, body: Option<Body>,
                    fetched: Fetched): Outcome {
    AuthorizeDnsRequest(rules, m, zoneId, recordId, body, (zone, id) => fetched)
  }

  /** A record that the upstream answers with, that is out of the token's reach. */
  ghost predicate OutOfReach(rules: seq<Rule>, op: Need, zoneId: string, recordId: string, fetched: Fetched) {
    && fetched.Found? && CanonicalName(fetched.record.image.name).Some?
    && !InReach(rules, zoneId, fetched.record.image, Some(recordId), op)
  }

  /** No existence leak, exactly: a record out of the token's reach looks missing, whatever its
      name and type, exactly when no broken rule is for records of a type that no nameless rule
      grants. Minting accepts rule sets for which one is. */
  lemma LooksMissingExactly(rules: seq<Rule>, m: Method, zoneId: string, recordId: string, body: Option<Body>)
    requires OpOf(m).Some?
    ensures (forall fetched | OutOfReach(rules, OpOf(m).value, zoneId, recordId, fetched) ::
               SeenBy(DecideOn(rules, m, zoneId, recordId, body, fetched)) == Error(NO_SUCH_RECORD))
      <==> forall rtype :: Compensated(rules, zoneId, rtype, Some(recordId), OpOf(m).value)
  {
    hide MatchRules, Compensated, InReach, CanonicalName;
    var op := OpOf(m).value;
    if forall rtype :: Compensated(rules, zoneId, rtype, Some(recordId), op) {
      forall fetched | OutOfReach(rules, op, zoneId, recordId, fetched)
        ensures SeenBy(DecideOn(rules, m, zoneId, recordId, body, fetched)) == Error(NO_SUCH_RECORD)
      {
        OutOfReachRefused(rules, zoneId, fetched.record.image, Some(recordId), op);
      }
    } else {
      var rtype :| !Compensated(rules, zoneId, rtype, Some(recordId), op);
      var image := Revealing(rules, rtype);
      UncompensatedReveals(rules, zoneId, rtype, Some(recordId), op);
      var fetched := Found(Record(Some(recordId), Some(zoneId), image, None));
      assert OutOfReach(rules, op, zoneId, recordId, fetched);
      assert SeenBy(DecideOn(rules, m, zoneId, recordId, body, fetched)) == ServerError;
    }
  }

  /** A by-id request never crashes on a record and a body whose names normalize, against
      rules whose patterns normalize. */
  lemma DecidedWhenNamesNormalize(rules: seq<Rule>, m: Method, zoneId: string, recordId: string,
                                  body: Option<Body>, fetch: (string, string) -> Fetched)
    requires OpOf(m).Some? && PatternsNormalize(rules)
    requires var fetched := fetch(zoneId, recordId);
      && !fetched.FetchFailed?
      && (fetched.Found? ==> CanonicalName(fetched.record.image.name).Some?
                             && CanonicalName(PostImage(m, body, fetched.record.image).name).Some?)
    ensures AuthorizeDnsRequest(rules, m, zoneId, recordId, body, fetch).Decided?
  {
    hide MatchRules, CanonicalName, PatternsNormalize, Grants, IsLockExempt;
    var fetched, op := fetch(zoneId, recordId), OpOf(m).value;
    if fetched.Found? {
      var pre := fetched.record.image;
      var post := PostImage(m, body, pre);
      MatchBySet(rules, zoneId, pre.name, pre.rtype, Some(recordId), op);
      MatchBySet(rules, zoneId, post.name, post.rtype, Some(recordId), op);
    }
  }
}
