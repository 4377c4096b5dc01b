/** Where the refresh protocol's promises stop: what a lost grant, a database without row locks,
    and a login without an access token lead to. */
module OAuthLimits {
  import Traces
  import opened Text
  import opened OAuthRefresh
  import opened OAuthSafety
  import opened OAuthTheorems

  /** A new request up to its locked read of the row. */
  function Reading(q: nat): seq<Action> {
    [Begin(q)] + ([Do(q, ReadCache(true))] + ([Do(q, ReadRow)] + []))
  }

  function Locked(config: Config, s: State, q: nat): State {
    if config.locking then s.(holder := Some(q)) else s
  }

  lemma ReadingRuns(config: Config, s: State, q: nat)
    requires q !in s.phases && (config.locking ==> s.holder == None)
    ensures Run(config, s, Reading(q)) == Some(Goto(Locked(config, s, q), q, RowRead(s.row)))
  {
    var s1 := Goto(s, q, Started);
    var s2 := Goto(s1, q, Missed);
    var s3 := Goto(Locked(config, s2, q), q, RowRead(s.row));
    Traces.RunCons(Steps(config), s, Begin(q), [Do(q, ReadCache(true))] + ([Do(q, ReadRow)] + []));
    Traces.RunCons(Steps(config), s1, Do(q, ReadCache(true)), [Do(q, ReadRow)] + []);
    Traces.RunCons(Steps(config), s2, Do(q, ReadRow), []);
    assert s3.phases == s.phases[q := RowRead(s.row)];
  }

  /** The request goes on to send the refresh grant. */
  function Sending(q: nat): seq<Action> {
    [Do(q, CheckExpiry)] + ([Do(q, Send)] + [])
  }

  lemma SendingRuns(config: Config, s: State, q: nat)
    requires q in s.phases && s.phases[q].RowRead?
    requires var row := s.phases[q].row; !StillValid(config, row, s.now) && row.refresh.Some?
    ensures Run(config, s, Sending(q)).Some?
    ensures var row := s.phases[q].row;
      Run(config, s, Sending(q)).value
      == Goto(s, q, Awaiting(row, s.now)).(sent := s.sent + [Sent(q, row.refresh.value, row.version)])
  {
    var row := s.phases[q].row;
    var s1 := Goto(s, q, Refreshing(row, s.now));
    Traces.RunCons(Steps(config), s, Do(q, CheckExpiry), [Do(q, Send)] + []);
    Traces.RunCons(Steps(config), s1, Do(q, Send), []);
    assert s1.phases[q := Awaiting(row, s.now)] == s.phases[q := Awaiting(row, s.now)];
  }

  /** A row that is being refreshed has expired, and stays so. */
  ghost predicate ExpiredInv(config: Config, s: State) {
    forall q | q in s.phases :: ExpiredPhase(config, s.now, s.phases[q])
  }

  predicate ExpiredPhase(config: Config, now: int, p: Phase) {
    && (p.Refreshing? ==> p.readAt <= now && !StillValid(config, p.row, p.readAt) && p.row.refresh.Some?)
    && (InGrant(p) ==> p.readAt <= now && !StillValid(config, p.row, p.readAt) && p.row.refresh.Some?)
  }

  lemma StepKeepsExpired(config: Config, s: State, a: Action)
    requires ExpiredInv(config, s) && Step(config, s, a).Some?
    ensures ExpiredInv(config, Step(config, s, a).value)
  {
    if a.Do? {
      StepMoves(config, s, a.q, a.move);
      StepExpires(config, s, a.q, a.move);
    }
  }

  lemma StepExpires(config: Config, s: State, q: nat, move: Move)
    requires Step(config, s, Do(q, move)).Some? && ExpiredInv(config, s)
    ensures var t := Step(config, s, Do(q, move)).value; q in t.phases && ExpiredPhase(config, t.now, t.phases[q])
  {
    assert ExpiredPhase(config, s.now, s.phases[q]);
  }

  lemma {:induction false} RunKeepsExpired(config: Config, s: State, actions: seq<Action>)
    requires ExpiredInv(config, s) && Run(config, s, actions).Some?
    ensures ExpiredInv(config, Run(config, s, actions).value)
    decreases |actions|
  {
    if actions != [] {
      StepKeepsExpired(config, s, actions[0]);
      RunKeepsExpired(config, Step(config, s, actions[0]).value, actions[1..]);
    }
  }

  function GivingUp(q: nat): seq<Action> {
    [Do(q, Fail)] + ([Do(q, Close)] + [])
  }

  lemma GivingUpRuns(config: Config, s: State, q: nat)
    requires q in s.phases && InGrant(s.phases[q])
    ensures Run(config, s, GivingUp(q)) == Some(Goto(s, q, Closed(None)).(holder := Released(s, q)))
  {
    var s1 := Goto(s, q, Failed);
    Traces.RunCons(Steps(config), s, Do(q, Fail), [Do(q, Close)] + []);
    Traces.RunCons(Steps(config), s1, Do(q, Close), []);
    assert s1.phases[q := Closed(None)] == s.phases[q := Closed(None)];
  }

  /** What a refresh that is lost before it is persisted costs: at any point of any run with row
      locks, if the request that waits for its grant gives up, the next request sends the same
      refresh token again, although the server may have rotated it. */
  lemma LostRefreshIsResent(config: Config, now: int, actions: seq<Action>, q: nat, r: nat)
    requires config.locking && Run(config, Init(now), actions).Some?
    requires var s := Run(config, Init(now), actions).value; q in s.phases && InGrant(s.phases[q]) && r !in s.phases
    ensures var s := Run(config, Init(now), actions).value;
      && |s.sent| > 0 && Run(config, s, GivingUp(q) + (Reading(r) + Sending(r))).Some?
      && var last := s.sent[|s.sent| - 1];
      && last.q == q
      && Run(config, s, GivingUp(q) + (Reading(r) + Sending(r))).value.sent
         == s.sent + [Sent(r, last.token, last.version)]
  {
    RunKeepsInv(config, Init(now), actions);
    RunKeepsExpired(config, Init(now), actions);
    var s := Run(config, Init(now), actions).value;
    assert ExpiredPhase(config, s.now, s.phases[q]);
    GivingUpRuns(config, s, q);
    var s1 := Run(config, s, GivingUp(q)).value;
    Traces.RunAppend(Steps(config), s, GivingUp(q), Reading(r) + Sending(r));
    ReadingRuns(config, s1, r);
    var s2 := Run(config, s1, Reading(r)).value;
    Traces.RunAppend(Steps(config), s1, Reading(r), Sending(r));
    SendingRuns(config, s2, r);
  }

  /** Without row locks: two requests that find the token expired both send the same refresh
      token, whatever the state. */
  lemma UnlockedSendsTwice(config: Config, s: State, q: nat, r: nat)
    requires !config.locking && q !in s.phases && r !in s.phases && q != r
    requires !StillValid(config, s.row, s.now) && s.row.refresh.Some?
    ensures Run(config, s, Reading(q) + (Reading(r) + (Sending(q) + Sending(r)))).Some?
    ensures Run(config, s, Reading(q) + (Reading(r) + (Sending(q) + Sending(r)))).value.sent
      == s.sent + [Sent(q, s.row.refresh.value, s.row.version), Sent(r, s.row.refresh.value, s.row.version)]
  {
    ReadingRuns(config, s, q);
    var s1 := Run(config, s, Reading(q)).value;
    Traces.RunAppend(Steps(config), s, Reading(q), Reading(r) + (Sending(q) + Sending(r)));
    ReadingRuns(config, s1, r);
    var s2 := Run(config, s1, Reading(r)).value;
    Traces.RunAppend(Steps(config), s1, Reading(r), Sending(q) + Sending(r));
    SendingRuns(config, s2, q);
    var s3 := Run(config, s2, Sending(q)).value;
    Traces.RunAppend(Steps(config), s2, Sending(q), Sending(r));
    SendingRuns(config, s3, r);
  }

  /** A login whose response has a lifetime but no access token. */
  function BareLogin(expiresIn: int): Tokens {
    Tokens(None, None, Some(expiresIn))
  }

  /** A request that finds no cached token after some seconds, up to the check of the row. */
  function Waiting(seconds: nat, q: nat): seq<Action> {
    [Tick(seconds)] + (Reading(q) + ([Do(q, CheckExpiry)] + []))
  }

  /** The row hands its token out for as long as its own record says. */
  lemma RowHandsOut(config: Config, s: State, q: nat, seconds: nat)
    requires (config.locking ==> s.holder == None) && q !in s.phases && s.row.access.Some?
    requires StillValid(config, s.row, s.now + seconds)
    ensures Run(config, s, Waiting(seconds, q)).Some?
    ensures var t := Run(config, s, Waiting(seconds, q)).value;
      && t.handed == s.handed + [Handed(q, s.row.access.value, s.now + seconds, s.row.stampedAt)]
      && t.issued == s.issued
  {
    var last := [Do(q, CheckExpiry)] + [];
    Traces.RunCons(Steps(config), s, Tick(seconds), Reading(q) + last);
    var s2 := Step(config, s, Tick(seconds)).value;
    ReadingRuns(config, s2, q);
    Traces.RunAppend(Steps(config), s2, Reading(q), last);
    var s3 := Run(config, s2, Reading(q)).value;
    Traces.RunCons(Steps(config), s3, Do(q, CheckExpiry), []);
  }

  /** Such a login restarts the lifetime of the old access token: the row then hands the token
      out for as long as the new lifetime says, past the end of its own. */
  lemma BareLoginOutlives(config: Config, s: State, q: nat, seconds: nat, expiresIn: int)
    requires (config.locking ==> s.holder == None) && q !in s.phases && s.row.access.Some?
    requires config.skew + seconds < expiresIn
    ensures var actions := [Callback(BareLogin(expiresIn), s.now)] + Waiting(seconds, q);
      && Run(config, s, actions).Some?
      && Run(config, s, actions).value.handed == s.handed + [Handed(q, s.row.access.value, s.now + seconds, s.now)]
      && Run(config, s, actions).value.issued == s.issued
  {
    Traces.RunCons(Steps(config), s, Callback(BareLogin(expiresIn), s.now), Waiting(seconds, q));
    RowHandsOut(config, Step(config, s, Callback(BareLogin(expiresIn), s.now)).value, q, seconds);
  }

  /** A login without an access token that records a lifetime. */
  predicate Bare(a: Action) {
    a.Callback? && Given(a.tokens.access).None? && a.tokens.expiresIn.Some?
  }

  /** Some continuation, with modest logins only, hands out a token that does not last as long as
      it should. */
  ghost predicate CanBreak(config: Config, s: State) {
    exists after ::
      && LoginsModest(config, s, after) && Run(config, s, after).Some?
      && HandsOutShort(config, s, Run(config, s, after).value)
  }

  ghost predicate HandsOutShort(config: Config, s: State, t: State) {
    exists i | |s.handed| <= i < |t.handed| :: !LongEnough(config, t, t.handed[i])
  }

  lemma {:induction false} NoLoginsModest(config: Config, s: State, actions: seq<Action>)
    requires forall i | 0 <= i < |actions| :: !actions[i].Callback?
    ensures LoginsModest(config, s, actions)
    decreases |actions|
  {
    hide Step;
    if actions != [] && Step(config, s, actions[0]).Some? {
      NoLoginsModest(config, Step(config, s, actions[0]).value, actions[1..]);
    }
  }

  lemma StretchedBreaks(config: Config, s: State, login: Action, q: nat)
    requires TimeInv(config, s) && Bare(login) && Step(config, s, login).Some?
    requires KeptLifetime(s).Some? && q !in s.phases
    requires s.issued[s.row.access.value].at <= s.now
    requires login.tokens.expiresIn.value > Longest(config, KeptLifetime(s).value)
    ensures CanBreak(config, Step(config, s, login).value)
  {
    var t := Step(config, s, login).value;
    var lifetime := KeptLifetime(s).value;
    var seconds: nat := Max(lifetime - config.skew, 1);
    RowHandsOut(config, t, q, seconds);
    var after := Waiting(seconds, q);
    NoLoginsModest(config, t, after);
    var u := Run(config, t, after).value;
    assert u.handed[|t.handed|] == Handed(q, s.row.access.value, s.now + seconds, s.now);
    assert !LongEnough(config, u, u.handed[|t.handed|]);
    assert HandsOutShort(config, t, u);
  }

  lemma ModestKeeps(config: Config, s: State, after: seq<Action>)
    requires TimeInv(config, s) && LoginsModest(config, s, after) && Run(config, s, after).Some?
    ensures !HandsOutShort(config, s, Run(config, s, after).value)
  {
    RunKeepsTime(config, s, after);
  }

  /** Tokens are issued no later than now. */
  ghost predicate IssuedBefore(s: State) {
    forall token | token in s.issued :: s.issued[token].at <= s.now
  }

  lemma {:induction false} RunKeepsIssued(config: Config, s: State, actions: seq<Action>)
    requires IssuedBefore(s) && Run(config, s, actions).Some?
    ensures IssuedBefore(Run(config, s, actions).value)
    decreases |actions|
  {
    hide Step;
    if actions != [] {
      StepKeepsIssued(config, s, actions[0]);
      RunKeepsIssued(config, Step(config, s, actions[0]).value, actions[1..]);
    }
  }

  lemma StepKeepsIssued(config: Config, s: State, a: Action)
    requires IssuedBefore(s) && Step(config, s, a).Some?
    ensures IssuedBefore(Step(config, s, a).value)
  {
    if a.Do? {
      StepMoves(config, s, a.q, a.move);
      StepMovesIssued(config, s, a.q, a.move);
    }
  }

  /** The condition of `TokenLifetime` is exact. At any point of a run that keeps it, a login
      without an access token that keeps a token of known lifetime lets some continuation hand
      the token out too short if and only if the login's lifetime is longer than the token's own
      and than one second beyond the skew. */
  lemma BareLoginExactly(config: Config, now: int, actions: seq<Action>, login: Action, q: nat)
    requires LoginsModest(config, Init(now), actions) && Run(config, Init(now), actions).Some?
    requires var s := Run(config, Init(now), actions).value;
      Bare(login) && Step(config, s, login).Some? && KeptLifetime(s).Some? && q !in s.phases
    ensures var s := Run(config, Init(now), actions).value;
      CanBreak(config, Step(config, s, login).value)
      <==> login.tokens.expiresIn.value > Longest(config, KeptLifetime(s).value)
  {
    hide TimeInv, HandsOutShort, LoginsModest;
    InitTimed(config, now);
    RunKeepsTime(config, Init(now), actions);
    RunKeepsIssued(config, Init(now), actions);
    var s := Run(config, Init(now), actions).value;
    var t := Step(config, s, login).value;
    if login.tokens.expiresIn.value > Longest(config, KeptLifetime(s).value) {
      StretchedBreaks(config, s, login, q);
    } else {
      StepKeepsTime(config, s, login);
      forall after | LoginsModest(config, t, after) && Run(config, t, after).Some?
        ensures !HandsOutShort(config, t, Run(config, t, after).value)
      {
        ModestKeeps(config, t, after);
      }
    }
  }
}
