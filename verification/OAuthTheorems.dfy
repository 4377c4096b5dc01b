/** The refresh protocol's promises over whole runs. */
module OAuthTheorems {
  import opened Text
  import opened OAuthRefresh
  import opened OAuthSafety

  /** What every run keeps, whatever the server does. */
  ghost predicate Inv(config: Config, s: State) {
    FenceInv(s) && LockInv(config, s) && VersionsInv(s) && SentInv(s) && OrderInv(config, s)
  }

  lemma DoKeepsInv(config: Config, s: State, q: nat, move: Move)
    requires Inv(config, s) && Step(config, s, Do(q, move)).Some?
    ensures Inv(config, Step(config, s, Do(q, move)).value)
  {
    var t := Step(config, s, Do(q, move)).value;
    StepMoves(config, s, q, move);
    StepMovesRow(config, s, q, move);
    StepMovesSent(config, s, q, move);
    StepMovesHolder(config, s, q, move);
    MovedFence(s, q, t);
    MovedLock(config, s, q, t);
    MovedVersions(s, q, t);
    MovedSent(s, q, t);
    MovedOrder(config, s, q, t);
  }

  lemma EnvKeepsInv(config: Config, s: State, a: Action)
    requires Inv(config, s) && Step(config, s, a).Some? && !a.Do?
    ensures Inv(config, Step(config, s, a).value)
  {
    hide Step, FenceInv, LockInv, VersionsInv, SentInv, OrderInv;
    EnvKeepsFence(config, s, a);
    EnvKeepsLock(config, s, a);
    EnvKeepsVersions(config, s, a);
    EnvKeepsSent(config, s, a);
  }

  lemma EnvKeepsFence(config: Config, s: State, a: Action)
    requires FenceInv(s) && Step(config, s, a).Some? && !a.Do?
    ensures FenceInv(Step(config, s, a).value)
  {
  }

  lemma EnvKeepsLock(config: Config, s: State, a: Action)
    requires LockInv(config, s) && Step(config, s, a).Some? && !a.Do?
    ensures LockInv(config, Step(config, s, a).value)
  {
  }

  lemma EnvKeepsVersions(config: Config, s: State, a: Action)
    requires FenceInv(s) && VersionsInv(s) && Step(config, s, a).Some? && !a.Do?
    ensures VersionsInv(Step(config, s, a).value)
  {
  }

  lemma EnvKeepsSent(config: Config, s: State, a: Action)
    requires SentInv(s) && OrderInv(config, s) && Step(config, s, a).Some? && !a.Do?
    ensures SentInv(Step(config, s, a).value) && OrderInv(config, Step(config, s, a).value)
  {
    hide SentInv, OrderInv;
    EnvLogs(config, s, a);
    SameLogsSent(s, Step(config, s, a).value);
    SameLogsOrder(config, s, Step(config, s, a).value);
  }

  /** What the log of grants and writes is read from stays, but for requests that start. */
  ghost predicate SameLogs(s: State, t: State) {
    && t.sent == s.sent && t.writes == s.writes
    && (forall q | q in s.phases :: q in t.phases && t.phases[q] == s.phases[q])
    && (forall q | q in t.phases && q !in s.phases :: t.phases[q] == Started)
  }

  lemma EnvLogs(config: Config, s: State, a: Action)
    requires Step(config, s, a).Some? && !a.Do?
    ensures SameLogs(s, Step(config, s, a).value)
  {
  }

  lemma SameLogsSent(s: State, t: State)
    requires SentInv(s) && SameLogs(s, t)
    ensures SentInv(t)
  {
  }

  lemma SameLogsOrder(config: Config, s: State, t: State)
    requires OrderInv(config, s) && SameLogs(s, t)
    ensures OrderInv(config, t)
  {
  }

  lemma StepKeepsInv(config: Config, s: State, a: Action)
    requires Inv(config, s) && Step(config, s, a).Some?
    ensures Inv(config, Step(config, s, a).value)
  {
    if a.Do? {
      DoKeepsInv(config, s, a.q, a.move);
    } else {
      EnvKeepsInv(config, s, a);
    }
  }

  lemma {:induction false} RunKeepsInv(config: Config, s: State, actions: seq<Action>)
    requires Inv(config, s) && Run(config, s, actions).Some?
    ensures Inv(config, Run(config, s, actions).value)
    decreases |actions|
  {
    hide Step;
    if actions != [] {
      StepKeepsInv(config, s, actions[0]);
      RunKeepsInv(config, Step(config, s, actions[0]).value, actions[1..]);
    }
  }

  /** In every run, with or without row locks: a refresh is persisted only over the very row
      that it read, and then it advances the version by one; a fenced-out one leaves the row as
      it is. At most one refresh is persisted for each row version. */
  lemma FenceIsCompareAndSwap(config: Config, now: int, actions: seq<Action>, q: nat)
    requires Run(config, Init(now), actions).Some?
    ensures var s := Run(config, Init(now), actions).value;
      forall i, j | 0 <= i < j < |s.writes| :: s.writes[i].from < s.writes[j].from
    ensures var s := Run(config, Init(now), actions).value;
      Step(config, s, Do(q, Update)).Some? ==>
        && q in s.phases && Captured(s.phases[q]).Some?
        && var t := Step(config, s, Do(q, Update)).value; var read := Captured(s.phases[q]).value;
        && (t.row != s.row <==> s.row == read)
        && (s.row == read ==> t.row.version == s.row.version + 1 && t.writes == s.writes + [Write(q, read.version)])
        && (s.row != read ==> t.writes == s.writes)
  {
    RunKeepsInv(config, Init(now), actions);
    var s := Run(config, Init(now), actions).value;
    if Step(config, s, Do(q, Update)).Some? {
      StepMoves(config, s, q, Update);
      StepMovesRow(config, s, q, Update);
    }
  }

  /** With row locks, in every run: each refresh sends the refresh token of the row as it is,
      which is the one that the last writer left, and every update is persisted. */
  lemma RefreshesSerialized(config: Config, now: int, actions: seq<Action>, q: nat)
    requires config.locking && Run(config, Init(now), actions).Some?
    ensures var s := Run(config, Init(now), actions).value;
      Step(config, s, Do(q, Send)).Some? ==>
        s.row.refresh.Some?
        && Step(config, s, Do(q, Send)).value.sent == s.sent + [Sent(q, s.row.refresh.value, s.row.version)]
    ensures var s := Run(config, Init(now), actions).value;
      Step(config, s, Do(q, Update)).Some? ==>
        Step(config, s, Do(q, Update)).value.writes == s.writes + [Write(q, s.row.version)]
  {
    RunKeepsInv(config, Init(now), actions);
    var s := Run(config, Init(now), actions).value;
    if Step(config, s, Do(q, Send)).Some? {
      StepMovesSent(config, s, q, Send);
    }
    if Step(config, s, Do(q, Update)).Some? {
      StepMovesRow(config, s, q, Update);
    }
  }

  /** The server answers every grant and every login with a new refresh token. */
  ghost predicate Rotating(actions: seq<Action>) {
    forall i | 0 <= i < |actions| :: Rotates(actions[i])
  }

  predicate Rotates(a: Action) {
    match a
    case Do(_, Grant(_, refresh, _)) => Given(refresh).Some?
    case Callback(tokens, _) => Given(tokens.refresh).Some?
    case _ => true
  }

  lemma StepKeepsRotation(config: Config, s: State, a: Action)
    requires VersionsInv(s) && RotationInv(s) && Rotates(a) && Step(config, s, a).Some?
    ensures RotationInv(Step(config, s, a).value)
  {
    if a.Do? {
      var t := Step(config, s, a).value;
      StepMoves(config, s, a.q, a.move);
      StepMovesRow(config, s, a.q, a.move);
      StepMovesIssued(config, s, a.q, a.move);
      GrantRotates(config, s, a.q, a.move);
      MovedOwnTokens(s, a.q, t);
      MovedPending(s, a.q, t);
    } else {
      EnvKeepsRotation(config, s, a);
    }
  }

  lemma GrantRotates(config: Config, s: State, q: nat, move: Move)
    requires Rotates(Do(q, move)) && Step(config, s, Do(q, move)).Some?
    ensures var t := Step(config, s, Do(q, move)).value;
      q in t.phases && (t.phases[q].Granted? ==> Given(t.phases[q].refresh).Some?)
  {
  }

  lemma EnvKeepsRotation(config: Config, s: State, a: Action)
    requires VersionsInv(s) && RotationInv(s) && Rotates(a) && !a.Do? && Step(config, s, a).Some?
    ensures RotationInv(Step(config, s, a).value)
  {
  }

  lemma {:induction false} RunKeepsRotation(config: Config, s: State, actions: seq<Action>)
    requires Inv(config, s) && RotationInv(s) && Rotating(actions) && Run(config, s, actions).Some?
    ensures RotationInv(Run(config, s, actions).value)
    decreases |actions|
  {
    hide Step;
    if actions != [] {
      StepKeepsInv(config, s, actions[0]);
      assert Rotates(actions[0]);
      StepKeepsRotation(config, s, actions[0]);
      RunKeepsRotation(config, Step(config, s, actions[0]).value, actions[1..]);
    }
  }

  /** When the server rotates, in every run, with or without row locks: the same refresh token
      is sent twice exactly when it is sent twice for one version of the row. */
  lemma SentTwiceExactly(config: Config, now: int, actions: seq<Action>, i: nat, j: nat)
    requires Rotating(actions) && Run(config, Init(now), actions).Some?
    requires var s := Run(config, Init(now), actions).value; i < |s.sent| && j < |s.sent|
    ensures var s := Run(config, Init(now), actions).value;
      s.sent[i].token == s.sent[j].token <==> s.sent[i].version == s.sent[j].version
  {
    RunKeepsInv(config, Init(now), actions);
    RunKeepsRotation(config, Init(now), actions);
  }

  ghost predicate Persisted(s: State, q: nat) {
    exists w | 0 <= w < |s.writes| :: s.writes[w].q == q
  }

  /** With row locks and a server that rotates, no refresh token is sent again after a refresh
      that sent it was persisted. */
  lemma NoTokenSentTwice(config: Config, now: int, actions: seq<Action>, i: nat, j: nat)
    requires config.locking && Rotating(actions) && Run(config, Init(now), actions).Some?
    requires var s := Run(config, Init(now), actions).value; i < j < |s.sent| && Persisted(s, s.sent[i].q)
    ensures var s := Run(config, Init(now), actions).value; s.sent[i].token != s.sent[j].token
  {
    RunKeepsInv(config, Init(now), actions);
    SentTwiceExactly(config, now, actions, i, j);
  }

  /** A login that brings no access token does not stretch the lifetime of the one that the row
      keeps: what it records is at most the kept token's own lifetime, or one second beyond the
      skew. */
  predicate Modest(config: Config, s: State, a: Action) {
    match a
    case Callback(tokens, _) =>
      Given(tokens.access).None? && tokens.expiresIn.Some? && KeptLifetime(s).Some? ==>
        tokens.expiresIn.value <= Longest(config, KeptLifetime(s).value)
    case _ => true
  }

  /** The lifetime with which the server issued the access token in the row. */
  function KeptLifetime(s: State): Option<int> {
    if s.row.access.Some? && s.row.access.value in s.issued then s.issued[s.row.access.value].expiresIn else None
  }

  ghost predicate LoginsModest(config: Config, s: State, actions: seq<Action>)
    decreases |actions|
  {
    actions == []
    || (Modest(config, s, actions[0])
        && (Step(config, s, actions[0]).Some? ==>
              LoginsModest(config, Step(config, s, actions[0]).value, actions[1..])))
  }

  lemma StepKeepsTime(config: Config, s: State, a: Action)
    requires TimeInv(config, s) && Modest(config, s, a) && Step(config, s, a).Some?
    ensures TimeInv(config, Step(config, s, a).value)
  {
    if a.Do? {
      var t := Step(config, s, a).value;
      StepMoves(config, s, a.q, a.move);
      StepMovesRow(config, s, a.q, a.move);
      StepMovesIssued(config, s, a.q, a.move);
      StepMovesHanded(config, s, a.q, a.move);
      StepMovesCache(config, s, a.q, a.move);
      MovedMoreIssued(s, a.q, t);
      MovedHanded(config, s, a.q, t);
      MovedTimed(config, s, a.q, t);
    } else {
      EnvKeepsTime(config, s, a);
    }
  }

  /** Time passes, and tokens are issued. */
  ghost predicate Later(s: State, t: State) {
    MoreIssued(s, t) && s.now <= t.now
  }

  lemma PhaseLater(config: Config, s: State, t: State, p: Phase)
    requires Later(s, t) && PhaseTimed(config, s, p)
    ensures PhaseTimed(config, t, p)
  {
  }

  lemma HandedLater(config: Config, s: State, t: State, h: Handed)
    requires Later(s, t) && LongEnough(config, s, h)
    ensures LongEnough(config, t, h)
  {
  }

  lemma EnvIsLater(config: Config, s: State, a: Action)
    requires !a.Do? && Step(config, s, a).Some?
    ensures Later(s, Step(config, s, a).value)
    ensures Step(config, s, a).value.handed == s.handed
    ensures var t := Step(config, s, a).value;
      forall q | q in t.phases :: (q in s.phases && t.phases[q] == s.phases[q]) || t.phases[q] == Started
  {
  }

  lemma EnvKeepsRowTimed(config: Config, s: State, a: Action)
    requires RowTimed(config, s, s.row) && CacheTimed(config, s)
    requires Modest(config, s, a) && !a.Do? && Step(config, s, a).Some?
    ensures RowTimed(config, Step(config, s, a).value, Step(config, s, a).value.row)
    ensures CacheTimed(config, Step(config, s, a).value)
  {
  }

  lemma EnvKeepsTime(config: Config, s: State, a: Action)
    requires TimeInv(config, s) && Modest(config, s, a) && !a.Do? && Step(config, s, a).Some?
    ensures TimeInv(config, Step(config, s, a).value)
  {
    hide Step, Modest, Later, PhaseTimed, LongEnough, RowTimed, CacheTimed;
    var t := Step(config, s, a).value;
    EnvIsLater(config, s, a);
    EnvKeepsRowTimed(config, s, a);
    forall q | q in t.phases ensures PhaseTimed(config, t, t.phases[q]) {
      if t.phases[q] == Started {
        StartedTimed(config, t);
      } else {
        PhaseLater(config, s, t, s.phases[q]);
      }
    }
    forall i | 0 <= i < |t.handed| ensures LongEnough(config, t, t.handed[i]) {
      HandedLater(config, s, t, s.handed[i]);
    }
  }

  lemma StartedTimed(config: Config, s: State)
    ensures PhaseTimed(config, s, Started)
  {
  }

  lemma {:induction false} RunKeepsTime(config: Config, s: State, actions: seq<Action>)
    requires TimeInv(config, s) && LoginsModest(config, s, actions) && Run(config, s, actions).Some?
    ensures TimeInv(config, Run(config, s, actions).value)
    decreases |actions|
  {
    hide Step, TimeInv, Modest;
    if actions != [] {
      StepKeepsTime(config, s, actions[0]);
      RunKeepsTime(config, Step(config, s, actions[0]).value, actions[1..]);
    }
  }

  lemma InitTimed(config: Config, now: int)
    ensures TimeInv(config, Init(now))
  {
  }

  /** In every run whose logins without an access token are modest, a token handed out from the
      cache, the row or a refresh has more than min(skew, expires_in - 1) seconds left, less the
      delay between its issue and the clock reading or cache write that its lifetime was counted
      from. */
  lemma TokenLifetime(config: Config, now: int, actions: seq<Action>, i: nat)
    requires LoginsModest(config, Init(now), actions) && Run(config, Init(now), actions).Some?
    requires i < |Run(config, Init(now), actions).value.handed|
    ensures var s := Run(config, Init(now), actions).value; LongEnough(config, s, s.handed[i])
  {
    RunKeepsTime(config, Init(now), actions);
  }
}
