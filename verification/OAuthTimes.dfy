/** When a stored access token is used, refreshed and cached, and for how long: clock readings and
    lifetimes, column by column. */
module OAuthTimes {
  import Traces
  import opened Text
  import opened OAuthRefresh
  import opened OAuthSafety
  import opened OAuthTheorems

  /** The row's token has more than the skew left. */
  predicate Fresh(config: Config, row: Row, now: int) {
    row.expiresAt.Some? && now + config.skew < row.expiresAt.value
  }

  /** What a request does with the row that it has read: the row's token while that is fresh, a
      refresh when it is not and there is a refresh token, otherwise an error. */
  lemma CheckDecides(config: Config, s: State, q: nat)
    requires Step(config, s, Do(q, CheckExpiry)).Some?
    ensures q in s.phases && s.phases[q].RowRead?
    ensures var row := s.phases[q].row; var t := Step(config, s, Do(q, CheckExpiry)).value;
      && q in t.phases
      && t.phases[q] ==
         if Fresh(config, row, s.now) then (if row.access.Some? then Returned(row.access.value) else Failed)
         else if row.refresh.Some? then Refreshing(row, s.now) else Failed
  {
  }

  /** A cache entry is used exactly before its time. */
  lemma CacheDecides(config: Config, s: State, q: nat, fails: bool)
    requires Step(config, s, Do(q, ReadCache(fails))).Some?
    ensures var t := Step(config, s, Do(q, ReadCache(fails))).value;
      && q in t.phases
      && t.phases[q] == if !fails && s.cache.Some? && s.cache.value.until > s.now then Returned(s.cache.value.token)
                        else Missed
  {
  }

  /** The seconds that a token with this lifetime is cached for: what is left of it when the skew is
      taken off, and one second at least. */
  predicate CachedFor(config: Config, expiresIn: int, seconds: int) {
    if expiresIn > config.skew then seconds == expiresIn - config.skew else seconds == 1
  }

  /** A new token is handed out, and cached when it has a lifetime and the cache takes it. */
  lemma WriteDecides(config: Config, s: State, q: nat, stored: bool)
    requires Step(config, s, Do(q, WriteCache(stored))).Some?
    ensures q in s.phases && s.phases[q].Updated?
    ensures var p := s.phases[q]; var t := Step(config, s, Do(q, WriteCache(stored))).value;
      && q in t.phases && t.phases[q] == Returned(p.access)
      && (if stored && p.expiresIn.Some? then
            && t.cache.Some? && t.cache.value.token == p.access && t.cache.value.wroteAt == s.now
            && CachedFor(config, p.expiresIn.value, t.cache.value.until - s.now)
          else t.cache == s.cache)
  {
  }

  lemma OthersKeepCache(config: Config, s: State, a: Action)
    requires Step(config, s, a).Some? && !(a.Do? && a.move.WriteCache?)
    ensures Step(config, s, a).value.cache == s.cache || Step(config, s, a).value.cache == None
  {
  }

  /** A refresh is on its way only for a row that was stale when the clock was read. */
  predicate StaleRefresh(config: Config, p: Phase) {
    match p
    case Refreshing(row, readAt) => !Fresh(config, row, readAt) && row.refresh.Some?
    case Awaiting(row, readAt) => !Fresh(config, row, readAt) && row.refresh.Some?
    case Granted(row, readAt, _, _, _) => !Fresh(config, row, readAt) && row.refresh.Some?
    case _ => true
  }

  /** What a phase says of a token that was granted is what the server issued. */
  predicate IssuedAs(s: State, p: Phase) {
    match p
    case Granted(_, _, access, _, expiresIn) => access in s.issued && s.issued[access].expiresIn == expiresIn
    case Updated(access, expiresIn) => access in s.issued && s.issued[access].expiresIn == expiresIn
    case _ => true
  }

  /** The cached token was issued with a lifetime, and is cached for what that lifetime calls for
      from the moment it was written. */
  predicate CachedRight(config: Config, s: State) {
    s.cache.Some? ==>
      && s.cache.value.token in s.issued && s.issued[s.cache.value.token].expiresIn.Some?
      && CachedFor(config, s.issued[s.cache.value.token].expiresIn.value, s.cache.value.until - s.cache.value.wroteAt)
  }

  ghost predicate TimesInv(config: Config, s: State) {
    && CachedRight(config, s)
    && (forall q | q in s.phases :: StaleRefresh(config, s.phases[q]) && IssuedAs(s, s.phases[q]))
  }

  ghost predicate StillIssued(s: State, t: State) {
    forall token | token in s.issued :: token in t.issued && t.issued[token] == s.issued[token]
  }

  lemma StepIssues(config: Config, s: State, a: Action)
    requires Step(config, s, a).Some?
    ensures StillIssued(s, Step(config, s, a).value)
  {
    if a.Do? {
      StepMoves(config, s, a.q, a.move);
      StepMovesIssued(config, s, a.q, a.move);
    }
  }

  lemma OwnPhase(config: Config, s: State, q: nat, move: Move)
    requires Step(config, s, Do(q, move)).Some? && q in s.phases
    requires StaleRefresh(config, s.phases[q]) && IssuedAs(s, s.phases[q])
    ensures var t := Step(config, s, Do(q, move)).value;
      q in t.phases && StaleRefresh(config, t.phases[q]) && IssuedAs(t, t.phases[q])
  {
    StepMoves(config, s, q, move);
    StepIssues(config, s, Do(q, move));
    if move.CheckExpiry? {
      CheckDecides(config, s, q);
    } else {
      OtherPhase(config, s, q, move);
    }
  }

  lemma OtherPhase(config: Config, s: State, q: nat, move: Move)
    requires Step(config, s, Do(q, move)).Some? && q in s.phases && !move.CheckExpiry?
    requires StaleRefresh(config, s.phases[q]) && IssuedAs(s, s.phases[q])
    ensures var t := Step(config, s, Do(q, move)).value;
      q in t.phases && StaleRefresh(config, t.phases[q]) && IssuedAs(t, t.phases[q])
  {
  }

  lemma StepKeepsCached(config: Config, s: State, a: Action)
    requires TimesInv(config, s) && Step(config, s, a).Some?
    ensures CachedRight(config, Step(config, s, a).value)
  {
    StepIssues(config, s, a);
    if a.Do? && a.move.WriteCache? {
      WriteDecides(config, s, a.q, a.move.stored);
    } else {
      OthersKeepCache(config, s, a);
    }
  }

  lemma StepKeepsTimes(config: Config, s: State, a: Action)
    requires TimesInv(config, s) && Step(config, s, a).Some?
    ensures TimesInv(config, Step(config, s, a).value)
  {
    hide Step, CachedRight, StaleRefresh, IssuedAs;
    var t := Step(config, s, a).value;
    StepKeepsCached(config, s, a);
    forall q | q in t.phases ensures StaleRefresh(config, t.phases[q]) && IssuedAs(t, t.phases[q]) {
      if a.Do? && a.q == q {
        DoHasPhase(config, s, a);
        OwnPhase(config, s, q, a.move);
      } else {
        ForeignPhase(config, s, a, q);
      }
    }
  }

  lemma DoHasPhase(config: Config, s: State, a: Action)
    requires a.Do? && Step(config, s, a).Some?
    ensures a.q in s.phases
  {
  }

  lemma ForeignPhase(config: Config, s: State, a: Action, q: nat)
    requires Step(config, s, a).Some? && q in Step(config, s, a).value.phases && !(a.Do? && a.q == q)
    requires forall p | p in s.phases :: StaleRefresh(config, s.phases[p]) && IssuedAs(s, s.phases[p])
    ensures var t := Step(config, s, a).value; StaleRefresh(config, t.phases[q]) && IssuedAs(t, t.phases[q])
  {
    StepIssues(config, s, a);
    if a.Do? {
      StepMoves(config, s, a.q, a.move);
    }
  }

  lemma {:induction false} RunKeepsTimes(config: Config, s: State, actions: seq<Action>)
    requires TimesInv(config, s) && Run(config, s, actions).Some?
    ensures TimesInv(config, Run(config, s, actions).value)
    decreases |actions|
  {
    hide Step, TimesInv;
    if actions != [] {
      StepKeepsTimes(config, s, actions[0]);
      RunKeepsTimes(config, Step(config, s, actions[0]).value, actions[1..]);
    }
  }

  /** In every run, a refresh token is sent only when the row that it is from had no more than the
      skew left at the clock reading, and what is cached is cached for what its lifetime calls
      for. */
  lemma RefreshesWhenStale(config: Config, now: int, actions: seq<Action>, q: nat)
    requires Run(config, Init(now), actions).Some?
    ensures var s := Run(config, Init(now), actions).value;
      && CachedRight(config, s)
      && (q in s.phases && s.phases[q].Refreshing? ==> !Fresh(config, s.phases[q].row, s.phases[q].readAt))
  {
    RunKeepsTimes(config, Init(now), actions);
  }
}
