/** `get_valid_access_token` as sequential code with an await at every call that leaves the
    process. At each await other requests, logins and the clock move; the code together with
    them is a run of the refresh protocol. */
module OAuthClient {
  import Traces
  import opened Text
  import opened OAuthRefresh
  import opened OAuthSafety
  import OAuthTheorems
  import opened OAuthRows
  import opened OAuthTimes

  /** How the credential authenticates; only OAuth tokens are refreshed. */
  datatype Credential = Stored(secret: string) | OAuth

  datatype Answer = Answer(access: string, refresh: Option<string>, expiresIn: Option<int>)

  /** What the outside world does to one request. */
  datatype Fate = Fate(cacheFails: bool, answer: Option<Answer>, updateFails: bool, cacheStores: bool)

  /** The request's own move is the one that its fate and the row lock call for. */
  predicate Justified(config: Config, s: State, q: nat, move: Move, fate: Fate) {
    match move
    case ReadCache(fails) => fails == fate.cacheFails
    case Grant(access, refresh, expiresIn) => fate.answer == Some(Answer(access, refresh, expiresIn))
    case Fail => q in s.phases && MayFail(config, s, s.phases[q], fate)
    case Update => !fate.updateFails
    case WriteCache(stored) => stored == fate.cacheStores
    case _ => true
  }

  /** What the request gives up on: a row lock that another holds, a grant that is not answered
      with new tokens, an update that fails. */
  predicate MayFail(config: Config, s: State, p: Phase, fate: Fate) {
    if p.Missed? then config.locking && s.holder.Some?
    else if p.Awaiting? then !Answers(s, fate.answer)
    else p.Granted? && fate.updateFails
  }

  /** The server issues only tokens that are new. */
  predicate Answers(s: State, answer: Option<Answer>) {
    answer.Some? && NewTokens(s, Some(answer.value.access), Given(answer.value.refresh))
  }

  predicate Allows(config: Config, q: nat, fate: Fate, s: State, a: Action) {
    a.Do? && a.q == q ==> Justified(config, s, q, a.move, fate)
  }

  function Permits(config: Config, q: nat, fate: Fate): (State, Action) -> bool {
    (s: State, a: Action) => Allows(config, q, fate, s, a)
  }

  /** A run from `s` to `t` in which every move of request `q` is justified. */
  ghost predicate Executed(config: Config, s: State, trace: seq<Action>, q: nat, fate: Fate, t: State) {
    Traces.Executed(Steps(config), Permits(config, q, fate), s, trace, t)
  }

  /** The steps of others leave a request where it is. */
  predicate Others(q: nat, a: Action) {
    match a
    case Begin(r) => r != q
    case Do(r, _) => r != q
    case _ => true
  }

  lemma OthersKeepPhase(config: Config, s: State, q: nat, a: Action)
    requires q in s.phases && Others(q, a) && Step(config, s, a).Some?
    ensures var t := Step(config, s, a).value; q in t.phases && t.phases[q] == s.phases[q]
  {
    if a.Do? {
      StepMoves(config, s, a.q, a.move);
    }
  }

  function GrantedPhase(row: Row, readAt: int, a: Answer): Phase {
    Granted(row, readAt, a.access, a.refresh, a.expiresIn)
  }

  lemma UpdateRuns(config: Config, s: State, q: nat, locked: Row, readAt: int, a: Answer)
    requires q in s.phases && s.phases[q] == GrantedPhase(locked, readAt, a)
    ensures Advance(config, s, q, Update) == Some(UpdateStep(s, q, locked, readAt, a.access, a.refresh, a.expiresIn))
  {
    hide UpdateStep;
  }

  class Client {
    const config: Config
    var now: int
    var row: Row
    var holder: Option<nat>
    var cache: Option<Cached>
    var phases: map<nat, Phase>
    var issued: map<string, Issue>
    var refreshIssued: set<string>
    var refreshAt: map<nat, Option<string>>
    var sent: seq<Sent>
    var writes: seq<Write>
    var handed: seq<Handed>

    constructor (config: Config, now: int)
      ensures this.config == config && View() == Init(now)
    {
      this.config, this.now := config, now;
      row, holder, cache := Row(None, None, None, 0, now), None, None;
      phases, issued, refreshIssued, refreshAt := map[], map[], {}, map[0 := None];
      sent, writes, handed := [], [], [];
    }

    function View(): State
      reads this
    {
      State(now, row, holder, cache, phases, issued, refreshIssued, refreshAt, sent, writes, handed)
    }

    method Load(s: State)
      modifies this
      ensures View() == s
    {
      now, row, holder, cache, phases := s.now, s.row, s.holder, s.cache, s.phases;
      issued, refreshIssued, refreshAt := s.issued, s.refreshIssued, s.refreshAt;
      sent, writes, handed := s.sent, s.writes, s.handed;
    }

    /** What happens while request `q` awaits: of the proposed actions, those that are not its
        own and are enabled. */
    method Interfere(q: nat, fate: Fate, schedule: seq<Action>) returns (ghost done: seq<Action>)
      requires q in phases
      modifies this
      ensures Executed(config, old(View()), done, q, fate, View())
      ensures q in phases && phases[q] == old(phases[q])
    {
      done := [];
      for i := 0 to |schedule|
        invariant Executed(config, old(View()), done, q, fate, View())
        invariant q in phases && phases[q] == old(phases[q])
      {
        var a := schedule[i];
        if Others(q, a) {
          var next := Step(config, View(), a);
          if next.Some? {
            ghost var mid := View();
            OthersKeepPhase(config, mid, q, a);
            Traces.ExecutedOne(Steps(config), Permits(config, q, fate), mid, a);
            Load(next.value);
            Traces.Then(Steps(config), Permits(config, q, fate), old(View()), done, mid, [a], View());
            done := done + [a];
          }
        }
      }
    }

    /** `cache_get_json`; with an entry, the request has its token. */
    method ReadTokenCache(q: nat, fate: Fate) returns (token: Option<string>)
      requires q in phases && phases[q] == Started
      modifies this`phases, this`handed
      ensures Executed(config, old(View()), [Do(q, ReadCache(fate.cacheFails))], q, fate, View())
      ensures token
        == if !fate.cacheFails && cache.Some? && now < cache.value.until then Some(cache.value.token) else None
      ensures q in phases && phases[q] == if token.Some? then Returned(token.value) else Missed
    {
      Traces.ExecutedOne(Steps(config), Permits(config, q, fate), View(), Do(q, ReadCache(fate.cacheFails)));
      if !fate.cacheFails && cache.Some? && now < cache.value.until {
        token := Some(cache.value.token);
        handed := handed + [Handed(q, cache.value.token, now, cache.value.wroteAt)];
        phases := phases[q := Returned(cache.value.token)];
      } else {
        token := None;
        phases := phases[q := Missed];
      }
    }

    /** The locked read; `None` when the wait for the row lock ends in an error. */
    method LockRow(q: nat, fate: Fate) returns (locked: Option<Row>, ghost move: Move)
      requires q in phases && phases[q] == Missed
      modifies this`phases, this`holder
      ensures Executed(config, old(View()), [Do(q, move)], q, fate, View())
      ensures locked == if config.locking && old(holder).Some? then None else Some(row)
      ensures q in phases && phases[q] == if locked.Some? then RowRead(locked.value) else Failed
    {
      move := if config.locking && holder.Some? then Fail else ReadRow;
      Traces.ExecutedOne(Steps(config), Permits(config, q, fate), View(), Do(q, move));
      if config.locking && holder.Some? {
        locked := None;
        phases := phases[q := Failed];
      } else {
        locked := Some(row);
        holder := if config.locking then Some(q) else holder;
        phases := phases[q := RowRead(row)];
      }
    }

    /** The clock reading and the expiry check, with the decryption of what is used next. */
    method UseRow(q: nat, locked: Row, fate: Fate) returns (token: Option<string>, refreshes: bool)
      requires q in phases && phases[q] == RowRead(locked)
      modifies this`phases, this`handed
      ensures Executed(config, old(View()), [Do(q, CheckExpiry)], q, fate, View())
      ensures token == if Fresh(config, locked, now) then locked.access else None
      ensures refreshes <==> !Fresh(config, locked, now) && locked.refresh.Some?
      ensures q in phases
      ensures phases[q] ==
        if token.Some? then Returned(token.value) else if refreshes then Refreshing(locked, now) else Failed
    {
      Traces.ExecutedOne(Steps(config), Permits(config, q, fate), View(), Do(q, CheckExpiry));
      token, refreshes := None, false;
      if locked.expiresAt.Some? && locked.expiresAt.value - config.skew > now {
        token := locked.access;
        if token.Some? {
          handed := handed + [Handed(q, token.value, now, locked.stampedAt)];
          phases := phases[q := Returned(token.value)];
        } else {
          phases := phases[q := Failed];
        }
      } else if locked.refresh.Some? {
        refreshes := true;
        phases := phases[q := Refreshing(locked, now)];
      } else {
        phases := phases[q := Failed];
      }
    }

    method SendRefresh(q: nat, locked: Row, readAt: int, fate: Fate)
      requires q in phases && phases[q] == Refreshing(locked, readAt) && locked.refresh.Some?
      modifies this`phases, this`sent
      ensures Executed(config, old(View()), [Do(q, Send)], q, fate, View())
      ensures q in phases && phases[q] == Awaiting(locked, readAt)
    {
      Traces.ExecutedOne(Steps(config), Permits(config, q, fate), View(), Do(q, Send));
      sent := sent + [Sent(q, locked.refresh.value, locked.version)];
      phases := phases[q := Awaiting(locked, readAt)];
    }

    /** The token response; anything but new tokens raises. */
    method ReceiveGrant(q: nat, locked: Row, readAt: int, fate: Fate) returns (granted: bool, ghost move: Move)
      requires q in phases && phases[q] == Awaiting(locked, readAt)
      modifies this`phases, this`issued, this`refreshIssued
      ensures Executed(config, old(View()), [Do(q, move)], q, fate, View())
      ensures granted <==> Answers(old(View()), fate.answer)
      ensures q in phases
      ensures phases[q] == if granted then GrantedPhase(locked, readAt, fate.answer.value) else Failed
    {
      granted := Answers(View(), fate.answer);
      if granted {
        var a := fate.answer.value;
        move := Grant(a.access, a.refresh, a.expiresIn);
        Traces.ExecutedOne(Steps(config), Permits(config, q, fate), View(), Do(q, move));
        issued := issued[a.access := Issue(now, a.expiresIn)];
        if Given(a.refresh).Some? {
          refreshIssued := refreshIssued + {Given(a.refresh).value};
        }
        phases := phases[q := GrantedPhase(locked, readAt, a)];
      } else {
        move := Fail;
        Traces.ExecutedOne(Steps(config), Permits(config, q, fate), View(), Do(q, move));
        phases := phases[q := Failed];
      }
    }

    /** The update conditional on `cred_version`, and the commit. */
    method PersistTokens(q: nat, locked: Row, readAt: int, a: Answer, fate: Fate)
      requires q in phases && phases[q] == GrantedPhase(locked, readAt, a) && !fate.updateFails
      modifies this`phases, this`row, this`refreshAt, this`writes, this`holder
      ensures Executed(config, old(View()), [Do(q, Update)], q, fate, View())
      ensures old(row).version != locked.version ==> row == old(row)
      ensures old(row).version == locked.version ==>
        && row.access == Some(a.access) && row.version == locked.version + 1
        && row.refresh == (if a.refresh.Some? && a.refresh.value != "" then a.refresh else locked.refresh)
        && row.expiresAt == (if a.expiresIn.Some? then Some(readAt + a.expiresIn.value) else None)
      ensures q in phases && phases[q] == Updated(a.access, a.expiresIn)
    {
      hide Advance, NewTokens;
      UpdateRuns(config, View(), q, locked, readAt, a);
      Traces.ExecutedOne(Steps(config), Permits(config, q, fate), View(), Do(q, Update));
      if row.version == locked.version {
        var refresh := if Given(a.refresh).Some? then Given(a.refresh) else locked.refresh;
        row := Row(Some(a.access), refresh, Expiry(readAt, a.expiresIn), locked.version + 1, readAt);
        refreshAt := refreshAt[row.version := refresh];
        writes := writes + [Write(q, locked.version)];
      }
      if holder == Some(q) {
        holder := None;
      }
      phases := phases[q := Updated(a.access, a.expiresIn)];
    }

    /** `cache_set_json` with the computed time to live, when there is a lifetime; its errors
        are swallowed. */
    method CacheToken(q: nat, a: Answer, fate: Fate)
      requires q in phases && phases[q] == Updated(a.access, a.expiresIn)
      modifies this`phases, this`cache, this`handed
      ensures Executed(config, old(View()), [Do(q, WriteCache(fate.cacheStores))], q, fate, View())
      ensures q in phases && phases[q] == Returned(a.access)
      ensures if fate.cacheStores && a.expiresIn.Some? then
        && cache.Some? && cache.value.token == a.access && CachedFor(config, a.expiresIn.value, cache.value.until - now)
      else cache == old(cache)
    {
      Traces.ExecutedOne(Steps(config), Permits(config, q, fate), View(), Do(q, WriteCache(fate.cacheStores)));
      if a.expiresIn.Some? {
        var ttl := Max(a.expiresIn.value - config.skew, 1);
        if fate.cacheStores {
          cache := Some(Cached(a.access, now + ttl, now));
        }
      }
      handed := handed + [Handed(q, a.access, now, now)];
      phases := phases[q := Returned(a.access)];
    }

    /** The update raises; nothing is persisted. */
    method AbandonGrant(q: nat, fate: Fate)
      requires q in phases && phases[q].Granted? && fate.updateFails
      modifies this`phases
      ensures Executed(config, old(View()), [Do(q, Fail)], q, fate, View())
      ensures q in phases && phases[q] == Failed
    {
      Traces.ExecutedOne(Steps(config), Permits(config, q, fate), View(), Do(q, Fail));
      phases := phases[q := Failed];
    }

    /** `refresh_access_token`: the grant sent and answered. */
    method ObtainGrant(q: nat, locked: Row, readAt: int, fate: Fate, schedule: seq<Action>)
      returns (granted: bool, ghost trace: seq<Action>)
      requires q in phases && phases[q] == Refreshing(locked, readAt) && locked.refresh.Some?
      modifies this
      ensures Executed(config, old(View()), trace, q, fate, View())
      ensures granted ==> fate.answer.Some?
      ensures q in phases
      ensures phases[q] == if granted then GrantedPhase(locked, readAt, fate.answer.value) else Failed
    {
      hide Traces.Executed;
      ghost var start := View();
      SendRefresh(q, locked, readAt, fate);
      trace := [Do(q, Send)];
      ghost var mid := View();
      ghost var others := Interfere(q, fate, schedule);
      Traces.Then(Steps(config), Permits(config, q, fate), start, trace, mid, others, View());
      trace := trace + others;
      mid := View();
      ghost var move;
      granted, move := ReceiveGrant(q, locked, readAt, fate);
      Traces.Then(Steps(config), Permits(config, q, fate), start, trace, mid, [Do(q, move)], View());
      trace := trace + [Do(q, move)];
    }

    /** The new tokens persisted, then cached. */
    method SaveGrant(q: nat, locked: Row, readAt: int, a: Answer, fate: Fate, schedule: seq<Action>)
      returns (token: Option<string>, ghost trace: seq<Action>)
      requires q in phases && phases[q] == GrantedPhase(locked, readAt, a)
      modifies this
      ensures Executed(config, old(View()), trace, q, fate, View())
      ensures token == if fate.updateFails then None else Some(a.access)
      ensures q in phases && phases[q] == if token.Some? then Returned(token.value) else Failed
    {
      hide Traces.Executed;
      if fate.updateFails {
        AbandonGrant(q, fate);
        return None, [Do(q, Fail)];
      }
      ghost var start := View();
      PersistTokens(q, locked, readAt, a, fate);
      trace := [Do(q, Update)];
      ghost var mid := View();
      ghost var others := Interfere(q, fate, schedule);
      Traces.Then(Steps(config), Permits(config, q, fate), start, trace, mid, others, View());
      trace := trace + others;
      mid := View();
      CacheToken(q, a, fate);
      Traces.Then(Steps(config), Permits(config, q, fate), start, trace, mid,
                  [Do(q, WriteCache(fate.cacheStores))], View());
      trace := trace + [Do(q, WriteCache(fate.cacheStores))];
      token := Some(a.access);
    }

    /** The refresh of an expired token. */
    method Refresh(q: nat, locked: Row, readAt: int, fate: Fate, schedules: seq<seq<Action>>)
      returns (token: Option<string>, ghost trace: seq<Action>)
      requires q in phases && phases[q] == Refreshing(locked, readAt) && locked.refresh.Some?
      requires |schedules| == 3
      modifies this
      ensures Executed(config, old(View()), trace, q, fate, View())
      ensures token.Some? ==> fate.answer.Some? && token.value == fate.answer.value.access
      ensures q in phases && phases[q] == if token.Some? then Returned(token.value) else Failed
    {
      hide Traces.Executed;
      ghost var start := View();
      var granted;
      granted, trace := ObtainGrant(q, locked, readAt, fate, schedules[0]);
      if !granted {
        return None, trace;
      }
      ghost var mid := View();
      ghost var more := Interfere(q, fate, schedules[1]);
      Traces.Then(Steps(config), Permits(config, q, fate), start, trace, mid, more, View());
      trace := trace + more;
      mid := View();
      token, more := SaveGrant(q, locked, readAt, fate.answer.value, fate, schedules[2]);
      Traces.Then(Steps(config), Permits(config, q, fate), start, trace, mid, more, View());
      trace := trace + more;
    }

    /** From the cache miss on: the row, then a refresh if it has expired. */
    method TokenFromRow(q: nat, fate: Fate, schedules: seq<seq<Action>>)
      returns (token: Option<string>, ghost trace: seq<Action>)
      requires q in phases && phases[q] == Missed
      requires |schedules| == 4
      modifies this
      ensures Executed(config, old(View()), trace, q, fate, View())
      ensures q in phases && phases[q] == if token.Some? then Returned(token.value) else Failed
    {
      hide Traces.Executed;
      ghost var start := View();
      ghost var move;
      var locked;
      locked, move := LockRow(q, fate);
      trace := [Do(q, move)];
      if locked == None {
        return None, trace;
      }
      ghost var mid := View();
      ghost var more := Interfere(q, fate, schedules[0]);
      Traces.Then(Steps(config), Permits(config, q, fate), start, trace, mid, more, View());
      trace := trace + more;
      mid := View();
      var refreshes;
      token, refreshes := UseRow(q, locked.value, fate);
      Traces.Then(Steps(config), Permits(config, q, fate), start, trace, mid, [Do(q, CheckExpiry)], View());
      trace := trace + [Do(q, CheckExpiry)];
      if refreshes {
        mid := View();
        token, more := Refresh(q, locked.value, now, fate, schedules[1..]);
        Traces.Then(Steps(config), Permits(config, q, fate), start, trace, mid, more, View());
        trace := trace + more;
      }
    }

    method Begin(q: nat, fate: Fate)
      requires q !in phases
      modifies this`phases
      ensures Executed(config, old(View()), [OAuthRefresh.Begin(q)], q, fate, View())
      ensures q in phases && phases[q] == Started
    {
      Traces.ExecutedOne(Steps(config), Permits(config, q, fate), View(), OAuthRefresh.Begin(q));
      phases := phases[q := Started];
    }

    /** The request for an OAuth token. */
    method OAuthToken(q: nat, fate: Fate, schedules: seq<seq<Action>>)
      returns (token: Option<string>, ghost trace: seq<Action>)
      requires q !in phases && |schedules| == 6
      modifies this
      ensures Executed(config, old(View()), trace, q, fate, View())
      ensures q in phases && phases[q] == if token.Some? then Returned(token.value) else Failed
    {
      hide Traces.Executed;
      ghost var start := View();
      Begin(q, fate);
      trace := [OAuthRefresh.Begin(q)];
      ghost var mid := View();
      ghost var more := Interfere(q, fate, schedules[0]);
      Traces.Then(Steps(config), Permits(config, q, fate), start, trace, mid, more, View());
      trace := trace + more;
      mid := View();
      token := ReadTokenCache(q, fate);
      Traces.Then(Steps(config), Permits(config, q, fate), start, trace, mid,
                  [Do(q, ReadCache(fate.cacheFails))], View());
      trace := trace + [Do(q, ReadCache(fate.cacheFails))];
      if token.None? {
        mid := View();
        more := Interfere(q, fate, schedules[1]);
        Traces.Then(Steps(config), Permits(config, q, fate), start, trace, mid, more, View());
        trace := trace + more;
        mid := View();
        token, more := TokenFromRow(q, fate, schedules[2..]);
        Traces.Then(Steps(config), Permits(config, q, fate), start, trace, mid, more, View());
        trace := trace + more;
      }
    }

    /** `get_valid_access_token`: whatever happens at the awaits is a run of the protocol, in
        which this request's moves are justified and it ends with the token it returns or with
        an error. A stored token is returned as it is. */
    method GetValidAccessToken(q: nat, credential: Credential, fate: Fate, schedules: seq<seq<Action>>)
      returns (token: Option<string>, ghost trace: seq<Action>)
      requires q !in phases && |schedules| == 6
      modifies this
      ensures Run(config, old(View()), trace) == Some(View())
      ensures Executed(config, old(View()), trace, q, fate, View())
      ensures credential.Stored? ==> token == Some(credential.secret) && View() == old(View())
      ensures credential.OAuth? ==> q in phases && phases[q] == if token.Some? then Returned(token.value) else Failed
      ensures OAuthTheorems.Inv(config, old(View())) ==>
        && row.access == LastAccess(Persisted(config, old(View()), trace), old(row).access)
        && row.refresh == LastRefresh(Persisted(config, old(View()), trace), old(row).refresh)
    {
      ghost var start := View();
      hide Step, OAuthTheorems.Inv, Persisted;
      match credential {
        case Stored(secret) =>
          token, trace := Some(secret), [];
        case OAuth =>
          token, trace := OAuthToken(q, fate, schedules);
          Traces.ExecutedRuns(Steps(config), Permits(config, q, fate), start, trace, View());
      }
      if OAuthTheorems.Inv(config, start) {
        RunHoldsLast(config, start, trace);
      }
    }
  }
}
