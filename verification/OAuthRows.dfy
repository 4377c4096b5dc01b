/** What the credential's row holds: over any run, the last tokens that a persisted response
    brought. A response that brings none, or an empty one, leaves the one there is. */
module OAuthRows {
  import Traces
  import opened Text
  import opened OAuthRefresh
  import opened OAuthSafety
  import opened OAuthTheorems

  /** What one response brought. */
  datatype Brought = Brought(access: Option<string>, refresh: Option<string>)

  /** The response that the action persists, if it does: a login's, or that of a refresh whose row
      is still the one it read. */
  function Persists(s: State, a: Action): seq<Brought> {
    match a
    case Callback(tokens, _) =>
      [Brought(if tokens.access == Some("") then None else tokens.access,
               if tokens.refresh == Some("") then None else tokens.refresh)]
    case Do(q, Update) =>
      if q in s.phases && s.phases[q].Granted? && s.phases[q].row.version == s.row.version then
        [Brought(Some(s.phases[q].access), if s.phases[q].refresh == Some("") then None else s.phases[q].refresh)]
      else []
    case _ => []
  }

  ghost function Persisted(config: Config, s: State, actions: seq<Action>): seq<Brought>
    decreases |actions|
  {
    if actions == [] || Step(config, s, actions[0]).None? then []
    else Persists(s, actions[0]) + Persisted(config, Step(config, s, actions[0]).value, actions[1..])
  }

  /** The last access token among them, or else the one from before. */
  function LastAccess(brought: seq<Brought>, before: Option<string>): Option<string> {
    if brought == [] then before
    else LastAccess(brought[1..], if brought[0].access.Some? then brought[0].access else before)
  }

  function LastRefresh(brought: seq<Brought>, before: Option<string>): Option<string> {
    if brought == [] then before
    else LastRefresh(brought[1..], if brought[0].refresh.Some? then brought[0].refresh else before)
  }

  /** What one step does to the row, column by column. */
  ghost predicate RowChanges(s: State, a: Action, next: Row) {
    var brought := Persists(s, a);
    if brought == [] then next == s.row
    else
      && next.access == (if brought[0].access.Some? then brought[0].access else s.row.access)
      && next.refresh == (if brought[0].refresh.Some? then brought[0].refresh else s.row.refresh)
      && next.version == s.row.version + 1
      && (var (from, expiresIn) := Lifetime(s, a);
          next.expiresAt == (if expiresIn.Some? then Some(from + expiresIn.value) else None))
  }

  /** The clock reading and the lifetime that the row's expiry is counted from. */
  function Lifetime(s: State, a: Action): (int, Option<int>) {
    match a
    case Callback(tokens, _) => (s.now, tokens.expiresIn)
    case Do(q, _) =>
      if q in s.phases && s.phases[q].Granted? then (s.phases[q].readAt, s.phases[q].expiresIn) else (0, None)
    case _ => (0, None)
  }

  lemma StepChangesRow(config: Config, s: State, a: Action)
    requires FenceInv(s) && Step(config, s, a).Some?
    ensures RowChanges(s, a, Step(config, s, a).value.row)
  {
    if a.Do? {
      StepMovesRow(config, s, a.q, a.move);
      StepMoves(config, s, a.q, a.move);
      UpdateOnly(config, s, a.q, a.move);
    }
  }

  lemma UpdateOnly(config: Config, s: State, q: nat, move: Move)
    requires Step(config, s, Do(q, move)).Some?
    ensures q in s.phases && q in Step(config, s, Do(q, move)).value.phases
    ensures move.Update? <==> s.phases[q].Granted? && Step(config, s, Do(q, move)).value.phases[q].Updated?
  {
  }

  lemma {:induction false} LastStep(b: Brought, rest: seq<Brought>, before: Option<string>)
    ensures LastAccess([b] + rest, before) == LastAccess(rest, if b.access.Some? then b.access else before)
    ensures LastRefresh([b] + rest, before) == LastRefresh(rest, if b.refresh.Some? then b.refresh else before)
  {
    assert ([b] + rest)[1..] == rest;
  }

  lemma PersistsOne(s: State, a: Action)
    ensures Persists(s, a) == [] || |Persists(s, a)| == 1
  {
  }

  lemma {:induction false} RunHoldsLast(config: Config, s: State, actions: seq<Action>)
    requires Inv(config, s) && Run(config, s, actions).Some?
    ensures var row, brought := Run(config, s, actions).value.row, Persisted(config, s, actions);
      && row.access == LastAccess(brought, s.row.access)
      && row.refresh == LastRefresh(brought, s.row.refresh)
      && row.version == s.row.version + |brought|
    decreases |actions|
  {
    hide Step, Persists, Lifetime;
    if actions != [] {
      var t := Step(config, s, actions[0]).value;
      StepKeepsInv(config, s, actions[0]);
      StepChangesRow(config, s, actions[0]);
      RunHoldsLast(config, t, actions[1..]);
      PersistsOne(s, actions[0]);
      var rest := Persisted(config, t, actions[1..]);
      if Persists(s, actions[0]) != [] {
        var b := Persists(s, actions[0])[0];
        assert Persists(s, actions[0]) == [b];
        LastStep(b, rest, s.row.access);
        LastStep(b, rest, s.row.refresh);
      } else {
        assert Persists(s, actions[0]) + rest == rest;
      }
    }
  }

  /** In every run, with or without row locks, the row holds the last access token and the last
      refresh token that a persisted response brought, whatever was sent or lost in between, and
      its version counts the responses. */
  lemma RowHoldsLast(config: Config, now: int, actions: seq<Action>)
    requires Run(config, Init(now), actions).Some?
    ensures var row, brought := Run(config, Init(now), actions).value.row, Persisted(config, Init(now), actions);
      && row.access == LastAccess(brought, None)
      && row.refresh == LastRefresh(brought, None)
      && row.version == |brought|
  {
    RunHoldsLast(config, Init(now), actions);
  }

  lemma {:induction false} NeverForgets(brought: seq<Brought>, before: Option<string>)
    ensures before.Some? ==> LastAccess(brought, before).Some? && LastRefresh(brought, before).Some?
  {
    if brought != [] {
      NeverForgets(brought[1..], if brought[0].access.Some? then brought[0].access else before);
      NeverForgets(brought[1..], if brought[0].refresh.Some? then brought[0].refresh else before);
    }
  }

  /** So a credential that has a refresh token always has one from then on, and one that has an
      access token too. */
  lemma TokensAreKept(config: Config, now: int, before: seq<Action>, after: seq<Action>)
    requires Run(config, Init(now), before).Some? && Run(config, Run(config, Init(now), before).value, after).Some?
    ensures var s := Run(config, Init(now), before).value; var t := Run(config, s, after).value;
      (s.row.refresh.Some? ==> t.row.refresh.Some?) && (s.row.access.Some? ==> t.row.access.Some?)
  {
    RunKeepsInv(config, Init(now), before);
    var s := Run(config, Init(now), before).value;
    RunHoldsLast(config, s, after);
    NeverForgets(Persisted(config, s, after), s.row.refresh);
    NeverForgets(Persisted(config, s, after), s.row.access);
  }
}
