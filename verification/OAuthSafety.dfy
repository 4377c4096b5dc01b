/** What every step of the refresh protocol keeps. */
module OAuthSafety {
  import opened Text
  import opened OAuthRefresh

  /** The row that a request read and still acts on. */
  function Captured(p: Phase): Option<Row> {
    match p
    case RowRead(row) => Some(row)
    case Refreshing(row, _) => Some(row)
    case Awaiting(row, _) => Some(row)
    case Granted(row, _, _, _, _) => Some(row)
    case _ => None
  }

  /** The moves from phase to phase. */
  predicate NextPhase(s: State, from: Phase, to: Phase) {
    match from
    case Started => to == Missed || to.Returned?
    case Missed => to == RowRead(s.row) || to == Failed
    case RowRead(row) => to.Returned? || to == Failed || to == Refreshing(row, s.now)
    case Refreshing(row, readAt) => to == Awaiting(row, readAt) && row.refresh.Some?
    case Awaiting(row, readAt) => to == Failed || (to.Granted? && to.row == row && to.readAt == readAt)
    case Granted(_, _, access, _, expiresIn) => to == Failed || to == Updated(access, expiresIn)
    case Updated(access, _) => to == Returned(access)
    case Returned(token) => to == Closed(Some(token))
    case Failed => to == Closed(None)
    case Closed(_) => false
  }

  ghost predicate Moved(s: State, q: nat, t: State) {
    && q in s.phases && q in t.phases
    && t.phases == s.phases[q := t.phases[q]]
    && NextPhase(s, s.phases[q], t.phases[q])
    && t.now == s.now
  }

  predicate Persists(s: State, from: Phase, to: Phase) {
    from.Granted? && to.Updated? && from.row.version == s.row.version
  }

  ghost predicate RowMoved(s: State, q: nat, t: State)
    requires q in s.phases && q in t.phases
  {
    var p := s.phases[q];
    if Persists(s, p, t.phases[q]) then
      && t.row == RefreshedRow(p.row, p.readAt, p.access, p.refresh, p.expiresIn)
      && t.refreshAt == s.refreshAt[t.row.version := t.row.refresh]
      && t.writes == s.writes + [Write(q, p.row.version)]
    else
      t.row == s.row && t.refreshAt == s.refreshAt && t.writes == s.writes
  }

  ghost predicate SentMoved(s: State, q: nat, t: State)
    requires q in s.phases && q in t.phases
  {
    var p := s.phases[q];
    if p.Refreshing? then p.row.refresh.Some? && t.sent == s.sent + [Sent(q, p.row.refresh.value, p.row.version)]
    else t.sent == s.sent
  }

  ghost predicate IssuedMoved(s: State, q: nat, t: State)
    requires q in s.phases && q in t.phases
  {
    var to := t.phases[q];
    if s.phases[q].Awaiting? && to.Granted? then
      && NewTokens(s, Some(to.access), Given(to.refresh))
      && t.issued == s.issued[to.access := Issue(s.now, to.expiresIn)]
      && t.refreshIssued == s.refreshIssued + (if Given(to.refresh).Some? then {Given(to.refresh).value} else {})
    else
      t.issued == s.issued && t.refreshIssued == s.refreshIssued
  }

  ghost predicate HolderMoved(config: Config, s: State, q: nat, t: State)
    requires q in s.phases && q in t.phases
  {
    var to := t.phases[q];
    if to.RowRead? && config.locking then s.holder == None && t.holder == Some(q)
    else if to.Updated? || to.Closed? then t.holder == Released(s, q)
    else t.holder == s.holder
  }

  lemma StepMoves(config: Config, s: State, q: nat, move: Move)
    requires Step(config, s, Do(q, move)).Some?
    ensures Moved(s, q, Step(config, s, Do(q, move)).value)
  {
  }

  lemma StepMovesRow(config: Config, s: State, q: nat, move: Move)
    requires Step(config, s, Do(q, move)).Some?
    ensures q in s.phases && q in Step(config, s, Do(q, move)).value.phases
    ensures RowMoved(s, q, Step(config, s, Do(q, move)).value)
  {
  }

  lemma StepMovesSent(config: Config, s: State, q: nat, move: Move)
    requires Step(config, s, Do(q, move)).Some?
    ensures q in s.phases && q in Step(config, s, Do(q, move)).value.phases
    ensures SentMoved(s, q, Step(config, s, Do(q, move)).value)
  {
  }

  lemma StepMovesIssued(config: Config, s: State, q: nat, move: Move)
    requires Step(config, s, Do(q, move)).Some?
    ensures q in s.phases && q in Step(config, s, Do(q, move)).value.phases
    ensures IssuedMoved(s, q, Step(config, s, Do(q, move)).value)
  {
  }

  lemma StepMovesHolder(config: Config, s: State, q: nat, move: Move)
    requires Step(config, s, Do(q, move)).Some?
    ensures q in s.phases && q in Step(config, s, Do(q, move)).value.phases
    ensures HolderMoved(config, s, q, Step(config, s, Do(q, move)).value)
  {
  }

  /** A row read earlier is of an earlier version, or is still the row. */
  predicate RowKnown(s: State, row: Row) {
    row.version <= s.row.version && (row.version == s.row.version ==> row == s.row)
  }

  ghost predicate FenceInv(s: State) {
    && (forall q | q in s.phases && Captured(s.phases[q]).Some? :: RowKnown(s, Captured(s.phases[q]).value))
    && (forall i | 0 <= i < |s.writes| :: s.writes[i].from < s.row.version)
    && (forall i, j | 0 <= i < j < |s.writes| :: s.writes[i].from < s.writes[j].from)
  }

  lemma MovedFence(s: State, q: nat, t: State)
    requires FenceInv(s) && Moved(s, q, t) && RowMoved(s, q, t)
    ensures FenceInv(t)
  {
  }

  predicate MayHold(p: Phase) {
    Captured(p).Some? || p.Returned? || p.Failed?
  }

  ghost predicate LockInv(config: Config, s: State) {
    && (!config.locking ==> s.holder == None)
    && (s.holder.Some? ==> s.holder.value in s.phases && MayHold(s.phases[s.holder.value]))
    && (config.locking ==> forall q | q in s.phases && Captured(s.phases[q]).Some? ::
          s.holder == Some(q) && Captured(s.phases[q]).value == s.row)
  }

  lemma MovedLock(config: Config, s: State, q: nat, t: State)
    requires LockInv(config, s) && Moved(s, q, t) && RowMoved(s, q, t) && HolderMoved(config, s, q, t)
    ensures LockInv(config, t)
  {
  }

  /** The refresh token of every row version, as the rows read and the grants sent have it. */
  ghost predicate VersionsInv(s: State) {
    && s.row.version in s.refreshAt && s.refreshAt[s.row.version] == s.row.refresh
    && (forall v | v in s.refreshAt :: v <= s.row.version)
    && (forall q | q in s.phases && Captured(s.phases[q]).Some? :: VersionOf(s, Captured(s.phases[q]).value))
    && (forall i | 0 <= i < |s.sent| ::
          s.sent[i].version in s.refreshAt && s.refreshAt[s.sent[i].version] == Some(s.sent[i].token))
  }

  predicate VersionOf(s: State, row: Row) {
    row.version in s.refreshAt && s.refreshAt[row.version] == row.refresh
  }

  lemma MovedVersions(s: State, q: nat, t: State)
    requires FenceInv(s) && VersionsInv(s)
    requires Moved(s, q, t) && RowMoved(s, q, t) && SentMoved(s, q, t)
    ensures VersionsInv(t)
  {
  }

  predicate PastSend(p: Phase) {
    p.Awaiting? || p.Granted? || p.Updated? || p.Returned? || p.Failed? || p.Closed?
  }

  predicate PastUpdate(p: Phase) {
    p.Updated? || p.Returned? || p.Closed?
  }

  predicate InGrant(p: Phase) {
    p.Awaiting? || p.Granted?
  }

  /** Each request sends at most once, for the row version that it read and may replace. */
  ghost predicate SentInv(s: State) {
    && (forall i | 0 <= i < |s.sent| :: s.sent[i].q in s.phases && SendOf(s.sent[i], s.phases[s.sent[i].q]))
    && (forall i, j | 0 <= i < j < |s.sent| :: s.sent[i].q != s.sent[j].q)
    && (forall w | 0 <= w < |s.writes| :: s.writes[w].q in s.phases && PastUpdate(s.phases[s.writes[w].q]))
    && (forall w, i | 0 <= w < |s.writes| && 0 <= i < |s.sent| && s.writes[w].q == s.sent[i].q ::
          s.writes[w].from == s.sent[i].version)
  }

  predicate SendOf(sent: Sent, p: Phase) {
    PastSend(p) && (InGrant(p) ==> p.row.version == sent.version)
  }

  lemma MovedSent(s: State, q: nat, t: State)
    requires SentInv(s) && Moved(s, q, t) && RowMoved(s, q, t) && SentMoved(s, q, t)
    ensures SentInv(t)
  {
  }

  /** With row locks: a request that waits for its grant sent the last one, and after a refresh
      is persisted only later row versions are sent. */
  ghost predicate OrderInv(config: Config, s: State) {
    config.locking ==>
      && (forall q | q in s.phases && InGrant(s.phases[q]) :: |s.sent| > 0 && s.sent[|s.sent| - 1].q == q)
      && (forall w, i, j | 0 <= w < |s.writes| && 0 <= i < j < |s.sent| && s.writes[w].q == s.sent[i].q ::
            s.sent[i].version < s.sent[j].version)
  }

  lemma MovedOrder(config: Config, s: State, q: nat, t: State)
    requires FenceInv(s) && LockInv(config, s) && SentInv(s) && OrderInv(config, s)
    requires Moved(s, q, t) && RowMoved(s, q, t) && SentMoved(s, q, t)
    ensures OrderInv(config, t)
  {
  }

  /** When the server rotates the refresh token on every grant and every login: each row version
      has a refresh token of its own, and so has each grant that is not persisted yet. */
  ghost predicate RotationInv(s: State) {
    OwnTokens(s) && PendingInv(s)
  }

  ghost predicate OwnTokens(s: State) {
    && (forall v, w | v in s.refreshAt && w in s.refreshAt && s.refreshAt[v].Some?
                      && s.refreshAt[v] == s.refreshAt[w] :: v == w)
    && (forall v | v in s.refreshAt && s.refreshAt[v].Some? :: s.refreshAt[v].value in s.refreshIssued)
  }

  ghost predicate PendingInv(s: State) {
    && (forall q | q in s.phases && s.phases[q].Granted? :: PendingOk(s, Given(s.phases[q].refresh)))
    && (forall q, r | q in s.phases && r in s.phases && q != r && s.phases[q].Granted? && s.phases[r].Granted? ::
          Given(s.phases[q].refresh) != Given(s.phases[r].refresh))
  }

  ghost predicate PendingOk(s: State, refresh: Option<string>) {
    refresh.Some? && refresh.value in s.refreshIssued && forall v | v in s.refreshAt :: s.refreshAt[v] != refresh
  }

  lemma MovedOwnTokens(s: State, q: nat, t: State)
    requires RotationInv(s) && Moved(s, q, t) && RowMoved(s, q, t) && IssuedMoved(s, q, t)
    ensures OwnTokens(t)
  {
  }

  lemma MovedPending(s: State, q: nat, t: State)
    requires RotationInv(s) && Moved(s, q, t) && RowMoved(s, q, t) && IssuedMoved(s, q, t)
    requires t.phases[q].Granted? ==> Given(t.phases[q].refresh).Some?
    ensures PendingInv(t)
  {
  }

  /** The token was issued, with the lifetime that is taken for it. */
  predicate Lasting(s: State, token: string, expiresIn: Option<int>) {
    token in s.issued && s.issued[token].expiresIn == expiresIn
  }

  /** The longest lifetime that may be recorded for a token of lifetime `expiresIn`. */
  function Longest(config: Config, expiresIn: int): int {
    Max(expiresIn, config.skew + 1)
  }

  /** What the row says of its access token's lifetime is not more than the token bears. */
  predicate RowTimed(config: Config, s: State, row: Row) {
    && row.stampedAt <= s.now
    && (row.access.Some? ==>
          && row.access.value in s.issued
          && var lifetime := s.issued[row.access.value].expiresIn;
          && (row.expiresAt.Some? && lifetime.Some? ==>
                row.expiresAt.value <= row.stampedAt + Longest(config, lifetime.value)))
  }

  predicate CacheTimed(config: Config, s: State) {
    s.cache.Some? ==>
      var entry := s.cache.value;
      && entry.token in s.issued && s.issued[entry.token].expiresIn.Some?
      && entry.until == entry.wroteAt + Ttl(config, s.issued[entry.token].expiresIn.value)
  }

  predicate PhaseTimed(config: Config, s: State, p: Phase) {
    && (Captured(p).Some? ==> RowTimed(config, s, Captured(p).value))
    && (p.Refreshing? || p.Awaiting? || p.Granted? ==> p.readAt <= s.now)
    && (p.Granted? || p.Updated? ==> Lasting(s, p.access, p.expiresIn))
  }

  function Min(a: int, b: int): int {
    if a < b then a else b
  }

  /** The seconds that the token had left when it was handed out, against the lag of the clock
      reading or cache write that its lifetime was counted from. */
  predicate LongEnough(config: Config, s: State, h: Handed) {
    && h.token in s.issued
    && var issue := s.issued[h.token];
    && (issue.expiresIn.Some? ==>
      issue.at + issue.expiresIn.value - h.at
      > Min(config.skew, issue.expiresIn.value - 1) - Max(0, h.stamp - issue.at))
  }

  ghost predicate TimeInv(config: Config, s: State) {
    && RowTimed(config, s, s.row)
    && CacheTimed(config, s)
    && (forall q | q in s.phases :: PhaseTimed(config, s, s.phases[q]))
    && (forall i | 0 <= i < |s.handed| :: LongEnough(config, s, s.handed[i]))
  }

  ghost predicate HandedMoved(config: Config, s: State, q: nat, t: State)
    requires q in s.phases && q in t.phases
  {
    var p, to := s.phases[q], t.phases[q];
    if to.Returned? then
      match p
      case Started =>
        && s.cache.Some? && s.now < s.cache.value.until && s.cache.value.token == to.token
        && t.handed == s.handed + [Handed(q, to.token, s.now, s.cache.value.wroteAt)]
      case RowRead(row) =>
        && StillValid(config, row, s.now) && row.access == Some(to.token)
        && t.handed == s.handed + [Handed(q, to.token, s.now, row.stampedAt)]
      case _ => p.Updated? && p.access == to.token && t.handed == s.handed + [Handed(q, to.token, s.now, s.now)]
    else
      t.handed == s.handed
  }

  ghost predicate CacheMoved(config: Config, s: State, q: nat, t: State)
    requires q in s.phases && q in t.phases
  {
    var p := s.phases[q];
    || t.cache == s.cache
    || (p.Updated? && p.expiresIn.Some?
        && t.cache == Some(Cached(p.access, s.now + Ttl(config, p.expiresIn.value), s.now)))
  }

  lemma StepMovesHanded(config: Config, s: State, q: nat, move: Move)
    requires Step(config, s, Do(q, move)).Some?
    ensures q in s.phases && q in Step(config, s, Do(q, move)).value.phases
    ensures HandedMoved(config, s, q, Step(config, s, Do(q, move)).value)
  {
  }

  lemma StepMovesCache(config: Config, s: State, q: nat, move: Move)
    requires Step(config, s, Do(q, move)).Some?
    ensures q in s.phases && q in Step(config, s, Do(q, move)).value.phases
    ensures CacheMoved(config, s, q, Step(config, s, Do(q, move)).value)
  {
  }

  /** The three places that a token comes from: the cache, the row, and the grant. */
  lemma CacheLongEnough(config: Config, s: State, q: nat)
    requires CacheTimed(config, s) && s.cache.Some? && s.now < s.cache.value.until
    ensures LongEnough(config, s, Handed(q, s.cache.value.token, s.now, s.cache.value.wroteAt))
  {
  }

  lemma RowLongEnough(config: Config, s: State, q: nat, row: Row)
    requires RowTimed(config, s, row) && row.access.Some? && StillValid(config, row, s.now)
    ensures LongEnough(config, s, Handed(q, row.access.value, s.now, row.stampedAt))
  {
  }

  lemma GrantLongEnough(config: Config, s: State, q: nat, access: string)
    requires access in s.issued
    ensures LongEnough(config, s, Handed(q, access, s.now, s.now))
  {
  }

  /** Issuing more tokens changes nothing for the ones issued. */
  ghost predicate MoreIssued(s: State, t: State) {
    forall token | token in s.issued :: token in t.issued && t.issued[token] == s.issued[token]
  }

  lemma MovedHanded(config: Config, s: State, q: nat, t: State)
    requires TimeInv(config, s) && Moved(s, q, t) && HandedMoved(config, s, q, t) && MoreIssued(s, t)
    ensures forall i | 0 <= i < |t.handed| :: LongEnough(config, t, t.handed[i])
  {
    var p, to := s.phases[q], t.phases[q];
    assert PhaseTimed(config, s, p);
    if to.Returned? {
      if p.Started? {
        CacheLongEnough(config, s, q);
      } else if p.RowRead? {
        RowLongEnough(config, s, q, p.row);
      } else {
        GrantLongEnough(config, s, q, to.token);
      }
    }
  }

  lemma MovedTimed(config: Config, s: State, q: nat, t: State)
    requires TimeInv(config, s) && Moved(s, q, t) && MoreIssued(s, t)
    requires RowMoved(s, q, t) && IssuedMoved(s, q, t) && CacheMoved(config, s, q, t)
    ensures RowTimed(config, t, t.row) && CacheTimed(config, t)
    ensures forall r | r in t.phases :: PhaseTimed(config, t, t.phases[r])
  {
    assert PhaseTimed(config, s, s.phases[q]);
  }

  lemma MovedMoreIssued(s: State, q: nat, t: State)
    requires Moved(s, q, t) && IssuedMoved(s, q, t)
    ensures MoreIssued(s, t)
  {
  }
}
