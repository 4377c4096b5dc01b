/** Rule matching: which scope rules grant which operation on which DNS record. */
module Scope {
  import opened Text
  import opened Fqdn

  datatype Need = Read | Create | Write | Delete

  datatype NameMatch = Exact | Wildcard | UnknownMatch

  /** The attributes of a `ScopeRule` row that the decision code reads. */
  datatype Rule = Rule(
    zoneId: string,
    namePattern: Option<string>,
    nameMatch: string,
    recordTypes: seq<string>,
    recordIds: Option<seq<string>>,
    allowRead: bool,
    allowCreate: bool,
    allowWrite: bool,
    allowDelete: bool)
  {
    function Mode(): NameMatch {
      if nameMatch == "exact" then Exact else if nameMatch == "wildcard" then Wildcard else UnknownMatch
    }

    predicate Allows(need: Need) {
      match need
      case Read => allowRead
      case Create => allowCreate
      case Write => allowWrite
      case Delete => allowDelete
    }

    /** The zone, type and id filters that a rule applies before it looks at the name. */
    predicate Admits(zoneId: string, rtype: Option<string>, recordId: Option<string>) {
      && this.zoneId == zoneId
      && ("*" in recordTypes || (rtype.Some? && rtype.value in recordTypes))
      && (recordIds == None || recordIds.value == []
          || (recordId.Some? && recordId.value in recordIds.value))
    }
  }

  /** The position of the first label that is exactly "*". */
  function StarIndex(labels: seq<string>): (r: Option<nat>)
    ensures r.Some? ==> r.value < |labels| && labels[r.value] == "*"
    ensures forall i | 0 <= i < (if r.Some? then r.value else |labels|) :: labels[i] != "*"
  {
    if labels == [] then None
    else if labels[0] == "*" then Some(0)
    else match StarIndex(labels[1..])
         case None => None
         case Some(i) =>
           assert forall j | 0 < j <= i :: labels[j] == labels[1..][j - 1];
           Some(i + 1)
  }

  predicate LabelsMatch(pattern: seq<string>, target: seq<string>) {
    match StarIndex(pattern)
    case None => false
    case Some(star) =>
      && |pattern| == |target|
      && forall i | 0 <= i < |pattern| :: i == star || pattern[i] == target[i]
  }

  predicate CanonicalMatches(p: string, mode: NameMatch, t: string) {
    match mode
    case Exact => p == t
    case Wildcard => LabelsMatch(Split(p, '.'), Split(t, '.'))
    case UnknownMatch => false
  }

  /** `None` stands for the error raised when a name cannot be normalized. */
  function NameMatches(pattern: string, mode: NameMatch, target: string): Option<bool> {
    BothCanonical(NormalizeFqdn(pattern), mode, NormalizeFqdn(target))
  }

  function BothCanonical(p: Option<string>, mode: NameMatch, t: Option<string>): Option<bool> {
    if p == None || t == None then None else Some(CanonicalMatches(p.value, mode, t.value))
  }

  datatype Verdict = Granted | Refused | Raised

  /** One turn of the scan: `Refused` goes on to the next rule, the others end the scan. */
  function RuleVerdict(rule: Rule, zoneId: string, name: Option<string>, rtype: Option<string>,
                       recordId: Option<string>, need: Need): Verdict
  {
    if !rule.Admits(zoneId, rtype, recordId) then Refused
    else if rule.namePattern == None then
      if rule.Allows(need) then Granted else Refused
    else if name == None then Refused
    else match NameMatches(rule.namePattern.value, rule.Mode(), name.value)
         case None => Raised
         case Some(matches) => if matches && rule.Allows(need) then Granted else Refused
  }

  function ScanRules(rules: seq<Rule>, zoneId: string, name: Option<string>, rtype: Option<string>,
                     recordId: Option<string>, need: Need): Verdict
  {
    if rules == [] then Refused
    else match RuleVerdict(rules[0], zoneId, name, rtype, recordId, need)
         case Refused => ScanRules(rules[1..], zoneId, name, rtype, recordId, need)
         case Granted => Granted
         case Raised => Raised
  }

  /** The canonical form of a record's name; `None` when there is no name to normalize. */
  function CanonicalName(name: Option<string>): Option<Option<string>> {
    if name == None || name.value == "" then Some(None)
    else match NormalizeFqdn(name.value)
         case None => None
         case Some(n) => Some(Some(n))
  }

  function MatchRules(rules: seq<Rule>, zoneId: string, name: Option<string>, rtype: Option<string>,
                      recordId: Option<string>, need: Need): Verdict
  {
    match CanonicalName(name)
    case None => Raised
    case Some(n) => ScanRules(rules, zoneId, n, rtype, recordId, need)
  }

  predicate ExemptRule(rule: Rule, zoneId: string, recordId: string, op: Need) {
    && rule.zoneId == zoneId
    && rule.namePattern == None
    && rule.recordTypes == ["*"]
    && rule.recordIds.Some? && recordId in rule.recordIds.value
    && rule.Allows(op)
  }

  predicate IsLockExempt(rules: seq<Rule>, zoneId: string, recordId: string, op: Need) {
    exists i | 0 <= i < |rules| :: ExemptRule(rules[i], zoneId, recordId, op)
  }

  /** A JSON body field: absent, or present with a string or null. */
  datatype Field = Absent | Present(value: Option<string>)
  {
    function Or(previous: Option<string>): Option<string> {
      if Absent? then previous else value
    }
  }

  datatype Image = Image(name: Option<string>, rtype: Option<string>)

  datatype Body = Body(name: Field, rtype: Field, content: Field)

  function MergePatchImage(pre: Image, body: Body): Image {
    Image(body.name.Or(pre.name), body.rtype.Or(pre.rtype))
  }

  /** The position of the first label that contains a star, `|labels|` when there is none. */
  function FirstStarred(labels: seq<string>): (r: nat)
    ensures r <= |labels| && (r < |labels| ==> '*' in labels[r])
    ensures forall i | 0 <= i < r :: '*' !in labels[i]
  {
    if labels == [] || '*' in labels[0] then 0 else 1 + FirstStarred(labels[1..])
  }

  predicate StarIsWholeLabel(pattern: string) {
    var labels := Split(pattern, '.');
    var star := FirstStarred(labels);
    star < |labels| && labels[star] == "*"
  }

  /** The pattern without its starred label. */
  function Remainder(pattern: string): string {
    var labels := Split(pattern, '.');
    var star := FirstStarred(labels);
    if star < |labels| then Join(labels[..star] + labels[star + 1..], '.') else pattern
  }

  predicate InZone(name: string, zone: string) {
    name == zone || EndsWith(name, "." + zone)
  }

  /** True when `validate_name_pattern` returns, false when it raises `ValueError` (of which
      the codec's `UnicodeError` is a subclass). */
  predicate AcceptsPattern(pattern: string, mode: NameMatch, zoneName: string) {
    var zone := NormalizeFqdn(zoneName);
    match mode
    case UnknownMatch => false
    case Exact =>
      && '*' !in pattern
      && zone.Some?
      && var candidate := if pattern == "@" then zone else NormalizeFqdn(pattern);
      && candidate.Some? && InZone(candidate.value, zone.value)
    case Wildcard =>
      && zone.Some?
      && multiset(pattern)['*'] == 1
      && StarIsWholeLabel(pattern)
      && var remainder := NormalizeFqdn(Remainder(pattern));
      && remainder.Some? && InZone(remainder.value, zone.value)
  }
}
