/** How scope-rule rows travel through the JSON rules cache. */
module RulesCache {
  import opened Text
  import opened Scope

  datatype Json = JNull | JString(text: string) | JBool(value: bool) | JList(items: seq<string>)

  type RuleDict = map<string, Json>

  /** A stored scope rule: what the decision code reads, and what it does not. */
  datatype RuleRow = RuleRow(id: string, tokenId: string, rule: Rule, contentLock: Option<string>)

  function OptionalString(value: Option<string>): Json {
    if value.Some? then JString(value.value) else JNull
  }

  function OptionalList(value: Option<seq<string>>): Json {
    if value.Some? then JList(value.value) else JNull
  }

  function RuleToCacheDict(row: RuleRow): RuleDict {
    var rule := row.rule;
    map[
      "zone_id" := JString(rule.zoneId),
      "name_pattern" := OptionalString(rule.namePattern),
      "name_match" := JString(rule.nameMatch),
      "record_types" := JList(rule.recordTypes),
      "record_ids" := OptionalList(rule.recordIds),
      "allow_read" := JBool(rule.allowRead),
      "allow_create" := JBool(rule.allowCreate),
      "allow_write" := JBool(rule.allowWrite),
      "allow_delete" := JBool(rule.allowDelete)]
  }

  function Get(dict: RuleDict, key: string): Json {
    if key in dict then dict[key] else JNull
  }

  /** The rule-shaped object made from a cached dict; `None` when an attribute that the decision
      code needs is missing or of another type. */
  function CacheDictToRule(dict: RuleDict): Option<Rule> {
    var zone, pattern, mode := Get(dict, "zone_id"), Get(dict, "name_pattern"), Get(dict, "name_match");
    var types, ids := Get(dict, "record_types"), Get(dict, "record_ids");
    var read, create := Get(dict, "allow_read"), Get(dict, "allow_create");
    var write, delete := Get(dict, "allow_write"), Get(dict, "allow_delete");
    if zone.JString? && (pattern.JString? || pattern.JNull?) && mode.JString? && types.JList?
       && (ids.JList? || ids.JNull?) && read.JBool? && create.JBool? && write.JBool? && delete.JBool?
    then
      Some(Rule(zone.text, if pattern.JString? then Some(pattern.text) else None, mode.text, types.items,
                if ids.JList? then Some(ids.items) else None, read.value, create.value, write.value, delete.value))
    else None
  }

  /** A rule comes back from the cache with every attribute that the decision code reads. */
  lemma CacheRoundTrip(row: RuleRow)
    ensures CacheDictToRule(RuleToCacheDict(row)) == Some(row.rule)
  {
  }

  function RulesOf(rows: seq<RuleRow>): seq<Rule> {
    seq(|rows|, i requires 0 <= i < |rows| => rows[i].rule)
  }

  function RulesToCache(rows: seq<RuleRow>): seq<RuleDict> {
    seq(|rows|, i requires 0 <= i < |rows| => RuleToCacheDict(rows[i]))
  }

  function CacheToRules(dicts: seq<RuleDict>): Option<seq<Rule>> {
    if dicts == [] then Some([])
    else match (CacheDictToRule(dicts[0]), CacheToRules(dicts[1..]))
         case (Some(rule), Some(rest)) => Some([rule] + rest)
         case _ => None
  }

  /** A cached rule list decides every request as the stored rows do. */
  lemma {:induction false} CacheListRoundTrip(rows: seq<RuleRow>)
    ensures CacheToRules(RulesToCache(rows)) == Some(RulesOf(rows))
  {
    if rows != [] {
      CacheRoundTrip(rows[0]);
      CacheListRoundTrip(rows[1..]);
      assert RulesToCache(rows)[0] == RuleToCacheDict(rows[0]);
      assert RulesToCache(rows)[1..] == RulesToCache(rows[1..]);
      assert RulesOf(rows) == [rows[0].rule] + RulesOf(rows[1..]);
    } else {
      assert RulesOf(rows) == [] && RulesToCache(rows) == [];
    }
  }
}
