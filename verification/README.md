# Record-scoped authorization, verified

A Dafny model of the Cloudflare DNS proxy that hands out record-scoped tokens. It proves how far
the promise of the proxy's README carries, that a token cannot touch, and cannot see, records
outside its scope (README.md:3-6): a request can be forwarded on a fetched record exactly when the
rules stored for its token grant it (`EndToEnd.ForwardedExactly`), in every run each forward is
granted by its own token's rules, of a row that was active when it was read
(`Composition.ForwardsAreAuthorized`), a string is accepted exactly when it is the last one issued
for a token that was not ended and has not expired (`TokenRows.AcceptedExactly`), replies to
mutations say what the rules say of the fetched record (`MutationReplies.MutationsAnswer`), and
reads depend only on the records in scope (`Observation.NothingOutsideShows`). The model has five
parts.

**Names, patterns and rules.** `Text` is a split/join library on one separator. `Fqdn` is name
normalization on ASCII names, with the label limits of the `idna` codec (section 4.1 of RFC 3490,
section 2.3.4 of RFC 1035). `Scope` holds the matching predicates as pure functions; an error that
Python raises is a value (`None`, `Raised`, `Crashed`). `NormalForm`, `RuleFields` and
`PatternAcceptance` say what normalization, matching, lock exemption and pattern validation mean
without the functions that compute them; `NameTheorems`, `PatternTheorems` and `RuleTheorems` prove
their laws;
`Raising` says when a rule whose pattern cannot be normalized makes matching raise, and `Granting`
whether a rule set ever grants an operation. `Minting` goes from the validation of a token's rules
to where its grants can reach, and `MintingLimits` shows rule sets that validation lets through and
that reach further or fail.
`Authorizer` is the decision flow, `ListFilter`, `UpstreamPaging` and `Observation` are the list
endpoint with its paging, and what a token can observe.

**The mutation protocol.** `MutationProtocol` is a state machine of any number of requests by any
tokens: decide exemption, resolve the upstream credential (row lock), take the record lock or time
out, fetch, authorize, forward, release, audit. Requests interleave freely between steps. The pure
decisions are function values of its `Config`, so that the protocol's own laws hold of any such
decisions; `ProxyConfig` are the proxy's. `MutationLocks`, `MutationProgress`, `MutationSafety`,
`MutationTheorems`, `MutationRuns` and `MutationScope` prove what all its runs have in common;
`MutationReplies` what a client is told, `MutationTrail` what is audited and what happens without a
credential, `MutationRace` and `MutationEscape` what lock-exempt tokens change. `MutationRouter` is
the endpoints' code on mutable state, with other requests moving at each await.

**The token lifecycle.** `TokenLifecycle` is a state machine of service operations, cache losses and
resolves in progress, whose row read, credential read, cache read, rule SELECT and cache write are
steps of their own. `TokenLayout` and `RulesCache` are the token and key layouts and the JSON round
trip; `TokenSafety`, `TokenTheorems` and `TokenRoundTrip` the proofs; `TokenRows` tells what becomes
of a token by the operations of a run alone, and with that exactly who gets in; `TokenService` is
the services' and the resolver's code on the tables and the cache.

**The OAuth refresh protocol.** `OAuthRefresh` is a state machine of one credential: requests, login
callbacks, cache losses and a clock, with or without row locks. `OAuthSafety`, `OAuthTheorems`,
`OAuthRows`, `OAuthTimes` and `OAuthLimits` prove what its runs have in common and where that ends;
`OAuthClient` is
`get_valid_access_token` on mutable state (the refresh grant is section 6 of RFC 6749).

**From token to upstream.** `Composition` is the lifecycle and the mutation protocol as one machine,
in which a request starts with the rules that its token was resolved to; its runs are runs of both.
`EndToEnd` proves what a token can and cannot bring about, `ZoneConfinement` what the validation of
its rules buys for that.

The machines share `Traces`, which defines runs of a step function. In the three imperative
modules a method's contract says that what happened is `Executed`: a run of
the state machine, from the state before to the state after, in which every move of the request
itself is the one that its `Fate` (what the outside world does to it) and the locks call for. The
theorems about runs therefore hold of the code. A request gives up on a lock only when another one
holds it.

Nine properties do not hold without a condition. Each has its exact condition; those on rule sets
are stated on the rules:

- Normalization is idempotent exactly when no white space stands right before the trailing dots
  (`Fqdn.NormalizeIdempotent`), although match_rules normalizes twice.
- A name pattern accepted for a zone matches only names in it exactly when `StaysInZone` holds
  (`Minting.AcceptedConfined`). The apex marker `@`, a star inside the zone's own labels and white
  space after a dot are accepted and do not stay (`MintingLimits`). All that a minted token's rules
  grant, and all that is forwarded with them, is pinned by id or stays in the zone exactly when no
  rule without ids has such a pattern and can be reached before a rule that raises
  (`Minting.MintedGrantsConfined`, `ZoneConfinement.ConfinedExactly`).
- A lock-exempt operation is never refused. It is granted whatever the record's name exactly when
  every rule that would raise stands behind a nameless one that grants
  (`Raising.ExemptGrantedExactly`); minting accepts rules for which it does not
  (`MintingLimits.ExemptCanRaise`).
- What a token may not read never shows exactly when the records that some rule would raise on are
  readable by a nameless rule (`Observation.NothingOutsideShows`, `Authorizer.LooksMissingExactly`).
  Minting accepts a rule for which they are not: an unreadable record then answers with a server
  error where a missing one answers 404, and every list request fails
  (`MintingLimits.LeakyRuleAccepted`, `Observation.LeakedRecord`). That answers moreover show all
  that the token may read holds exactly when reading never raises
  (`Observation.ObservationalEquivalence`).
- All that is applied to a record is in the scope of the token that asked for it exactly when no
  token is lock-exempt for writing the record, or every token may write it and delete it under all
  names and types or under none (`MutationEscape.OwnScopeExactly`; `Granting.GrantableExactly` and
  `MutationEscape.CoversFullyExactly` decide both from the rules). Otherwise a token that holds the
  lock can delete or overwrite a record that was renamed or retyped out of its scope after it was
  fetched (`MutationEscape.EscapesScope`). The "only if" assumes that when tokens are lock-exempt for
  writing the record, the rules of one of them grant writing it on all names that normalize and all
  types (`MutationEscape.GrantedThroughoutExactly`); the "if" assumes nothing
  (`MutationEscape.SeparatedRun`).
- A forwarded mutation acts on the image that was fetched exactly when no token holds a lock-exempt
  rule for the record (`MutationRace.AtomicityExactly`). The run that shows the "only if" needs a
  record that the token's rules grant: one without a name always is, as no pattern is tried on it,
  and one with a name is whatever it is called if the rules grant throughout
  (`MutationEscape.NamedRecordsRace`).
- A refresh token is sent twice exactly when it is sent twice for one version of the row
  (`OAuthTheorems.SentTwiceExactly`), as happens when a grant is lost before it is persisted
  (`OAuthLimits.LostRefreshIsResent`) and without row locks (`OAuthLimits.UnlockedSendsTwice`).
- The lifetime of a returned access token has its bound (`OAuthTheorems.TokenLifetime`) until a
  login without an access token records a lifetime longer than that of the token it keeps and than
  one second beyond the skew, and no longer (`OAuthLimits.BareLoginExactly`). Section 5.1 of
  RFC 6749 requires an access token in the response, the code does not.
- Generated tokens parse exactly when the configured brand has no underscore
  (`TokenLayout.ParseGenerated`); with one, no token ever resolves
  (`TokenRoundTrip.UnderscoreNeverResolves`).

The documentation of `_mutate_dns_record_by_id` calls the mutation lock a no-op on SQLite
(src/cfproxy/routers/proxy_dns.py:490-494), and src/cfproxy/db/locks.py:62-71 takes a process-local
lock there. The model follows the code: the lock excludes in both cases.

## Model

| member | source | states |
|---|---|---|
| Fqdn.NormalizeImage | src/cfproxy/authz/scope.py:19-34 | the normalizer's results are exactly the empty name and the canonical names, described without the normalizer |
| Fqdn.NormalizeIdempotent | src/cfproxy/authz/scope.py:31-34 | normalizing twice is normalizing once if and only if no white space precedes the trailing dots |
| Fqdn.NormalizeIdempotentSpaceFree | src/cfproxy/authz/scope.py:31-34 | so on names without white space the double normalization agrees with one |
| Fqdn.NormalizeTwiceDiffers | src/cfproxy/authz/scope.py:31-34 | a name for which it does not |
| NormalForm.NormalizeMeaning | src/cfproxy/authz/scope.py:31-34 | what a name normalizes to: it loses the white space around it and then the dots behind it, and its letters become lower case; it is an error exactly when something is left and a label is empty or longer than 63 |
| NameTheorems.WildcardMeaning | src/cfproxy/authz/scope.py:106-131 | wildcard matching holds exactly when the canonical target is the canonical pattern with its first "*" label replaced by one dot-free label |
| NameTheorems.LeadingStarIsOneLabel | src/cfproxy/authz/scope.py:88-131 | a leading star takes one whole label: no dot crossing, no apex match |
| NameTheorems.CanonicalNormalizes | src/cfproxy/authz/scope.py:161-175 | the second normalization in rule matching never raises on the first one's result |
| NameTheorems.ExactConfined | src/cfproxy/authz/scope.py:53-66 | an accepted exact pattern matches only names in the zone, if and only if it is not the apex marker (or the zone is named so) |
| NameTheorems.WildcardConfined | src/cfproxy/authz/scope.py:106-131 | a wildcard pattern matches only names in the zone if and only if its labels right of the star end in the zone's labels |
| NameTheorems.WildcardVacuous | src/cfproxy/authz/scope.py:106-131 | a wildcard pattern that cannot be normalized or has no star label matches nothing |
| PatternTheorems.WildcardConfinedByPosition | src/cfproxy/authz/scope.py:68-85 | an accepted wildcard pattern without white space is confined to its zone if and only if its star stands left of the zone's own labels |
| PatternAcceptance.ExactAccepted | src/cfproxy/authz/scope.py:48-66 | an exact pattern is accepted if and only if it has no star, the zone name normalizes, and it is the apex marker or its labels end in the zone's; unknown modes never are |
| PatternAcceptance.WildcardAccepted | src/cfproxy/authz/scope.py:68-85 | a wildcard pattern is accepted if and only if it is one whole-label star between other labels without stars, and what these normalize to ends in the zone's labels |
| PatternAcceptance.ZoneNamesAccepted | src/cfproxy/authz/scope.py:37-85 | every canonical name that ends in the zone's labels is an accepted exact pattern, and with a star put anywhere left of the zone's labels an accepted wildcard |
| RuleFields.MatchMeaning | src/cfproxy/authz/scope.py:161-186 | column by column: matching grants if and only if the name normalizes and some rule for the zone, type and id has the operation's own column set and no pattern or one that fits, with no rule ahead of it that raises; and raises if and only if the name does not normalize, or some rule raises with none ahead of it that grants |
| RuleFields.ExemptMeaning | src/cfproxy/authz/scope.py:209-228 | an operation is lock-exempt if and only if some rule of the zone lists the record id and all types only, has no pattern, and has the operation's own column set |
| RuleFields.OtherColumnsDoNotCount | src/cfproxy/authz/scope.py:177-228 | changing the columns of other operations in any rules changes neither matching nor exemption |
| RuleTheorems.ScanMeaning | src/cfproxy/authz/scope.py:163-186 | the scan grants if and only if some rule grants and no earlier one raises, and raises if and only if some rule raises and no earlier one grants |
| RuleTheorems.MatchBySet | src/cfproxy/authz/scope.py:134-186 | when names normalize the answer depends only on the set of rules: granted if and only if some rule grants on its own |
| RuleTheorems.MatchMonotone | src/cfproxy/authz/scope.py:134-186 | more rules never grant less |
| RuleTheorems.GrantedCovers | src/cfproxy/authz/scope.py:163-186 | a grant is the doing of a rule that covers the operation on the image |
| RuleTheorems.ExemptCovers | src/cfproxy/authz/scope.py:189-228 | a lock-exempt token is covered for every image that the record may have |
| RuleTheorems.ExemptNeverRefused | src/cfproxy/authz/scope.py:189-228 | an exempt operation is never refused, and is granted if and only if the name normalizes and every rule whose pattern cannot be normalized stands behind one that grants |
| Raising.NeverRaisesExactly | src/cfproxy/authz/scope.py:161-186 | matching records of a type and id never raises, whatever their name, if and only if every rule for them whose pattern cannot be normalized stands behind a nameless rule that grants |
| Raising.ShieldedMeaning | src/cfproxy/authz/scope.py:161-186 | where it never raises, matching grants if and only if some rule grants on its own |
| Raising.OutOfReachExactly | src/cfproxy/authz/scope.py:161-186 | records out of the rules' reach are refused like any other, whatever their name, if and only if those that some rule raises on are granted by a nameless rule |
| Raising.ExemptGrantedExactly | src/cfproxy/authz/scope.py:161-228 | an exempt operation is granted for every name that normalizes if and only if every rule that would raise stands behind a nameless one that grants |
| RuleTheorems.ExemptGranted | src/cfproxy/authz/scope.py:189-228 | with patterns that normalize it is granted for every name that normalizes and every type |
| Granting.GrantableExactly | src/cfproxy/authz/scope.py:161-186 | the rules grant an operation on a record under some name and type if and only if one of them allows it for a type that it lists, and has no name pattern, or one that matches some name with no rule ahead of it that raises |
| Minting.ValidateScopeRules | src/cfproxy/services/token_service.py:96-110 | accepts exactly the non-empty rule lists whose every rule is valid, and asks the upstream about each zone that a pattern needs once |
| Minting.AcceptedConfined | src/cfproxy/authz/scope.py:37-131 | an accepted pattern matches only names in its zone if and only if it is not the apex marker, or matches nothing, or has the zone's labels right of its star |
| Minting.MintedGrantsConfined | src/cfproxy/services/token_service.py:96-110 | every grant of a validated rule set is pinned to a listed record id or to a name in the rule's zone, if and only if no rule without ids has a pattern that does not stay in the zone and is reached, for some type that it lists, before a rule that raises |
| MintingLimits.ApexMarkerNotConfined | src/cfproxy/authz/scope.py:58-66 | for every zone name that normalizes the apex marker is accepted, and it matches a name outside the zone unless that is the zone's name |
| MintingLimits.StarInsideZoneNotConfined | src/cfproxy/authz/scope.py:68-85 | a star between any two parts of a zone name is accepted and matches names outside the zone |
| MintingLimits.InnerSpaceNotConfined | src/cfproxy/authz/scope.py:79-82 | for every zone white space before its first label is accepted, and the pattern matches names outside the zone unless the label is too long for it to be normalized at all |
| MintingLimits.RaisingPatternAccepted | src/cfproxy/authz/scope.py:72-85 | for every zone a wildcard pattern with an empty label is accepted although it cannot be normalized |
| MintingLimits.ExemptCanRaise | src/cfproxy/authz/scope.py:161-186 | a rule set that can be minted and is exempt, whose matching raises on every name |
| MintingLimits.LeakyRuleAccepted | src/cfproxy/authz/scope.py:72-85 | a reading rule that can be minted and raises on records that no rule lets the token read |
| Authorizer.AllowedMeaning | src/cfproxy/authz/authorizer.py:96-140 | a by-id request is allowed if and only if the rules grant its operation on the record as fetched and as it would become; the decision carries the fetched record |
| Authorizer.DenialsDoNotLeak | src/cfproxy/authz/authorizer.py:110-138 | the 404 is shown if and only if the record is not authorized and nothing raises, a server error if and only if the fetch fails or matching raises, and a 403 only to callers who may operate on the record as it stands |
| Authorizer.LooksMissingExactly | src/cfproxy/authz/authorizer.py:110-127 | records out of the token's reach look missing, whatever their name and type, if and only if those that some rule raises on are granted by a nameless rule |
| Authorizer.DecidedWhenNamesNormalize | src/cfproxy/authz/authorizer.py:106-140 | a by-id request never raises on names that normalize |
| Authorizer.OtherMethodsMeaning | src/cfproxy/authz/authorizer.py:86-104 | a create is decided by the rules on the name and type it asks for, without a record id or a lock, and told 403 when they refuse; a method without an operation is refused |
| ListFilter.FilterMeaning | src/cfproxy/filtering/list_filter.py:28-34 | filtering every list keeps exactly the records that some rule covers for reading, in order, if and only if every rule that would raise stands behind a nameless one that grants reading |
| ListFilter.TotalPagesExact | src/cfproxy/filtering/list_filter.py:52-53 | the page count is the least number of pages that hold every record |
| ListFilter.PageIsChunk | src/cfproxy/filtering/list_filter.py:54-56 | a page is the corresponding chunk of the list |
| ListFilter.PagesPartition | src/cfproxy/filtering/list_filter.py:52-64 | pages 1 to total_pages concatenate to the list, all but the last are full, and pages beyond are empty |
| ListFilter.PageFromTheEnd | src/cfproxy/filtering/list_filter.py:54-56 | a negative page counts from the end of the list, and page 0 is empty |
| ListFilter.AnyPageIsARun | src/cfproxy/filtering/list_filter.py:52-64 | for any integers, negative ones included, a page is a contiguous run of the filtered list, with its own numbers, matching counts and the least sufficient number of pages |
| ListFilter.NoRuleReadsNothing | src/cfproxy/routers/proxy_dns.py:303-305 | answering an empty list without asking the upstream loses nothing |
| Observation.NoRuleSeesEmpty | src/cfproxy/routers/proxy_dns.py:303-305 | a token without a rule for the zone is told that it is empty, whatever is in it |
| Observation.GetMeaning | src/cfproxy/routers/proxy_dns.py:650-679 | GET by id returns a record exactly when it is readable, and the same 404 otherwise, for every zone, if and only if every rule for the id that would raise stands behind a nameless one that grants reading |
| Observation.ListMeaning | src/cfproxy/routers/proxy_dns.py:301-313 | the list endpoint is the local paging of the readable records of every zone, under the same condition for all ids |
| Observation.ListAndGetAgree | src/cfproxy/filtering/list_filter.py:28-34 | a record of a list that can be filtered survives the filter and belongs to no other zone if and only if GET on it is allowed |
| Observation.NothingOutsideShows | src/cfproxy/routers/proxy_dns.py:301-313 | any two zones that agree on the readable records, in order, answer every GET and list request alike, if and only if the records that some rule raises on are readable by a nameless rule |
| Observation.LeakedRecord | src/cfproxy/routers/proxy_dns.py:301-313 | otherwise one unreadable record is told from none, by one GET and by a list request |
| Observation.ObservationalEquivalence | src/cfproxy/routers/proxy_dns.py:301-313 | that any two zones answer every GET and every list request alike if and only if they agree on the readable records, in order, holds if and only if reading never raises |
| UpstreamPaging.ListAllRecords | src/cfproxy/upstream/client.py:179-201 | watched for any number of pages, the walk has stopped at the first page that declares no further one and returned all pages up to it, or failed at the first page that fails, or is still going with all pages so far |
| UpstreamPaging.WalkEndsExactly | src/cfproxy/upstream/client.py:179-201 | it has ended if and only if one of those pages failed or declared no further one |
| UpstreamPaging.FetchAllZones | src/cfproxy/routers/proxy_dns.py:151-174 | the same, except that a failed page ends the walk with what was found |
| UpstreamPaging.ListCredentialZones | src/cfproxy/services/credential_service.py:233-261 | returns the cached zones if there are any, otherwise walks and caches; a failed page caches nothing |
| UpstreamPaging.WalkCollectsAll | src/cfproxy/upstream/client.py:179-201 | against an upstream that pages a fixed list, the walk stops at its last page with exactly the list |
| UpstreamPaging.ListDnsRecords | src/cfproxy/routers/proxy_dns.py:301-313 | against an upstream that pages a fixed list, fetching every page, filtering and paging locally answers as if the list were at hand, and asks upstream only when a rule names the zone |
| TokenLayout.ParseGenerated | src/cfproxy/core/crypto.py:86-116 | parsing a generated token returns its lookup id and secret, unless the brand has an underscore, when it fails |
| TokenLayout.ParseInverts | src/cfproxy/core/crypto.py:108-116 | every token that parses has the generated layout |
| TokenLayout.ParseExactly | src/cfproxy/core/crypto.py:108-116 | a string parses to a lookup id and a secret if and only if it is a brand without underscore and these, words of 16 and 40 letters and digits, joined by underscores |
| TokenLayout.RulesKeyInjective | src/cfproxy/cache/redis.py:125-135 | cache keys are injective in lookup id and version, for all strings and integers |
| MutationLocks.RunKeepsLocks | src/cfproxy/routers/proxy_dns.py:515-542 | every run keeps the locking invariant: who holds which lock, in which phase |
| MutationLocks.MutualExclusion | src/cfproxy/db/locks.py:53-71 | at most one non-exempt request is between fetch and forward for any one record |
| MutationLocks.FailClosed | src/cfproxy/routers/proxy_dns.py:534-542 | a request that could not get the lock neither fetched nor forwarded, and a finished request holds no lock |
| MutationProgress.DeadlockFree | src/cfproxy/routers/proxy_dns.py:515-540 | in every reachable state with an unfinished request some request can move, without timeouts and with every credential needing its row lock |
| MutationProgress.StepsBounded | src/cfproxy/routers/proxy_dns.py:513-581 | every request is over after at most eight steps of its own |
| MutationProgress.CanDrain | src/cfproxy/routers/proxy_dns.py:513-581 | orderly steps alone can bring every request of a reachable state to its end |
| MutationSafety.StepKeepsInv | src/cfproxy/routers/proxy_dns.py:518-544 | every step keeps that forwards are allowed on what they fetched, and in step with it unless exempt requests run on the record |
| MutationTheorems.ProxySound | src/cfproxy/authz/authorizer.py:86-140 | the proxy's decisions are sound for the rules' coverage |
| MutationTheorems.FrameStep | src/cfproxy/routers/proxy_dns.py:527-532 | one step changes only records that a request covers, and leaves them where a request covers them |
| MutationRuns.LandsInScope | src/cfproxy/routers/proxy_dns.py:513-542 | in every interleaving, every record that is not as it was at the start is in some token's create or write scope |
| MutationScope.KeepsToScope | src/cfproxy/routers/proxy_dns.py:513-542 | every forward was granted by its own token's rules on the record that it fetched, as it was and as it would become; and unless another request is lock-exempt for writing the record, the record it reaches and what it leaves are in its own token's scope too |
| MutationScope.FrameOverRuns | src/cfproxy/routers/proxy_dns.py:513-542 | a record is changed only if the rules of some token that asks for it grant its request on the record as it was at the start, and every new or changed record is in some token's create or write scope |
| MutationScope.ExemptIsNoNeed | src/cfproxy/routers/proxy_dns.py:514-515 | the router's exemption test is the negation of the decision's need for a lock |
| MutationScope.HoldsTheLockItNeeds | src/cfproxy/authz/authorizer.py:106-108 | in every run a mutation about to be forwarded holds its record's lock if and only if the decision on what it fetched needs one |
| MutationRuns.TrailRun | src/cfproxy/routers/proxy_dns.py:546-580 | every run keeps the audit trail in line with the forwards |
| MutationReplies.MutationsAnswer | src/cfproxy/routers/proxy_dns.py:546-581 | in every run a by-id mutation that is over and has fetched tells its client what its rules say of what it fetched: 404/81044 when there is no such record in the zone or they refuse it, 403/9109 when they grant it as it is and refuse it as it would become, an error when they raise, and otherwise the upstream's answer; none is denied or answered that has not fetched |
| MutationReplies.DenialsLookAlike | src/cfproxy/authz/authorizer.py:110-127 | a record that the rules refuse is denied like a missing one, and a 403 shows only to tokens whose rules grant the operation on the record as fetched |
| MutationReplies.CreatesAnswer | src/cfproxy/routers/proxy_dns.py:383-438 | the same for creates: 403 when the rules refuse, an error when they raise, otherwise the upstream's answer |
| MutationReplies.ForwardTells | src/cfproxy/routers/proxy_dns.py:527-532 | a forward changes the upstream as its body says if it is applied, and not at all otherwise, and is logged with what it found |
| MutationReplies.ForwardsAreAnswered | src/cfproxy/routers/proxy_dns.py:527-581 | in every run a forwarded request ends with the answer to its own forward, or with an error if it got none |
| MutationTrail.RunAuditsRight | src/cfproxy/routers/proxy_dns.py:546-580 | in every run the trail has exactly one entry, with the fetched record, of every request denied or answered, and none of others |
| MutationTrail.NoCredentialNoForward | src/cfproxy/routers/proxy_dns.py:516-544 | once the wait for the credential has timed out, or its refresh failed, the request neither fetches nor is forwarded, and ends in an error |
| MutationTrail.RefreshReleasesRow | src/cfproxy/upstream/client.py:298-311 | once a refresh is committed its request holds no row lock any more |
| MutationRuns.AtomicOverRuns | src/cfproxy/routers/proxy_dns.py:518-544 | on a record that no request is exempt on, each forward acts on the image that was fetched, was allowed on it, and is audited with it |
| MutationRuns.RunForwardsOnce | src/cfproxy/routers/proxy_dns.py:518-532 | no request is forwarded twice |
| MutationRace.ExemptTokensRace | src/cfproxy/routers/proxy_dns.py:534-535 | on every record that its rules grant it, a lock-exempt token has a run in which a forward acts on an image that its request never fetched |
| MutationRace.AtomicityExactly | src/cfproxy/routers/proxy_dns.py:534-544 | all runs of a set of tokens act on what they fetched if and only if none of them holds a lock-exempt rule on the record |
| MutationEscape.CoversFullyExactly | src/cfproxy/authz/scope.py:163-186 | a token's rules cover an operation on a record under all names and types if and only if one nameless rule for all types does |
| MutationEscape.GrantedThroughoutExactly | src/cfproxy/authz/scope.py:161-228 | a lock-exempt token is granted writing the record on every name that normalizes and every type if and only if, for each type that its rules list, every rule that would raise stands behind a nameless one that grants |
| MutationEscape.NamedRecordsRace | src/cfproxy/routers/proxy_dns.py:534-535 | such a token races on the record whatever its name |
| MutationEscape.EscapesTo | src/cfproxy/routers/proxy_dns.py:534-540 | when a token's rules grant its request on one image of a record and do not cover another, and a lock-exempt token's rules grant writing both, some run has the first one's forward act on the record out of its scope |
| MutationEscape.EscapesScope | src/cfproxy/routers/proxy_dns.py:534-540 | so it is for every token that may write or delete the record under some names and types only, next to a lock-exempt one that is granted writing it throughout |
| MutationEscape.SeparatedRun | src/cfproxy/routers/proxy_dns.py:513-542 | when no token is lock-exempt for writing the record, or each may write and delete it always or never, all that is applied to it is in the scope of the token that asked for it |
| MutationEscape.OwnScopeExactly | src/cfproxy/routers/proxy_dns.py:513-542 | and only then, if the rules of some lock-exempt token, when there is one, grant writing the record throughout |
| MutationRouter.Proxy.MutateDnsRecordById | src/cfproxy/routers/proxy_dns.py:513-581 | whatever happens at the awaits, the endpoint's code is a justified run of the protocol that finishes with its reply, the one that the decision on its live fetch calls for |
| MutationRouter.Proxy.CreateDnsRecord | src/cfproxy/routers/proxy_dns.py:383-438 | the same for creates |
| MutationRouter.Proxy.AuthorizeAndForward | src/cfproxy/routers/proxy_dns.py:518-532 | the request's own moves are one fetch, and one forward if and only if the decision on what it returned allows it |
| MutationRouter.Proxy.FetchAndAuthorize | src/cfproxy/routers/proxy_dns.py:464-474 | the decision is made on what the live fetch returned, and a denial carries its error and the fetched record |
| MutationRouter.Proxy.AcquireRecordLock | src/cfproxy/db/locks.py:53-68 | the lock is taken if and only if it is free or not needed; otherwise the request ends as unavailable |
| MutationRouter.Proxy.ReleaseRecordLock | src/cfproxy/db/locks.py:58-71 | leaving the section is the protocol's release |
| MutationRouter.Proxy.ResolveAuth | src/cfproxy/upstream/client.py:279-311 | the request's own moves are the row lock and what comes of it, the end of the wait if another request holds it, or none for a cached token; it resolves if and only if none of them fails |
| RulesCache.CacheRoundTrip | src/cfproxy/auth/proxy_auth.py:53-86 | a rule comes back from the cache with every attribute that the decision code reads |
| RulesCache.CacheListRoundTrip | src/cfproxy/auth/proxy_auth.py:147-158 | a cached rule list is the stored rules, in order |
| TokenSafety.RunKeepsInv | src/cfproxy/auth/proxy_auth.py:132-216 | every run keeps the invariant: lookup ids belong to one row, cache entries hold rules of a version not older than their key's |
| TokenTheorems.NoStaleRules | src/cfproxy/auth/proxy_auth.py:132-158 | a resolve never returns rules older than the version it read, in any interleaving with rule edits, lifecycle operations and cache failures |
| TokenTheorems.CacheTransparent | src/cfproxy/auth/proxy_auth.py:144-158 | with the repository's own writers, what a resolve returns is its row's stored rules, from the cache or not |
| TokenTheorems.RevocationIsFinal | src/cfproxy/services/token_service.py:278-325 | after a revoke, a rotation or the deletion of the credential, no string issued before ever resolves again |
| TokenRows.ServedByOwner | src/cfproxy/services/token_service.py:196-216 | rotating and revoking succeed if and only if the row is the caller's, minting and deleting a credential if and only if the credential is, given valid rules and fresh draws |
| TokenRows.RowsAreLogged | src/cfproxy/services/token_service.py:147-325 | in every run a row has the owner, credential and expiry of its mint, the rules last written, the lookup id and the hash last issued, and is revoked if and only if it was revoked or its credential deleted |
| TokenRows.OnlyOwnersServe | src/cfproxy/services/token_service.py:196-325 | every operation of a run on a token is by the user that minted it, on a credential by its owner |
| TokenRows.RowReadExactly | src/cfproxy/auth/proxy_auth.py:184-203 | the row read accepts if and only if some row with the presented lookup id has the string's hash, is active and has not expired; otherwise the resolve is rejected |
| TokenRows.AcceptedExactly | src/cfproxy/auth/proxy_auth.py:184-203 | in every run, a presented string gets past the row read if and only if it is the last one issued for some token that was not revoked, whose credential was not deleted, and whose expiry has not passed |
| TokenRows.ResolvesToMinted | src/cfproxy/auth/proxy_auth.py:132-158 | unless rules are edited, every resolve returns the rules that the token was minted with |
| TokenRows.CredentialReadExactly | src/cfproxy/auth/proxy_auth.py:205-212 | the resolve goes on if and only if the token's credential exists |
| TokenRows.ResolvedHadCredential | src/cfproxy/auth/proxy_auth.py:205-212 | no resolve succeeds that has not found its token's credential |
| TokenRows.ResolveProceeds | src/cfproxy/auth/proxy_auth.py:184-216 | no resolve gets stuck |
| TokenRoundTrip.IssuedTokenResolves | src/cfproxy/auth/proxy_auth.py:184-216 | the string that mint or rotate returns resolves at once to its row's stored rules, whatever Redis does |
| TokenRoundTrip.SecondResolveHits | src/cfproxy/auth/proxy_auth.py:144-158 | once the loaded rules are stored, the next resolve of the token is over at its cache read, with the same rules |
| TokenRoundTrip.UnderscoreNeverResolves | src/cfproxy/core/crypto.py:108-110 | with an underscore in the brand no string ever resolves in any run |
| Composition.ForwardsAreAuthorized | src/cfproxy/auth/proxy_auth.py:184-216 | in every run of the services, resolves and requests together, every forward was asked for with a string that matched a row that was active and not past its expiry when it was read, the last one issued for a token neither revoked nor without credential by then; with rules stored for that row in a version not older than the one read, those of its mint when none are edited; and is kept to the scope of these rules |
| Composition.ChangesAreAuthorized | src/cfproxy/routers/proxy_dns.py:513-542 | a record is changed or removed only if such a token's stored rules grant a request on the record as it was at the start |
| Composition.RevocationStopsForwards | src/cfproxy/services/token_service.py:278-325 | after a revoke, a rotation or the deletion of the credential, a string issued before brings about no forward but those of requests whose resolve had read the row by then, one each |
| EndToEnd.ForwardedExactly | src/cfproxy/routers/proxy_dns.py:513-542 | for every token minted with the rules, some run forwards a request on a fetched record, or a creation, and the upstream applies it, if and only if the rules grant it |
| ZoneConfinement.ForwardsStayInZone | src/cfproxy/services/token_service.py:96-110 | in runs whose stored rules were all validated, every forward with rules none of which strays is asked for on a record that is pinned by id or in the zone by name, and asks for no other name |
| ZoneConfinement.ConfinedExactly | src/cfproxy/services/token_service.py:96-110 | and rules that minting accepts keep all runs so if and only if none of them strays |
| TokenService.Store.MintScopedToken | src/cfproxy/services/token_service.py:147-193 | mints if and only if the credential is owned and the rules are valid, as one step of the machine; otherwise nothing changes |
| TokenService.Store.RotateScopedToken | src/cfproxy/services/token_service.py:278-299 | rotates if and only if there is such a token and it is the caller's, changes only its lookup id, hash and version, and deletes the cached rules of the old lookup id and version |
| TokenService.Store.RevokeScopedToken | src/cfproxy/services/token_service.py:316-325 | revokes if and only if there is such a token and it is the caller's, changes only its status and version, and deletes the cached rules of the old version |
| TokenService.Store.RevokeDependents | src/cfproxy/services/credential_service.py:196-208 | exactly the active tokens on the credential are revoked, in whatever order they come, and their cached rules are deleted |
| TokenService.Store.DeleteCredential | src/cfproxy/services/credential_service.py:194-212 | deletes if and only if the credential is owned, in one transaction with the revocations |
| TokenService.Store.ResolveScopedToken | src/cfproxy/auth/proxy_auth.py:184-216 | whatever happens at the awaits, the resolver's code is a justified run of the machine that ends with what it returns; and what it returns is of a row that was usable at its own row read |
| TokenService.Store.Authenticate | src/cfproxy/auth/proxy_auth.py:184-203 | returns a row if and only if one with the parsed lookup id has the string's hash, is active and is not past its expiry at the clock reading |
| TokenService.Store.LoadRules | src/cfproxy/auth/proxy_auth.py:144-158 | cache first, then the SELECT and the cache write, under the key of the version that was read |
| OAuthTheorems.RunKeepsInv | src/cfproxy/upstream/client.py:275-311 | every run keeps the fence, lock and send-order invariants |
| OAuthTheorems.FenceIsCompareAndSwap | src/cfproxy/upstream/client.py:298-311 | with or without row locks, an update is persisted if and only if the row is the one that was read; at most one is per version, and a fenced-out one leaves the row unchanged |
| OAuthTheorems.RefreshesSerialized | src/cfproxy/upstream/client.py:279-311 | with row locks each refresh sends the refresh token of the row as it stands, and every update is persisted |
| OAuthTheorems.SentTwiceExactly | src/cfproxy/upstream/client.py:289-309 | against a server that rotates, two grants carry the same refresh token if and only if they are sent for the same row version |
| OAuthTheorems.NoTokenSentTwice | src/cfproxy/upstream/client.py:275-311 | with row locks, a refresh token is never sent again once a refresh with it was persisted |
| OAuthTheorems.TokenLifetime | src/cfproxy/upstream/client.py:272-317 | a returned token has more than min(skew, expires_in - 1) seconds left, less the delay between its issue and the clock reading or cache write, unless a login without an access token stretched its recorded lifetime |
| OAuthRows.RowHoldsLast | src/cfproxy/upstream/client.py:293-309 | in every run the row holds the last access token and the last refresh token that a persisted response brought, an empty or missing one counting as none, and its version counts the responses |
| OAuthRows.TokensAreKept | src/cfproxy/services/oauth_service.py:142-145 | a credential that has a refresh token, or an access token, never loses it |
| OAuthTimes.CacheDecides | src/cfproxy/upstream/client.py:275-277 | the cached token is used if and only if there is one and its time has not passed |
| OAuthTimes.CheckDecides | src/cfproxy/upstream/client.py:285-291 | the row's token is used if and only if it has more than the skew left, otherwise it is refreshed if there is a refresh token |
| OAuthTimes.WriteDecides | src/cfproxy/upstream/client.py:313-317 | a new token is returned, and cached if it has a lifetime, for that less the skew and one second at least |
| OAuthTimes.RefreshesWhenStale | src/cfproxy/upstream/client.py:275-317 | in every run a refresh is under way only for a row that had no more than the skew left, and what is cached is cached for what its issued lifetime calls for |
| OAuthLimits.LostRefreshIsResent | src/cfproxy/upstream/client.py:289-311 | when a refresh is lost before it is persisted, the next request sends the same refresh token again |
| OAuthLimits.UnlockedSendsTwice | src/cfproxy/db/locks.py:99-102 | without row locks two requests can send the same refresh token |
| OAuthLimits.BareLoginOutlives | src/cfproxy/services/oauth_service.py:142-146 | a login response without an access token restarts the old token's recorded lifetime |
| OAuthLimits.BareLoginExactly | src/cfproxy/services/oauth_service.py:117-148 | after a login without an access token some continuation hands the kept token out too short if and only if the login's lifetime exceeds the token's own and one second beyond the skew |
| OAuthClient.Client.GetValidAccessToken | src/cfproxy/upstream/client.py:269-317 | whatever happens at the awaits, the code is a justified run of the refresh protocol that ends with the token it returns or with an error, and leaves the row with the last tokens persisted; stored tokens are returned as they are |
| OAuthClient.Client.ReadTokenCache | src/cfproxy/upstream/client.py:275-277 | an unexpired cache entry is the token |
| OAuthClient.Client.LockRow | src/cfproxy/upstream/client.py:279-283 | the row as it stands, under the lock if there are row locks |
| OAuthClient.Client.UseRow | src/cfproxy/upstream/client.py:285-291 | the row's own token while it is valid beyond the skew, otherwise the refresh |
| OAuthClient.Client.PersistTokens | src/cfproxy/upstream/client.py:293-311 | over the row that was read, the new access token, the response's refresh token or else the old one, the new expiry and the next version; over any other row, nothing |
| OAuthClient.Client.CacheToken | src/cfproxy/upstream/client.py:313-317 | the token is returned, and cached if it has a lifetime, for that less the skew and one second at least |

## Left out

- Fqdn.NormalizeImage: ASCII names only; the nameprep and punycode path of the `idna` codec for other names is not modelled.
- TokenLayout.ParseExactly: ASCII strings only; Python's `isalnum` accepts other letters and digits too, of which none are ever drawn.
- UpstreamPaging.ListAllRecords: the walk as it stands after a given number of pages, which is a parameter; the source sets no limit.
- UpstreamPaging.FetchAllZones: the same.
- UpstreamPaging.ListCredentialZones: the same, and ownership of the credential is checked before.
- MutationRouter.Proxy.AcquireRecordLock: the wait for the lock is the interference before the call, then one try; the ten seconds are not counted.
- OAuthClient.Client.LockRow: the wait for the row lock likewise.
- TokenService.Store.MintScopedToken: the row id, the lookup id and the secret are parameters drawn fresh, and the upstream's zone names are a map.
- OAuthTheorems.NoTokenSentTwice: one direction; that a token can be sent again when the refresh was not persisted is `OAuthLimits.LostRefreshIsResent`.
- MutationEscape.OwnScopeExactly: when tokens are lock-exempt for writing the record, assumes that the rules of one of them grant it throughout. If all of them raise on some names, whether the escape exists can depend on which further tokens bring the record to an image that a lock-exempt one has fetched; it does when one of them grants writing two images of which the other token is granted one and does not cover the other (`MutationEscape.EscapesTo`), and no exact condition is given for that case. That separated tokens never escape needs no assumption (`MutationEscape.SeparatedRun`).
- MutationEscape.EscapesScope: the image out of scope has a name longer than any pattern and a type that no rule lists; the type is not one that DNS knows, as the model lets the upstream take any.
- MutationRace.AtomicityExactly: its racing run uses a record without a name, which the upstream does not return. On named records a lock-exempt token races wherever its rules grant it (`MutationRace.ExemptTokensRace`), on all of them if they grant throughout (`MutationEscape.NamedRecordsRace`); where they raise, nothing is forwarded.
- Observation.ObservationalEquivalence: for zones whose record names can be normalized, with distinct ids and no record of another zone, as is `Observation.NothingOutsideShows`.
- OAuthTheorems.FenceIsCompareAndSwap: the login callback is one step. The source loads the version without a lock and writes the loaded version plus one (src/cfproxy/services/oauth_service.py:117-148); if a refresh is persisted in between, two rows share a version, and the fence then accepts an update for a row that is no longer the one read.
- OAuthTheorems.TokenLifetime: the moment of return is the cache read, the clock reading or the cache write; what passes until the request is sent is not counted.
- Rule edits with a version bump are a step of the lifecycle machine because the cache is designed for them (src/cfproxy/auth/proxy_auth.py:4-11); no service has one.
- Service operations, and the login callback's write, are one atomic step each; the callback's read of the version and its update are not separated.
- OAuthTheorems.RefreshesSerialized: assumes that a locked read returns the current row. The source's `select ... for update` (src/cfproxy/upstream/client.py:279-283) may return the row that the session loaded when it resolved the token, so that the check under the lock sees the old one.
- SQLAlchemy's isolation levels, foreign keys and connection-pool limits.
- Encryption is invertible and leaves no trace in the model; the token hash is an opaque injective function.
- The upstream is a map from record id to record, changed only by the proxy; a record is reachable under one zone, PUT merges the body as PATCH does, and the forwarded body is the parsed one.
- A forward takes effect at one instant, while its request holds its lock. The client (src/cfproxy/upstream/client.py:76) has a default timeout: a forward that times out raises and releases the lock, and the upstream may apply it later. `MutationScope.KeepsToScope` and `MutationRace.AtomicityExactly` assume that this does not happen.
- A request keeps the rules that its token had when it was resolved, as in the source. The composed machine leaves out GET and list requests, and the imperative modules refine the machines one by one.
- ZoneConfinement.ConfinedExactly: the upstream's zone names do not change after a token is minted.
- JSON bodies are objects whose name, type and content are strings, null or absent.
- Cached rule dictionaries with missing or mistyped attributes reject the resolve, where the source raises.
- `history`, `owner`, `fetched`, `events`, `sent`, `writes`, `handed` and the stamps on rows and cache entries record what happened; no step decides on them, except that ids and tokens are drawn fresh.
- HTTP, header handling and origin pinning, FastAPI routing, schemas, JWT and JWKS validation, the login flow before its write, management accounts, rate limits, `content_lock` and `last_used_at`.
- Audit storage and listing: the model keeps who was audited with which pre-image and decision.
- The time to live of cached rules: entries may disappear at any time.
- Client disconnects and process crashes in the middle of a mutation.
