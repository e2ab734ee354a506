# A verified model of the gateway's decision core

The gateway authenticates a request, classifies its GraphQL body without running it, checks the
caller's scopes, takes a rate-limit admission, forwards the request and audits it. This project
models those stages and the way concurrent requests interleave in them, and proves what they
promise together.

- `Document`, `Reachability`, `Collector`: the walk that collects an operation's root fields over
  a fragment graph that may be cyclic. Its output is exactly the reachable field names; its cost is
  exact. `FieldCollector` is the walk with its two buffers updated in place.
- `Expansion`: the walk against the naive expansion it replaces, cut at a depth for every fragment
  map and in full for acyclic ones.
- `Execution`: the walk against CollectFields and GetOperation of the GraphQL specification
  (October 2021, sections 6.3.2 and 6.1).
- `Masking`: aliases, renamed fragments, inlined fragments and reordered items.
- `Classify`, `ScopeSets`, `Authz`, `AuthzLaws`: classification of single and batched bodies, the
  authorization decision with its sorted listings, and the laws of the two together.
- `Auth`, `Proxy`: which principal a credential yields; routing, header filtering and the bearer
  token.
- `RateLimit`: per (scope, principal) budgets, their isolation and their rate bound.
- `Pipeline`, `Invariants`, `Theorems`: all requests as one step system. Each access to the
  limiters, audit trail and counters, each upstream send and each await point is a step of its
  own. A limiter check carries its own clock reading and nothing orders the readings of different
  requests, so the theorems hold for threads running in parallel too.
- `Criteria`: whose a request is, what it calls for and where it goes, over the request, its body and
  the configuration's fields; the stages are shown to decide by exactly that.
- `Independence`: requests that share no budget leave each other's runs as they are.
- `Handler`: the handler as one request runs it, on an object whose fields it updates, and the
  proof that it is one of the interleavings.
- `Sending`: exactly which requests can reach an upstream at all.

Where the code and its documentation differ, the model follows the code. Each difference has the
exact condition and a request at which the documented promise fails:

- `/_admin` is documented as a write. It is sent if and only if the principal holds `write`, or
  `read` alone when the call is a GET (`Sending.AdminSentIff`, `Sending.AdminGetIsSentForReader`).
- Errors of classification are documented as never reaching an upstream. Such a body is sent by
  GET, to the admin route, and with `fail_closed_on_parse_error` off
  (`Sending.UnclassifiableSentIff`, `Sending.UnclassifiableIsSent`).
- A GET is taken to be a query. It is sent for every principal that holds `read` or `write`,
  whatever its body holds (`Sending.GetSentIff`, `Sending.GetCarriesMutation`).
- The client certificate is documented as coming before the bearer token. Only the configured mode's
  credential is looked at (`Auth.OtherCredentialIgnored`, `Auth.CertificateGoesForNothing`).
- The path that is routed includes the query string, so `/_admin?x` is not under the admin prefix
  (`Proxy.RouteMeans`, `Proxy.QueryAfterPrefixIsManagement`).

## Model

| member | source | states |
|---|---|---|
| `Collector.CollectsExactlyReachable` | src/classify.rs:194-224 | for every fragment map, cyclic, self-referential or with undefined spreads, a name is collected if and only if some chain of inline fragments and defined spreads leads to a field of that name |
| `Collector.WalkSound` | src/classify.rs:203-223 | from any buffers, the walk adds only reachable field names and marks only reachable spreads |
| `Collector.WalkCovers` | src/classify.rs:203-223 | on return every fragment marked during a call is finished, though fragments marked before it may still be open |
| `Collector.WalkNoDuplicates` | src/classify.rs:207-209 | the output list never holds a name twice |
| `Collector.StepsExactly` | src/classify.rs:203-223 | loop iterations over all recursive calls = items of the set walked + items of the bodies of the fragments entered, each once |
| `Collector.StepsBounded` | src/classify.rs:203-223 | one operation costs at most the items of its root set plus the items of all fragment bodies |
| `Collector.FieldCollector.Collect` | src/classify.rs:194-224 | the recursive loop over the two buffers leaves them, and takes as many iterations, as the walk it is specified by |
| `Expansion.CutWithinCollected` | src/classify.rs:194-224 | naive expansion cut at any spread depth stays inside the collected names |
| `Expansion.DeepCutIsCollected` | src/classify.rs:194-224 | cut at a depth of at least the number of defined fragments, it yields exactly the collected names |
| `Expansion.CollectedIsFirstOccurrences` | src/classify.rs:203-223 | where no cycle can be reached from the root, whatever else the map holds, the collected list is, in order, the first occurrences of the full unguarded expansion, which every deep enough cut equals |
| `Expansion.CyclicOrderDiffers` | src/classify.rs:191-193 | a document with a reachable cycle on which the order differs from deep naive expansion |
| `Execution.ExecutedIsCollected` | src/classify.rs:66-69 | whatever `@skip`, `@include` and type conditions decide, every root field CollectFields gathers is collected |
| `Execution.CollectedIsFullExecution` | src/classify.rs:191-224 | the collected list is the de-duplicated field list of the execution that skips nothing, so nothing is collected that no execution could gather |
| `Masking.MaskingChangesNothing` | src/classify.rs:204-221 | new aliases, directives and type conditions and an injective renaming of fragments leave the collected list identical |
| `Masking.InliningKeepsFields` | src/classify.rs:211-221 | replacing a root spread by an inline copy of its fragment collects the same names |
| `Masking.ReorderingKeepsFields` | src/classify.rs:203-223 | selection sets with the same names in any order, repetition and inline grouping collect the same names |
| `Masking.PermutationKeepsNames` | src/classify.rs:203-223 | a permuted selection set has the same names |
| `Masking.NestedKeepsNames` | src/classify.rs:219-221 | so has one whose inline fragment was rewritten without changing names |
| `Classify.WriteMeansMutation` | src/classify.rs:183-187 | the effective scope is write if and only if a mutation is among the operations |
| `Classify.ToClassifyMeans` | src/classify.rs:138-158 | an operation is classified if and only if it is in the document and no name was given, or it has the name, or no operation has it |
| `Classify.ExecutableIsClassified` | src/classify.rs:133-177 | the operation GetOperation picks is always among those classified, with its kind and collected fields |
| `Classify.BatchClassifies` | src/classify.rs:132-188 | A++B classifies exactly when A and B do, with concatenated operations and the higher scope; otherwise the first failure is reported |
| `Classify.ClassificationMeans` | src/classify.rs:120-189 | a body classifies if and only if it carries requests and each parsed to a document with operations; an operation is described, by name, kind and collected fields, if and only if it may run (its request names none, or it, or none that is there); the scope is write if and only if one that may run is a mutation |
| `Classify.DescribedInOrder` | src/classify.rs:132-177 | requests are taken in turn and each operation that may run is described once, in the order of its document |
| `Classify.FailureMeans` | src/classify.rs:120-189 | a body that is not JSON fails with the decoder's reason, an empty batch as empty, and otherwise the first request without a usable document fails, with the parser's reason or as empty |
| `Classify.CollectMatching` | src/classify.rs:141-158 | the matching loop with its fallback returns the operations that could run |
| `Classify.DescribeOperations` | src/classify.rs:163-177 | the collecting loop describes every operation by its name, kind and collected fields |
| `Classify.ClassifyBody` | src/classify.rs:120-189 | the nested loops classify as specified, early returns on malformed, empty and unparsable input included |
| `ScopeSets.InsertAllSorted` | src/authz.rs:46-67 | inserting into an ordered set keeps it strictly sorted and adds exactly the inserted scopes |
| `ScopeSets.SortedIsCanonical` | src/authz.rs:46-67 | a set of scopes has exactly one sorted listing |
| `ScopeSets.LessMeans` | src/authz.rs:46-67 | the order of the listings: a proper prefix comes first, otherwise the smaller character where the strings first differ |
| `Authz.GrantMeans` | src/authz.rs:41-73 | over the scopes a principal holds (`write` standing in for `read`): access is granted if and only if it holds every scope called for, which are the base scope and those of each override whose constraints an operation meets; `required` and `missing` list in order exactly the scopes called for and those of them not held |
| `Authz.NeitherReadNorWrite` | src/principal.rs:39-44 | whoever holds neither `read` nor `write` is denied every classification, with its base scope missing |
| `Authz.SameRequirementSameDecision` | src/authz.rs:46-72 | equal required sets give equal decisions, listings included |
| `Authz.ExtendRequired` | src/authz.rs:54-58 | the inner loop extends the set by the scopes of every matching override |
| `Authz.Authorize` | src/authz.rs:41-73 | the nested loops reach the specified decision |
| `AuthzLaws.MoreScopesKeepGrant` | src/principal.rs:39-44 | granting more scopes never turns a grant into a denial |
| `AuthzLaws.MoreDemandsKeepDenial` | src/authz.rs:47-72 | adding operations, with the scope recomputed, or overrides never turns a denial into a grant |
| `AuthzLaws.MatchedScopeIsNeeded` | src/principal.rs:34-44 | a scope other than `read` that a matching override adds must be held itself: who lacks it, writer or not, is denied and told it is missing |
| `AuthzLaws.InertOverride` | src/authz.rs:82-100 | an override that sets no constraint, or whose constraints no operation meets, changes nothing |
| `AuthzLaws.BatchAuthorizes` | src/authz.rs:47-72 | a principal may send A++B if and only if it may send A and may send B |
| `AuthzLaws.AnonymousNeverWrites` | src/principal.rs:28-32 | the anonymous principal is denied every write |
| `AuthzLaws.EquivalentDecideTheSame` | src/authz.rs:47-72 | bodies whose operations have the same names, kinds and field sets fail alike or get the same scope and the same full decision, under the overrides in any order |
| `AuthzLaws.ReorderedIsEquivalent` | src/classify.rs:142-158 | reordering operations and the items of any selection sets gives an equivalent document |
| `AuthzLaws.PermutedIsEquivalent` | src/classify.rs:142-150 | the hash map's iteration order of operations does not show |
| `AuthzLaws.ReparsingDecidesTheSame` | src/classify.rs:133-150 | two parses of the same body, operations in any order, fail alike or get the same scope and full decision |
| `AuthzLaws.InlinedIsEquivalent` | src/classify.rs:211-221 | inlining a fragment at an operation's root gives an equivalent document |
| `AuthzLaws.MaskedIsEquivalent` | src/classify.rs:204-221 | aliasing fields and renaming fragments throughout gives an equivalent document |
| `AuthzLaws.GrantCoversExecution` | src/authz.rs:82-100 | a grant covers every operation a server would pick and execute: write for a mutation, and every scope of each override matching it by name and/or executed root field |
| `Auth.LastTokenWins` | src/auth/token.rs:42-53 | a token is refused if and only if no record carries it; otherwise the last record that does gives the principal |
| `Auth.ScanTokens` | src/auth/token.rs:42-53 | the scan that never stops early finds that record |
| `Auth.FirstMappingWins` | src/auth/mtls.rs:48-57 | a certificate is refused if and only if no mapping names its CN or a SAN; otherwise the first that does gives the principal |
| `Auth.FirstKeyWins` | src/auth/jwt.rs:57-70 | a token is refused if and only if no key accepts it, with the last key's error; otherwise the first accepting key's claims give the principal |
| `Auth.TryKeys` | src/auth/jwt.rs:57-70 | the loop over the keys with its remembered error does that |
| `Auth.ScanMappings` | src/auth/mtls.rs:48-57 | the loop over the mappings returns at the first that matches |
| `Auth.AuthenticateCredentials` | src/auth/mod.rs:78-101 | the configured backend's scan, with the anonymous fallback after it |
| `Auth.AuthenticateMeans` | src/auth/mod.rs:78-101 | in each mode exactly which principal comes out, by name and scopes: of the last record with the token, of the first accepting key's claims, of the first mapping whose subject is the CN or a SAN, or anonymous with `read` when the credential is absent and that is allowed; and which refusal otherwise |
| `Auth.MissingMeansAbsent` | src/auth/mod.rs:83-91 | a missing-credential error arises if and only if the mode's credential is absent |
| `Auth.AnonymousExactlyWhenAbsent` | src/auth/mod.rs:78-101 | the anonymous fallback is taken exactly when the mode's credential is absent and the flag is on; an invalid credential stays refused |
| `Auth.OtherCredentialIgnored` | src/auth/mod.rs:83-91 | credentials equal in the mode's own field authenticate alike |
| `Auth.CertificateGoesForNothing` | src/auth/mod.rs:83-91 | a certificate that a mapping would authenticate is a missing credential in the bearer mode |
| `Proxy.StripMeans` | src/proxy.rs:45-56 | a prefix is stripped exactly at a whole segment, reversibly up to a bare prefix |
| `Proxy.RouteMeans` | src/proxy.rs:26-56 | the admin and status upstreams are chosen exactly under the segments `/_admin` and `/_status`, which are cut off, a bare prefix leaving `/`; every other path is kept |
| `Proxy.RouteUndone` | src/proxy.rs:35-56 | prefix and forwarded path give the request path back, a bare prefix reading as prefix and `/` |
| `Proxy.PrefixesExclusive` | src/proxy.rs:26-43 | the two prefixes never both apply |
| `Proxy.RouteInjective` | src/proxy.rs:35-56 | two paths share target and forwarded path only if equal, or `/_admin` against `/_admin/`, or `/_status` against `/_status/` |
| `Proxy.QueryAfterPrefixIsManagement` | src/proxy.rs:45-56 | `/_admin?x` goes to the management API, `/_admin/?x` to the admin upstream |
| `Proxy.ForwardedValues` | src/proxy.rs:58-86 | the ten withheld names, listed, carry nothing upstream; every other name carries all its values in order |
| `Proxy.ValuesMeans` | src/proxy.rs:73-86 | the values of a name are those of its headers, in order |
| `Proxy.ForwardedIff` | src/proxy.rs:58-86 | a header is forwarded if and only if it was received and its name is not one of the ten |
| `Proxy.FilterForwardHeaders` | src/proxy.rs:76-86 | the loop keeps exactly the headers to forward |
| `Proxy.BearerMeans` | src/server.rs:392-399 | a token is extracted if and only if the value of the first `authorization` header is visible ASCII and tabs and reads `Bearer `, blanks, the token, blanks; otherwise nothing is |
| `RateLimit.ChecksAreIsolated` | src/ratelimit.rs:35-44 | in every run the answers and the remaining budget of one (scope, key) are those of the run of its own timed checks alone |
| `RateLimit.RateBound` | src/ratelimit.rs:47-58 | with budget n, admissions for one (scope, key) with clock readings in any window of length w are at most n + floor(w * n / 60 s), in whatever order the readings arrive |
| `RateLimit.BurstAdmitted` | src/ratelimit.rs:47-58 | of any number of checks a fresh key makes at one instant, in either scope, exactly the first n are admitted, n being the configured value of that scope, and all of them where it is 0 |
| `RateLimit.ReplenishedAfterMinute` | src/ratelimit.rs:47-58 | after any run, a minute past its last check a key has exactly its configured budget again |
| `RateLimit.ReplenishedEvenly` | src/ratelimit.rs:47-58 | a time d after the whole budget n was taken at one instant, exactly min(n, floor(d * n / 60 s)) more are admitted |
| `RateLimit.NoBudgetAdmitsAll` | src/ratelimit.rs:40-58 | a configured 0 admits every request of its scope, in every run |
| `RateLimit.RateLimiters.constructor` | src/ratelimit.rs:24-31 | both limiters start untouched, absent where the budget is 0 |
| `RateLimit.RateLimiters.Check` | src/ratelimit.rs:33-44 | one check answers from and updates only the limiter of its scope |
| `Criteria.IdentifiedMeans` | src/server.rs:135-146 | a request authenticates as p if and only if p is whom its first `authorization` header or its certificate names in the configured mode, or anonymous |
| `Criteria.DemandMeans` | src/server.rs:308-331 | a request passes classification if and only if it is a GET, an admin call, classifiable, or fail-closed is off; whether it is a write and which scopes it calls for, over its verb, path, operations that may run and the overrides about them |
| `Criteria.CoverMeans` | src/server.rs:181-217 | a request is granted if and only if its principal holds everything it calls for; otherwise `missing` lists exactly the rest |
| `Criteria.UpstreamMeans` | src/proxy.rs:144-160 | an upstream is found if and only if the field of the request's own segment is configured, and the URL is that field and the path with the segment cut off |
| `Invariants.RunKeepsGood` | src/server.rs:117-300 | all invariants hold after every run from a state in which they hold |
| `Theorems.FinishedFollowedScript` | src/server.rs:117-300 | picked out of any interleaving, a finished request's actions are exactly the sequential handler's, for a fate its data justify |
| `Theorems.EverySendIsCleared` | src/server.rs:135-242 | every upstream send belongs to a request that is its principal's, is admissible, has a body within the limit and calls for nothing the principal does not hold; its only earlier action is one admission from its own (scope, principal) budget, the write budget if and only if it is a write |
| `Theorems.EverySendIsRouted` | src/proxy.rs:144-176 | every send goes by its own verb to the configured upstream of its path (`/_admin`, `/_status` or the management API) at the path with that segment cut off, with all values of every header name but the ten withheld |
| `Theorems.EveryEndIsDue` | src/server.rs:135-299 | over every interleaving a request ends as its own data demand: refused as unauthenticated only if it is nobody's, as unclassified only if inadmissible, as denied only if something called for is not held; those that pass are, once admitted, unrouted if and only if the upstream field of their own segment is not configured |
| `Theorems.NoRequestSentTwice` | src/server.rs:239-242 | no request is sent twice |
| `Theorems.SentBodiesAreCovered` | src/server.rs:181-242 | for a classified body that is neither a GET nor an admin call and was sent, the principal covers every operation a server would pick and execute |
| `Theorems.SentAdminCallsAreWrites` | src/server.rs:317-319 | admin calls other than GET are sent for principals that hold `write` only |
| `Theorems.SendsAreRateBounded` | src/server.rs:219-233 | over every interleaving and any order of clock readings, requests of one scope and principal admitted in a window and sent number at most n + floor(w * n / 60 s) |
| `Theorems.AnswersIgnoreOthers` | src/ratelimit.rs:9-10 | over every interleaving, the answers one (scope, principal) got are those of its own checks alone |
| `Independence.OthersDoNotShow` | src/ratelimit.rs:33-44 | leaving out of a run requests that checked no budget a kept one checked leaves a run in which every kept request stands where it stood and did what it did |
| `Independence.RefusedMightNotHaveCome` | src/server.rs:141-217 | without the events of a request answered 401, 413, 400 or 403 the rest is a run, with the same limiters and the other requests as they were |
| `Independence.OthersCannotExhaust` | src/ratelimit.rs:9-10 | without every request that used another budget, the requests of one (scope, principal) stand where they stood and did what they did |
| `Independence.NoRequestChecksTwice` | src/server.rs:219-223 | no request takes two checks |
| `Theorems.RequestsAreConserved` | src/server.rs:141-299 | requests started = in flight + oversize bodies + auth failures + parse errors + denials + rate-limited + `requests_total`, in every reachable state |
| `Theorems.CountersAreExact` | src/metrics.rs:46-73 | each counter, label by label, is the number of requests counted under it |
| `Theorems.EndedAreAllCounted` | src/server.rs:141-299 | once every request has finished, requests started = oversize bodies + each way of being counted |
| `Theorems.AuditedExactlyOnce` | src/server.rs:147-297 | no request leaves two audit records; a finished one leaves its fate's record, every field of it given, and none only for an oversize body or an answered read with `audit_reads` off |
| `Theorems.AuditTrailIsEmitted` | src/audit.rs:110-120 | the trail holds the emitted records, in order, and nothing else |
| `Theorems.FirstOpNameMeans` | src/server.rs:354-356 | the operation name recorded is that of the first named operation, and none exactly when none is named |
| `Theorems.TopFieldsGrow` | src/server.rs:369-390 | the fields recorded are those of each operation in turn |
| `Theorems.AuditNamesExecuted` | src/server.rs:252-295 | the record of a sent body names its principal, the kind of every operation a server would execute and every root field that operation would execute |
| `Handler.Gateway.ClassifyIncoming` | src/server.rs:308-331 | the GET, admin and fail-open rules in front of classification |
| `Handler.Gateway.ForwardAndAudit` | src/server.rs:235-299 | forwarding, counting and auditing an admitted request in program order |
| `Handler.Gateway.Handle` | src/server.rs:117-300 | one request from start to end appends exactly its fate's actions and is answered by the first thing against it (`Handler.AnswerMeans`) |
| `Handler.AnswerMeans` | src/server.rs:117-300 | a request is answered by the first of: 401 if it is nobody's, 413 for an oversize body, 400 if inadmissible, 403 if something called for is not held, 429 if the limiter refuses its (scope, principal), 404 if its upstream is not configured, the upstream's own status, 502 |
| `Handler.CanFinish` | src/server.rs:117-300 | from wherever it stands a request can finish without any other taking a step, with the fate the handler gives it |
| `Handler.HandlerIsARun` | src/server.rs:117-300 | from every reachable state, running a new request alone is a run of the step system with the handler's fate and actions |
| `Sending.SentIffCleared` | src/server.rs:117-242 | a request can reach an upstream if and only if it is some principal's, its body is within the limit and admissible, the principal holds everything it calls for and its upstream is configured |
| `Sending.ClassifiedSentIff` | src/server.rs:181-242 | a classifiable body, by no GET and no admin call, is sent if and only if it is served for a principal that holds `read`, `write` if an operation that may run is a mutation, and every scope of an override about an operation that may run |
| `Sending.SelectedQueryIsSent` | src/classify.rs:136-158 | a POSTed query selected by name is sent for a reader holding what the overrides about it ask, whatever other operations its document has |
| `Sending.ClearedIsSentFrom` | src/server.rs:219-242 | from every reachable state, a new request that is cleared and admitted leads to its send |
| `Sending.UnclassifiableSentIff` | src/server.rs:308-331 | the exact condition for a body that does not classify to be sent |
| `Sending.UnclassifiableRejectedIff` | src/server.rs:320-330 | the exact condition for it to be answered 400 instead |
| `Sending.UnclassifiableIsSent` | src/server.rs:320-330 | a body that is not JSON is sent by POST with fail-closed off and by GET with it on, and not by POST with it on |
| `Sending.AdminSentIff` | src/server.rs:314-319 | an admin call is sent if and only if it is served for a principal that holds `write`, or `read` when it is a GET |
| `Sending.AdminGetIsSentForReader` | src/server.rs:314-319 | an admin call by GET is sent for a principal holding only `read`; the same call by POST is not |
| `Sending.GetSentIff` | src/server.rs:314-316 | a GET is sent if and only if it is served for a principal that holds `read` or `write`, whatever its route, body and the overrides |
| `Sending.GetCarriesMutation` | src/server.rs:314-316 | a GET whose body holds a mutation is sent for a principal that does not cover it; the same body by POST is not |

## Left out

- JSON decoding and GraphQL parsing: an arbitrary function from body bytes to a parsed payload, each parse giving any order of a document's operations; every theorem holds for all such functions.
- The emptiness test on the finished operation list (src/classify.rs:180-182): it never fires (`Classify.ClassifiedIsNotEmpty`) and is not repeated.
- The rate-limiting library: each budget is modelled as an arrival time with room for n requests, replenished at n a minute, which is what the comment at src/ratelimit.rs:47-48 asks of it; the library's own arithmetic is not part of this model.
- JWT cryptography, claim validation, JWKS fetching and reading scopes out of a claim (src/auth/jwt.rs:83-160): `decode` is an arbitrary function from token and key to claims or an error.
- Constant-time token comparison: modelled as equality.
- TLS, X.509 parsing and the serve loop (src/tls.rs).
- The upstream exchange: an arbitrary answer or failure; an attempted send counts as a send even if the connection fails.
- Relaying the response and filtering its headers (src/proxy.rs:88-100, src/server.rs:434-445).
- Cancellation of a handler when its client disconnects: the audit and counter theorems are about requests that run on.
- Audit timestamps, latency, request variables and their hashes, serialization and sink errors; error texts are kept as the values they render.
- Trimming a trailing slash off configured upstream URLs (src/proxy.rs:189-191), configuration loading and health probes.
- Handler.CanFinish: shows that a request can finish, not that a scheduler lets it.
