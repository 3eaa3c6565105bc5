# Veduta in Dafny

A model of the parts of Veduta whose correctness is an argument rather than a reading: who may send
which request, what a manifest's digest depends on, what a template evaluates to, and what the
long-running machinery keeps over every run. Each module follows one or a few source files, in their
form: loops and in-place updates are methods with invariants, objects with mutable fields are classes
whose methods are proved against a specification function, and what the source promises is proved
about those functions for all inputs, all runs and all interleavings.

| module | what it models |
|---|---|
| `Options`, `Text`, `Order`, `Durations`, `Decimals`, `Channels` | optional values, byte strings and splitting, sorting and deduplication, nanosecond durations, decimal integers, bounded channels: used by the rest |
| `Glob`, `GlobLanguage` | the two route-pattern matchers, and when patterns match the same paths or one lies in others |
| `RoutePath`, `Template`, `PathJoin` | path canonicalisation, path templates and their static coverage, base-path joins |
| `Authority`, `LoadCheck`, `Parameters`, `Approval` | the run-time request check, the load-time check, the path made of card parameters, the approval transaction and its diff |
| `CanonicalJson`, `Normalise` | the float-free subset of RFC 8785 that is digested, and the normaliser before it |
| `Evaluator` | the declarative template evaluator over a shared environment and budget |
| `SseHub` | the event ring, the subscribers and the session counters |
| `Feed` | how commits reach their subscribers: the hub, through it the browsers, and the rule manager |
| `Scheduler`, `Breaker` | generation fencing, single flight and worker slots; card states and the circuit breaker |
| `Rules` | rule evaluation, debounce and its transactional persistence |
| `Outbox` | the notification outbox and its dispatcher |
| `Rotation` | credential rotation against logins, sudo grants and restarts |
| `Downsample` | history downsampling |

Promises that turn out not to hold everywhere. Each has the exact condition under which it does, and
a lemma with a concrete input where it does not:

- `CoveredBy` is documented as exact. It is sound, and exact except where a placeholder meets `**` or
  the root template meets a glob other than the root (`CoverageIsExact`; `WideStarCounterexample`,
  `RootCounterexample`). The manifest and lock schemas refuse `**`, so only the root is an exception
  for what they load (`CoverageIsExactWithoutRuns`).
- Route identity is documented as equality of authority. Equal identities carry equal authority
  exactly when the key sets are equal, which an empty key or a NUL in a key can break
  (`IdentityIsSound`; `EmptyKeyCollides`). The converse fails exactly for one glob spelled with
  different runs of stars and for ceilings that differ above the manifest's limit
  (`IdentityIsCompleteUpTo`; `StarsTooFine`, `IdentityTooFine`). The schemas refuse `**` and accept
  such keys and ceilings (`IdentityIsCompleteWithoutRuns`).
- An approved entry is meant to permit nothing the manifest does not. Two cases break it. A granted
  route may list other query keys under the manifest route's identity (`CollidingKeysWiden`;
  `EmptyKeyWidens`), whatever the limits. And a grant of `requestBodyKB` 0 on a request below 64
  enforces 64 (`ZeroBodyGrantWidens`), in memory only: the lock schema refuses to store it. With keys
  kept it holds exactly outside the second case (`NeverWidensIff`), as it does for plain keys
  (`PlainKeysKept`). Of a single approval it holds exactly when each granted route is subsumed by one
  manifest route, in glob, keys, content type and ceiling (`EntryWithinIff`). The run-time check asks
  the manifest's routes too, so such a request is still refused (`Authorize`).
- A manifest value of a foreign kind, such as an unquoted date, passes the normaliser and makes the
  serialiser panic (`NormalSerialisable`; `OtherPassesNormalise`).
- The hub and the rule manager each read commits from a subscription of 32 slots that is never
  reopened. Once the hub falls behind, card broadcasts stop for good; once the rule manager does,
  rules are evaluated only by their timers and by calls. Until then every commit is broadcast and has
  the rules evaluated (`HubBroadcastsCommits`, `RulesCatchUp`, `ClosesWhenFull`, `HubFallsSilent`,
  `RulesFallDeaf`; `BurstSilencesReaders`).
- A covering route that declares a content type refuses a request without body and header
  (`TypedRouteRefusesBodyFree`; `TypedRouteExample`).
- `joinPath` appends a canonical path exactly when it has no escape (`JoinAppendsIffEscapeFree`;
  `EscapedSpaceRefused`).
- A card whose document binds more than sixteen signals is never shown, though the run counts as a
  success (`BuiltIsValid`; `SeventeenSignals`).
- A rotation whose session deletion fails, or a start that dies before it, keeps the old sessions
  (`FailedRevocation`, `CrashedRotation`, `CrashedStart`, `FailedStart`; `OldSessionSurvives`). With
  every due deletion carried out the promise holds, and a later deletion restores it.

One comment disagrees with its code: `Downsample` speaks of 288 buckets, the code uses 144, and so
does the model.

## Model

| member | source | states |
|---|---|---|
| Text.JoinSplit | internal/connections/routepath/match.go:14-15 | joining what was split gives the text back |
| Text.SplitJoin | internal/connections/routepath/canonicalise.go:80-89 | splitting joined separator-free parts gives the parts back |
| Text.Index | internal/connections/routepath/match.go:53-57 | the leftmost occurrence, or -1 exactly when there is none |
| Order.SortedSetDecides | internal/integrations/route.go:76-89 | sorting and removing duplicates forgets exactly order and repetition |
| Order.DedupInPlace | internal/integrations/route.go:82-87 | overwriting the array being read leaves the elements that differ from their predecessor |
| Glob.PeelFirst | internal/connections/routepath/match.go:40-43 | anchoring the first literal part loses no match |
| Glob.PeelLast | internal/connections/routepath/match.go:44-47 | anchoring the last literal part on the remainder loses no match |
| Glob.PeelMiddle | internal/connections/routepath/match.go:49-58 | taking the leftmost occurrence of a middle part loses no match |
| Glob.MatchSegment | internal/connections/routepath/match.go:33-60 | the greedy loop accepts a segment exactly when it is the literal parts interleaved with arbitrary texts |
| Glob.Match | internal/connections/routepath/match.go:13-25 | accepts exactly the paths that match segment by segment |
| Glob.GlobMatch | internal/contracts/semantic.go:644-666 | the regular expression built from the pattern accepts exactly its declared meaning |
| Glob.RunRegexp | internal/contracts/semantic.go:660-661 | running the expression accepts exactly the texts it denotes |
| Glob.RegexpIsWoven | internal/contracts/semantic.go:656-661 | on a slash-free segment the expression and the interleaving accept the same texts |
| Glob.MatchersAgree | internal/contracts/semantic.go:644-666 | the two independently written matchers agree on every canonical path |
| Glob.MatchersDisagree | internal/connections/routepath/match.go:14-15 | outside that domain they differ: one trims a leading slash, the other does not |
| GlobLanguage.ReadsIsGlob | internal/connections/routepath/match.go:33-60 | a segment glob read byte by byte accepts exactly what the interleaving of parts accepts |
| GlobLanguage.CollapseReads | internal/connections/routepath/match.go:49-52 | reading a run of stars as one star changes nothing about what is matched |
| GlobLanguage.MutualMatch | internal/connections/routepath/match.go:33-60 | two segment globs that match each other's text are equal up to runs of stars |
| GlobLanguage.SameLanguageIs | internal/connections/routepath/match.go:13-60 | two canonical globs match the same canonical paths exactly when they are equal, segment by segment, up to runs of stars |
| GlobLanguage.SameGlobWithoutRuns | internal/connections/routepath/match.go:13-60 | with no two adjacent stars, equal up to runs means equal |
| GlobLanguage.GlobTransitive | internal/connections/routepath/match.go:13-60 | a glob that matches another glob's text matches every path the other does |
| GlobLanguage.CoveredByGlobsIs | internal/connections/routepath/match.go:13-60 | a canonical glob lies in several globs together exactly when one of them matches its text |
| RoutePath.CheckEscapesWellFormed | internal/connections/routepath/canonicalise.go:95-110 | reports the first fault of the escapes, none exactly when every escape is complete and safe |
| RoutePath.CanonicaliseSegment | internal/connections/routepath/canonicalise.go:114-144 | the byte loop over two builders computes the token-wise normal form, refusing dot segments however escaped |
| RoutePath.Canonicalise | internal/connections/routepath/canonicalise.go:48-90 | computes the canonical form or the first error |
| RoutePath.CanonIs | internal/connections/routepath/canonicalise.go:48-90 | accepts exactly the acceptable paths, and the value is the token-wise normal form |
| RoutePath.CanonIdempotent | internal/connections/routepath/canonicalise.go:48-90 | an accepted path's canonical form is its own canonical form |
| RoutePath.CanonKeepsSegments | internal/connections/routepath/canonicalise.go:80-89 | the segment count is kept and each segment becomes its own normal form |
| RoutePath.NormalDecidesEquivalence | internal/connections/routepath/canonicalise.go:114-172 | two texts have one normal form exactly when they differ only in hex case and in escaping of unreserved characters |
| RoutePath.CanonIsCompleteInvariant | internal/connections/routepath/canonicalise.go:48-172 | accepted paths share a canonical form exactly when they are equivalent under sections 2.3 and 6.2.2 of RFC 3986 |
| Template.ParseTemplate | internal/connections/routepath/template.go:52-93 | parses exactly the paths that are acceptable once each well-formed placeholder is replaced by a stand-in, and keeps the canonical literals |
| Template.ReadParts | internal/connections/routepath/template.go:65-82 | the loop over parts finds the placeholder names and the stand-ins, or the first error |
| Template.Expand | internal/connections/routepath/template.go:142-165 | the expansion with given values, or the first missing or invalid one |
| Template.ValidPlaceholderValue | internal/connections/routepath/template.go:170-180 | accepts exactly non-empty values of at most 128 allowed bytes other than the dot names, and each of them is one canonical segment with nothing to escape |
| Template.CoveredBy | internal/connections/routepath/template.go:114-138 | computes the coverage relation |
| Template.JoinedIsCanonical | internal/connections/routepath/template.go:83-92 | a non-empty list of canonical segments joins to a canonical path and can be read back from it |
| Template.CanonicalPathIs | internal/connections/routepath/canonicalise.go:47-90 | canonical paths are exactly the root and the rooted paths all of whose segments are canonical |
| Template.ExpandedIs | internal/connections/routepath/template.go:142-165 | the last canonicalisation of Expand never rejects and never rewrites |
| Template.ParsedIsOk | internal/connections/routepath/template.go:52-93 | every parsed template has canonical literals |
| Template.PlainPathExpandsToCanonical | internal/connections/routepath/template.go:52-165 | a path without braces is a template whose only expansion is its canonical form |
| Template.CoverageIsSound | internal/connections/routepath/template.go:109-138 | if a template is covered, every expansion is canonical, keeps the segment count and matches the glob |
| Template.CoverageIsExact | internal/connections/routepath/template.go:109-138 | coverage holds just when every expansion matches and no placeholder meets a run of two or more stars |
| Template.CoverageIsExactWithoutRuns | internal/connections/routepath/template.go:109-138 | for globs with no two adjacent stars, coverage holds just when every expansion matches, the root template aside |
| Template.WideStarCounterexample | internal/connections/routepath/template.go:109-138 | every expansion matches `**`, yet it is not covered |
| Template.RootCounterexample | internal/connections/routepath/template.go:109-138 | the root matches a lone star, yet it is not covered |
| PathJoin.PrefixIsSegmentPrefix | internal/connections/routepath/prefix.go:16-22 | on canonical paths the subtree test is exactly the prefix order of segment lists |
| PathJoin.PrefixTransitive | internal/connections/routepath/prefix.go:16-22 | so it is transitive |
| PathJoin.JoinPath | internal/connections/request.go:56-107 | the checks and the joined path, or the first error |
| PathJoin.RelativeRedirectPath | internal/connections/client.go:179-199 | the path relative to the base, or an error outside it |
| PathJoin.JoinAppends | internal/connections/request.go:56-107 | joining an escape-free canonical path appends it to the base |
| PathJoin.JoinStaysInside | internal/connections/request.go:56-107 | whatever non-empty path is joined, and however it is parsed, the result is canonical and inside the base; an escape-free canonical path adds exactly its own segments; the empty path gives the base as configured |
| PathJoin.RelativeUndoesJoin | internal/connections/client.go:179-199 | taking the relative path undoes the join of a canonical path exactly when the path has no escape |
| PathJoin.JoinUndoesRelative | internal/connections/client.go:179-199 | the relative path exists exactly inside the base, and joining it back gives the path exactly when what was left has no escape |
| PathJoin.JoinAppendsIffEscapeFree | internal/connections/request.go:56-107 | the join appends a canonical request path exactly when it has no escape |
| PathJoin.EscapedSpaceRefused | internal/connections/request.go:56-107 | `/%20` is canonical, and refused under every base |
| Authority.QueryKeysAllowed | internal/capabilities/authorize.go:100-114 | every key of the query is in the declared list, and any key is when none is declared |
| Authority.RouteMatches | internal/capabilities/authorize.go:77-87 | slot, method, use and glob all match |
| Authority.AnyRouteAllows | internal/capabilities/authorize.go:44-61 | the search succeeds exactly when some route allows the request |
| Authority.ConnectionAllows | internal/capabilities/authorize.go:176-190 | the canonical path is inside one of the connection's allowed paths, or none is configured |
| Authority.Authorize | internal/capabilities/authorize.go:22-38 | no denial exactly when manifest, entry and connection each allow the canonical path; otherwise the first objection in that order, or the path's own error |
| Authority.ComputeQueryKeys | internal/integrations/route.go:76-89 | the copied, sorted, deduplicated keys joined by NUL |
| Authority.QueryKeysDecide | internal/integrations/route.go:76-89 | equal key sets have equal text, and on non-empty NUL-free keys only they do |
| Authority.EmptyKeyCollides | internal/integrations/route.go:76-89 | no key and one empty key share a text |
| Authority.AuthorityIs | internal/capabilities/authorize.go:44-168 | two routes permit the same requests exactly when slot, method, use, globs up to runs of stars, key set, content type and ceiling agree, all read off the routes |
| Authority.IdentityIsSound | internal/integrations/route.go:49-101 | equal identities permit the same requests under every enforced limit no larger than the manifest's exactly when their key sets are equal, as they are for plain keys |
| Authority.OneIdentityNarrows | internal/integrations/route.go:49-101 | of two routes with one identity the first permits no more, under any enforced limit, exactly when its keys are among the second's and its ceiling no larger |
| Authority.IdentityIsCompleteUpTo | internal/integrations/route.go:36-71 | the documented "same authority iff equal identity" holds of two routes exactly unless they are one authority with differently spelled globs or ceilings above the limit, or one identity with different key sets |
| Authority.IdentityIsCompleteWithoutRuns | internal/integrations/route.go:36-71 | for globs with no two adjacent stars, only ceilings above the limit and colliding keys break the documented equivalence |
| Authority.IdentityTooFine | internal/integrations/route.go:93-101 | ceilings of 65 and 66 under a limit of 64 are one authority and two identities |
| Authority.StarsTooFine | internal/integrations/route.go:49-71 | `/*` and `/**` are one authority and two identities |
| Authority.SoundUnderIff | internal/integrations/route.go:93-101 | for equal key sets, soundness extends to an enforced limit exactly when it is no larger than the manifest's |
| Authority.CoveredByRoutesIff | internal/capabilities/authorize.go:44-168 | routes together permit whatever a route does exactly when one of them subsumes it in slot, method, use, glob, keys, content type and ceiling, read off the two |
| LoadCheck.RouteCoversRequest | internal/integrations/manifestload/load.go:573-595 | the load-time test of query keys and body type |
| LoadCheck.DeclaresSlot | internal/integrations/manifestload/load.go:501-507 | the slot is one of the declared ones |
| LoadCheck.AnyRouteCovers | internal/integrations/manifestload/load.go:529-533 | the search succeeds exactly when some route covers the request |
| LoadCheck.ValidateRequest | internal/integrations/manifestload/load.go:497-563 | accepts exactly when the slot, the template, its placeholders and some route allow it |
| LoadCheck.CoverLeavesTypeAndSize | internal/integrations/manifestload/load.go:529-533 | for every parameter value a covering route leaves only content type and body size to the run-time check |
| LoadCheck.LoadedRequestIsPermitted | internal/capabilities/authorize.go:44-87 | a body-free request through a covering route with no content type is permitted, whatever the values |
| LoadCheck.TypedRouteRefusesBodyFree | internal/capabilities/authorize.go:121-135 | without body and header it is permitted exactly when the route declares no content type |
| LoadCheck.TypedRouteExample | internal/capabilities/authorize.go:121-135 | such a request exists |
| Decimals.DecimalReadsBack | internal/integrations/declarative/runtime.go:582-596 | the decimal text of a 64-bit integer is parsed back to that integer |
| Parameters.IntegersAreValid | internal/integrations/declarative/runtime.go:582-590 | every 64-bit integer is written as a valid placeholder value that parses back to it |
| Parameters.JsonIntegersFit | internal/integrations/declarative/runtime.go:591-595 | a number as JSON writes it is a valid value exactly when it is a 64-bit integer |
| Parameters.SegmentValueIs | internal/integrations/declarative/runtime.go:575-598 | a parameter gives a valid value exactly when it is a valid string, an integer, an integral float of at most 2^53, or a 64-bit number text without plus and within 128 bytes |
| Parameters.RequestPath | internal/integrations/declarative/runtime.go:549-573 | the first parameter that cannot be written is the error; else the expansion or its error |
| Parameters.PathForIff | internal/integrations/declarative/runtime.go:549-573 | a path comes out exactly when every placeholder has a parameter that fits |
| Parameters.FittingParametersArePermitted | internal/integrations/declarative/runtime.go:549-598 | for an accepted request through a route without content type, fitting parameters always give a path, and the body-free request for it is permitted |
| Approval.ReconcileAtApproval | internal/integrations/limits.go:244-250 | every effective limit is at most the grant, the manifest's request and the core maximum |
| Approval.IdentitySet | internal/integrations/diff.go:36-46 | the set of the routes' identities, or the first error |
| Approval.Approve | internal/integrations/approve.go:43-112 | approves exactly a grant on the current digest within the request, and records just that grant |
| Approval.LimitsWithin | internal/integrations/approve.go:77-85 | no granted limit exceeds what was requested |
| Approval.ApprovalNeverWidens | internal/integrations/approve.go:43-112 | whatever an approved entry's routes permit, the manifest's routes permit, under any ceiling no larger than the manifest's, if each granted route keeps to the keys of a manifest route of its identity |
| Approval.PlainKeysKept | internal/integrations/approve.go:58-76 | a grant within the request does so when all keys are non-empty and free of NUL |
| Approval.EntryCeilingQualifies | internal/integrations/limits.go:138-145 | the entry's own ceiling is within the manifest's exactly unless a non-positive body grant meets a positive request below 64 KB |
| Approval.ZeroBodyGrantWidens | internal/integrations/limits.go:138-145 | under every such pair of limits, an approvable grant and a request that the entry permits and the manifest does not |
| Approval.NeverWidensIff | internal/integrations/approve.go:43-112 | at the ceiling an approval records, no approval under these limits that keeps the keys permits what the manifest does not, exactly unless they are such a pair |
| Approval.CollidingKeysWiden | internal/integrations/approve.go:58-76 | under any limits, for any two key lists with one text, a query one allows and the other does not gives an approvable grant and a request that the entry permits and the manifest does not |
| Approval.EmptyKeyWidens | internal/integrations/approve.go:58-76 | so it does for no key against the empty key |
| Approval.EntryWithinIff | internal/integrations/approve.go:43-112 | for any manifest and grant, the entry permits nothing the manifest does not exactly when one manifest route subsumes each granted route |
| Approval.ApartWithinIff | internal/integrations/approve.go:43-112 | for a manifest with no two routes of one slot, method and use, that is to keep to the keys and ceiling of the route of the same identity |
| Approval.ComputeDiff | internal/integrations/diff.go:51-113 | the routes, capabilities and limits that exceed the entry, or the first error |
| Approval.SelectRoutes | internal/integrations/diff.go:79-99 | the routes whose identity the entry does not have, in order |
| Approval.SelectCaps | internal/integrations/diff.go:100-104 | the capabilities the entry does not have, in order |
| Approval.SelectLimits | internal/integrations/diff.go:105-111 | the limits requested above their effective value, in order |
| Approval.DiffEmptyIff | internal/integrations/diff.go:30-113 | the diff is empty exactly when every identity and capability is in the entry and every limit within it |
| Approval.FullApprovalSettles | internal/integrations/diff.go:51-113 | approving all routes and capabilities empties the diff exactly when every limit is granted in full |
| Approval.ReasonsDoNotMatter | internal/integrations/route.go:49-71 | a route's reason is not part of its identity |
| Approval.OwnRequestGrantable | internal/integrations/approve.go:58-85 | a manifest can be approved in full exactly when it sets no limit above the core maximum |
| Approval.FirstDiffEmptyIff | internal/integrations/diff.go:51-113 | against no entry the diff is empty only for a manifest that asks for nothing |
| Decimals.DecimalReadable | internal/canonical/canonical.go:195-196 | decimal numbers are uniquely readable before a non-digit |
| CanonicalJson.EscapeString | internal/canonical/canonical.go:146-175 | the builder loop writes each character's escape in order |
| CanonicalJson.EscapeReadable | internal/canonical/canonical.go:146-175 | quoted strings form a prefix code (section 3.2.2.2 of RFC 8785) |
| CanonicalJson.Utf16Injective | internal/canonical/canonical.go:177-187 | a text is determined by its UTF-16 code units |
| CanonicalJson.OrdersAreTotal | internal/canonical/canonical.go:177-187 | UTF-16 order and byte order are irreflexive, transitive and total on strings |
| CanonicalJson.KeyLess | internal/canonical/canonical.go:178-186 | compares keys by UTF-16 code units (section 3.2.3 of RFC 8785) |
| CanonicalJson.SortedKeysUnique | internal/canonical/canonical.go:177-187 | whatever order the keys are met in, sorting gives one list |
| CanonicalJson.ReadableBefore | internal/canonical/canonical.go:189-227 | a serialised value before a delimiter can be read in one way only |
| CanonicalJson.SerialiseInjective | internal/canonical/canonical.go:189-227 | two values have one text exactly when they are equal |
| Normalise.IsSetLike | internal/canonical/canonical.go:47-64 | decides the set-like paths |
| Normalise.NormaliseDoc | internal/canonical/canonical.go:66-144 | the recursive normaliser with its in-place sorting computes the normal form, or refuses |
| Normalise.SortAndDedup | internal/canonical/canonical.go:87-108 | an array of strings becomes its sorted set, any other array is refused |
| Normalise.NormalDecides | internal/canonical/canonical.go:66-144 | two documents normalise alike exactly when they are equal up to order and repetition at the set-like paths |
| Normalise.NormalIdempotent | internal/canonical/canonical.go:66-144 | normalising again changes nothing |
| Normalise.NormalSerialisable | internal/canonical/canonical.go:66-227 | a normal form can be serialised exactly when the document held no value of a foreign kind |
| Normalise.OtherPassesNormalise | internal/canonical/canonical.go:141-227 | a document with such a value is its own normal form and cannot be serialised |
| Normalise.DigestTextDecides | internal/canonical/canonical.go:373-381 | two manifests have one digested text exactly when they are the same in that sense |
| Normalise.SerialiseTo | internal/canonical/canonical.go:189-227 | the recursive writer appends exactly the value's text to the builder |
| Normalise.SerialiseArray | internal/canonical/canonical.go:199-207 | the element loop appends the array's text |
| Normalise.SerialiseObject | internal/canonical/canonical.go:208-223 | the member loop over sorted keys appends the object's text |
| Normalise.SortKeys | internal/canonical/canonical.go:177-187 | the keys, met in any order, come out as the one sorted list |
| Evaluator.MapCostStep | internal/integrations/declarative/runtime.go:413-425 | the cost of a map's fields does not depend on the order they are met in |
| Evaluator.Budget.Check | internal/integrations/declarative/budget.go:40-50 | succeeds exactly while the deadline has not come |
| Evaluator.Budget.Template | internal/integrations/declarative/budget.go:70-78 | one iteration per node, spent before the deadline is looked at |
| Evaluator.Budget.Spend | internal/integrations/declarative/budget.go:51-69 | succeeds exactly when the budget covers the charge |
| Evaluator.SpendAll | internal/integrations/declarative/budget.go:51-69 | a list of charges succeeds exactly when the budget covers their sum |
| Evaluator.Run | internal/integrations/declarative/exprenv.go:179-182 | an expression's value on the current environment, charged to the budget |
| Evaluator.EvalTemplate | internal/integrations/declarative/runtime.go:388-502 | over the shared environment and budget it returns what the pure evaluator returns, exactly when the budget covers its cost, and leaves the environment as found on success and on error |
| Evaluator.EvalBody | internal/integrations/declarative/runtime.go:395-501 | the same for each kind of node |
| Evaluator.EvalCond | internal/integrations/declarative/runtime.go:426-440 | the same for `if` |
| Evaluator.EvalEach | internal/integrations/declarative/runtime.go:441-468 | the same for `each` |
| Evaluator.EvalItems | internal/integrations/declarative/runtime.go:450-468 | the same for its loop, which shadows and restores the loop variables |
| Evaluator.EvalArray | internal/integrations/declarative/runtime.go:400-412 | the same for arrays, dropping omitted elements |
| Evaluator.EvalObject | internal/integrations/declarative/runtime.go:413-425 | the same for objects in any iteration order, dropping omitted fields |
| Evaluator.EvalString | internal/integrations/declarative/runtime.go:507-520 | the same, and the value is a string |
| Evaluator.EvalStrings | internal/integrations/declarative/runtime.go:521-531 | the same for a map of strings in any iteration order |
| Evaluator.EvalAsset | internal/integrations/declarative/runtime.go:469-506 | the same for asset references, minted under the grant found in the environment |
| Evaluator.EvaluateOutput | internal/integrations/declarative/runtime.go:388-502 | one evaluation succeeds exactly when the budget covers it and visits no more nodes than the iteration limit |
| Evaluator.SentinelStaysOut | internal/integrations/declarative/runtime.go:382-468 | the omitted sentinel is never stored in an array or object, at any depth |
| SseHub.EventIdInjective | internal/api/sse.go:74-75 | event identifiers name log positions, no two alike and none empty |
| SseHub.StepKeepsInv | internal/api/sse.go:71-141 | every step keeps the ring equal to the log's last entries and the session counters exact and bounded |
| SseHub.EveryRun | internal/api/sse.go:71-141 | so does every run |
| SseHub.RetainedReplays | internal/api/sse.go:115-130 | a retained Last-Event-ID replays exactly the log after it |
| SseHub.ResetExactly | internal/api/sse.go:115-129 | a reset is sent exactly when the identifier names no retained event |
| SseHub.StreamIsExact | internal/api/sse.go:71-141 | a stream follows the log from where it started, to any later state |
| SseHub.ResumeIsExact | internal/api/sse.go:107-141 | after resuming, what was given and what is buffered is exactly the broadcasts after the event, until the channel closes |
| SseHub.ResetStartsNow | internal/api/sse.go:107-141 | any other identifier gets a reset, then exactly the broadcasts after subscribing |
| SseHub.Hub.constructor | internal/api/sse.go:43-54 | a new hub is the machine's initial state |
| SseHub.Hub.RemoveClient | internal/api/sse.go:93-106 | gives back the stream's slot and its session's count |
| SseHub.Hub.BroadcastEvent | internal/api/sse.go:71-87 | is one broadcast step of the machine |
| SseHub.Hub.OfferToClients | internal/api/sse.go:80-86 | a full channel is closed rather than waited for, in any iteration order |
| SseHub.Hub.SubscribeClient | internal/api/sse.go:107-141 | is one subscribe step, refused exactly at either limit |
| SseHub.Hub.FindAfter | internal/api/sse.go:117-124 | the position just after the named event, or -1 exactly when it is not retained |
| SseHub.Hub.DoneClient | internal/api/sse.go:136-140 | is one done step |
| SseHub.Hub.TakeEvent | internal/api/sse.go:179-188 | is one receive step: the oldest buffered event, nothing once the channel is drained |
| Scheduler.KeysSeparateGenerations | internal/scheduler/scheduler.go:390-394 | definitions of different generations, or with different keys, never share a flight |
| Scheduler.StepKeepsFence | internal/scheduler/scheduler.go:138-159 | every step keeps the fence |
| Scheduler.VisibleIsCurrent | internal/scheduler/scheduler.go:439-468 | in every interleaving the states and definitions have one key set, and each state was installed by the latest Apply or committed by a refresh of the definition now configured |
| Scheduler.StepKeepsFlights | internal/scheduler/scheduler.go:389-433 | every step keeps one open flight per key, each with a live leader |
| Scheduler.OneRunPerKey | internal/scheduler/scheduler.go:389-433 | two runs under way have different generation and key |
| Scheduler.WaitersAreServed | internal/scheduler/scheduler.go:396-419 | a waiter's flight has a leader at work or can be read, even after a panic; a result got from a flight is that flight's |
| Scheduler.ResultsAreFinal | internal/scheduler/scheduler.go:424-432 | a flight's result, once written or once the flight is done, never changes |
| Scheduler.WaiterGetsLeadersResult | internal/scheduler/scheduler.go:396-433 | whatever happens, a waiter ends with what its leader wrote, or the zero document if the leader panicked, unless it is cancelled |
| Scheduler.WaiterCanFinish | internal/scheduler/scheduler.go:396-433 | from every reachable state some steps of ordinary work, with no cancellation or panic, bring a waiter to its result |
| Scheduler.AtMostEight | internal/scheduler/scheduler.go:420-426 | at most eight cards run at once |
| Scheduler.Manager.Apply | internal/scheduler/scheduler.go:106-160 | refuses missing or repeated identifiers unchanged, else is one step of the machine |
| Scheduler.Manager.CheckDefinition | internal/scheduler/scheduler.go:240-248 | the guard at the start of a refresh is one step |
| Scheduler.Manager.EnterFlight | internal/scheduler/scheduler.go:389-407 | joins the key's open flight or leads a new one |
| Scheduler.Manager.Record | internal/scheduler/scheduler.go:427-432 | the leader writes the run's outcome |
| Scheduler.Manager.CloseFlight | internal/scheduler/scheduler.go:414-419 | frees the key and wakes the waiters |
| Scheduler.Manager.CommitState | internal/scheduler/scheduler.go:439-468 | commits exactly when the definition's generation is still configured and the store accepts |
| Feed.PublishedIsVisible | internal/scheduler/scheduler.go:439-468 | what is published is exactly what a commit made visible |
| Feed.LogIsCommits | internal/scheduler/scheduler.go:455-466 | in every run the published events are the scheduler's commits in order, numbered from one |
| Feed.SubscriberGetsCommits | internal/scheduler/scheduler.go:455-507 | a subscriber gets exactly the commits after it subscribed, in order: all of them while its channel is open, a beginning of them after |
| Feed.NothingLostIff | internal/scheduler/scheduler.go:455-507 | unless it was ended, a subscription is open exactly while no commit is missing from it |
| Feed.ClosesWhenFull | internal/scheduler/scheduler.go:458-465 | it closes exactly by being ended or by a commit that meets a full channel |
| Feed.HubBroadcastsCommits | internal/api/sse.go:43-58 | the cards broadcast, the one in hand and those buffered are the commits since the hub started: all of them exactly while its channel is open, unless Close ended it |
| Feed.HubFallsSilent | internal/api/sse.go:47-52 | after its channel closed the hub broadcasts no card beyond those it held then |
| Feed.BrowserGetsCommits | internal/api/sse.go:43-195 | the card events a resumed stream was given or holds are exactly the commits after its Last-Event-ID, but for those the hub still holds, while stream and hub channel are open; a beginning of them after |
| Feed.FreshBrowserGetsCommits | internal/api/sse.go:43-195 | after a reset, the same of the commits whose cards are broadcast after subscribing |
| Feed.RulesCatchUp | internal/rules/manager.go:55-74 | an active rule manager with an open channel and nothing left to read has evaluated for every commit since it started, the last time on the states visible now unless a configuration was applied since |
| Feed.RulesFallDeaf | internal/rules/manager.go:59-74 | after its channel closed no commit beyond those it held then has the rules evaluated |
| Feed.BurstSilencesReaders | internal/api/sse.go:47-52 | thirty-three commits before the readers read one: at most thirty-two cards are ever broadcast and at most thirty-two commits have the rules evaluated |
| Feed.Publisher.constructor | internal/scheduler/scheduler.go:101-103 | no subscription and no event |
| Feed.Publisher.Publish | internal/scheduler/scheduler.go:456-466 | offers the numbered event to every live channel, closing the full ones, in any iteration order |
| Feed.Publisher.SubscribeTo | internal/scheduler/scheduler.go:490-498 | a new empty channel of at least one slot, from the commits so far |
| Feed.Publisher.CancelSubscription | internal/scheduler/scheduler.go:499-506 | closes that channel and no other |
| Feed.Publisher.CloseAll | internal/scheduler/scheduler.go:173-184 | closes every channel |
| Breaker.ComputeBackoff | internal/scheduler/scheduler.go:509-517 | the base doubled for each failure after the first, at most an hour, within 64 bits |
| Breaker.Ttl | internal/scheduler/scheduler.go:287-293 | the hint shortens the interval and never lengthens it; at least a second even when the hint overflows |
| Breaker.FailureCount | internal/scheduler/scheduler.go:300-310 | in every run the count is the failed runs since the last success |
| Breaker.OpenIsSet | internal/scheduler/scheduler.go:302-317 | the circuit is open exactly from the third failure in a row, until a time set by the last one |
| Breaker.NoRunWhileOpen | internal/scheduler/scheduler.go:252-254 | no run starts before that failure's time plus the backoff, capped at five minutes |
| Breaker.DocumentIsLastGood | internal/scheduler/scheduler.go:286-333 | in every run the shown state is valid and its document is that of the last success shown |
| Breaker.GoodDocumentKept | internal/scheduler/scheduler.go:318-333 | a good document stays through all later failures; only a later success replaces it |
| Breaker.SuccessValid | internal/state/cardstate.go:135-149 | a fresh state is valid exactly when its history is within bounds |
| Breaker.FailureValid | internal/state/cardstate.go:153-220 | every state built after a failure is valid and keeps the document |
| Breaker.BuiltIsValid | internal/state/cardstate.go:246-300 | every state refresh builds passes Validate, except a success that binds more than sixteen signals |
| Breaker.SeventeenSignals | internal/state/history.go:119-129 | with seventeen the run succeeds and the card stays pending |
| Breaker.Manager.constructor | internal/scheduler/scheduler.go:101-160 | every configured card starts pending with no failures |
| Breaker.Manager.Commit | internal/scheduler/scheduler.go:435-468 | only a valid and stored state becomes visible |
| Breaker.Manager.RefreshCard | internal/scheduler/scheduler.go:240-334 | is one step of the breaker for its card and leaves the others alone |
| Breaker.Manager.Fail | internal/scheduler/scheduler.go:306-333 | the failure path: count, open time and state |
| Rules.ReadSignal | internal/rules/evaluator.go:174-215 | a signal is usable exactly when present, fresh, non-null and of its declared type |
| Rules.Evaluate | internal/rules/evaluator.go:170-239 | unknown exactly when some signal read was not usable; exactly the mistyped ones are reported, in order, and only then |
| Rules.EventNeedsResult | internal/rules/manager.go:192-228 | only True fires and only False resolves; Unknown does neither |
| Rules.EventIsFiredAtChange | internal/rules/manager.go:192-228 | with resolve set, fired and resolved are exactly the changes of FiredAt |
| Rules.WrongTypeEventSurvives | internal/rules/manager.go:181-187 | a wrong-type event is committed exactly on the first mistyped evaluation and never replaced |
| Rules.SinceIsStretch | internal/rules/manager.go:194-197 | Since is the start of the current unbroken stretch of True |
| Rules.FiredMeansHeld | internal/rules/manager.go:193-210 | a fired event ends a stretch of True evaluations that began at least the debounce time earlier |
| Rules.HeldMeansFired | internal/rules/manager.go:193-210 | such a stretch leaves the rule fired; it fires at the first evaluation that finds the time elapsed, exactly if no alarm stood when the stretch began, and at no other |
| Rules.RefireNeedsFalse | internal/rules/manager.go:192-228 | between two fired events there was a False |
| Rules.FiredMinusResolved | internal/rules/manager.go:192-228 | over an uninterrupted run fired minus resolved events is 1 exactly while FiredAt is set, else 0 |
| Rules.CrashesChangeNothing | internal/storage/rules.go:53-85 | with crashes, restarts and failed transactions anywhere, log and stored state are those of the same evaluations uninterrupted |
| Rules.LogBalances | internal/storage/rules.go:53-85 | after any crashes the log's fired minus resolved events is 1 exactly while the stored FiredAt is set, else 0 |
| Rules.Store.CommitRuleTransition | internal/storage/rules.go:53-85 | notifications, event and state together, or nothing; wakes the dispatcher exactly when an item was inserted |
| Rules.Store.GetRuleState | internal/storage/rules.go:20-42 | the state only if its hash still matches |
| Rules.ByIdFinds | internal/rules/manager.go:92-108 | distinct definitions are all looked up |
| Rules.Manager.Apply | internal/rules/manager.go:92-118 | refuses repeated identifiers unchanged, else starts every rule from what a restart would restore |
| Rules.Manager.Decide | internal/rules/manager.go:178-229 | the new state and event, and a timer exactly while the rule waits for its deadline |
| Rules.Manager.EvaluateLocked | internal/rules/manager.go:169-246 | is one happening of the crash model; the manager's copy moves only with the commit; notifications are queued exactly for fired and resolved |
| Rules.Manager.EvaluateAll | internal/rules/manager.go:148-167 | in any order, rules before the first failing one move and the rest do not |
| Outbox.FirstDue | internal/storage/notifications.go:114-120 | the oldest due item, none exactly when nothing is due |
| Outbox.RetryDelay | internal/notify/dispatcher.go:180-186 | the base doubled for each attempt after the first, at most an hour, within 64 bits |
| Outbox.HourlyCeiling | internal/storage/notifications.go:68-88 | in every run no one-hour window holds more items of a channel than its ceiling |
| Outbox.CooldownSpacing | internal/storage/notifications.go:61-67 | two items with one key were created further apart than the cooldown |
| Outbox.NeverTwoOpen | internal/storage/migrations/001_initial.sql:21 | two items with one key are never both undelivered |
| Outbox.SuspensionsApart | internal/storage/notifications.go:47-60 | suspensions of a channel begin at least an hour apart, and for that hour it takes nothing |
| Outbox.StepKeepsDelivery | internal/storage/notifications.go:100-148 | every step keeps the attempt counts within bounds and final items unchanged |
| Outbox.SendsBounded | internal/notify/dispatcher.go:159-188 | an item is sent at most MaxAttempts times plus the restarts that found it half sent |
| Outbox.FinalIsForever | internal/storage/notifications.go:133-148 | a sent or abandoned item never changes and is never sent again |
| Outbox.Store.RecentlyQueued | internal/storage/notifications.go:61-67 | an item with the key is undelivered or recent |
| Outbox.Store.CountRecent | internal/storage/notifications.go:71-74 | the channel's items since a time |
| Outbox.Store.InsertOrIgnore | internal/storage/notifications.go:89-97 | inserts exactly unless an undelivered item has the key |
| Outbox.Store.EnqueueNotification | internal/storage/notifications.go:46-98 | inserts, suspends or refuses as the machine does, and reports which |
| Outbox.Store.ResetSendingNotifications | internal/storage/notifications.go:101-104 | exactly the items being sent become pending |
| Outbox.Store.ClaimNotification | internal/storage/notifications.go:107-131 | claims the oldest due item and counts the attempt |
| Outbox.Store.CompleteNotification | internal/storage/notifications.go:134-137 | the item becomes sent |
| Outbox.Store.FailNotification | internal/storage/notifications.go:140-148 | the item becomes abandoned, or pending until its next attempt |
| Outbox.Dispatcher.RunOnce | internal/notify/dispatcher.go:159-188 | is a claim and its settlement of the machine |
| Rotation.StepKeepsLock | internal/auth/service.go:100-140 | a login or sudo call in flight read the credentials that are still configured |
| Rotation.StepKeepsGrants | internal/auth/service.go:163-216 | a step that loses no due revocation keeps every grant on the current credentials |
| Rotation.RotationIsSound | internal/auth/service.go:100-275 | in every interleaving and across restarts, with no due revocation lost and none under way, every session and sudo window was granted on the credentials configured now; between a rotation's update and its deletion an old session may still be accepted |
| Rotation.DeletionRestores | internal/auth/service.go:163-216 | a deletion that takes effect makes good whatever was lost before it, as long as none is lost after it |
| Rotation.EveryGrantIsAccounted | internal/auth/service.go:100-275 | in every run, lost revocations included, each session and sudo window was granted by a verified password on credentials configured since the last deletion that took effect |
| Rotation.FailedRevocation | internal/auth/service.go:126-171 | after a reconfiguration whose deletion may fail, everything is current exactly if it succeeded, the credentials did not change, or there was nothing to delete |
| Rotation.CrashedRotation | internal/auth/service.go:126-212 | after a crash between a reconfiguration's two statements and a start, exactly if the start configures other credentials, they had not changed, or no session was stored |
| Rotation.CrashedStart | internal/auth/service.go:200-212 | the same after a start that died between its two statements |
| Rotation.FailedStart | internal/auth/service.go:200-212 | the same after a start whose deletion failed |
| Rotation.OldSessionSurvives | internal/auth/service.go:126-171 | a concrete run: start, login, rotation, a deletion that fails, and the old session still there |
| Rotation.Store.Reconcile | internal/auth/service.go:174-216 | the start's database part is two steps of the machine |
| Rotation.Service.Login | internal/auth/service.go:219-275 | is a login's two steps; succeeds only on the configured username and a verified password |
| Rotation.Service.OpenSudo | internal/auth/service.go:366-403 | is a sudo call's two steps |
| Rotation.Service.Reconfigure | internal/auth/service.go:100-140 | is an update and a revocation; reports success exactly when nothing due was left undone |
| Downsample.InWindowIs | internal/state/history.go:38-43 | exactly the samples of the window are kept |
| Downsample.DedupInPlace | internal/state/history.go:45-54 | overwriting the slice being read leaves the last sample of each instant |
| Downsample.LastOfRunsIncreases | internal/state/history.go:45-54 | sorted samples deduplicate to strictly increasing times |
| Downsample.LastOfRunsKeepsTimes | internal/state/history.go:45-54 | no instant is lost |
| Downsample.Average | internal/state/history.go:58-86 | the accumulating loop computes the mean of each run of equal bucket |
| Downsample.GroupsFlatten | internal/state/history.go:71-83 | the buckets partition the samples in order |
| Downsample.GroupsAreBuckets | internal/state/history.go:71-83 | every group lies in one bucket |
| Downsample.NeighboursDiffer | internal/state/history.go:71-83 | neighbouring groups lie in different buckets |
| Downsample.BucketMeansConserve | internal/state/history.go:64-83 | the means, weighted by their counts, add up to the samples |
| Downsample.MeansIncrease | internal/state/history.go:64-86 | averaged times strictly increase |
| Downsample.MeansRecorded | internal/state/history.go:64-86 | and each is a recorded one |
| Downsample.ReducedSize | internal/state/history.go:56-86 | averaging leaves at most 288 samples, at most 192 once buckets are three nanoseconds wide, at most 145 in a window of 144 squared |
| Downsample.MedianSpacing | internal/state/history.go:106-116 | the middle order statistic of the spacings, or zero below three samples |
| Downsample.OrderStatisticUnique | internal/state/history.go:106-116 | which is determined by that |
| Downsample.Draw | internal/state/history.go:88-101 | the capped loop draws the markers and values in order |
| Downsample.DrawnIsOrdered | internal/state/history.go:88-101 | times strictly increase and each marker stands between two values |
| Downsample.CapNeverDrops | internal/state/history.go:88-101 | fewer than half the spacings exceed three medians, so up to 193 samples and all their markers fit |
| Downsample.GapsFillBuckets | internal/state/history.go:58-94 | with narrower buckets a gap skips a bucket, so samples and gaps are no more than the buckets |
| Downsample.ReducedFits | internal/state/history.go:56-101 | in every window the drawing holds every sample and one marker per gap, within 288 points, so the cap drops nothing |
| Downsample.Downsample | internal/state/history.go:37-102 | all of it together, for every window: one value per bucket at a recorded time, one marker per gap and exactly there, nothing dropped |

## Left out

- Hashing, password verification, random tokens and MIME parsing are parameters or opaque values.
- SQLite, files, YAML and the network: tables are maps and sequences changed by whole transactions; whether a statement succeeds is a parameter.
- Clocks are parameters; timestamps are integers, not RFC 3339 text, and 64-bit durations are modelled only where the code doubles or multiplies them. Windows above 97 years, where tripling the median could overflow, are not covered.
- The expression language: an expression is a function of the visible environment with a list of charges; which signals a rule reads is a parameter.
- `url.Parse` is a parameter of `JoinPath`, constrained to decode escapes where a lemma needs it.
- Go's sort is not stable: which of two samples at one instant survives is left open.
- Glob.GlobMatch: works on bytes, while the original's expression works on runes; they differ only on invalid UTF-8.
- CanonicalJson.KeyLess: strings are sequences of Unicode scalar values, so invalid UTF-8 is not covered.
- Downsample.Average: means are over reals, without floating-point rounding.
- Evaluator.Budget.Check: the deadline is a number of checks that succeed, since the clock only matters through them.
- Evaluator.Budget.Spend: the charge is a given amount; the logarithmic formula that computes it from a length is not modelled.
- Outbox.Store.EnqueueNotification: creation times are compared as numbers, where SQLite compares their text.
- Rules.Store.CommitRuleTransition: the suspension events an insertion may log are kept with the outbox rather than in the rule event log.
- SseHub.Hub.BroadcastEvent: event numbers do not wrap at 64 bits.
- Scheduler.Manager.CommitState: the state's validation is in `Breaker.Manager.Commit` and its delivery in `Feed.Publisher.Publish`, not here.
- Feed.RulesCatchUp: an evaluation that fails half way counts as one; which rules it reached is in `Rules.Manager.EvaluateAll`.
- Scheduler.Manager.Apply: default intervals and restored documents are not modelled; a restored state counts as installed.
- Breaker.Manager.RefreshCard: one card of one generation with refreshes one after another; the counters are not fenced, so overlapping generations are not covered, nor are restored failure counts.
- Rotation.Service.Login: lockout after failed attempts and session expiry only ever refuse or delete, and appear as that.
- Output validation and schema checks: easy mappings.
- HTTP handlers, commands, the frontend, the SDK, the container integration, the importer, secret scrubbing.
