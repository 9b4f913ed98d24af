# Verified model of the azugo router

azugo is a Go web framework. This project models its routing core in Dafny and proves what the
router promises about it: the radix tree that stores route patterns, the dispatcher around it, and
the small stateful pieces that serve requests (middleware chains, error headers, the rate limiter's
lazy creation, the cached HTTP client, the static content cache, the `X-Forwarded-For` scan).

`dafny verify dfyconfig.toml` checks everything.

## How it is organised

The radix tree is modelled twice. Module `Trie` gives the tree as a value and what each operation
(`split`, `setHandler`, `insert`, `add`, `Tree.Add`, sorting, both lookups) computes on it. Modules
`Radix` and `RadixTree` hold the mutable nodes and the tree object; each of their methods is proved
to compute the corresponding function of `Trie` on the value the objects represent, with no node
shared between subtrees. What the router promises is proved about the values, over every run of
registrations.

| file | contents |
|---|---|
| `Text`, `WildPath` | prefixes, segments, `findWildPath` |
| `Pattern` | patterns as lists of parts, printing, what it means for a path to fit a pattern, reading back |
| `Trie` | the tree as a value, `Add`, sort, `Get`, case-insensitive search |
| `Conservation`, `RouteTree` | the stored (pattern, handler) pairs and how every operation changes them |
| `TrailingSlash` | every trailing-slash mark is justified by a stored route |
| `Lookup`, `CaseFix` | what the result of a lookup means |
| `Refusals`, `TidyTree`, `OneName` | when a registration is refused, and when a stored route is refused again |
| `StaticRoutes`, `StaticMap`, `Redirect` | static routes: the tree is a finite map; redirects end after one step |
| `Walks`, `SlashMarks`, `SlashOrder` | static routes: which order of registration makes every slash recommendation right |
| `Spots`, `SlashAdvice` | static routes: which paths get a slash recommendation, read off the calls alone |
| `Answered`, `DeadEnds`, `OneRoute` | which paths are found: every path that fits a route, but for dead ends |
| `Markers`, `Precedence`, `MostSpecific` | which of several fitting routes answers |
| `Announced`, `RunLookups`, `TwinRoutes` | lookups and slash recommendations over whole runs |
| `Radix`, `RadixTree` | nodes and trees on the heap |
| `OptionalPaths` | expansion of optional parameters |
| `AllowList`, `RouteTable`, `Dispatch`, `TwoRedirects`, `Middleware`, `Mux` | methods, Allow lists, dispatching, middleware order, and the router and group objects |
| `HandleRoutes`, `Responses`, `EndToEnd` | what one `Handle` call stores, which answer every request gets, and both together over whole histories |
| `AlwaysHeaders`, `StaticCache`, `Limiter`, `HttpClient`, `ForwardedFor` | the smaller cores |

A supported pattern consists of literal text, `{name}` parameters that end their segment, and a final
`{name:*}`. A string stands for a byte string, one character per byte. A handler is known by its
identity, wrapped in the middlewares it runs inside.

Where something promised is false of the code, there is a concrete input, and a theorem that says when it
does hold:

- A route ending in `//` can make a slash redirect point at a path nothing serves
  (`Redirect.DoubledSlashMisleads`). Recommendations are right whenever each such route is covered: where
  `p//` is registered, `p` is too (`Lookup.RunRecommendsServed`). There is no exact condition on the
  registered routes, because the order of registration decides (`Redirect.OrderDecides`). On the order there
  is one, for static routes: `SlashOrder.AdviceIsRightIff` says which runs of calls leave every
  recommendation right.
- A path that fits a registered pattern is not always answered: after `/{p:*}` and `/b/{id}`, the path `/b/` is
  not, because the text between the two routes is a dead end (`OneRoute.DeadEndHides`). With consistent parameter
  names a lookup that makes no recommendation finds a handler exactly when the path fits a registered pattern with no
  dead end off its branch (`RunLookups.RunAnswersIff`); a single route answers every path that fits it
  (`OneRoute.OneRouteAnswers`). The case-insensitive search has no such exception
  (`RunLookups.RunFindIsComplete`).
- A registered path can be hidden by another one that has a slash more, or both redirect to each other
  (`TwinRoutes.TwinHides`, `TwinRoutes.TwinsRedirectInCircles`). A set of literal paths is answered by every run
  exactly when it holds no such pair (`TwinRoutes.AnswersAllIffTwinFree`).
- The documented redirect to the route with or without the final slash can be missing
  (`SlashAdvice.SlashIsNotAdded`, `SlashAdvice.SlashIsNotDropped`). For static routes the recommendation is there
  exactly when the calls, read in their order, say so (`SlashAdvice.AdviceIsExact`).
- One redirect can lead to another when two trees are involved: `TwoRedirects.RedirectedTwice` gives the
  registrations and the three requests. With static routes the second redirect comes exactly when the
  any-method tree redirects the request and the method's own tree the target, and there is never a third
  (`Dispatch.RedirectsEnd`).
- The cached Allow list misses custom methods (`RouteTable.CustomIsNotCached`); it is fresh exactly when no
  custom method was registered for the first time after the last first registration of a built-in one
  (`RouteTable.FreshIffCustomsBefore`).
- A client can be sent other content than it asked for, for two reasons. Hashes of replaced static content
  can collide (`StaticCache.StarHashMisleads`, `StaticCache.GzHashMisleads`). And when a replacer leaves a
  file unchanged, the file is cached for all hashes, so that a client with another hash is sent it unreplaced
  (`StaticCache.StaleMisleads`). With hashes that are kept apart, every body sent is right exactly when no
  file is left alone by one hashed replacer in use and changed by another (`StaticCache.FreshIffUniform`); and
  that is the exact condition for all files and replacers exactly when the hashes are kept apart
  (`StaticCache.FreshIffApart`).
- A leading comma in `X-Forwarded-For` shifts the entry chosen (`ForwardedFor.LeadingCommaMisses`, with the
  exact condition in `ForwardedFor.EntrySelected`).
- Registering a route again is not always refused: after `/{a}/x`, the route `/{b}` is accepted twice and
  stored twice (`OneName.StoredTwice`). In an immutable storage, every run with patterns from a given set
  refuses a route the second time exactly when no two patterns of the set have parameters of different names
  at the same place, those that both end there aside (`OneName.RefusedAgainIffOneNamed`). For one
  registration, `Refusals.AcceptedIffFree` says exactly when it is accepted.

## Model

| member | source | states |
|---|---|---|
| Text.LongestCommonPrefix | internal/radix/utils.go:24-43 | the loop over both texts returns the length of their longest common prefix, which `Lcp` defines by its properties |
| Text.SegmentEndIndex | internal/radix/utils.go:46-57 | the index of the first slash or the end, one more for a lone final slash when asked |
| WildPath.FindWildPath | internal/radix/utils.go:61-157 | the two nested scans and the recursion on the segment's tail report the first wild path, or panic, exactly as `FindWild` measures it |
| Pattern.WildOf | internal/radix/utils.go:61-157 | on every supported pattern the first parameter or wildcard is reported with its own text, key, type, start and end offset, and none is reported for literal text |
| Pattern.ReadBack | internal/radix/utils.go:61-157 | printing a supported pattern and reading it with repeated `findWildPath` calls gives back the same parts |
| Pattern.PrintInjective | internal/radix/utils.go:61-157 | two supported patterns with the same printed form are the same pattern |
| Conservation.InsertGains | internal/radix/node.go:164-254 | the node chain `insert` builds spells exactly the inserted pattern, trailing-slash split and wildcard included; a failing insert stores nothing |
| Conservation.SplitKeepsRoutes | internal/radix/node.go:74-87 | splitting a node loses, duplicates and respells no stored route |
| Conservation.AddGains | internal/radix/node.go:257-310 | `add` below any well-formed node changes the stored (pattern, handler) multiset by exactly the new pair, or by nothing when it fails |
| RouteTree.SortKeepsRoutes | internal/radix/node.go:497-524 | any reordering that sorting may choose, at every level, keeps the stored multiset |
| RouteTree.AddBlames | internal/radix/node.go:257-310 | an "already registered" error names the node that spells exactly the rejected pattern |
| RouteTree.OverrideSwaps | internal/radix/tree.go:41-59 | overriding in a mutable tree exchanges exactly the handler stored for that pattern |
| RouteTree.AddConserves | internal/radix/tree.go:23-68 | one `Tree.Add`, root split, root replacement, override and sort included, adds exactly the new pair, or (mutable) replaces the handler of the same pattern, or changes nothing when it panics |
| RouteTree.RunConserves | internal/radix/tree.go:23-68 | in every run of calls, mutable or not and panicking ones included, every stored pair was registered by a returning call and the stored patterns are exactly those of the calls that returned; in an immutable tree the stored pairs are exactly theirs |
| RouteTree.RunStoresLatest | internal/radix/tree.go:23-68 | over every run, mutable or not, the handler registered last for a pattern is stored for it |
| Refusals.KeyMeetsKey | internal/radix/node.go:272-296 | a pattern starting with a parameter whose first sharing child is a parameter: refused at a handler when it ends there (or with just a slash more), otherwise continued below a child of the same name and inserted beside one of another name |
| Refusals.AddBlocked | internal/radix/node.go:257-310 | below any well-formed node `add` fails exactly when the walk down the first sharing children ends at a handler or mark, at a wildcard, or at the handler of a final parameter |
| Refusals.AcceptedIffFree | internal/radix/tree.go:23-68 | in an immutable tree a registration returns exactly when nothing stands in its way there and its wildcard, if any, follows a slash |
| Refusals.MisplacedIsRefused | internal/radix/node.go:164-254 | a wildcard that does not follow a slash is refused by every tree, mutable or not |
| Refusals.StoredAgain | internal/radix/tree.go:23-68 | a stored route that does not stand in its own way is accepted again and stored once more |
| TidyTree.StepTidy | internal/radix/tree.go:23-68 | as long as the patterns in use do not name a parameter differently at one place, every call, refused or not and in a mutable tree or not, leaves siblings that start differently, but for a bare slash marker behind a real child |
| TidyTree.StoredIsBlockedAtRoot | internal/radix/tree.go:23-68 | in such a tree every stored route stands in its own way |
| OneName.ClashStoresTwice | internal/radix/node.go:272-296 | for two patterns that agree up to a place where their parameter names differ, the first going on there or the second with more than a slash, registering the first and then the second twice is accepted and stores the second twice |
| OneName.StoredTwice | internal/radix/node.go:272-296 | `/{a}/x`, `/{b}`, `/{b}` in this order all return, and `/{b}` is stored twice |
| OneName.RefusedAgainIffOneNamed | internal/radix/tree.go:23-68 | every run of registrations in an immutable tree with patterns from a set (wildcards after a slash) refuses a registered route ever after, exactly when no two patterns of the set agree up to a place where their parameter names differ and one of them goes on |
| TrailingSlash.AddMarks | internal/radix/node.go:133-310 | `add` leaves only slash marks that a stored route one slash away justifies |
| TrailingSlash.SplitMarks | internal/radix/node.go:74-87 | a split keeps every mark justified |
| TrailingSlash.RunKeepsMarks | internal/radix/tree.go:23-68 | in every run of returning calls, mutable or not, all marks of the tree are justified |
| Trie.NoStrayWrites | internal/radix/node.go:312-400 | a search that returns no handler writes no user value, however many branches it backed out of, and a slash recommendation never comes with a handler |
| Lookup.GetIsSound | internal/radix/tree.go:75-100 | a handler found sits under a stored pattern which, filled with the captured values, is the path; the writes are exactly its parameters, innermost first; a miss writes nothing |
| Lookup.WritesBind | internal/radix/node.go:91-105 | with distinct names, exactly the parameters are set, each to its own value |
| Lookup.GetAnswers | internal/radix/tree.go:75-100 | the same for the request's user values before and after the lookup |
| Lookup.RunAnswersRegistered | internal/radix/tree.go:23-100 | over every run, mutable or not and panicking calls included, a handler a lookup returns was registered by a returning call, under a pattern the captured values turn back into the path |
| Lookup.RecommendationIsServed | internal/radix/node.go:312-400 | on a tree with justified marks in which each route ending in a doubled slash is covered by the route before it, the path a slash recommendation leads to fits a stored pattern |
| Lookup.RunRecommendsServed | internal/radix/tree.go:23-100 | the same over every run of returning registrations, mutable or not |
| CaseFix.FindSpells | internal/radix/node.go:402-494 | on any well-formed tree, a path found case-insensitively is a pattern of the tree filled in, parameters and wildcard verbatim: a stored one, or one a marked node spells with a slash added or removed; it equals the searched path up to ASCII case and at most one trailing slash |
| CaseFix.FindIsServed | internal/radix/node.go:402-494 | with routes ending in a doubled slash covered, the path found fits a stored pattern exactly |
| CaseFix.RunFindSpells | internal/radix/tree.go:23-117 | the same as `FindSpells` over every run, mutable or not and panicking calls included; without a slash fix the pattern is one a returning call registered |
| CaseFix.RunFindIsServed | internal/radix/tree.go:23-117 | over every run of returning calls with doubled slashes covered, the path found fits a registered pattern |
| Answered.GetIsComplete | internal/radix/node.go:312-400 | on any well-formed tree, a path that fits a stored pattern, its last parameter not empty, gets a handler or a slash recommendation, unless along the branch of the pattern a static child carrying nothing has exactly the rest of the path as its text |
| Answered.FindIsComplete | internal/radix/node.go:402-494 | on any well-formed tree, a path that fits a stored pattern up to case, its last parameter or wildcard not empty, is found, without exception |
| DeadEnds.AnsweredIffFree | internal/radix/node.go:312-400 | in a tree with siblings starting differently and static ones first, a lookup without a recommendation finds a handler exactly when some stored pattern fits the path with no dead end off its branch |
| Precedence.StepStaticFirst | internal/radix/node.go:497-524 | after every call, refused or not and in a mutable tree or not, no parameter stands before a static child at any level |
| Markers.StepHeld | internal/radix/node.go:133-162 | as long as no pattern has a twin with a slash more, every call leaves handlers at unmarked nodes only, each with a marked "/" below unless its text is "/" itself |
| Precedence.LiteralIsAnswered | internal/radix/node.go:312-400 | in a tree with these properties a stored literal route is answered on its own path with its own handler, whatever parameter and wildcard routes stand beside it |
| MostSpecific.AnswerIsBest | internal/radix/consts.go:4-9 | the answering route fits the path and no stored route that is free to answer it is more specific: literal before parameter before wildcard at the first place where two differ |
| RunLookups.RunAnswersLiteral | internal/radix/tree.go:23-100 | over every run, mutable or not and refused calls included, with consistent parameter names and no slash twins, a literal path is answered with the handler registered last for it |
| RunLookups.ReturningAnswersLiteral | internal/radix/tree.go:23-100 | the same over every run of returning calls, without a condition on where wildcards stand |
| RunLookups.RunIsComplete | internal/radix/tree.go:23-100 | over every run, mutable or not and refused calls included, the completeness of `GetIsComplete` for the pattern of every call that returned |
| RunLookups.RunAnswersIff | internal/radix/tree.go:23-100 | over every run with consistent parameter names, a lookup without a recommendation finds a handler exactly when the path fits the pattern of a returning call with no dead end off its branch |
| RunLookups.RunAnswersBest | internal/radix/tree.go:23-100 | over every such run the handler found was registered by a call whose pattern fits, and no returning call whose pattern fits, with no dead end off its branch, has a more specific one |
| RunLookups.RunFindIsComplete | internal/radix/tree.go:23-117 | over every run, a path that fits the pattern of a returning call up to case is found by the case-insensitive search |
| RunLookups.RunDropsSlash | internal/radix/tree.go:23-100 | over every run without slash twins, a path with a slash more than one that fits a registered route gets a handler or a slash recommendation, unless a dead end hangs off the branch |
| Announced.StepLeads | internal/radix/tree.go:23-68 | what a walk of the tree along a pattern leads to, a handler, a mark or a wildcard, no later call takes away |
| Announced.RunAddsSlash | internal/radix/tree.go:23-100 | over every run with consistent parameter names, a route with a final slash, registered before any route at or beyond it, gives paths that fit it without the slash a handler or a slash recommendation ever after, unless a dead end hangs off the branch |
| OneRoute.OneRouteAnswers | internal/radix/tree.go:23-100 | after a single registration every path that fits the route, its last parameter not empty, is answered with its handler and exactly the values captured |
| OneRoute.DeadEndHides | internal/radix/node.go:312-400 | after `/{p:*}` and `/` + t + `{id}`, for any text t and names, the path `/` + t is not answered, though it fits the first |
| TwinRoutes.TwinHides | internal/radix/node.go:297-310 | after a path and then the same with a slash more, the path is only recommended to the other |
| TwinRoutes.TwinsRedirectInCircles | internal/radix/node.go:297-310 | where the second registration panics, as for every path without a final slash, the two recommend each other |
| TwinRoutes.AnswersAllIffTwinFree | internal/radix/tree.go:23-100 | for every set of literal paths: all runs that register paths of the set, mutable or not and refused calls included, answer each registered path with its handler exactly when no path of the set is another one with a slash more |
| StaticRoutes.GetIsExact | internal/radix/tree.go:75-100 | on a tree of static routes a lookup returns a handler exactly when the path with that handler is stored |
| StaticRoutes.AddStatic | internal/radix/node.go:257-310 | adding a static path that is free, its slash twin included, always succeeds and keeps the shape of static trees |
| StaticRoutes.AddAgain | internal/radix/node.go:257-310 | adding a stored static path again is refused at the unmarked node that holds it |
| StaticRoutes.SortStatic | internal/radix/node.go:497-524 | sorting keeps a static tree static and orders every level, so that a real child precedes a bare marker |
| StaticMap.AddNew | internal/radix/tree.go:23-68 | a new static path is accepted and the storage holds exactly one entry more |
| StaticMap.AddStored | internal/radix/tree.go:23-68 | a stored path is refused, or in a mutable tree overwrites exactly its own entry |
| StaticMap.StorageIsMap | internal/radix/tree.go:23-100 | over every run of static registrations without slash twins, calls return as for a finite map and every lookup answers from it |
| Redirect.RedirectIsFinal | mux.go:463-521 | on a tree of static routes, doubled slashes covered, any redirect target is answered with a handler and is not the path itself |
| Redirect.RunRedirectsOnce | mux.go:463-521 | over every run of static registrations without slash twins and with doubled slashes covered, a redirect leads to a registered path that is served directly |
| Redirect.DoubledSlashMisleads | internal/radix/node.go:240-251 | with the single route `/a//`, the path `/a/` is redirected to `/a`, which nothing serves |
| Redirect.OrderDecides | internal/radix/node.go:257-310 | registering `/a//` and `/a//b` in one order gives a wrong recommendation for `/a/`, in the other order every recommendation is served, with the same routes stored |
| SlashMarks.AddReaches | internal/radix/node.go:133-310 | an addition of static text changes at most the mark before its own final slash, set exactly when `Sets` holds, and the bare marker after its text |
| SlashMarks.SetsIsExplained | internal/radix/node.go:257-310 | when adding `u/` marks the node of `u`, a route turns off after `u`, or none goes on after `u/`, or `u` is marked or stored already |
| SlashOrder.MarksStand | internal/radix/tree.go:23-68 | over every run of static registrations without slash twins, the node before the last slash of `p//`, `p` not registered, is marked exactly when a call registers `p//` while no earlier path goes on beyond it or an earlier one goes on after `p/` with another character |
| SlashOrder.AdviceIsRightIff | internal/radix/tree.go:23-100 | over every such run, mutable or not, all slash recommendations lead to registered paths exactly when there is no such call |
| Spots.AddSpot | internal/radix/node.go:257-310 | where a walk along a text ends, off the tree, inside a node's text or at its end, and whether it is marked, changes by an addition only as `Next` computes from the two texts |
| SlashAdvice.AdviceIsExact | internal/radix/tree.go:23-100 | over every run of static registrations without slash twins, mutable or not and re-registrations included, an unregistered path is recommended a slash exactly when the calls, read in their order without any tree, say so |
| SlashAdvice.SlashIsNotAdded | internal/radix/tree.go:70-100 | after s + `/b` and s + `/`, the path s gets no recommendation and is not found by the case-insensitive search, though s + `/` is registered |
| SlashAdvice.SlashIsNotDropped | internal/radix/tree.go:70-100 | after s + `/b`, s and s + `/c`, the path s + `/` gets no recommendation, though s is registered |
| Radix.Node.Clone | internal/radix/node.go:34-72 | a deep copy: the same value, and only new objects |
| Radix.Node.Split | internal/radix/node.go:74-87 | the node keeps the cut text, and everything it carried moves to one new child sharing no object with the old tree |
| Radix.Node.SetHandler | internal/radix/node.go:133-162 | refuses a handled or marked node; otherwise sets the handler and marks or adds the "/" child |
| Radix.Node.Insert | internal/radix/node.go:164-254 | builds the chain of new nodes `Trie.Insert` describes and returns the node it says |
| Radix.Node.Add | internal/radix/node.go:257-310 | changes the tree to what `Trie.Add` computes, reports its error and returns its node; all objects are old ones or new ones |
| Radix.Node.Sort | internal/radix/node.go:497-524 | every level is ordered, static before parameter, more children first, and holds the same subtrees; `RunLookups.RunAnswersLiteral` and `MostSpecific.AnswerIsBest` say what the order is for |
| Radix.Node.GetFromChild | internal/radix/node.go:312-400 | the backtracking search finds what `Trie.GetFromChild` finds, sound by `Lookup.GetIsSound` and complete by `Answered.GetIsComplete`, and the request ends up with exactly its writes |
| Radix.Node.Find | internal/radix/node.go:402-438 | the buffer grows by exactly the text found, or is left as it was |
| Radix.Node.FindFromChild | internal/radix/node.go:440-494 | the same for the search among the children, parameter text taken back when a branch fails; `Answered.FindIsComplete` says when something is found |
| RadixTree.Tree.constructor | internal/radix/tree.go:12-18 | a storage without routes |
| RadixTree.Tree.Add | internal/radix/tree.go:23-68 | a step of the model: valid tree again, new objects only, `AddStep` from the old value to the new one |
| RadixTree.Tree.Override | internal/radix/tree.go:45-56 | only the handler of the node pointed at changes, anywhere in the tree |
| RadixTree.Tree.Get | internal/radix/tree.go:75-100 | the handler and recommendation of the model; the request is left as `Answers` says: rebuilt path, own parameters, or untouched |
| RadixTree.Tree.FindCaseInsensitivePath | internal/radix/tree.go:107-117 | the corrected path is appended, or the buffer is emptied when nothing was found or a slash fix is forbidden |
| OptionalPaths.GetOptionalPaths | internal/router/path.go:25-95 | the scan over the string it edits terminates and returns what `Walk` computes |
| OptionalPaths.IncludesPath | internal/router/path.go:13-21 | whether the path is in the list |
| OptionalPaths.Expansion | internal/router/path.go:25-95 | for every optional parameter the '?'-free path before it ("/" if first) and through it, strictly lengthening, all prefixes of the '?'-free pattern; empty exactly when nothing is optional |
| HandleRoutes.HandleStoresEach | mux.go:174-217 | in an immutable table a `Handle` call that returns adds exactly one route with its handler for each path the pattern stands for, itself or those of its optional parameters, and stores every other route as often as before |
| HandleRoutes.RefusedStoresShorter | mux.go:174-217 | one that panics has added exactly the paths shorter than the one refused |
| HandleRoutes.HandleHoldsEach | mux.go:174-217 | in any table, mutable or not, a call that returns leaves its handler stored under each of these paths and other routes as they were |
| AllowList.SortInPlace | mux.go:254-261 | the in-place insertion sort leaves the same methods in strictly ascending order |
| AllowList.ListingIsUnique | mux.go:219-268 | two ascending lists of the same methods are equal, whatever order the map was walked in |
| RouteTable.PlacesDiffer | mux.go:270-301 | no two methods, built-in or custom, share a place |
| RouteTable.HandleKeepsTable | mux.go:174-217 | a registration, panicking or not, keeps the table good and changes no other method's tree |
| RouteTable.RunKeepsTable | mux.go:174-217 | in every reachable table each method with registrations has a tree, custom methods sit behind the eleven built-in ones, distinct methods at distinct places |
| RouteTable.CacheIsOfLastRefresh | mux.go:196-203 | the cached global Allow list is exactly that of the methods known when a built-in method was last registered for the first time |
| RouteTable.CacheIsFresh | mux.go:196-203 | with only built-in methods the cached list always equals a fresh recomputation |
| RouteTable.FreshIffCustomsBefore | mux.go:174-217 | the cached list equals a fresh recomputation exactly when no custom method was registered for the first time after the last first registration of a built-in method (method names hold no comma) |
| RouteTable.CustomIsNotCached | mux.go:186-203 | after registering only PURGE the cached list is empty while a fresh one is "OPTIONS, PURGE" |
| Dispatch.AllowIsExact | mux.go:603-696 | for paths other than `*` and `/*`, a 405 or automatic OPTIONS answer comes only when neither the method's nor the any-method tree serves the path; its list is non-empty, strictly ascending, names OPTIONS and exactly the other methods that serve the path, never "*" nor (but for OPTIONS) the method itself |
| Dispatch.RedirectsEnd | mux.go:603-660 | with static routes without slash twins and with doubled slashes covered in the method's tree and the any-method tree, a request redirected by the first is served next, a second redirect comes exactly when the any-method tree redirects the request and the method's tree the target, and any chain of redirects ends after at most two |
| Responses.AnswerIsExact | mux.go:603-696 | for every good table, request and options each answer is given exactly when it is due: whose handler runs, QUERY content without a media type, the redirect target and its code 301 or 308 (never for CONNECT or "/"), the OPTIONS answer or 405 with the list of the other methods whenever there are some and the option is on, and 404 otherwise |
| Responses.FixedPathRedirects | mux.go:463-521 | a path that differs by case from one that fits a stored route, when no tree before has an answer, is redirected with the code of the method, unless the fix needs a slash that may not be fixed |
| EndToEnd.LiteralIsServed | mux.go:603-696 | after every history of `Handle` calls, panicking ones included, with consistent parameter names and no slash twins under the method, a request for a literal path is served with the handler of the last call that names the path, optional parameters expanded |
| EndToEnd.FittingIsAnswered | mux.go:603-696 | after every such history, without these conditions, a request whose path fits a registered pattern is served, unless a dead end hangs off the branch or the tree recommends a slash, to which it is then redirected where allowed |
| TwoRedirects.RedirectedTwice | mux.go:603-660 | with GET `/a/b`, GET `/a/` and any-method `/A/` registered, GET `/a` is redirected to `/A/`, that to `/a/`, and that is served |
| Middleware.WrapAll | mux.go:137-147 | the backwards loop wraps the handler so that the middlewares are entered in order |
| Middleware.RunGroups | route_group.go:14-61 | every group's list is its parent's at the moment of its creation, then its own additions |
| Middleware.RouteRunsInside | mux.go:127-147 | in every interleaving of Use, UsePriority, Group and Handle a route enters priority, router and group middlewares registered before it, in this order; later calls change nothing |
| Mux.Router.constructor | mux.go:47-68 | the new, good table |
| Mux.Router.Mutable | mux.go:106-116 | the flag changes in every tree and nothing else does |
| Mux.Router.Chain | mux.go:137-147 | router middlewares inside, priority middlewares outside |
| Mux.Router.Handle | mux.go:174-217 | a step of the table model, which stores the routes `HandleRoutes.HandleStoresEach` says, with the handler wrapped in the middlewares of that moment; no other method's tree changes |
| Mux.Router.Allowed | mux.go:219-268 | the text of the model, whatever order the methods are walked in: cached for the whole server, sorted and joined otherwise |
| Mux.Router.TryRedirect | mux.go:463-521 | the slash-toggled or case-fixed target of the model, with 301 for GET and 308 otherwise |
| Mux.Router.Handler | mux.go:603-696 | the answer of the model, which `Responses.AnswerIsExact` determines; the request's user values change only when a handler is found, and then as its lookup says |
| Mux.RouteGroup.Group | route_group.go:32-41 | a new group with the joined prefix and a copy of the middlewares |
| Mux.RouteGroup.Handle | route_group.go:59-61 | registers the prefixed path with the group's middlewares inside the router's |
| AlwaysHeaders.Context.SetAlways | header.go:99-124 | the header is set and its name listed once; reused capacity keeps its old value, growth starts empty |
| AlwaysHeaders.Context.CaptureAlwaysHeaders | header.go:126-130 | the listed entries get the values the response has now, spare entries stay |
| AlwaysHeaders.Context.ApplyAlwaysHeaders | header.go:132-138 | every listed entry with a value is set again |
| AlwaysHeaders.Context.HandleError | mux.go:336-344 | capture, reset, apply as one step of the model |
| AlwaysHeaders.Context.Release | request.go:175-188 | the length of the buffer is dropped, its content is not |
| AlwaysHeaders.ErrorKeepsRegistered | mux.go:336-344 | over every history of a pooled context, an error leaves exactly the non-empty headers registered in this request, with their values just before |
| AlwaysHeaders.PooledIsIdeal | header.go:99-138 | every step of the pooled context is a step of one without any reused storage |
| StaticCache.KeysApart | static.go:109-203 | with hashes kept apart, composed keys determine compression, hash and URL path |
| StaticCache.CleanIffApart | static.go:109-203 | for one hash without a slash, not being "*" and not starting with "gz:" is exactly what keeps its keys apart from those of precompressed files and of compressed content under any other such hash |
| StaticCache.StepKeepsInv | static.go:75-203 | with hashes kept apart and no file left alone by one hashed replacer and changed by another, every step of a request or of background compression keeps each cached entry and each pending answer right |
| StaticCache.BodiesAreFresh | static.go:75-203 | under the same two conditions, in every interleaving each body sent is the freshly computed content for that request, or its compressed form if accepted |
| StaticCache.StaleMisleads | static.go:109-203 | whenever the replacer of one hash in use leaves a file alone and that of another changes it, some run sends the file unreplaced to a client of the other |
| StaticCache.FreshIffUniform | static.go:75-203 | for given files and replacers and hashes that are kept apart, every body ever sent in any interleaving is right exactly when no file is left alone by the replacer of one hash in use and changed by that of another |
| StaticCache.FreshIffApart | static.go:75-203 | no two hashes in use collide with each other or with the keys used without a hash exactly when, for all files and replacers, every body ever sent is right just when no file is left alone by one hashed replacer and changed by another; and exactly when the latter always suffices |
| StaticCache.CleanIsFresh | static.go:75-203 | with all hashes free of "/", not "*" and not starting with "gz:" in use, every body sent is right exactly when no file is left alone by one hashed replacer and changed by another |
| StaticCache.GzHashMisleads | static.go:109-203 | with the hashes `h` and "gz:" + `h` both in use, a wrong body can be sent even where all hashed replacers change, or all leave alone, the same files |
| StaticCache.StarHashMisleads | static.go:109-203 | with the hash "*" a client asking for the plain file is sent another client's replaced content |
| Limiter.StepKeepsKnowledge | middleware/ratelimit.go:139-160 | every atomic step keeps at most one store, an exclusive mutex and what each position knows; a published limiter stays |
| Limiter.OneLimiter | middleware/ratelimit.go:139-160 | in every interleaving at most one limiter is published, all successful calls return that one, and a failed call has published nothing |
| HttpClient.CacheIsFresh | http_client.go:10-42 | in every interleaving a cached client was built from the current options, except while one is being added under the write lock |
| HttpClient.ReturnsCurrentClient | http_client.go:10-33 | every call returns a client built from the options as they stood at some moment of that call |
| ForwardedFor.CombineLines | middleware/realip.go:31-49 | several header lines are joined with ", " |
| ForwardedFor.ForwardedFor | middleware/realip.go:26-87 | the in-place right-to-left scan hands the parser exactly the entry `Parsed` names by splitting at commas |
| ForwardedFor.EntrySelected | middleware/realip.go:51-87 | for limit k of at least 1 this is the min(k, n)-th entry from the right exactly when the value does not start with a comma, or k is less than n, or the second entry is blank |
| ForwardedFor.LinesFormOneList | middleware/realip.go:40-48 | combining lines keeps their entries in order |
| ForwardedFor.LeadingCommaMisses | middleware/realip.go:55-74 | with ",a" and limit 2 the second entry is handed over instead of the empty first one |

## Left out

- WildPath.FindWildPath: the text handed to the regular-expression compiler is kept but not compiled, so a panic of the compiler on malformed text is not represented.
- RadixTree.Tree.Add: regular-expression and composite parameters (`{id:...}`, `{a}_{b}`) are outside the supported patterns; a nil handler is not represented.
- Mux.Router.Handle: the same patterns, after optional parameters are expanded; WrapHandler's context handling and instrumentation around a handler are not modelled.
- RouteTable.HandleKeepsTable: the same patterns.
- Mux.RouteGroup.Handle: the same patterns, with the group's prefix.
- Text.LongestCommonPrefix: one byte per character; on multi-byte text Go's `longestCommonPrefix` stops earlier than the common prefix.
- CaseFix.FindSpells: ASCII case only, no Unicode folding.
- Lookup.RecommendationIsServed: one direction only; for static routes `SlashOrder.AdviceIsRightIff` is exact, for patterns with parameters no exact condition is given.
- SlashOrder.AdviceIsRightIff: runs that register both `r` and `r/`, or patterns with parameters, are not covered.
- SlashAdvice.AdviceIsExact: the same; nor are paths that follow a registered path ending in a slash by another one.
- Announced.RunAddsSlash: sufficient only; for patterns with parameters no exact condition on the order is given.
- RunLookups.RunIsComplete: dead ends are described on the tree; which calls leave one is not said.
- RunLookups.RunAnswersLiteral: patterns whose wildcard does not follow a slash are not among those of its runs; `RunLookups.ReturningAnswersLiteral` covers them where all calls return.
- HandleRoutes.HandleStoresEach: optional parameters that fill whole segments, in patterns whose paths are all supported.
- EndToEnd.LiteralIsServed: histories in which the mutable flag is switched are not covered; patterns as for `HandleRoutes.HandleStoresEach`.
- EndToEnd.FittingIsAnswered: the same.
- OneName.RefusedAgainIffOneNamed: patterns whose wildcard does not follow a slash are not among those of its runs; they are always refused (`Refusals.MisplacedIsRefused`).
- StaticMap.StorageIsMap: runs that register both `r` and `r/` are not covered, since their outcome depends on the order; `TwinRoutes` shows what they lead to.
- Radix.Node.Sort: sorting is modelled by the insertion sort the library uses for short lists; the theorems about sorted trees hold for any order the comparison allows.
- Mux.Router.TryRedirect: the query string appended to the target is not modelled; the URI path normalised by the HTTP library is a parameter.
- Mux.Router.Handler: the base path is taken to be empty, and whether a QUERY request has content without a media type is a parameter.
- The slash marks of the tree after an `Add` that panics; its stored routes are covered.
- `hasWildChild`, which is written and never read.
- `RouteGroup.Proxy`, which wraps the group's middlewares twice.
- Base-path caching, application start and stop, TLS, the test client, logging, metrics.
- Configuration, request bodies, cookies, forms, upstream proxying, WS-Federation.
- The limiter, the HTTP client, replacers, compression and IP parsing themselves: they appear by identity or as functions given from outside.
- Special response headers of the HTTP library (content type, server, cookies) in `AlwaysHeaders`.
- Error messages; errors appear by kind.
