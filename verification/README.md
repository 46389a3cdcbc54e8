# Dream journal core, modelled in Dafny

The application is a dream journal. Users write dreams and tag them with
qualities, which are single lower-case words. The backend keeps a per-user
quality co-occurrence graph. Each quality is a node. Each dream with two or
more qualities records its id on both directions of every pair of its
qualities. From the graph the backend derives per-quality statistics for a
word map: the neighbour count, the five strongest neighbours, and an overall
ranking by frequency. A quality's stored frequency is kept equal to the number
of dreams carrying it by `m2m_changed` and `post_delete` signal handlers. The
nested endpoints `/dreams/{id}/qualities/{id}/` attach and detach one
quality. Qualities that no dream carries any more are deleted.

Smaller pure pieces around this core are modelled too:
- the object permissions;
- the image-prompt builders and the prompt validator;
- the admin title of a dream;
- the frontend's error-message formatting;
- the auth store's state reset;
- the tag-list form;
- the image list;
- the navigation guard;
- the route builders and `withQuery`;
- the CSRF cookie parser.

## Layout

| file | modules | what |
|---|---|---|
| basics.dfy | `Options`, `Seqs` | `Option`, duplicate-free sequences, removing an element |
| text.dfy | `Text` | ASCII trim and lower-casing, `join`, one-character `split` |
| sorting.dfy | `Sorting` | a stable descending insertion sort and its top-`n` prefix, as Python's `sorted`/`list.sort` (stable) with `reverse=True` |
| graph.dfy | `QualityGraph` | `QualityConnection`, `QualityGraphNode`, `QualityGraph`, `Dream.build_quality_graph` |
| stats.dfy | `QualityStatistics` | `get_statistics`, `Quality.get_connections`, `get_quality_statistics`, the triangle scenario of the test suite |
| bookkeeping.dfy | `QualityBookkeeping` | the store, `update_frequency`, both signal handlers |
| views.dfy | `DreamQualityViews` | `DreamQualityViewSet.update` / `destroy` |
| backend_small.dfy | `Permissions`, `PromptService`, `Admin` | permissions.py, prompt_service.py, admin.py |
| errors.dfy | `JsValues`, `ErrorHandling`, `AuthStore` | errorHandling.ts and the synchronous part of auth.ts |
| forms.dfy | `DreamForm`, `DreamImages` | useDreamForm.ts, useDreamImages.ts |
| routing.dfy | `Paths`, `RouteGuard`, `Csrf` | paths.ts, the guard in router/index.ts, csrf.ts |

Python dicts iterate in insertion order, and that order decides how the stable
sorts break ties. So the graph's `nodes` and `edges` dicts are association
lists (`seq<GraphNode>`, `seq<Edge>`) rather than maps. The central fact is
`QualityGraph.BuildQualityGraphNodes`. It says that node `x` of the built graph
holds exactly the edges `CollectEdges([], x, dreams)`. Those are the edges
`get_connections` accumulates for `x` from the dream data. So the statistics
and `get_connections` can be compared directly
(`QualityStatistics.StatisticMatchesConnections`).

The database of the bookkeeping part is two maps. One holds dream rows: an
owner and a set of qualities. The other holds quality rows: an owner, a name
and a stored frequency. `Consistent(st)` says every stored frequency equals
the quality's number of carrier dreams.

## Model

| member | source | states |
|---|---|---|
| QualityGraph.NewConnection | backend/dreams/models.py:18-21 | whatever strength is passed in, the connection's strength is the number of its shared dream ids; id, name and ids are kept |
| QualityGraph.AppendEdge | backend/dreams/models.py:45-49 | the list toward `other` gains the dream id at its end and every other list is unchanged; the key `other` is added at the end only if it was absent |
| QualityGraph.AppendEdgeDistinct | backend/dreams/models.py:47-48 | creating a missing entry keeps the dict's keys duplicate-free |
| QualityGraph.AppendEdgesToward | backend/dreams/models.py:244-245 | appending toward each quality of a duplicate-free list credits each of them exactly once and no other neighbour |
| QualityGraph.AppendEdgesKeys | backend/dreams/models.py:47-48 | afterwards the keys are the old keys together with the listed qualities |
| QualityGraph.AppendEdgesDistinct | backend/dreams/models.py:47-48 | the keys stay duplicate-free |
| QualityGraph.FindNode | backend/dreams/models.py:83-84 | a node is found exactly when its id is a key of `nodes`, and the found node carries that id |
| QualityGraph.AddNode | backend/dreams/models.py:62-67 | a new id gets a node with no edges; an existing id leaves the graph unchanged, so the first name and frequency stay; other ids are unaffected and keys stay distinct |
| QualityGraph.AddEdge | backend/dreams/models.py:69-74 | node count and keys are unchanged; for two different endpoints, q1's node gets the edge toward q2, q2's node the edge toward q1, and every other node is untouched |
| QualityGraph.AddEdgeToward | backend/dreams/models.py:69-74 | on every node, the list toward `y` gains the dream id once for each endpoint the node is whose partner is `y`; an id that is no node is credited nowhere |
| QualityGraph.AddStarEffect | backend/dreams/models.py:244-245 | one pass of the inner loop for `q` gives `q` the dream toward every later quality, in order, gives each of those the dream toward `q`, and leaves other nodes alone |
| QualityGraph.AddPairsEffect | backend/dreams/models.py:243-245 | the nested loop over a dream's distinct qualities gives each carried node the dream toward every other quality of the dream and leaves other nodes alone |
| QualityGraph.WithoutShort | backend/dreams/models.py:242 | in a dream with fewer than two qualities no quality has a partner, so skipping such dreams loses nothing |
| QualityGraph.AddDreamEffect | backend/dreams/models.py:240-245 | one dream, whether or not it passes the two-quality guard, does the same per-node step as the dream loop of `get_connections` |
| QualityGraph.AddDreamsEffect | backend/dreams/models.py:239-245 | the dream loop leaves each node with the edges accumulated for its id over all dreams in order |
| QualityGraph.AddNodesEffect | backend/dreams/models.py:232-234 | the node loop over rows with distinct keys yields one fresh node per row, in row order |
| QualityGraph.BuildQualityGraphNodes | backend/dreams/models.py:223-247 | the built graph has one node per quality row, in row order, with the row's id, name and stored frequency, also for qualities on no dream, and with the edges accumulated for it from the dreams |
| QualityGraph.DreamStepToward | backend/dreams/models.py:164-166 | one dream adds its id toward `y` on `x`'s list exactly when it carries both and `y` is not `x` |
| QualityGraph.CollectEdgesToward | backend/dreams/models.py:159-166 | after all dreams, the list toward `y` is the old list followed by the ids of the dreams carrying both `x` and `y` (`x` ≠ `y`), in dream order |
| QualityGraph.CollectEdgesKeys | backend/dreams/models.py:164-166 | the neighbours accumulated for `x` are the old ones plus every other quality sharing a dream with `x` |
| QualityGraph.CollectEdgesDistinct | backend/dreams/models.py:164-166 | the accumulated neighbour keys are duplicate-free |
| QualityGraph.BuiltGraphEdges | backend/dreams/models.py:239-245 | in the built graph, node `x`'s list toward `y` is the list of dreams carrying both; edges are symmetric and the connection strength is the number of shared dreams |
| QualityGraph.PairsMembers | backend/dreams/models.py:243-244 | every pair of the nested loop joins two different qualities of the dream |
| QualityGraph.PairsLength | backend/dreams/models.py:243-244 | a dream with `k` qualities gives `k·(k−1)/2` pairs |
| QualityGraph.PairsDistinct | backend/dreams/models.py:243-244 | with distinct qualities, no pair occurs twice |
| QualityGraph.PairsCover | backend/dreams/models.py:243-244 | every quality is paired with every later one |
| QualityGraph.PairsForward | backend/dreams/models.py:243-244 | every pair goes from an earlier quality to a later one |
| QualityGraph.PairsOneWay | backend/dreams/models.py:243-244 | no pair also occurs reversed |
| QualityGraph.PairsCount | backend/dreams/models.py:242-245 | each unordered pair of a dream's distinct qualities is visited exactly once |
| QualityStatistics.ConnectionsFrom | backend/dreams/models.py:82-92 | at most one connection per edge entry, each toward a neighbour key, named by the lookup, with strength equal to its number of dream ids |
| QualityStatistics.ConnectionsFromEdges | backend/dreams/models.py:82-92 | with distinct keys, the connections are exactly the named neighbours, once each, carrying the dream ids stored toward them |
| QualityStatistics.NodeStatistic | backend/dreams/models.py:97-105 | id, name and frequency come from the node; `total_connections` counts every edge entry, named or not; the top connections are at most 5, sorted by strength and drawn from the node's connections |
| QualityStatistics.GetStatistics | backend/dreams/models.py:76-107 | one statistic per node, sorted by frequency, descending, a permutation of the per-node statistics, nodes of equal frequency in insertion order |
| QualityStatistics.GetStatisticsDistinct | backend/dreams/models.py:79-107 | distinct node ids give statistics with distinct ids |
| QualityStatistics.GetStatisticsIds | backend/dreams/models.py:79-107 | every statistic is about one of the graph's nodes |
| QualityStatistics.GetQualityStatistics | backend/dreams/models.py:249-256 | the statistics of the user's graph come sorted by frequency, descending |
| QualityStatistics.GetQualityStatisticsRows | backend/dreams/models.py:249-256 | one statistic per quality row, none twice, each about a row of the user |
| QualityStatistics.GetConnections | backend/dreams/models.py:154-184 | the connections come sorted by strength, descending, each with strength equal to its number of shared dreams and the name the lookup gives |
| QualityStatistics.CollectedNeighbours | backend/dreams/models.py:164-166 | the neighbours accumulated for `x` are exactly the co-occurring qualities, one edge entry each |
| QualityStatistics.CollectedConnections | backend/dreams/models.py:169-182 | before sorting there is one connection per co-occurring named quality, never `x` itself, carrying the dreams both share, with positive strength |
| QualityStatistics.GetConnectionsSpec | backend/dreams/models.py:159-184 | `get_connections` leaves the quality itself out and yields one connection per co-occurring quality that has a row, carrying the shared dreams |
| QualityStatistics.BuiltGraphNames | backend/dreams/models.py:232-234 | looking a quality up among the built graph's nodes gives the row's name |
| QualityStatistics.BuiltGraphIds | backend/dreams/models.py:232-234 | the built graph's keys are the rows' keys in row order |
| QualityStatistics.StatisticMatchesConnections | backend/dreams/models.py:79-105 | a node's statistic has the row's stored frequency, counts the co-occurring qualities, and its top connections are the first 5 of the ranked `get_connections` list |
| QualityStatistics.UniformStatistics | backend/dreams/models.py:97-107 | when every row has the same frequency and co-occurrence count, so does every statistic |
| QualityStatistics.TriangleWellFormed | backend/dreams/tests.py:132-145 | the test data has distinct quality keys and no dream carries a quality twice |
| QualityStatistics.TriangleCoOccurring | backend/dreams/tests.py:137-145 | each of flying, water and lucid co-occurs with exactly the two others |
| QualityStatistics.TriangleFlyingShared | backend/dreams/tests.py:137-145 | flying shares one dream with water, one with lucid and none with anything else |
| QualityStatistics.TriangleNode | backend/dreams/tests.py:175-188 | the built triangle graph has 3 nodes with the rows' names, and each node has 2 edge entries and frequency 2 |
| QualityStatistics.TriangleStatistics | backend/dreams/tests.py:190-207 | the triangle's statistics are 3, each with frequency 2 and 2 connections |
| QualityStatistics.FlyingGetConnections | backend/dreams/tests.py:161-173 | with water and lucid in the quality table, flying's connections are those two, each of strength 1 |
| QualityStatistics.TriangleConnections | backend/dreams/tests.py:161-173 | the same with the names taken from the built graph |
| Sorting.StableSortDesc | backend/dreams/models.py:107 | the result is sorted by key, descending, is a permutation of the input, and keeps elements of equal key in input order |
| Sorting.StableSortUnique | backend/dreams/models.py:95 | any sorted arrangement that keeps equal keys in input order is this sort's result, so the sort is the stable one |
| Sorting.TopK | backend/dreams/models.py:95-103 | the first `min(n, len)` of the stable sort: sorted, drawn from the input, no left-out element stronger than a kept one, ties kept in input order |
| QualityBookkeeping.Recompute | backend/dreams/models.py:148-152 | each recomputed quality's stored frequency becomes its number of carrier dreams; names, owners, other rows and the dreams are unchanged, and no row appears or disappears |
| QualityBookkeeping.DeleteQualities | backend/dreams/signals.py:35-36 | exactly the given rows disappear, the others are kept as they were, and the deleted ids leave every dream's quality set |
| QualityBookkeeping.DeleteUncarried | backend/dreams/signals.py:35-36 | deleting qualities no dream carries touches no dream and no other quality's carrier count |
| QualityBookkeeping.OnQualitiesChanged | backend/dreams/signals.py:8-36 | `pre_*` actions change nothing; `post_clear` recomputes the owner's qualities; `post_add`/`post_remove` recompute a non-empty `pk_set` and do nothing for an empty or missing one; `post_remove` then deletes those left at zero |
| QualityBookkeeping.PostAddEffect | backend/dreams/signals.py:27-31 | `post_add` deletes nothing, gives each `pk_set` quality its carrier count and leaves the other rows alone |
| QualityBookkeeping.PostRemoveEffect | backend/dreams/signals.py:27-36 | `post_remove` deletes exactly the `pk_set` qualities that no dream carries; the survivors among them get their positive carrier count; the other rows and all links are kept |
| QualityBookkeeping.PostClearEffect | backend/dreams/signals.py:22-26 | `post_clear` recomputes every quality of the owner, deletes nothing and leaves other users' rows alone |
| QualityBookkeeping.DreamDeletedEffect | backend/dreams/signals.py:49-55 | after a dream deletion the owner's carried qualities survive with their positive carrier count, the uncarried ones are gone, and other users' qualities are untouched |
| QualityBookkeeping.AttachKeepsConsistent | backend/dreams/signals.py:27-31 | an add followed by its `post_add` signal keeps a consistent store consistent |
| QualityBookkeeping.DetachKeepsConsistent | backend/dreams/signals.py:27-36 | a remove followed by its `post_remove` signal keeps the store consistent and leaves no removed quality at zero |
| QualityBookkeeping.ClearKeepsConsistent | backend/dreams/signals.py:22-26 | when the dream's links point at its owner's qualities, a clear and its `post_clear` signal keep the store consistent |
| QualityBookkeeping.DreamDeletionKeepsConsistent | backend/dreams/signals.py:39-55 | deleting a dream and running `post_delete` keeps the store consistent and leaves none of the owner's qualities at zero |
| DreamQualityViews.Lookup | backend/dreams/nested_views.py:56-65 | a missing dream id gives 400 before a missing quality id does; both ids present but a dream or quality the requester does not own gives 404; lookup succeeds exactly when both are owned |
| DreamQualityViews.RejectedRequestsChangeNothing | backend/dreams/nested_views.py:75-84 | every 400 or 404 from PUT or DELETE leaves the store as it was |
| DreamQualityViews.UpdateEffect | backend/dreams/nested_views.py:64-73 | a successful PUT leaves the quality on the dream, changes no other dream, deletes no quality, and a newly attached quality's stored frequency equals its carrier count |
| DreamQualityViews.UpdateIdempotent | backend/dreams/nested_views.py:67-70 | repeating a PUT changes nothing |
| DreamQualityViews.DestroyAbsent | backend/dreams/nested_views.py:86-98 | DELETE of a quality not on the dream changes nothing and answers 204 |
| DreamQualityViews.DestroyEffect | backend/dreams/nested_views.py:86-98 | a successful DELETE takes the quality off that dream only, deletes it exactly when no dream still carries it, otherwise stores the remaining count, and leaves every other quality alone |
| DreamQualityViews.EndpointsKeepConsistent | backend/dreams/nested_views.py:56-98 | both endpoints keep a consistent store consistent |
| Permissions.HasPermission | backend/dreams/permissions.py:24-26 | granted exactly to logged-in users |
| Permissions.OwnerObjectPermission | backend/dreams/permissions.py:28-32 | granted exactly to the object's owner |
| Permissions.PublicObjectPermission | backend/dreams/permissions.py:47-63 | the owner always; a non-owner with a safe method exactly when `is_public` is true (false when absent); a non-owner with any other method never |
| Permissions.OwnerGrantImpliesPublicGrant | backend/dreams/permissions.py:28-63 | whatever the owner-only class grants, the owner-or-public class grants for every method |
| Permissions.CombinedAccess | backend/dreams/permissions.py:43-63 | the anonymous user is refused by both classes; a non-owner is only ever granted a safe method on a public object |
| PromptService.QualitiesText | backend/dreams/services/prompt_service.py:23-28 | the fallback text exactly when the joined names are empty (no names or one empty name), else `Qualities: ` and the names joined with `, ` |
| PromptService.ImagePrompt | backend/dreams/services/prompt_service.py:11-32 | the prompt starts with the fixed header line and ends with `Description: ` and the description |
| PromptService.AlterationPrompt | backend/dreams/services/prompt_service.py:34-55 | the prompt starts with the fixed prefix and the user's text, and is exactly that unless the dream changed, in which case the update note follows |
| PromptService.Strip | backend/dreams/services/prompt_service.py:68 | `strip()` is empty exactly when every character is Python whitespace, and otherwise neither end is |
| PromptService.ValidatePrompt | backend/dreams/services/prompt_service.py:57-74 | accepted exactly when some character is not Python whitespace, the information separators U+001C–U+001F included |
| PromptService.SeparatorsRefused | backend/dreams/services/prompt_service.py:68-69 | a prompt made only of U+001C–U+001F is refused, although JavaScript's `trim` leaves it as it is |
| PromptService.BuiltPromptsValid | backend/dreams/services/prompt_service.py:11-74 | both builders only make prompts the validator accepts |
| Admin.GetTitle | backend/dreams/admin.py:18-26 | an empty description gives the placeholder, one of at most 50 characters is kept, a longer one is cut to 50 with `...`; never longer than 53 and starting with the description |
| Admin.TitleSeesFirstFifty | backend/dreams/admin.py:21-23 | long descriptions agreeing on their first 50 characters get the same title |
| Admin.ShortTitlesDistinct | backend/dreams/admin.py:21-25 | different descriptions of at most 50 characters get different titles |
| ErrorHandling.EntryMessages | frontend/src/utils/errorHandling.ts:114-118 | an array contributes its elements, a truthy scalar its string, a falsy one nothing |
| ErrorHandling.FieldMessages | frontend/src/utils/errorHandling.ts:112-119 | nothing is collected exactly when every entry contributes nothing |
| ErrorHandling.FieldMessagesAppend | frontend/src/utils/errorHandling.ts:113-119 | the entries' messages come out in entry order |
| ErrorHandling.DataMessage | frontend/src/utils/errorHandling.ts:104-122 | a truthy `detail` alone, else the field messages joined with `. `, else `Request failed` |
| ErrorHandling.FormatApiError | frontend/src/utils/errorHandling.ts:97-126 | 404, 500 and 503 give their fixed messages, any other response with a body the body's message, and no body the connection message |
| ErrorHandling.StatusBeforeData | frontend/src/utils/errorHandling.ts:98-103 | for 404, 500 and 503 the body is never looked at |
| ErrorHandling.DetailAlone | frontend/src/utils/errorHandling.ts:108-110 | with a truthy `detail` the other fields do not matter |
| ErrorHandling.FormatAuthError | frontend/src/utils/errorHandling.ts:30-95 | a truthy verification flag marks the result and only it does; it then carries `detail` when truthy and the fixed verification text otherwise, `can_resend` with undefined and null turned into false, and `email` exactly when the body's email is a string, as that string; otherwise 429 and 401 give their fixed messages, and a 400 without a body and statuses other than 400, 401 and 429 fall back to `formatApiError` |
| ErrorHandling.VerificationBeforeStatus | frontend/src/utils/errorHandling.ts:38-46 | a verification-required body wins over every status, a missing or null `can_resend` becomes false, and a string `email` is passed on |
| ErrorHandling.BadRequestMessages | frontend/src/utils/errorHandling.ts:56-84 | a 400 body yields its email, password, username, non-field and detail messages in that order, labelled, joined with `. `; with none it falls through to the general formatter |
| ErrorHandling.StringEmailIgnored | frontend/src/utils/errorHandling.ts:60-67 | an `email` that is a plain string adds no message |
| AuthStore.FormatApiError | frontend/src/stores/auth.ts:62-91 | 404 and 500 give their fixed messages |
| AuthStore.FormatApiErrorAgreement | frontend/src/stores/auth.ts:62-91 | the store's copy agrees with the shared helper except on 503, where it reads the body (or gives the connection message) |
| AuthStore.ClearAuth | frontend/src/stores/auth.ts:93-100 | user and both tokens are cleared, the other fields kept, so the user is no longer authenticated |
| AuthStore.ClearAuthIdempotent | frontend/src/stores/auth.ts:93-96 | clearing twice is clearing once |
| DreamForm.AddQuality | frontend/src/composables/useDreamForm.ts:12-21 | a non-empty normalised tag not yet listed is appended and the input cleared; otherwise nothing changes, not even the input |
| DreamForm.AddedTagNormalised | frontend/src/composables/useDreamForm.ts:13 | the stored tag has no surrounding whitespace and no capitals |
| DreamForm.AddQualityDistinct | frontend/src/composables/useDreamForm.ts:14-19 | a duplicate-free list stays duplicate-free |
| DreamForm.Splice | frontend/src/composables/useDreamForm.ts:25 | `splice(i, 1)`: an index in range removes that element, a negative one counts from the end, one below `-length` removes the first, one past the end removes nothing |
| DreamForm.RemoveQualityInRange | frontend/src/composables/useDreamForm.ts:23-27 | an index in range removes exactly that tag and keeps the others in order |
| DreamForm.AddThenRemoveLast | frontend/src/composables/useDreamForm.ts:12-27 | adding a tag and removing the last one gives the list back |
| DreamForm.ResetForm | frontend/src/composables/useDreamForm.ts:29-33 | description, list and input are all empty |
| DreamForm.PopulateForm | frontend/src/composables/useDreamForm.ts:35-38 | the description is copied, an absent list becomes empty, the input is kept |
| DreamForm.PopulateAfterReset | frontend/src/composables/useDreamForm.ts:29-38 | populating a reset form restores the data it was given |
| DreamImages.FindIndex | frontend/src/composables/useDreamImages.ts:32 | the first index with that id, or none when no image has it |
| DreamImages.UpdateImage | frontend/src/composables/useDreamImages.ts:31-38 | an existing id is replaced in place, length and the other images unchanged; a new id is appended |
| DreamImages.UpdateImageFindable | frontend/src/composables/useDreamImages.ts:31-38 | afterwards the image is found under its id, and the list grew only for a new id |
| DreamImages.CompletedImages | frontend/src/composables/useDreamImages.ts:12-13 | exactly the completed images are kept |
| DreamImages.CompletedImagesSingle | frontend/src/composables/useDreamImages.ts:13 | one image is kept exactly when it is completed |
| DreamImages.CompletedImagesAppend | frontend/src/composables/useDreamImages.ts:12-13 | the filter of a concatenation is the concatenation of the filters, so the kept images come in input order, each once |
| DreamImages.LatestCompleted | frontend/src/composables/useDreamImages.ts:11-16 | none exactly when no image is completed; otherwise a completed image at least as new as every completed image |
| DreamImages.LatestIsFirstNewest | frontend/src/composables/useDreamImages.ts:11-16 | among equally new completed images the one listed first is chosen |
| Paths.BuildersInjective | frontend/src/router/paths.ts:11-22 | different arguments give different paths, provided a password-reset uid holds no `/` |
| Paths.WithQuery | frontend/src/router/paths.ts:27-38 | the path is unchanged and exactly the keys whose value is `undefined` are dropped, the others keeping their values |
| Paths.WithQueryIdempotent | frontend/src/router/paths.ts:31-37 | filtering an already filtered query changes nothing |
| RouteGuard.PublicIsAuth | frontend/src/router/index.ts:46-51 | each public auth prefix lies under `/auth` |
| RouteGuard.Guard | frontend/src/router/index.ts:46-61 | logged out: non-auth paths go to the login page, auth paths pass; logged in: public auth pages go home, everything else passes |
| RouteGuard.NoRedirectLoop | frontend/src/router/index.ts:54-59 | a redirect target is let through in the same state |
| RouteGuard.ConfirmationLinks | frontend/src/router/index.ts:46-59 | the mailed confirmation links are open when logged out and send a logged-in user home |
| Csrf.FirstMatch | frontend/src/stores/csrf.ts:21-26 | the first piece that, trimmed, starts with `csrftoken=`, or none when no piece does |
| Csrf.CsrfToken | frontend/src/stores/csrf.ts:16-28 | an empty cookie or no matching piece gives null; otherwise the decoded rest of the first matching trimmed piece |
| Csrf.PrefixExact | frontend/src/stores/csrf.ts:22-23 | a piece with a longer name ending in `csrftoken=` does not match |
| Csrf.TokenOfJoinedCookie | frontend/src/stores/csrf.ts:16-28 | a cookie string assembled from `;`-free pieces gives the decoded value of the first piece carrying the token |
| Text.Trim | frontend/src/stores/csrf.ts:22 | empty exactly for an all-whitespace string; otherwise neither end is whitespace |
| Text.TrimSlice | frontend/src/stores/csrf.ts:22 | what is left is a slice of the input with only whitespace cut off either side |
| Text.TrimIdempotent | frontend/src/composables/useDreamForm.ts:13 | trimming twice is trimming once |
| Text.Lower | frontend/src/composables/useDreamForm.ts:13 | same length, every character lower-cased, no upper-case letter left |
| Text.Split | frontend/src/stores/csrf.ts:20 | at least one piece, none holding the separator, joining back to the input |
| Text.SplitJoin | frontend/src/stores/csrf.ts:20 | splitting a join of separator-free pieces gives the pieces back |
| Text.JoinEmpty | backend/dreams/services/prompt_service.py:23 | a join with a non-empty separator is empty exactly for no parts or one empty part |

## Left out

- Persistence: the ORM, queries, transactions and `Quality.save`'s lower-casing are not modelled. The database is two maps. A frequency is the number of carrier dreams.
- Serializers and the serialized response bodies: `Ok` carries the quality row itself.
- Concurrency between requests and signal handlers: every operation runs alone.
- `get_dream`/`get_quality` raising `PermissionError` for a non-`User` requester is not modelled. The permission class already refuses anonymous users (`Permissions.HasPermission`).
- Authentication flows, Celery tasks, image generation, storage, pagination, URL and settings configuration: I/O and framework plumbing outside the core.
- Frontend network actions (login, register, refresh, fetching images, the CSRF fetch and interceptors), `localStorage` and request headers: asynchronous I/O. Only the state fields of `clearAuth` are modelled.
- `decodeURIComponent` is a function parameter of `Csrf.CsrfToken`.
- `new Date(created).getTime()` is modelled as an integer `created` field.
- Whitespace and lower-casing cover characters below U+0080 only. JavaScript's `trim` uses the six ASCII whitespace characters. Python's `strip` also removes the separators U+001C–U+001F (`PromptService.PyIsSpace`). `toLowerCase`/`lower` map `A`–`Z` only. Whitespace and case mapping above U+007F are left out.
- JSON values in error bodies are limited to undefined, null, booleans, strings and string arrays. Numbers and nested objects are left out.
- `APP_ROUTES.DREAMS_EDIT` with a numeric id: the id is taken in its text form.
- `withQuery`'s key order: the query is a map, so the insertion order of the returned object is not modelled.
- The real timestamps and primary keys of the test data: the triangle uses small literal ids (flying 1, water 2, lucid 3; dreams 10–12). Dreams are listed newest first and each dream's qualities in name order.
- QualityGraph.AddEdge: its node-wise equation is stated for two different endpoints only. `QualityGraph.AddEdgeToward` covers every case, including a quality paired with itself.
- QualityStatistics.GetQualityStatistics: states only the ordering. The row-by-row content is in `QualityStatistics.GetQualityStatisticsRows` and `QualityStatistics.StatisticMatchesConnections`.
- AuthStore.FormatApiError: states only the 404 and 500 cases. The rest is stated by `AuthStore.FormatApiErrorAgreement` against the shared helper.
- A double deletion in DELETE: the `post_remove` signal may already have deleted the quality before the view's own `quality.delete()`. The model deletes the already deleted row again, which changes nothing.
- `split` with a longer separator: only one-character separators are modelled, because that is the only use.
