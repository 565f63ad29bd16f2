# Hacker News search client: a Dafny model of its controller

The application is a single React component, `App`, over the Hacker News
search API of Algolia. Its state holds:

- a cache of results keyed by search term;
- the term being typed and the term whose results are shown (the "search key");
- an error;
- a loading flag;
- the chosen sort column and the direction flag.

Handlers change that state. They sort, type, submit, dismiss a hit, mount,
receive a response or a failure, and ask for the next page. The results
table displays the cached hits of the active term in an order chosen
through a registry of sort functions, `SORTS`.

The model has six modules:

- `Wrappers` (`wrappers.dfy`): the `Option` type, standing for JavaScript's
  `null` (the cache before the first response, no error, no request sent).

- `Sorts` (`sorts.dfy`): the `SORTS` registry and the `Table` display order.
  lodash's `sortBy` is modelled as a stable insertion sort. Three lemmas state
  what it means: the output is ordered by the field, it is a permutation of
  the input, and it is stable.
- `Cache` (`cache.dfy`): the results cache and its operations. These are the
  merge of a response, the filter of a dismissal and the "needs to search"
  test. The cache is `null` (`None`) until the first response arrives.
- `SearchApi` (`search_api.dfy`): the request a fetch sends and the URL it
  builds, together with its read-back parser.
- `QueryString` (`query_string.dfy`): how a server splits and decodes the
  query of that URL. It also holds an escaped variant of the URL (see
  "## Findings").
- `SearchController` (`controller.dfy`): two views of the component.
  - `AppState` with one pure transition per handler. `Run` and `Requests`
    take a session (a sequence of `Event`s) through these transitions and
    are the basis of the session lemmas.
  - The class `App`, whose fields are the state's fields. Each method's
    contract states its new fields and ties `State()` to the transition.

A network response is not asynchronous in the model. It is an explicit
event (`Resolved(hits, page)` or `Rejected(error)`) that is applied
whenever it arrives, so a session can interleave it with user actions.

Where the documented behaviour of the application and `src/App.js` differ, the
model follows the code:

- A successful response does not clear a recorded error (`ErrorIsSticky`).
- A response is merged under the search key that is active when it
  arrives, not under the term it was requested for
  (`ResponseLandsUnderActiveKey`).
- Dismissing when the active key has no cache entry throws a TypeError.
  Nothing changes (`DismissStep` is `None`, `App.OnDismiss` returns `threw`).
- A failed request records the error but leaves `isLoading` as it was
  (`RejectKeepsLoading`).
- The page stored for a term does not only increase. A response merged under
  a term that became active again can replace that term's page with 0
  (`ResponseResetsCachedPage`).
- While the cache is still `null` (before the first response), submitting an
  unseen term sends no request and only activates it (src/App.js:101,
  `SubmitFetchesOnlyUnseenTerms`, `ResponseLandsUnderActiveKey`).

## Model

| member | source | states |
|---|---|---|
| Sorts.StrLeTotal | src/App.js:18-19 | Any two strings are ordered one way or the other by the string comparison `sortBy` uses. |
| Sorts.StrLeTransitive | src/App.js:18-19 | The string comparison is transitive. |
| Sorts.StrLeAntisymmetric | src/App.js:18-19 | Two strings each at most the other are equal. |
| Sorts.FieldLeTotal | src/App.js:18-21 | The order on any sorted field (title, author, num_comments, points) is total. |
| Sorts.FieldLeTransitive | src/App.js:18-21 | The order on any sorted field is transitive. |
| Sorts.FieldLeTie | src/App.js:18-21 | Two hits are each at most the other exactly when their field values are equal. |
| Sorts.Insert | src/App.js:18-21 | One insertion step of `sortBy` adds exactly the one hit: the length grows by one and the multiset gains that hit. |
| Sorts.SortBy | src/App.js:18-21 | `sortBy(list, field)` returns a permutation of the list: same length, same multiset. |
| Sorts.InsertSorted | src/App.js:18-21 | Inserting into a list sorted by the field keeps it sorted. |
| Sorts.SortBySorted | src/App.js:18-21 | The result of `sortBy` is ordered ascending by the field: every earlier hit is at most every later one. |
| Sorts.SortByStable | src/App.js:18-21 | `sortBy` is stable: the hits whose field equals a given hit's field appear in the same relative order as in the input. |
| Sorts.Reverse | src/App.js:20-21 | `.reverse()` keeps the length and the multiset. |
| Sorts.ReverseIndex | src/App.js:20-21 | `.reverse()` puts element `i` at position `n-1-i`. |
| Sorts.ReverseReverse | src/App.js:223-226 | Reversing twice restores the list. |
| Sorts.PeersReverse | src/App.js:20-21 | Ties in a reversed list are the reversed ties. |
| Sorts.ApplySort | src/App.js:16-22 | Defined as `SORTS[k](list)`. NONE gives the list itself; TITLE and AUTHOR give `SortBy` on title or author; COMMENTS and POINTS give `SortBy` on the count, reversed. Its properties are in the `ApplySort*` lemmas below. |
| Sorts.ApplySortPermutation | src/App.js:16-22 | Every `SORTS` entry returns a permutation of its input, and NONE returns the list itself. |
| Sorts.ApplySortAscending | src/App.js:18-19 | TITLE orders ascending by title and AUTHOR ascending by author, and both return a permutation of the list. |
| Sorts.ReverseDescending | src/App.js:20-21 | Reversing an ascending list gives a descending one. |
| Sorts.ApplySortDescending | src/App.js:20-21 | COMMENTS orders descending by num_comments and POINTS descending by points. |
| Sorts.ApplySortDescendingTies | src/App.js:20-21 | Under COMMENTS and POINTS, hits with equal counts appear in the REVERSE of their input order, because the reversal follows a stable sort. |
| Sorts.DisplayOrder | src/App.js:223-226 | Defined as the registry output when `isSortReverse` is true, and its reversal otherwise. `DisplayPermutation` and `DisplayDefaultOrder` state its properties. |
| Sorts.DisplayPermutation | src/App.js:223-226 | The table shows every cached hit exactly once, in any mode and direction. |
| Sorts.DisplayDefaultOrder | src/App.js:223-226 | With the reverse flag false, NONE shows the cached hits reversed, and COMMENTS and POINTS show them ASCENDING, because the two reversals cancel. |
| Cache.Entry | src/App.js:57 | `results && results[key]` yields an entry exactly when the cache exists and holds the key. |
| Cache.StoredHits | src/App.js:141 | Defined as the hits of the entry for the key, or `[]` when the cache is `null` or has no entry. |
| Cache.StoredPage | src/App.js:140 | Defined as the page of the entry for the key, or 0 when the cache is `null` or has no entry. |
| Cache.NeedsToSearch | src/App.js:109-111 | Defined as "the cache has no entry for the term". `SubmitFetchesOnlyUnseenTerms` states its effect on submission. |
| Cache.Merge | src/App.js:53-71 | The merged cache holds the old terms plus the key. The key's entry is the stored hits followed by the new hits, with the new page. Every other term keeps its entry. |
| Cache.WithoutId | src/App.js:87-88 | Every kept hit comes from the input and has a different identifier. |
| Cache.DismissIn | src/App.js:83-96 | Dismissal keeps the cached terms. It filters the key's hits, keeps its page and leaves every other term unchanged. |
| Cache.MergeAppends | src/App.js:57-62 | The hits stored before a response are a prefix of those stored after, and the rest is the response's hits. |
| Cache.WithoutIdAppend | src/App.js:88 | Filtering distributes over concatenation, so the kept hits keep their order. |
| Cache.WithoutIdCounts | src/App.js:88 | Filtering keeps every other hit with its multiplicity and shortens the list by the number of hits with that identifier. |
| Cache.WithoutIdAbsent | src/App.js:88 | Filtering by an identifier no hit has changes nothing. |
| Cache.WithoutIdUnique | src/App.js:88 | Dismissing an identifier that occurs once shortens the list by exactly one. |
| Cache.WithoutIdIdempotent | src/App.js:88 | Dismissing the same identifier twice is the same as dismissing it once. |
| Cache.DismissThenMerge | src/App.js:53-96 | Dismissing and then merging a response that does not carry the identifier gives the same cache as merging and then dismissing. |
| SearchApi.RequestUrl | src/App.js:117 | Defined as the URL template written out verbatim, with the term unencoded. `ParseRequestUrlRoundTrip` and `RequestUrlInjective` state its properties. |
| SearchApi.NatToString | src/App.js:117 | `${page}` writes a non-empty decimal numeral with no leading zero. |
| SearchApi.ParseNatToString | src/App.js:117 | Reading the page numeral back gives the page. |
| SearchApi.ParseRequestUrlRoundTrip | src/App.js:113-117 | The request URL determines the request: parsing it back gives the term and the page. |
| SearchApi.RequestUrlInjective | src/App.js:117 | Two requests with the same URL are the same request. |
| QueryString.Escape | src/App.js:117 | The escaped term holds no '&' and no '#'. |
| QueryString.DecodeEscape | src/App.js:117 | Decoding undoes escaping for every term. |
| QueryString.EscapePlain | src/App.js:117 | A term without '%', '&', '#' or '+' is its own escape. |
| QueryString.EscapedRequestUrlReadBack | src/App.js:117 | From the escaped URL the server reads back exactly the term as the query, the page numeral as the page and "5" as hitsPerPage. |
| QueryString.RequestUrlPlainTerm | src/App.js:117 | For a term without '%', '&', '#' or '+', the URL as written equals the escaped one and the server reads the term intact. |
| QueryString.RequestUrlHashTerm | src/App.js:117 | As written, for a term `a#b` where `a` holds none of '%', '&', '#' and '+' (any `b`), the server reads the query `a`, and reads neither the page nor hitsPerPage. |
| QueryString.RequestUrlAmpersandTerm | src/App.js:117 | As written, for a term `a&b` where `a` holds none of '%', '&', '#' and '+' and `b` holds no '#', the server reads the query `a`. |
| QueryString.RequestUrlExamples | src/App.js:117 | As written, "C#" searches "C" with no page, and "AT&T" searches "AT". |
| SearchController.Initial | src/App.js:28-36 | Defined as the state the constructor sets: `null` cache, empty key, "redux" typed, no error, not loading, NONE, flag false. |
| SearchController.SortStep | src/App.js:46-51 | Defined as selecting the column, with the flag set to "same column and flag was false". `SortClicks` states its properties. |
| SearchController.ResolveStep | src/App.js:53-71 | Defined as merging the response under the active key and ending loading. `ResolveAppends` states its properties. |
| SearchController.SetSearchKeyStep | src/App.js:73-77 | Defined as setting the search key only. |
| SearchController.SearchChangeStep | src/App.js:79-81 | Defined as setting the typed term only. |
| SearchController.DismissStep | src/App.js:83-96 | Defined as `None` (the handler throws) when the active key has no entry, and otherwise the cache with the key's hits filtered. `DismissRemoves` states its properties. |
| SearchController.SubmitStep | src/App.js:98-107 | Defined as fetching page 0 of the typed term when the cache exists and lacks it, then activating the term. `SubmitFetchesOnlyUnseenTerms` states its properties. |
| SearchController.FetchStep | src/App.js:113-117 | Defined as setting loading and sending the request. `FetchKeepsError` states its properties. |
| SearchController.RejectStep | src/App.js:120 | Defined as recording the error only. `RejectKeepsLoading` states its properties. |
| SearchController.MountStep | src/App.js:123-127 | Defined as activating the typed term and fetching its page 0. `MountRequestsFirstPage` states its properties. |
| SearchController.CurrentPage | src/App.js:140 | Defined as the stored page of the active key, or 0. |
| SearchController.CurrentList | src/App.js:141 | Defined as the stored hits of the active key, or `[]`. |
| SearchController.TableRows | src/App.js:153-166 | Defined as `None` while an error is recorded (the notice replaces the table), and otherwise the display order of the current list. |
| SearchController.MoreStep | src/App.js:176 | Defined as fetching the current page plus one for the active key. `MoreRequestsNextPage` states its properties. |
| SearchController.SortClicks | src/App.js:46-51 | Clicking a column selects it. A new column starts with the flag false and a second click sets it true. Two clicks on the active column restore the state. The cache and the key are untouched. |
| SearchController.ResolveAppends | src/App.js:53-71 | A response appends its hits to the active key's hits and stores its page. Loading ends, the error is kept, the terms grow by the key only and every other term keeps its entry. No other field changes. |
| SearchController.DismissRemoves | src/App.js:83-96 | Dismissal succeeds exactly when the active key is cached. Then the shown list is the filtered list and the page is kept. Only `results` changes. |
| SearchController.SubmitFetchesOnlyUnseenTerms | src/App.js:98-111 | Submitting activates the typed term. It requests page 0 exactly when the cache exists and lacks the term, and only then starts loading. |
| SearchController.SubmitTwiceSendsTwice | src/App.js:98-107 | Nothing guards an in-flight request: submitting an unseen term twice sends two identical requests. |
| SearchController.FetchKeepsError | src/App.js:113-117 | Starting a request sets loading, sends the requested term and page, and changes nothing else (the error is kept). |
| SearchController.RejectKeepsLoading | src/App.js:120 | A failure records the error, leaves loading as it was and hides the table. Nothing else changes. |
| SearchController.MoreRequestsNextPage | src/App.js:140-176 | "More" requests the page after the stored one for the active key. With nothing stored that is page 1. Only loading is set. |
| SearchController.MountRequestsFirstPage | src/App.js:123-127 | Mounting activates "redux" and requests its page 0. |
| SearchController.ErrorIsSticky | src/App.js:53-71 | Once an error is recorded, no sequence of events clears it, since the success path never writes `error` (and the `.catch` at line 120 only sets it). The table stays hidden (line 154). |
| SearchController.TermsOnlyGrow | src/App.js:53-96 | No event removes a cached term, and a non-null cache stays non-null. |
| SearchController.HitsOnlyAppended | src/App.js:53-71 | Without dismissals, the hits cached for any term only grow, by appending. |
| SearchController.ResponseResetsCachedPage | src/App.js:53-71 | With a cached term active, submit an unseen term, then resubmit the cached term before the response. Only the request for the unseen term is sent. Its response is appended to the cached term's hits and that term's page drops to 0, so any page above 0 goes down. The unseen term is never cached. |
| SearchController.FirstPageCached | src/App.js:28-71 | After mounting and a first response, the cache holds exactly that page under "redux". |
| SearchController.FirstPageShownReversed | src/App.js:223-226 | With no sort chosen, the first page's hits are shown in reverse. |
| SearchController.FirstPageDismiss | src/App.js:83-96 | Dismissing the first of two cached hits leaves the second. |
| SearchController.ResponseLandsUnderActiveKey | src/App.js:53-71 | If another term is submitted before the first response, only the "redux" request is sent and its hits are cached under the other term. |
| SearchController.SortTitleTwice | src/App.js:46-51 | A client of the class, with no contract. It mounts, receives the first page, clicks TITLE twice and clicks "More". Its assertions check the page-0 request, the flag going false then true, and the page-1 request. |
| SearchController.App.constructor | src/App.js:28-36 | The initial state: null cache, empty key, "redux" typed, no error, not loading, NONE, flag false. |
| SearchController.App.OnSort | src/App.js:46-51 | Selects the column and sets the flag to "same column and flag was false". |
| SearchController.App.SetSearchTopStories | src/App.js:53-71 | The cache becomes the merge under the old key. The active hits gain the response's hits and loading ends. |
| SearchController.App.SetSearchKey | src/App.js:73-77 | Sets the search key and nothing else. |
| SearchController.App.OnSearchChange | src/App.js:79-81 | Sets the typed term and nothing else. |
| SearchController.App.OnDismiss | src/App.js:83-96 | Throws exactly when the key is not cached, and then changes nothing. Otherwise the cache becomes the dismissal under the key. |
| SearchController.App.OnSearchSubmit | src/App.js:98-111 | Activates the typed term. It returns a page-0 request for it exactly when the cache exists and lacks it, and is loading then. |
| SearchController.App.FetchSearchTopStories | src/App.js:113-117 | Returns the request for the term and page, sets loading and keeps the error. |
| SearchController.App.OnFetchFailure | src/App.js:120 | Records the error and leaves loading as it was. |
| SearchController.App.ComponentDidMount | src/App.js:123-127 | Activates the typed term and returns its page-0 request with loading set. |
| SearchController.App.OnMore | src/App.js:174-176 | Returns the request for the active key and the stored page plus one. |

## Left out

- The JSX rendering (`Search`, `Table` markup, `Sort`, `Button`, `Loading`): only the order of the table's rows and whether the table is shown are modelled.
- The fetch, its promise chain and the JSON decoding are not modelled. A request is returned as a `Request` value, and its outcome is a later `Resolved` or `Rejected` event.
- React's `setState` batching and asynchrony are not modelled: every `setState` takes effect at once, in program order.
- Whether "More" is shown: the button appears only when not loading (src/App.js:174). `OnMore` and `MoreStep` do not check `isLoading`.
- Hiding the table on error (src/App.js:153-166) is modelled by `TableRows`. The sort and dismiss buttons live inside `Table` (src/App.js:231-284), so the program offers no `onSort` or `onDismiss` while an error is set. In the model, `ClickSort` and `ClickDismiss` events may still follow a `Rejected` event. This over-approximates the sessions the program allows, so the all-sessions lemmas (`ErrorIsSticky`, `TermsOnlyGrow`, `HitsOnlyAppended`) still hold for the real ones. Only the search form and the "More" button (src/App.js:144-152, 167-181) stay on screen.
- lodash `sortBy`'s handling of `null`, `undefined`, `NaN` and symbols: hits are modelled with string titles and authors and integer counts.
- String order is by character. JavaScript compares UTF-16 code units, which differs for characters outside the Basic Multilingual Plane.
- Sorts.ApplySort: with NONE and the flag false, `SORTS.NONE` returns the cached array itself, and `sortedList.reverse()` then reverses it in place (src/App.js:17, 226). So in the program every such render flips the order of the hits stored in `results`: after the first render of the first page, the cache holds `[HIT_2, HIT_1]`, and the next render flips it back. The model treats render as a pure function (`TableRows` returns a new reversed sequence) and has no render event. `FirstPageCached`, `HitsOnlyAppended`, `MergeAppends` and the order parts of `ResolveAppends` and `DismissRemoves` therefore describe the cache as if render never mutated it. In the program, their statements about order hold only up to that reversal, for the renders that happened with NONE and the flag false. The number of renders is up to React and is not modelled.
- Cache.Entry: object keys such as `constructor` or `__proto__`, which an object literal inherits, are not modelled. Every term starts without an entry.
- Pages returned by the server are non-negative (`nat`).
- QueryString.Escape: it escapes only '%', '&', '#' and '+'. It stands in for `encodeURIComponent`, and the decoder handles only these escapes and `%XX` below 0x80.
- src/AppTest.js and src/index.js are not part of this model.

## Findings

| source | as written | input that shows it | evidently intended | confidence | as-written member | corrected member |
|---|---|---|---|---|---|---|
| src/App.js:117 | the search term is put into the query string without encoding | the term "C#" (the server searches "C" and reads no page and no hitsPerPage); the term "AT&T" (the server searches "AT") | the server searches exactly the typed term, on the requested page, with 5 hits per page | not executed | QueryString.RequestUrlExamples | QueryString.EscapedRequestUrlReadBack |
