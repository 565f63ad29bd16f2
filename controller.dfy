/**
 * The search controller: the `App` component's state and the handlers that
 * change it. `AppState` is the value of `this.state`; each handler is a pure
 * transition on it (used by the lemmas) and a method of the class `App`, whose
 * fields are the state's fields and whose contracts tie the new state to the
 * transition. A network response is an explicit `Resolved(hits, page)` or
 * `Rejected(error)` event applied when it arrives.
 */
module SearchController {
  import opened Wrappers
  import opened Sorts
  import opened Cache
  import opened SearchApi

  datatype AppState = AppState(
    results: Results,
    searchKey: string,
    searchTerm: string,
    error: Option<string>,
    isLoading: bool,
    sortKey: SortKey,
    isSortReverse: bool)

  /** What a handler leaves behind: the new state and the request it sent, if any. */
  datatype Outcome = Outcome(state: AppState, request: Option<Request>)

  /** The state the constructor sets up. */
  function Initial(): AppState
  {
    AppState(None, "", DEFAULT_QUERY, None, false, NONE, false)
  }

  // ---------------------------------------------------------------------------
  // Transitions, one per handler

  /** `onSort(k)`: a click on the active column flips the direction, any other click resets it. */
  function SortStep(s: AppState, k: SortKey): AppState
  {
    s.(sortKey := k, isSortReverse := s.sortKey == k && !s.isSortReverse)
  }

  /** `setSearchKey(term)`. */
  function SetSearchKeyStep(s: AppState, term: string): AppState
  {
    s.(searchKey := term)
  }

  /** `onSearchChange`: the typed text only. */
  function SearchChangeStep(s: AppState, text: string): AppState
  {
    s.(searchTerm := text)
  }

  /** `fetchSearchTopStories(term, page)` up to the network call. */
  function FetchStep(s: AppState, term: string, page: nat): Outcome
  {
    Outcome(s.(isLoading := true), Some(Request(term, page)))
  }

  /** `setSearchTopStories(result)`: merged under the search key active when the response lands. */
  function ResolveStep(s: AppState, hits: seq<Hit>, page: nat): AppState
  {
    s.(isLoading := false, results := Some(Merge(s.results, s.searchKey, hits, page)))
  }

  /** The `.catch` of the fetch: the error is recorded, nothing else changes. */
  function RejectStep(s: AppState, error: string): AppState
  {
    s.(error := Some(error))
  }

  /**
   * `onDismiss(id)`. Reading the entry of the search key throws a TypeError when the
   * cache is `null` or holds no entry for the key; the handler then stops before
   * `setState`, which is `None` here.
   */
  function DismissStep(s: AppState, id: string): Option<AppState>
  {
    if s.searchKey in Terms(s.results) then
      Some(s.(results := Some(DismissIn(s.results.value, s.searchKey, id))))
    else None
  }

  /** `onSearchSubmit`: a request only when the cache exists and lacks the typed term. */
  function SubmitStep(s: AppState): Outcome
  {
    var fetched :=
      if s.results.Some? && NeedsToSearch(s.results.value, s.searchTerm)
      then FetchStep(s, s.searchTerm, 0)
      else Outcome(s, None);
    fetched.(state := SetSearchKeyStep(fetched.state, s.searchTerm))
  }

  /** `componentDidMount`: activate the typed term and request its first page. */
  function MountStep(s: AppState): Outcome
  {
    FetchStep(SetSearchKeyStep(s, s.searchTerm), s.searchTerm, 0)
  }

  /** The page shown for the active term (`render`, first derivation). */
  function CurrentPage(s: AppState): nat
  {
    StoredPage(s.results, s.searchKey)
  }

  /** The hits shown for the active term (`render`, second derivation). */
  function CurrentList(s: AppState): seq<Hit>
  {
    StoredHits(s.results, s.searchKey)
  }

  /** The "More" button: the page after the stored one, for the active term. */
  function MoreStep(s: AppState): Outcome
  {
    FetchStep(s, s.searchKey, CurrentPage(s) + 1)
  }

  /** The rows of the table, or `None` while the error notice replaces it. */
  function TableRows(s: AppState): Option<seq<Hit>>
  {
    if s.error.Some? then None
    else Some(DisplayOrder(s.sortKey, s.isSortReverse, CurrentList(s)))
  }

  // ---------------------------------------------------------------------------
  // Sessions: sequences of user actions and network resolutions

  datatype Event =
    | ClickSort(key: SortKey)
    | TypeText(text: string)
    | SubmitForm
    | ClickDismiss(id: string)
    | Mounted
    | ClickMore
    | Resolved(hits: seq<Hit>, page: nat)
    | Rejected(error: string)

  function Step(s: AppState, e: Event): Outcome
  {
    match e
    case ClickSort(k) => Outcome(SortStep(s, k), None)
    case TypeText(text) => Outcome(SearchChangeStep(s, text), None)
    case SubmitForm => SubmitStep(s)
    case ClickDismiss(id) =>
      (match DismissStep(s, id)
       case Some(t) => Outcome(t, None)
       case None => Outcome(s, None))
    case Mounted => MountStep(s)
    case ClickMore => MoreStep(s)
    case Resolved(hits, page) => Outcome(ResolveStep(s, hits, page), None)
    case Rejected(error) => Outcome(RejectStep(s, error), None)
  }

  /** The state after the events, in order. */
  function Run(s: AppState, events: seq<Event>): AppState
    decreases |events|
  {
    if events == [] then s else Run(Step(s, events[0]).state, events[1..])
  }

  /** The requests the events send, in order. */
  function Requests(s: AppState, events: seq<Event>): seq<Request>
    decreases |events|
  {
    if events == [] then []
    else
      var o := Step(s, events[0]);
      (if o.request.Some? then [o.request.value] else []) + Requests(o.state, events[1..])
  }

  // ---------------------------------------------------------------------------
  // Lemmas about single handlers

  /**
   * A first click on a column sorts it with the flag `false`; a second click on the
   * same column sets the flag `true`; two clicks on the active column restore the state.
   */
  lemma SortClicks(s: AppState, k: SortKey)
    ensures SortStep(s, k).sortKey == k
    ensures s.sortKey != k ==> !SortStep(s, k).isSortReverse && SortStep(SortStep(s, k), k).isSortReverse
    ensures s.sortKey == k ==> SortStep(SortStep(s, k), k) == s
    ensures SortStep(s, k).results == s.results && SortStep(s, k).searchKey == s.searchKey
  {
  }

  /**
   * A response appends its hits to those stored for the active key and stores its page;
   * loading ends, the error is left as it was and every other term keeps its entry.
   */
  lemma ResolveAppends(s: AppState, hits: seq<Hit>, page: nat)
    ensures var t := ResolveStep(s, hits, page);
      && StoredHits(t.results, s.searchKey) == StoredHits(s.results, s.searchKey) + hits
      && StoredPage(t.results, s.searchKey) == page
      && Terms(t.results) == Terms(s.results) + {s.searchKey}
      && (forall k :: k != s.searchKey ==> Entry(t.results, k) == Entry(s.results, k))
      && !t.isLoading && t.error == s.error
      && CurrentList(t) == CurrentList(s) + hits
      && t == s.(isLoading := false, results := t.results)
  {
    var t := ResolveStep(s, hits, page);
    forall k | k != s.searchKey ensures Entry(t.results, k) == Entry(s.results, k) {
    }
  }

  /**
   * Dismissing succeeds exactly when the active key has an entry; then the entry keeps
   * the hits with other identifiers in their order and its page, and other terms are
   * untouched. Otherwise the handler throws and nothing changes.
   */
  lemma DismissRemoves(s: AppState, id: string)
    ensures DismissStep(s, id).Some? <==> s.searchKey in Terms(s.results)
    ensures DismissStep(s, id).Some? ==> var t := DismissStep(s, id).value;
      && CurrentList(t) == WithoutId(CurrentList(s), id)
      && CurrentPage(t) == CurrentPage(s)
      && Terms(t.results) == Terms(s.results)
      && (forall k :: k != s.searchKey ==> Entry(t.results, k) == Entry(s.results, k))
      && t == s.(results := t.results)
  {
  }

  /**
   * Submitting always activates the typed term. It sends a request for page 0 of the
   * term exactly when the cache exists and has no entry for the term, and only then
   * starts loading; a `null` cache sends nothing.
   */
  lemma SubmitFetchesOnlyUnseenTerms(s: AppState)
    ensures SubmitStep(s).state.searchKey == s.searchTerm
    ensures SubmitStep(s).request.Some? <==> s.results.Some? && s.searchTerm !in Terms(s.results)
    ensures SubmitStep(s).request.Some? ==> SubmitStep(s).request.value == Request(s.searchTerm, 0)
    ensures SubmitStep(s).state.isLoading == (SubmitStep(s).request.Some? || s.isLoading)
    ensures SubmitStep(s).state == s.(searchKey := s.searchTerm, isLoading := SubmitStep(s).state.isLoading)
  {
  }

  /**
   * Nothing guards against a second request while one is in flight: submitting an
   * unseen term twice before its response arrives sends two requests for page 0.
   */
  lemma SubmitTwiceSendsTwice(s: AppState)
    requires s.results.Some? && s.searchTerm !in Terms(s.results)
    ensures Requests(s, [SubmitForm, SubmitForm]) == [Request(s.searchTerm, 0), Request(s.searchTerm, 0)]
  {
    var t := SubmitStep(s).state;
    assert [SubmitForm, SubmitForm][1..] == [SubmitForm];
    assert Requests(t, [SubmitForm]) == [Request(s.searchTerm, 0)];
  }

  /** Starting a request turns loading on and leaves a recorded error in place. */
  lemma FetchKeepsError(s: AppState, term: string, page: nat)
    ensures FetchStep(s, term, page).state.isLoading
    ensures FetchStep(s, term, page).state.error == s.error
    ensures FetchStep(s, term, page).request == Some(Request(term, page))
    ensures FetchStep(s, term, page).state == s.(isLoading := true)
  {
  }

  /** A failed request records its error and leaves loading as it was. */
  lemma RejectKeepsLoading(s: AppState, error: string)
    ensures RejectStep(s, error).error == Some(error)
    ensures RejectStep(s, error).isLoading == s.isLoading
    ensures TableRows(RejectStep(s, error)) == None
    ensures RejectStep(s, error) == s.(error := Some(error))
  {
  }

  /** "More" asks for the page after the stored one (after 0 when nothing is stored) for the active key. */
  lemma MoreRequestsNextPage(s: AppState)
    ensures MoreStep(s).request == Some(Request(s.searchKey, StoredPage(s.results, s.searchKey) + 1))
    ensures s.searchKey !in Terms(s.results) ==> MoreStep(s).request == Some(Request(s.searchKey, 1))
    ensures MoreStep(s).state.isLoading
    ensures MoreStep(s).state == s.(isLoading := true)
  {
  }

  /** Mounting activates the initial term and requests its first page. */
  lemma MountRequestsFirstPage()
    ensures MountStep(Initial()).state.searchKey == DEFAULT_QUERY
    ensures MountStep(Initial()).request == Some(Request(DEFAULT_QUERY, 0))
    ensures MountStep(Initial()).state.isLoading
  {
  }

  // ---------------------------------------------------------------------------
  // Lemmas about sessions

  /**
   * Nothing clears the error: once a request has failed, the table stays replaced by
   * the error notice for the rest of the session, whatever responses arrive later.
   */
  lemma {:induction false} ErrorIsSticky(s: AppState, events: seq<Event>)
    requires s.error.Some?
    ensures Run(s, events).error.Some?
    ensures TableRows(Run(s, events)) == None
    decreases |events|
  {
    if events != [] {
      ErrorIsSticky(Step(s, events[0]).state, events[1..]);
    }
  }

  /** Entries are never removed: once a term is cached it stays cached. */
  lemma {:induction false} TermsOnlyGrow(s: AppState, events: seq<Event>)
    ensures Terms(s.results) <= Terms(Run(s, events).results)
    ensures s.results.Some? ==> Run(s, events).results.Some?
    decreases |events|
  {
    if events != [] {
      var t := Step(s, events[0]).state;
      assert Terms(s.results) <= Terms(t.results);
      TermsOnlyGrow(t, events[1..]);
    }
  }

  predicate NoDismiss(events: seq<Event>)
  {
    forall i :: 0 <= i < |events| ==> !events[i].ClickDismiss?
  }

  /** Without dismissals the hits cached for any term only grow, by appending. */
  lemma {:induction false} HitsOnlyAppended(s: AppState, events: seq<Event>, term: string)
    requires NoDismiss(events)
    ensures StoredHits(s.results, term) <= StoredHits(Run(s, events).results, term)
    decreases |events|
  {
    if events != [] {
      var t := Step(s, events[0]).state;
      assert StoredHits(s.results, term) <= StoredHits(t.results, term) by {
        if events[0].Resolved? {
          ResolveAppends(s, events[0].hits, events[0].page);
          if term != s.searchKey {
            assert Entry(t.results, term) == Entry(s.results, term);
          }
        }
      }
      assert NoDismiss(events[1..]) by {
        forall i | 0 <= i < |events[1..]| ensures !events[1..][i].ClickDismiss? {
          assert events[1..][i] == events[i + 1];
        }
      }
      HitsOnlyAppended(t, events[1..], term);
    }
  }

  // ---------------------------------------------------------------------------
  // Sessions that show the behaviour end to end

  lemma RunCons(s: AppState, e: Event, rest: seq<Event>)
    ensures Run(s, [e] + rest) == Run(Step(s, e).state, rest)
    ensures Requests(s, [e] + rest) ==
      (if Step(s, e).request.Some? then [Step(s, e).request.value] else []) + Requests(Step(s, e).state, rest)
  {
    assert ([e] + rest)[1..] == rest;
  }

  lemma {:induction false} RunAppend(s: AppState, a: seq<Event>, b: seq<Event>)
    ensures Run(s, a + b) == Run(Run(s, a), b)
    decreases |a|
  {
    if a != [] {
      assert (a + b)[1..] == a[1..] + b;
      RunAppend(Step(s, a[0]).state, a[1..], b);
    } else {
      assert a + b == b;
    }
  }

  const HIT_1: Hit := Hit("1", "A", "", "", 0, 0)
  const HIT_2: Hit := Hit("2", "B", "", "", 0, 0)

  /** The state after mounting and receiving page 0 with `HIT_1` then `HIT_2`. */
  lemma FirstPageCached()
    ensures var s := Run(Initial(), [Mounted, Resolved([HIT_1, HIT_2], 0)]);
      s.results == Some(map[DEFAULT_QUERY := PageResult([HIT_1, HIT_2], 0)]) &&
      s.searchKey == DEFAULT_QUERY && s.error == None && s.sortKey == NONE && !s.isSortReverse
  {
    var page := Resolved([HIT_1, HIT_2], 0);
    var s1 := MountStep(Initial()).state;
    assert s1.results == None && s1.searchKey == DEFAULT_QUERY;
    RunCons(Initial(), Mounted, [page]);
    RunCons(s1, page, []);
    assert [Mounted] + [page] == [Mounted, page];
    assert [page] + [] == [page];
    assert StoredHits(None, DEFAULT_QUERY) + [HIT_1, HIT_2] == [HIT_1, HIT_2];
  }

  /** With no sort chosen, the first page's two hits are shown in reverse. */
  lemma FirstPageShownReversed()
    ensures TableRows(Run(Initial(), [Mounted, Resolved([HIT_1, HIT_2], 0)])) == Some([HIT_2, HIT_1])
  {
    FirstPageCached();
    var s := Run(Initial(), [Mounted, Resolved([HIT_1, HIT_2], 0)]);
    assert CurrentList(s) == [HIT_1, HIT_2];
    DisplayDefaultOrder(NONE, [HIT_1, HIT_2]);
    assert Reverse([HIT_1, HIT_2]) == [HIT_2, HIT_1] by {
      assert [HIT_1, HIT_2][1..] == [HIT_2];
    }
  }

  /** Dismissing the first of the two hits leaves only the second cached. */
  lemma FirstPageDismiss()
    ensures var s := Run(Initial(), [Mounted, Resolved([HIT_1, HIT_2], 0), ClickDismiss("1")]);
      StoredHits(s.results, DEFAULT_QUERY) == [HIT_2]
  {
    var page := Resolved([HIT_1, HIT_2], 0);
    var es := [Mounted, page];
    FirstPageCached();
    var s2 := Run(Initial(), es);
    RunAppend(Initial(), es, [ClickDismiss("1")]);
    assert es + [ClickDismiss("1")] == [Mounted, page, ClickDismiss("1")];
    RunCons(s2, ClickDismiss("1"), []);
    assert [ClickDismiss("1")] + [] == [ClickDismiss("1")];
    assert WithoutId([HIT_2], "1") == [HIT_2] by {
      assert HIT_2.objectID != "1";
      assert [HIT_2][1..] == [];
    }
    assert WithoutId([HIT_1, HIT_2], "1") == [HIT_2] by {
      assert [HIT_1, HIT_2][1..] == [HIT_2];
    }
  }

  /**
   * A response lands under the key active when it arrives, not under the term it was
   * requested for: mount (requesting "redux"), type and submit another term before the
   * response arrives (no request, the cache is still `null`), and the "redux" hits are
   * cached under the new term.
   */
  lemma ResponseLandsUnderActiveKey(other: string, hits: seq<Hit>)
    ensures var s := Run(Initial(), [Mounted, TypeText(other), SubmitForm, Resolved(hits, 0)]);
      && Requests(Initial(), [Mounted, TypeText(other), SubmitForm, Resolved(hits, 0)]) == [Request(DEFAULT_QUERY, 0)]
      && Terms(s.results) == {other}
      && StoredHits(s.results, other) == hits
  {
    var page := Resolved(hits, 0);
    var s1 := MountStep(Initial()).state;
    var s2 := SearchChangeStep(s1, other);
    var s3 := SubmitStep(s2).state;
    assert SubmitStep(s2).request == None;
    var s4 := ResolveStep(s3, hits, 0);
    RunCons(Initial(), Mounted, [TypeText(other), SubmitForm, page]);
    RunCons(s1, TypeText(other), [SubmitForm, page]);
    RunCons(s2, SubmitForm, [page]);
    RunCons(s3, page, []);
    assert [Mounted] + [TypeText(other), SubmitForm, page] == [Mounted, TypeText(other), SubmitForm, page];
    assert [TypeText(other)] + [SubmitForm, page] == [TypeText(other), SubmitForm, page];
    assert [SubmitForm] + [page] == [SubmitForm, page];
    assert [page] + [] == [page];
    assert s3.results == None && s3.searchKey == other;
    assert StoredHits(None, other) + hits == hits;
    assert s4.results == Some(map[other := PageResult(hits, 0)]);
  }

  /**
   * The events of `ResponseResetsCachedPage`: with `key` cached and active, type and
   * submit an unseen term, then type and submit `key` again before the response
   * for the unseen term arrives.
   */
  function SwitchBackSession(key: string, other: string, x: seq<Hit>): seq<Event>
  {
    [TypeText(other), SubmitForm, TypeText(key), SubmitForm, Resolved(x, 0)]
  }

  /** The state after the two submissions of that session, before the response. */
  function SwitchedBack(s: AppState): AppState
  {
    s.(searchTerm := s.searchKey, isLoading := true)
  }

  /** The two submissions: the first sends a request for the unseen term, the second none. */
  lemma SwitchBackSubmits(s: AppState, other: string)
    requires s.results.Some? && s.searchKey in s.results.value && other !in s.results.value
    ensures var s1 := SearchChangeStep(s, other);
      var s3 := SearchChangeStep(SubmitStep(s1).state, s.searchKey);
      && SubmitStep(s1).request == Some(Request(other, 0))
      && SubmitStep(s3).request == None
      && SubmitStep(s3).state == SwitchedBack(s)
  {
  }

  lemma {:induction false} RequestsAppend(s: AppState, a: seq<Event>, b: seq<Event>)
    ensures Requests(s, a + b) == Requests(s, a) + Requests(Run(s, a), b)
    decreases |a|
  {
    if a != [] {
      assert (a + b)[1..] == a[1..] + b;
      RequestsAppend(Step(s, a[0]).state, a[1..], b);
    } else {
      assert a + b == b;
    }
  }

  /** Typing a term and submitting it. */
  lemma TypeThenSubmit(s: AppState, text: string)
    ensures var o := SubmitStep(SearchChangeStep(s, text));
      && Run(s, [TypeText(text), SubmitForm]) == o.state
      && Requests(s, [TypeText(text), SubmitForm]) == (if o.request.Some? then [o.request.value] else [])
  {
    var s1 := SearchChangeStep(s, text);
    RunCons(s, TypeText(text), [SubmitForm]);
    RunCons(s1, SubmitForm, []);
    assert [TypeText(text), SubmitForm] == [TypeText(text)] + [SubmitForm];
    assert [SubmitForm] == [SubmitForm] + [];
  }

  /** A response arriving on its own. */
  lemma ResponseAlone(s: AppState, x: seq<Hit>)
    ensures Run(s, [Resolved(x, 0)]) == ResolveStep(s, x, 0)
    ensures Requests(s, [Resolved(x, 0)]) == []
  {
    RunCons(s, Resolved(x, 0), []);
    assert [Resolved(x, 0)] == [Resolved(x, 0)] + [];
  }

  /** The session in its three parts: the detour, the return, the response. */
  lemma SwitchBackParts(s: AppState, other: string, x: seq<Hit>)
    requires s.results.Some? && s.searchKey in s.results.value && other !in s.results.value
    ensures var a, b, c := [TypeText(other), SubmitForm], [TypeText(s.searchKey), SubmitForm], [Resolved(x, 0)];
      var t := Run(Run(s, a), b);
      && Run(s, SwitchBackSession(s.searchKey, other, x)) == Run(t, c)
      && Requests(s, SwitchBackSession(s.searchKey, other, x)) == Requests(s, a) + Requests(Run(s, a), b) + Requests(t, c)
  {
    var a, b, c := [TypeText(other), SubmitForm], [TypeText(s.searchKey), SubmitForm], [Resolved(x, 0)];
    assert SwitchBackSession(s.searchKey, other, x) == (a + b) + c;
    RunAppend(s, a + b, c);
    RunAppend(s, a, b);
    RequestsAppend(s, a + b, c);
    RequestsAppend(s, a, b);
  }

  /** What the session sends and where it ends. */
  lemma SwitchBackOutcome(s: AppState, other: string, x: seq<Hit>)
    requires s.results.Some? && s.searchKey in s.results.value && other !in s.results.value
    ensures Requests(s, SwitchBackSession(s.searchKey, other, x)) == [Request(other, 0)]
    ensures Run(s, SwitchBackSession(s.searchKey, other, x)) == ResolveStep(SwitchedBack(s), x, 0)
  {
    var key := s.searchKey;
    SwitchBackSubmits(s, other);
    SwitchBackParts(s, other, x);
    TypeThenSubmit(s, other);
    var s2 := SubmitStep(SearchChangeStep(s, other)).state;
    TypeThenSubmit(s2, key);
    ResponseAlone(SwitchedBack(s), x);
    assert [Request(other, 0)] + [] + [] == [Request(other, 0)];
  }

  /**
   * The page stored for a term can go DOWN, and its hits can receive another term's
   * response. With `key` cached at any page and active: type and submit an unseen
   * term (a request for it, page 0), type and submit `key` again before that response
   * arrives (no request, `key` is cached), and the response lands under `key`. Its
   * hits are appended to `key`'s hits and `key`'s page becomes 0; the unseen term is
   * never cached.
   */
  lemma ResponseResetsCachedPage(s: AppState, other: string, x: seq<Hit>)
    requires s.results.Some? && s.searchKey in s.results.value && other !in s.results.value
    ensures var t := Run(s, SwitchBackSession(s.searchKey, other, x));
      && Requests(s, SwitchBackSession(s.searchKey, other, x)) == [Request(other, 0)]
      && Terms(t.results) == Terms(s.results)
      && other !in Terms(t.results)
      && StoredHits(t.results, s.searchKey) == StoredHits(s.results, s.searchKey) + x
      && StoredPage(t.results, s.searchKey) == 0
      && (StoredPage(s.results, s.searchKey) > 0 ==> StoredPage(t.results, s.searchKey) < StoredPage(s.results, s.searchKey))
  {
    SwitchBackOutcome(s, other, x);
    ResolveAppends(SwitchedBack(s), x, 0);
  }

  // ---------------------------------------------------------------------------
  // The component

  class App {
    var results: Results
    var searchKey: string
    var searchTerm: string
    var error: Option<string>
    var isLoading: bool
    var sortKey: SortKey
    var isSortReverse: bool

    /** `this.state` as a value. */
    function State(): AppState
      reads this
    {
      AppState(results, searchKey, searchTerm, error, isLoading, sortKey, isSortReverse)
    }

    constructor ()
      ensures State() == Initial()
      ensures results == None && searchKey == "" && searchTerm == DEFAULT_QUERY
      ensures error == None && !isLoading && sortKey == NONE && !isSortReverse
    {
      results := None;
      searchKey := "";
      searchTerm := DEFAULT_QUERY;
      error := None;
      isLoading := false;
      sortKey := NONE;
      isSortReverse := false;
    }

    method OnSort(k: SortKey)
      modifies this
      ensures sortKey == k
      ensures isSortReverse == (old(sortKey) == k && !old(isSortReverse))
      ensures State() == SortStep(old(State()), k)
    {
      var reverse := sortKey == k && !isSortReverse;
      sortKey, isSortReverse := k, reverse;
    }

    method SetSearchTopStories(hits: seq<Hit>, page: nat)
      modifies this
      ensures results == Some(Merge(old(results), old(searchKey), hits, page))
      ensures StoredHits(results, searchKey) == StoredHits(old(results), searchKey) + hits
      ensures !isLoading
      ensures State() == ResolveStep(old(State()), hits, page)
    {
      var oldHits := StoredHits(results, searchKey);
      var updatedHits := oldHits + hits;
      var base := if results.Some? then results.value else map[];
      isLoading := false;
      results := Some(base[searchKey := PageResult(updatedHits, page)]);
    }

    method SetSearchKey(term: string)
      modifies this
      ensures searchKey == term
      ensures State() == SetSearchKeyStep(old(State()), term)
    {
      searchKey := term;
    }

    method OnSearchChange(text: string)
      modifies this
      ensures searchTerm == text
      ensures State() == SearchChangeStep(old(State()), text)
    {
      searchTerm := text;
    }

    /** Returns `true` when the handler throws (no entry for the search key); nothing changes then. */
    method OnDismiss(id: string) returns (threw: bool)
      modifies this
      ensures threw <==> old(searchKey) !in Terms(old(results))
      ensures !threw ==> results == Some(DismissIn(old(results).value, old(searchKey), id))
      ensures threw ==> State() == old(State())
      ensures !threw ==> Some(State()) == DismissStep(old(State()), id)
    {
      if results.None? || searchKey !in results.value {
        return true;
      }
      var entry := results.value[searchKey];
      var updatedHits := WithoutId(entry.hits, id);
      results := Some(results.value[searchKey := PageResult(updatedHits, entry.page)]);
      threw := false;
    }

    method OnSearchSubmit() returns (request: Option<Request>)
      modifies this
      ensures searchKey == old(searchTerm)
      ensures request.Some? <==> old(results).Some? && old(searchTerm) !in old(results).value
      ensures request.Some? ==> request.value == Request(old(searchTerm), 0) && isLoading
      ensures Outcome(State(), request) == SubmitStep(old(State()))
    {
      var term := searchTerm;
      request := None;
      if results.Some? {
        if NeedsToSearch(results.value, term) {
          var r := FetchSearchTopStories(term, 0);
          request := Some(r);
        }
      }
      SetSearchKey(term);
    }

    method FetchSearchTopStories(term: string, page: nat) returns (request: Request)
      modifies this
      ensures request == Request(term, page)
      ensures isLoading && error == old(error)
      ensures Outcome(State(), Some(request)) == FetchStep(old(State()), term, page)
    {
      isLoading := true;
      request := Request(term, page);
    }

    /** The `.catch` of a request that failed. */
    method OnFetchFailure(e: string)
      modifies this
      ensures error == Some(e) && isLoading == old(isLoading)
      ensures State() == RejectStep(old(State()), e)
    {
      error := Some(e);
    }

    method ComponentDidMount() returns (request: Request)
      modifies this
      ensures searchKey == old(searchTerm)
      ensures request == Request(old(searchTerm), 0) && isLoading
      ensures Outcome(State(), Some(request)) == MountStep(old(State()))
    {
      var term := searchTerm;
      SetSearchKey(term);
      request := FetchSearchTopStories(term, 0);
    }

    /** The click handler of the "More" button. */
    method OnMore() returns (request: Request)
      modifies this
      ensures request == Request(old(searchKey), StoredPage(old(results), old(searchKey)) + 1)
      ensures Outcome(State(), Some(request)) == MoreStep(old(State()))
    {
      var page := StoredPage(results, searchKey);
      request := FetchSearchTopStories(searchKey, page + 1);
    }
  }

  /** A client of the class: the first page arrives and the user sorts by title twice. */
  method SortTitleTwice(hits: seq<Hit>)
  {
    var app := new App();
    var request := app.ComponentDidMount();
    assert request == Request(DEFAULT_QUERY, 0);
    app.SetSearchTopStories(hits, 0);
    assert !app.isLoading && StoredHits(app.results, DEFAULT_QUERY) == hits;
    app.OnSort(TITLE);
    assert !app.isSortReverse;
    app.OnSort(TITLE);
    assert app.sortKey == TITLE && app.isSortReverse;
    var more := app.OnMore();
    assert more == Request(DEFAULT_QUERY, 1);
  }
}
