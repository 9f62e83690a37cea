/**
 * The product catalog page (dashboard/src/pages/ProductCatalogPage.jsx): a
 * paged listing filtered by a committed search, a search box with debounced
 * suggestions, and prev/next controls.
 *
 * The listing effect depends on `page`, `activeSearch` and the locale; React
 * runs it after a render in which one of them changed. The handlers that can
 * change the first two end by `ListingEffect`, which issues the listing
 * request exactly when one of them differs from before the handler.
 */
module CatalogPage {

  import opened Common
  import opened Strings
  import Api
  import opened Data
  import opened Dashboard
  import Paging
  import Debounce

  const CatalogPageSize: int := 15
  const SuggestionLimit: int := 6

  /** The listing request: the only state it depends on is the page and the committed search. */
  function ListingCall(page: int, activeSearch: string): Api.Call {
    Api.GetProducts(page, CatalogPageSize, activeSearch)
  }

  /** The values of the listing effect's dependencies other than the locale. */
  datatype Listing = Listing(page: int, activeSearch: string)

  function SuggestionCall(query: string): Api.Call {
    Api.SearchProducts(query, SuggestionLimit)
  }

  class CatalogPage {
    var products: seq<CatalogRow>
    var total: int
    var page: int
    var search: string
    var activeSearch: string
    var loading: bool
    var initialLoading: bool
    var suggestions: seq<ProductRef>
    var showSuggestions: bool
    var timers: Debounce.Timers<string>

    constructor()
      ensures products == [] && total == 0 && page == 1 && search == "" && activeSearch == ""
      ensures !loading && initialLoading && suggestions == [] && !showSuggestions
      ensures timers == Debounce.Initial() && Debounce.Valid(timers)
    {
      products := [];
      total := 0;
      page := 1;
      search := "";
      activeSearch := "";
      loading := false;
      initialLoading := true;
      suggestions := [];
      showSuggestions := false;
      timers := Debounce.Initial();
    }

    function TotalPages(): int
      reads this
    {
      Paging.TotalPages(total, CatalogPageSize)
    }

    function Deps(): Listing
      reads this
    {
      Listing(page, activeSearch)
    }

    /** `loadProducts`: loading starts and the listing for the current page and committed search is requested. */
    method LoadProducts() returns (call: Api.Call)
      modifies this`loading
      ensures loading
      ensures call == ListingCall(page, activeSearch)
    {
      loading := true;
      call := Api.GetProducts(page, CatalogPageSize, activeSearch);
    }

    /** The listing effect after a render: it runs only when the page or the committed search changed. */
    method ListingEffect(before: Listing) returns (call: Option<Api.Call>)
      modifies this`loading
      ensures Deps() == before ==> call.None? && loading == old(loading)
      ensures Deps() != before ==> call == Some(ListingCall(page, activeSearch)) && loading
    {
      if Deps() == before {
        return None;
      }
      var c := LoadProducts();
      call := Some(c);
    }

    /** A failed listing leaves products and total as they were; loading ends either way. */
    method ResolveProducts(outcome: Result<Page<CatalogRow>, string>)
      modifies this`products, this`total, this`loading, this`initialLoading
      ensures outcome.Ok? ==> products == outcome.value.items && total == outcome.value.total
      ensures outcome.Err? ==> products == old(products) && total == old(total)
      ensures !loading && !initialLoading
    {
      if outcome.Ok? {
        products := outcome.value.items;
        total := outcome.value.total;
      }
      loading := false;
      initialLoading := false;
    }

    /**
     * `handleSearchChange`: only `search` and the timer change; a suggestion
     * search for the trimmed text is armed for two or more characters.
     */
    method SearchChange(value: string)
      requires Debounce.Valid(timers)
      modifies this`search, this`timers, this`suggestions, this`showSuggestions
      ensures search == value
      ensures timers == Debounce.Keystroke(old(timers), |Trim(value)| >= 2, Trim(value))
      ensures Debounce.Valid(timers)
      ensures |Trim(value)| >= 2 ==> timers.live == Some(Debounce.Armed(old(timers).nextHandle, Trim(value)))
      ensures |Trim(value)| < 2 ==> timers.live.None? && suggestions == [] && !showSuggestions
      ensures |Trim(value)| >= 2 ==> suggestions == old(suggestions) && showSuggestions == old(showSuggestions)
    {
      search := value;
      var arm := |Trim(value)| >= 2;
      Debounce.KeystrokeFacts(timers, arm, Trim(value));
      timers := Debounce.Keystroke(timers, arm, Trim(value));
      if !arm {
        suggestions := [];
        showSuggestions := false;
      }
    }

    method FireSearchTimer() returns (call: Option<Api.Call>)
      modifies this`timers
      ensures var fired := Debounce.Fire(old(timers));
        && timers == fired.timers
        && (fired.payload.None? ==> call.None?)
        && (fired.payload.Some? ==> call == Some(SuggestionCall(fired.payload.value)))
    {
      var fired := Debounce.Fire(timers);
      timers := fired.timers;
      call := if fired.payload.Some? then Some(SuggestionCall(fired.payload.value)) else None;
    }

    method ResolveSuggestions(outcome: Result<seq<ProductRef>, string>)
      modifies this`suggestions, this`showSuggestions
      ensures outcome.Ok? ==> suggestions == outcome.value && showSuggestions == (|outcome.value| > 0)
      ensures outcome.Err? ==> suggestions == [] && showSuggestions == old(showSuggestions)
    {
      match outcome
      case Ok(results) =>
        suggestions := results;
        showSuggestions := |results| > 0;
      case Err(_) =>
        suggestions := [];
    }

    /** The search box's `onFocus`: re-open the suggestions when there are any. */
    method FocusSearchInput()
      modifies this`showSuggestions
      ensures showSuggestions == (old(showSuggestions) || suggestions != [])
    {
      if |suggestions| > 0 {
        showSuggestions := true;
      }
    }

    /** `selectSuggestion`, then the effect: the chosen name is typed, committed and listed from page 1. */
    method SelectSuggestion(item: ProductRef) returns (call: Option<Api.Call>)
      modifies this`search, this`activeSearch, this`page, this`showSuggestions, this`suggestions, this`loading
      ensures search == item.productName && activeSearch == item.productName && page == 1
      ensures !showSuggestions && suggestions == []
      ensures call.Some? <==> old(Deps()) != Listing(1, item.productName)
      ensures call.Some? ==> call.value == ListingCall(1, item.productName)
    {
      var before := Deps();
      search := item.productName;
      activeSearch := item.productName;
      page := 1;
      showSuggestions := false;
      suggestions := [];
      call := ListingEffect(before);
    }

    /** `handleSearch`, then the effect: the typed text is committed and the listing restarts at page 1. */
    method HandleSearch() returns (call: Option<Api.Call>)
      modifies this`activeSearch, this`page, this`showSuggestions, this`loading
      ensures activeSearch == search && page == 1 && !showSuggestions
      ensures call.Some? <==> old(Deps()) != Listing(1, search)
      ensures call.Some? ==> call.value == ListingCall(1, search)
    {
      var before := Deps();
      activeSearch := search;
      page := 1;
      showSuggestions := false;
      call := ListingEffect(before);
    }

    /** `clearSearch`, then the effect. */
    method ClearSearch() returns (call: Option<Api.Call>)
      modifies this`search, this`activeSearch, this`page, this`suggestions, this`showSuggestions, this`loading
      ensures search == "" && activeSearch == "" && page == 1 && suggestions == [] && !showSuggestions
      ensures call.Some? <==> old(Deps()) != Listing(1, "")
      ensures call.Some? ==> call.value == ListingCall(1, "")
    {
      var before := Deps();
      search := "";
      activeSearch := "";
      page := 1;
      suggestions := [];
      showSuggestions := false;
      call := ListingEffect(before);
    }

    method PrevPage() returns (call: Option<Api.Call>)
      modifies this`page, this`loading
      ensures page == Paging.Prev(old(page))
      ensures call.Some? <==> page != old(page)
      ensures call.Some? ==> call.value == ListingCall(page, activeSearch)
    {
      var before := Deps();
      page := Paging.Prev(page);
      call := ListingEffect(before);
    }

    method NextPage() returns (call: Option<Api.Call>)
      modifies this`page, this`loading
      ensures page == Paging.Next(old(page), TotalPages())
      ensures call.Some? <==> page != old(page)
      ensures call.Some? ==> call.value == ListingCall(page, activeSearch)
    {
      var before := Deps();
      page := Paging.Next(page, TotalPages());
      call := ListingEffect(before);
    }

    /** A change of locale always re-runs the listing effect. */
    method LanguageChanged() returns (call: Api.Call)
      modifies this`loading
      ensures loading && call == ListingCall(page, activeSearch)
    {
      call := LoadProducts();
    }
  }

  // ---------------------------------------------------------------- interleavings

  /** Typing changes neither dependency, so the next listing still uses the committed search. */
  method TypingDoesNotReachListing(p: CatalogPage, value: string) returns (call: Api.Call)
    requires Debounce.Valid(p.timers)
    modifies p
    ensures p.search == value && p.activeSearch == old(p.activeSearch)
    ensures call == ListingCall(old(p.page), old(p.activeSearch))
  {
    p.SearchChange(value);
    call := p.LanguageChanged();
  }

  /** Submitting the committed search again on page 1 issues no request. */
  method ResubmitIssuesNothing(p: CatalogPage) returns (call: Option<Api.Call>)
    requires p.page == 1 && p.activeSearch == p.search
    modifies p
    ensures call.None?
  {
    call := p.HandleSearch();
  }

  /** Submitting new text from a later page lists page 1 of the new search. */
  method SubmitRestartsAtFirstPage(p: CatalogPage, value: string) returns (call: Option<Api.Call>)
    requires Debounce.Valid(p.timers) && value != p.activeSearch
    modifies p
    ensures p.page == 1 && p.activeSearch == value
    ensures call == Some(ListingCall(1, value))
  {
    p.SearchChange(value);
    call := p.HandleSearch();
  }
}
