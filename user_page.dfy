/**
 * The user recommendations page (dashboard/src/pages/UserRecommendationsPage.jsx):
 * a user-id box with debounced id suggestions, the search that fetches the
 * profile and the recommendations together, the reload on a change of
 * locale, and the reset.
 *
 * `t("userNotFound")` is passed in as the text it yields. As on the other
 * pages, nothing orders or discards responses.
 */
module UserPage {

  import opened Common
  import opened Strings
  import Api
  import Dashboard
  import Endpoints
  import Debounce

  const SuggestionLimit: int := 8

  /** The path segment `parseInt(userId)` renders into: its digits, or `NaN` when nothing parses. */
  function IdSegment(userId: string): string {
    match ParseInt(userId)
    case Some(n) => IntToString(n)
    case None => "NaN"
  }

  /** Choosing a suggested id and searching requests exactly that id. */
  lemma SelectedIdRoundTrip(id: int)
    ensures IdSegment(IntToString(id)) == IntToString(id)
  {
    ParseIntOfIntToString(id);
  }

  /** The two requests `handleSearch` and the locale effect send together. */
  datatype Requests = Requests(profile: Api.Call, recommendations: Api.Call)

  function SearchRequests(userId: string, topN: int): Requests {
    Requests(Api.GetUserProfile(IdSegment(userId)), Api.GetUserRecommendations(IdSegment(userId), topN))
  }

  /** Both bodies, once both requests have succeeded. */
  datatype Loaded = Loaded(profile: Dashboard.Profile, recommendations: seq<Endpoints.Recommendation>)

  /**
   * `Promise.all` over the two requests: both values when both succeed,
   * otherwise the error of the one that failed, or of the one that failed
   * first (`profileFirst`) when both did.
   */
  function All(profile: Result<Dashboard.Profile, string>, recs: Result<seq<Endpoints.Recommendation>, string>,
               profileFirst: bool): (r: Result<Loaded, string>)
    ensures r.Ok? <==> profile.Ok? && recs.Ok?
    ensures r.Ok? ==> r.value == Loaded(profile.value, recs.value)
    ensures r.Err? ==> (profile.Err? && r.error == profile.error) || (recs.Err? && r.error == recs.error)
  {
    if profile.Ok? && recs.Ok? then Ok(Loaded(profile.value, recs.value))
    else if profile.Err? && (recs.Ok? || profileFirst) then Err(profile.error)
    else Err(recs.error)
  }

  /** The error shown for a failed search: the not-found text when the message mentions 404, else the message. */
  function ErrorText(message: string, notFound: string): string {
    if Contains(message, "404") then notFound else message
  }

  /** A failed response with status 404, from either request, is shown as the not-found text. */
  lemma NotFoundShown<T>(status: int, statusText: string, json: T, notFound: string)
    requires status == 404
    ensures Api.Outcome(status, statusText, json).Err?
    ensures ErrorText(Api.Outcome(status, statusText, json).error, notFound) == notFound
  {
    Api.ErrorNamesStatus(status, statusText, json);
  }

  /**
   * The classification looks at the text only: a failure that is not a
   * 404 but whose status text mentions one is shown as not found too.
   */
  lemma StatusTextCanMislead<T>(json: T, notFound: string)
    ensures Api.Outcome(500, "404", json).Err?
    ensures ErrorText(Api.Outcome(500, "404", json).error, notFound) == notFound
  {
    var m := Api.ErrorMessage(500, "404");
    ContainsInfix("API error: " + IntToString(500) + " ", "404", "");
    assert m == ("API error: " + IntToString(500) + " ") + "404" + "";
  }

  class UserPage {
    var userId: string
    var topN: int
    var userProfile: Option<Dashboard.Profile>
    var recommendations: seq<Endpoints.Recommendation>
    var loading: bool
    var error: string
    var suggestions: seq<int>
    var showSuggestions: bool
    var timers: Debounce.Timers<string>

    constructor()
      ensures userId == "" && topN == 5 && userProfile.None? && recommendations == []
      ensures !loading && error == "" && suggestions == [] && !showSuggestions
      ensures timers == Debounce.Initial() && Debounce.Valid(timers)
    {
      userId := "";
      topN := 5;
      userProfile := None;
      recommendations := [];
      loading := false;
      error := "";
      suggestions := [];
      showSuggestions := false;
      timers := Debounce.Initial();
    }

    /**
     * `handleUserIdChange`: an id search is armed as soon as the trimmed text
     * has one character; empty text clears the suggestions at once.
     */
    method UserIdChange(value: string)
      requires Debounce.Valid(timers)
      modifies this`userId, this`timers, this`suggestions, this`showSuggestions
      ensures userId == value
      ensures timers == Debounce.Keystroke(old(timers), |Trim(value)| >= 1, Trim(value))
      ensures Debounce.Valid(timers)
      ensures |Trim(value)| >= 1 ==> timers.live == Some(Debounce.Armed(old(timers).nextHandle, Trim(value)))
      ensures Trim(value) == "" ==> timers.live.None? && suggestions == [] && !showSuggestions
      ensures Trim(value) != "" ==> suggestions == old(suggestions) && showSuggestions == old(showSuggestions)
    {
      userId := value;
      var arm := |Trim(value)| >= 1;
      Debounce.KeystrokeFacts(timers, arm, Trim(value));
      timers := Debounce.Keystroke(timers, arm, Trim(value));
      if !arm {
        suggestions := [];
        showSuggestions := false;
      }
    }

    method FireSearchTimer() returns (call: Option<Api.Call>)
      modifies this`timers
      ensures var fired := Debounce.Fire(old(timers));
        && timers == fired.timers
        && (fired.payload.None? ==> call.None?)
        && (fired.payload.Some? ==> call == Some(Api.SearchUsers(fired.payload.value, SuggestionLimit)))
    {
      var fired := Debounce.Fire(timers);
      timers := fired.timers;
      call := if fired.payload.Some? then Some(Api.SearchUsers(fired.payload.value, SuggestionLimit)) else None;
    }

    method ResolveSuggestions(outcome: Result<seq<int>, string>)
      modifies this`suggestions, this`showSuggestions
      ensures outcome.Ok? ==> suggestions == outcome.value && showSuggestions == (|outcome.value| > 0)
      ensures outcome.Err? ==> suggestions == [] && showSuggestions == old(showSuggestions)
    {
      match outcome
      case Ok(ids) =>
        suggestions := ids;
        showSuggestions := |ids| > 0;
      case Err(_) =>
        suggestions := [];
    }

    /** The id box's `onFocus`: re-open the suggestions when there are any. */
    method FocusIdInput()
      modifies this`showSuggestions
      ensures showSuggestions == (old(showSuggestions) || suggestions != [])
    {
      if |suggestions| > 0 {
        showSuggestions := true;
      }
    }

    /** `selectUser`: the id's decimal text goes into the box. */
    method SelectUser(id: int)
      modifies this`userId, this`showSuggestions, this`suggestions
      ensures userId == IntToString(id) && !showSuggestions && suggestions == []
    {
      userId := IntToString(id);
      showSuggestions := false;
      suggestions := [];
    }

    method SetTopN(n: int)
      modifies this`topN
      ensures topN == n
    {
      topN := n;
    }

    /**
     * `handleSearch`: blank text does nothing; otherwise loading starts,
     * the error, profile, recommendations and dropdown are cleared, and both
     * requests go out for the parsed id.
     */
    method Search() returns (requests: Option<Requests>)
      modifies this`loading, this`error, this`userProfile, this`recommendations, this`showSuggestions
      ensures Trim(userId) == "" ==> (
        && requests.None?
        && loading == old(loading) && error == old(error) && userProfile == old(userProfile)
        && recommendations == old(recommendations) && showSuggestions == old(showSuggestions))
      ensures Trim(userId) != "" ==> (
        && requests == Some(SearchRequests(userId, topN))
        && loading && error == "" && userProfile.None? && recommendations == [] && !showSuggestions)
    {
      if Trim(userId) == "" {
        requests := None;
      } else {
        requests := Some(SearchRequests(userId, topN));
        loading := true;
        error := "";
        userProfile := None;
        recommendations := [];
        showSuggestions := false;
      }
    }

    /**
     * The awaited `Promise.all` settles: both bodies are stored only when
     * both requests succeeded; otherwise the error is classified. Loading
     * ends in every case.
     */
    method ResolveSearch(outcome: Result<Loaded, string>, notFound: string)
      modifies this`userProfile, this`recommendations, this`error, this`loading
      ensures outcome.Ok? ==> (
        && userProfile == Some(outcome.value.profile)
        && recommendations == outcome.value.recommendations && error == old(error))
      ensures outcome.Err? ==> (
        && userProfile == old(userProfile)
        && recommendations == old(recommendations) && error == ErrorText(outcome.error, notFound))
      ensures !loading
    {
      match outcome {
        case Ok(loaded) =>
          userProfile := Some(loaded.profile);
          recommendations := loaded.recommendations;
        case Err(message) =>
          error := if Contains(message, "404") then notFound else message;
      }
      loading := false;
    }

    /**
     * The effect on a change of locale: it refetches only while a profile is
     * shown and the box is not empty (untrimmed), and touches no state
     * until the responses arrive.
     */
    method LanguageChanged() returns (requests: Option<Requests>)
      ensures requests.Some? <==> userProfile.Some? && userId != ""
      ensures requests.Some? ==> requests.value == SearchRequests(userId, topN)
    {
      if userProfile.Some? && userId != "" {
        requests := Some(SearchRequests(userId, topN));
      } else {
        requests := None;
      }
    }

    /** The reload's responses: stored on success, ignored (logged) on failure. */
    method ResolveReload(outcome: Result<Loaded, string>)
      modifies this`userProfile, this`recommendations
      ensures outcome.Ok? ==> userProfile == Some(outcome.value.profile) && recommendations == outcome.value.recommendations
      ensures outcome.Err? ==> userProfile == old(userProfile) && recommendations == old(recommendations)
    {
      if outcome.Ok? {
        userProfile := Some(outcome.value.profile);
        recommendations := outcome.value.recommendations;
      }
    }

    /** `clearSearch`: the page returns to its initial contents; `topN` and any pending timer stay. */
    method ClearSearch()
      modifies this`userId, this`userProfile, this`recommendations, this`error, this`suggestions, this`showSuggestions
      ensures userId == "" && userProfile.None? && recommendations == [] && error == ""
      ensures suggestions == [] && !showSuggestions
    {
      userId := "";
      userProfile := None;
      recommendations := [];
      error := "";
      suggestions := [];
      showSuggestions := false;
    }
  }

  // ---------------------------------------------------------------- interleavings

  /** Picking a suggested id and searching asks for that id's profile and recommendations. */
  method SelectThenSearch(p: UserPage, id: int) returns (requests: Option<Requests>)
    modifies p
    ensures requests == Some(Requests(Api.GetUserProfile(IntToString(id)), Api.GetUserRecommendations(IntToString(id), p.topN)))
  {
    p.SelectUser(id);
    assert Trim(p.userId) != "" by {
      assert IsDigit(p.userId[0]) || p.userId[0] == '-';
    }
    requests := p.Search();
    SelectedIdRoundTrip(id);
  }

  /**
   * A search still under way when the box is cleared fills the page again
   * when it resolves: the profile is shown with an empty box.
   */
  method ClearedThenResolved(p: UserPage, loaded: Loaded, notFound: string)
    requires p.userId == "42"
    modifies p
    ensures p.userId == "" && p.userProfile == Some(loaded.profile) && !p.loading
  {
    TrimUnpadded("42");
    var requests := p.Search();
    p.ClearSearch();
    p.ResolveSearch(Ok(loaded), notFound);
  }
}
