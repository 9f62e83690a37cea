/**
 * The dashboard's API client (dashboard/src/api.js): the locale read from
 * storage, the `lang` query parameter, the URL of every call, and the
 * decision a response leads to. `encodeURIComponent` is a parameter.
 */
module Api {

  import opened Common
  import opened Strings
  import Endpoints

  const ApiBase: string := "http://localhost:8000"

  /** The storage key the locale lives under. */
  const LangKey: string := "app_lang"

  /**
   * `localStorage.getItem("app_lang") || "en"`: the stored locale, or
   * `"en"` when nothing (or the empty string, which is falsy) is stored.
   */
  function GetLang(items: map<string, string>): (r: string)
    ensures LangKey in items && items[LangKey] != "" ==> r == items[LangKey]
    ensures LangKey !in items || items[LangKey] == "" ==> r == "en"
    ensures r != ""
  {
    if LangKey in items && items[LangKey] != "" then items[LangKey] else "en"
  }

  /** Writing a non-empty locale and reading it back gives that locale; writing `""` reads back `"en"`. */
  lemma GetLangAfterWrite(items: map<string, string>, lang: string)
    ensures lang != "" ==> GetLang(items[LangKey := lang]) == lang
    ensures lang == "" ==> GetLang(items[LangKey := lang]) == "en"
  {
  }

  function Separator(url: string): string {
    if '?' in url then "&" else "?"
  }

  /** `withLang`: append `lang=<locale>` as the first query parameter, or after the existing ones. */
  function WithLang(url: string, lang: string): string {
    url + Separator(url) + "lang=" + lang
  }

  /**
   * The URL is kept as a prefix, followed by `?` when it had no query and
   * `&` when it had one, then exactly `lang=<locale>`; the result always
   * has a query, and the locale can be read back from it.
   */
  lemma WithLangShape(url: string, lang: string)
    ensures var r := WithLang(url, lang);
      && |r| == |url| + 6 + |lang|
      && r[..|url|] == url
      && ('?' !in url ==> r[|url|] == '?')
      && ('?' in url ==> r[|url|] == '&')
      && r[|url| + 1..|url| + 6] == "lang="
      && r[|url| + 6..] == lang
      && '?' in r
  {
    var r := WithLang(url, lang);
    if '?' !in url {
      assert r[|url|] == '?';
    } else {
      var i :| 0 <= i < |url| && url[i] == '?';
      assert r[i] == '?';
    }
  }

  lemma WithLangInjective(url: string, lang1: string, lang2: string)
    requires WithLang(url, lang1) == WithLang(url, lang2)
    ensures lang1 == lang2
  {
    WithLangShape(url, lang1);
    WithLangShape(url, lang2);
  }

  /** The calls the dashboard makes. A user id travels as the text the page renders for it. */
  datatype Call =
    | Health
    | GetStats
    | GetTopProducts(limit: int)
    | GetProducts(page: int, pageSize: int, search: string)
    | GetRules(page: int, pageSize: int, minConfidence: int)
    | GetUserProfile(userId: string)
    | GetUsers(page: int, pageSize: int)
    | GetModelInfo
    | GetRecommendationDistribution
    | SearchProducts(query: string, limit: int)
    | SearchUsers(query: string, limit: int)
    | GetCartItems
    | GetUserRecommendations(userId: string, topN: int)
    | GetAssociationRecommendations(cartItems: seq<string>, topN: int)

  /** The path and query each builder composes before `withLang`. */
  function Path(call: Call, encode: string -> string): string {
    match call
    case Health => "/"
    case GetStats => "/dashboard/stats"
    case GetTopProducts(limit) => "/dashboard/top-products?limit=" + IntToString(limit)
    case GetProducts(page, pageSize, search) =>
      "/dashboard/products?page=" + IntToString(page) + "&page_size=" + IntToString(pageSize)
        + "&search=" + encode(search)
    case GetRules(page, pageSize, minConfidence) =>
      "/dashboard/rules?page=" + IntToString(page) + "&page_size=" + IntToString(pageSize)
        + "&min_confidence=" + IntToString(minConfidence)
    case GetUserProfile(userId) => "/dashboard/user/" + userId
    case GetUsers(page, pageSize) => "/dashboard/users?page=" + IntToString(page) + "&page_size=" + IntToString(pageSize)
    case GetModelInfo => "/dashboard/model-info"
    case GetRecommendationDistribution => "/dashboard/recommendation-distribution"
    case SearchProducts(query, limit) => "/dashboard/product-search?q=" + encode(query) + "&limit=" + IntToString(limit)
    case SearchUsers(query, limit) => "/dashboard/user-search?q=" + encode(query) + "&limit=" + IntToString(limit)
    case GetCartItems => "/dashboard/cart-items"
    case GetUserRecommendations(userId, topN) => "/recommend/user/" + userId + "?top_n=" + IntToString(topN)
    case GetAssociationRecommendations(_, _) => "/recommend/association"
  }

  /** The builders that pass their path through `withLang`. */
  predicate LocaleSensitive(call: Call) {
    !(call.Health? || call.GetStats? || call.GetUsers? || call.GetModelInfo?
      || call.GetRecommendationDistribution? || call.SearchUsers?)
  }

  function Url(call: Call, lang: string, encode: string -> string): string {
    if LocaleSensitive(call) then WithLang(Path(call, encode), lang) else Path(call, encode)
  }

  /** What goes over the wire: method, full URL and, for the association call, the JSON body. */
  datatype Request = Request(httpMethod: string, url: string, body: Option<Endpoints.AssociationRequest>)

  function RequestOf(call: Call, lang: string, encode: string -> string): (r: Request)
    ensures r.url == ApiBase + Url(call, lang, encode)
    ensures r.httpMethod == "POST" <==> call.GetAssociationRecommendations?
  {
    match call
    case GetAssociationRecommendations(cartItems, topN) =>
      Request("POST", ApiBase + Url(call, lang, encode), Some(Endpoints.AssociationRequest(cartItems, topN)))
    case _ => Request("GET", ApiBase + Url(call, lang, encode), None)
  }

  /** Statistics, user listing and search, model info, the distribution and health never carry the locale. */
  lemma InsensitiveIgnoresLang(call: Call, lang1: string, lang2: string, encode: string -> string)
    requires !LocaleSensitive(call)
    ensures Url(call, lang1, encode) == Path(call, encode)
    ensures RequestOf(call, lang1, encode) == RequestOf(call, lang2, encode)
  {
  }

  /** Every other call ends in `lang=<locale>`, so two locales give two different requests. */
  lemma SensitiveCarriesLang(call: Call, lang1: string, lang2: string, encode: string -> string)
    requires LocaleSensitive(call)
    ensures Url(call, lang1, encode) == WithLang(Path(call, encode), lang1)
    ensures lang1 != lang2 ==> RequestOf(call, lang1, encode) != RequestOf(call, lang2, encode)
  {
    if lang1 != lang2 && RequestOf(call, lang1, encode) == RequestOf(call, lang2, encode) {
      var u1 := Url(call, lang1, encode);
      var u2 := Url(call, lang2, encode);
      assert (ApiBase + u1)[|ApiBase|..] == u1;
      assert (ApiBase + u2)[|ApiBase|..] == u2;
      WithLangInjective(Path(call, encode), lang1, lang2);
    }
  }

  /** The association call posts the cart unchanged together with `top_n`. */
  lemma AssociationBody(cartItems: seq<string>, topN: int, lang: string, encode: string -> string)
    ensures var r := RequestOf(GetAssociationRecommendations(cartItems, topN), lang, encode);
      && r.httpMethod == "POST"
      && r.body == Some(Endpoints.AssociationRequest(cartItems, topN))
      && r.url == ApiBase + "/recommend/association?lang=" + lang
  {
    assert '?' !in "/recommend/association";
  }

  // ---------------------------------------------------------------- responses

  /** `response.ok`: a 2xx status. */
  predicate StatusOk(status: int) {
    200 <= status <= 299
  }

  function ErrorMessage(status: int, statusText: string): string {
    "API error: " + IntToString(status) + " " + statusText
  }

  /**
   * `fetchJSON` / `postJSON` once the response arrives: its JSON on a 2xx
   * status, otherwise an error whose message names the status.
   */
  function Outcome<T>(status: int, statusText: string, json: T): (r: Result<T, string>)
    ensures StatusOk(status) <==> r.Ok?
    ensures r.Ok? ==> r.value == json
  {
    if StatusOk(status) then Ok(json) else Err(ErrorMessage(status, statusText))
  }

  /** A failed response's message contains its status code; for 404 it contains `"404"`. */
  lemma ErrorNamesStatus<T>(status: int, statusText: string, json: T)
    requires !StatusOk(status)
    ensures Outcome(status, statusText, json).Err?
    ensures Contains(Outcome(status, statusText, json).error, IntToString(status))
    ensures status == 404 ==> Contains(Outcome(status, statusText, json).error, "404")
  {
    ContainsInfix("API error: ", IntToString(status), " " + statusText);
    assert "API error: " + IntToString(status) + " " + statusText
        == ("API error: " + IntToString(status)) + (" " + statusText);
    if status == 404 {
      assert IntToString(404) == "404" by {
        assert NatToString(404) == NatToString(40) + [DigitChar(4)];
        assert NatToString(40) == NatToString(4) + [DigitChar(0)];
      }
    }
  }
}
