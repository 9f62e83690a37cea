/**
 * The association rules page (dashboard/src/pages/AssociationRulesPage.jsx):
 * the paged rules table with its client-side search, and the cart simulator
 * with debounced product suggestions.
 *
 * Every `useState` slot is a field. A request is modelled as two steps: the
 * handler that issues it returns the `Api.Call`, and a `Resolve` method
 * applies the outcome whenever the environment delivers it. Nothing in the
 * page orders or discards responses, so neither does the model: the last
 * outcome applied wins.
 */
module RulesPage {

  import opened Common
  import opened Strings
  import opened Seqs
  import Api
  import opened Dashboard
  import Endpoints
  import Paging
  import Debounce

  const RulesPageSize: int := 10
  const SuggestionLimit: int := 8
  const CartTopN: int := 5

  // ---------------------------------------------------------------- the cart

  /** `cartItems.some((c) => c.stock_code === code)` */
  predicate HasCode(cart: seq<ProductRef>, code: string) {
    code in CodesOf(cart)
  }

  /** `addToCartFromSuggestion`'s update: append unless the stock code is already there. */
  function AddBySuggestion(cart: seq<ProductRef>, item: ProductRef): seq<ProductRef> {
    if HasCode(cart, item.stockCode) then cart else cart + [item]
  }

  /**
   * The cart keeps its order and grows by at most one item; afterwards the
   * item's code is in the cart, codes that were unique stay unique, and
   * adding the same item again changes nothing.
   */
  lemma AddBySuggestionFacts(cart: seq<ProductRef>, item: ProductRef)
    ensures var r := AddBySuggestion(cart, item);
      && cart <= r && |r| <= |cart| + 1
      && HasCode(r, item.stockCode)
      && (Distinct(CodesOf(cart)) ==> Distinct(CodesOf(r)))
      && AddBySuggestion(r, item) == r
  {
    var r := AddBySuggestion(cart, item);
    if !HasCode(cart, item.stockCode) {
      assert CodesOf(r) == CodesOf(cart) + [item.stockCode];
    }
  }

  /** Some cart item's `product_name` equals `name` ignoring case. */
  predicate HasName(cart: seq<ProductRef>, name: string) {
    exists i :: 0 <= i < |cart| && EqualsIgnoreCase(cart[i].productName, name)
  }

  /**
   * `addToCartManual`'s update: the trimmed text becomes both stock code and
   * name, unless it is empty or a cart item already has that name up to case.
   */
  function AddByName(cart: seq<ProductRef>, input: string): seq<ProductRef> {
    var name := Trim(input);
    if name != "" && !HasName(cart, name) then cart + [ProductRef(name, name)] else cart
  }

  /** No two cart items have names equal up to case. */
  predicate NamesDistinct(cart: seq<ProductRef>) {
    forall i, j :: 0 <= i < j < |cart| ==> !EqualsIgnoreCase(cart[i].productName, cart[j].productName)
  }

  /**
   * Blank input changes nothing; otherwise the cart afterwards holds an item
   * named like the trimmed text. Names unique up to case stay so, and
   * submitting the same text again changes nothing.
   */
  lemma AddByNameFacts(cart: seq<ProductRef>, input: string)
    ensures var r := AddByName(cart, input);
      && cart <= r && |r| <= |cart| + 1
      && (Trim(input) == "" ==> r == cart)
      && (Trim(input) != "" ==> HasName(r, Trim(input)))
      && (NamesDistinct(cart) ==> NamesDistinct(r))
      && AddByName(r, input) == r
  {
    var name := Trim(input);
    var r := AddByName(cart, input);
    if name != "" && !HasName(cart, name) {
      assert r[|cart|] == ProductRef(name, name);
      assert EqualsIgnoreCase(r[|cart|].productName, name);
      assert HasName(r, name);
      forall i, j | 0 <= i < j < |r| && NamesDistinct(cart)
        ensures !EqualsIgnoreCase(r[i].productName, r[j].productName)
      {
        if j == |cart| {
          assert r[i] == cart[i];
        }
      }
    }
  }

  /** `cartItems.filter((i) => i.stock_code !== code)` */
  function Without(cart: seq<ProductRef>, code: string): seq<ProductRef> {
    Filter(cart, (i: ProductRef) => i.stockCode != code)
  }

  /**
   * Removing a code deletes every item carrying it, keeps every other item,
   * and keeps their order.
   */
  lemma WithoutFacts(cart: seq<ProductRef>, code: string)
    ensures var r := Without(cart, code);
      && !HasCode(r, code)
      && IsSubseq(r, cart)
      && (forall i :: 0 <= i < |cart| && cart[i].stockCode != code ==> cart[i] in r)
      && (forall x :: x in r ==> x in cart)
  {
    var r := Without(cart, code);
    forall k | 0 <= k < |r| ensures CodesOf(r)[k] != code {
      assert r[k].stockCode != code;
    }
  }

  /**
   * The manual path checks names only: a stock code typed by hand is added
   * next to an item with the same code, and removing that code then deletes
   * both.
   */
  lemma ManualEntryDuplicatesCode()
    ensures var cart := [ProductRef("85123A", "WHITE HANGING HEART")];
      var r := AddByName(cart, "85123A");
      && CodesOf(r) == ["85123A", "85123A"]
      && Without(r, "85123A") == []
  {
    var cart := [ProductRef("85123A", "WHITE HANGING HEART")];
    TrimUnpadded("85123A");
    assert !EqualsIgnoreCase(cart[0].productName, "85123A") by {
      assert |ToLower(cart[0].productName)| != |ToLower("85123A")|;
    }
    var r := AddByName(cart, "85123A");
    assert r == cart + [ProductRef("85123A", "85123A")];
    assert CodesOf(r) == ["85123A", "85123A"];
  }

  /** The results of a suggestion search that are not in `cart`, in their order. */
  function NotInCart(results: seq<ProductRef>, cart: seq<ProductRef>): seq<ProductRef> {
    Filter(results, (r: ProductRef) => !HasCode(cart, r.stockCode))
  }

  lemma NotInCartFacts(results: seq<ProductRef>, cart: seq<ProductRef>)
    ensures var shown := NotInCart(results, cart);
      && IsSubseq(shown, results)
      && (forall i :: 0 <= i < |shown| ==> !HasCode(cart, shown[i].stockCode))
      && (forall i :: 0 <= i < |results| && !HasCode(cart, results[i].stockCode) ==> results[i] in shown)
      && (cart == [] ==> shown == results)
  {
    if cart == [] {
      FilterAll(results, (r: ProductRef) => !HasCode(cart, r.stockCode));
    }
  }

  lemma {:induction false} FilterAll<T>(s: seq<T>, p: T -> bool)
    requires forall i :: 0 <= i < |s| ==> p(s[i])
    ensures Filter(s, p) == s
  {
    if s != [] {
      FilterAll(s[1..], p);
    }
  }

  // ---------------------------------------------------------------- the rules table

  /** Some antecedent or consequent, lower-cased, contains `q`. */
  predicate Mentions(rule: RuleItem, q: string) {
    || (exists i :: 0 <= i < |rule.antecedents| && Contains(ToLower(rule.antecedents[i]), q))
    || (exists i :: 0 <= i < |rule.consequents| && Contains(ToLower(rule.consequents[i]), q))
  }

  function RulesMentioning(rules: seq<RuleItem>, q: string): seq<RuleItem> {
    Filter(rules, (r: RuleItem) => Mentions(r, q))
  }

  /** `filteredRules`: all rules for an empty search, else those mentioning the lower-cased search. */
  function FilterRules(rules: seq<RuleItem>, search: string): seq<RuleItem> {
    if search == "" then rules else RulesMentioning(rules, ToLower(search))
  }

  /** The filter keeps the page's order and keeps exactly the rules that mention the search. */
  lemma FilterRulesFacts(rules: seq<RuleItem>, search: string)
    ensures var r := FilterRules(rules, search);
      && IsSubseq(r, rules)
      && (forall x :: x in r <==> x in rules && (search == "" || Mentions(x, ToLower(search))))
      && (search == "" ==> r == rules)
  {
    if search == "" {
      SubseqRefl(rules);
    } else {
      var r := FilterRules(rules, search);
      forall x ensures x in r <==> x in rules && Mentions(x, ToLower(search)) {
        if x in r {
          var i :| 0 <= i < |r| && r[i] == x;
        }
        if x in rules && Mentions(x, ToLower(search)) {
          var i :| 0 <= i < |rules| && rules[i] == x;
        }
      }
    }
  }

  lemma LowerOfUpper(s: string)
    ensures ToLower(ToUpper(s)) == ToLower(s)
  {
    assert forall i :: 0 <= i < |s| ==> LowerChar(UpperChar(s[i])) == LowerChar(s[i]);
  }

  /** Searches that differ only in letter case show the same rules. */
  lemma FilterIgnoresCase(rules: seq<RuleItem>, a: string, b: string)
    requires EqualsIgnoreCase(a, b)
    ensures FilterRules(rules, a) == FilterRules(rules, b)
  {
    assert |a| == |ToLower(a)| == |ToLower(b)| == |b|;
  }

  // ---------------------------------------------------------------- the page

  /** What a pending suggestion timer closed over: the trimmed text and the cart at that keystroke. */
  datatype SuggestionSearch = SuggestionSearch(query: string, cart: seq<ProductRef>)

  function SuggestionCall(s: SuggestionSearch): Api.Call {
    Api.SearchProducts(s.query, SuggestionLimit)
  }

  class RulesPage {
    var rules: seq<RuleItem>
    var total: int
    var page: int
    var loading: bool
    var initialLoading: bool
    var cartInput: string
    var cartItems: seq<ProductRef>
    var cartResults: seq<Endpoints.Recommendation>
    var cartLoading: bool
    var cartSuggestions: seq<ProductRef>
    var showCartSuggestions: bool
    var timers: Debounce.Timers<SuggestionSearch>
    var ruleSearch: string

    constructor()
      ensures rules == [] && total == 0 && page == 1 && !loading && initialLoading
      ensures cartInput == "" && cartItems == [] && cartResults == [] && !cartLoading
      ensures cartSuggestions == [] && !showCartSuggestions && ruleSearch == ""
      ensures timers == Debounce.Initial() && Debounce.Valid(timers)
    {
      rules := [];
      total := 0;
      page := 1;
      loading := false;
      initialLoading := true;
      cartInput := "";
      cartItems := [];
      cartResults := [];
      cartLoading := false;
      cartSuggestions := [];
      showCartSuggestions := false;
      timers := Debounce.Initial();
      ruleSearch := "";
    }

    function TotalPages(): int
      reads this
    {
      Paging.TotalPages(total, RulesPageSize)
    }

    function FilteredRules(): seq<RuleItem>
      reads this
    {
      FilterRules(rules, ruleSearch)
    }

    /** `loadRules`, run by the effect on mount and whenever `page` or the locale changes. */
    method LoadRules() returns (call: Api.Call)
      modifies this`loading
      ensures loading
      ensures call == Api.GetRules(page, RulesPageSize, 0)
    {
      loading := true;
      call := Api.GetRules(page, RulesPageSize, 0);
    }

    /** The awaited rules page arrives (or fails); either way loading ends. */
    method ResolveRules(outcome: Result<Page<RuleItem>, string>)
      modifies this`rules, this`total, this`loading, this`initialLoading
      ensures outcome.Ok? ==> rules == outcome.value.items && total == outcome.value.total
      ensures outcome.Err? ==> rules == old(rules) && total == old(total)
      ensures !loading && !initialLoading
    {
      if outcome.Ok? {
        rules := outcome.value.items;
        total := outcome.value.total;
      }
      loading := false;
      initialLoading := false;
    }

    method PrevPage()
      modifies this`page
      ensures page == Paging.Prev(old(page))
    {
      page := Paging.Prev(page);
    }

    method NextPage()
      modifies this`page
      ensures page == Paging.Next(old(page), TotalPages())
    {
      page := Paging.Next(page, TotalPages());
    }

    method SetRuleSearch(value: string)
      modifies this`ruleSearch
      ensures ruleSearch == value
    {
      ruleSearch := value;
    }

    /**
     * `handleCartInputChange`: the input takes the value, the pending timer
     * is cleared, and a new one (closing over the trimmed text and the
     * current cart) is armed only for two or more characters after trimming;
     * shorter input clears the suggestions at once.
     */
    method CartInputChange(value: string)
      requires Debounce.Valid(timers)
      modifies this`cartInput, this`timers, this`cartSuggestions, this`showCartSuggestions
      ensures cartInput == value
      ensures timers == Debounce.Keystroke(old(timers), |Trim(value)| >= 2, SuggestionSearch(Trim(value), cartItems))
      ensures Debounce.Valid(timers)
      ensures |Trim(value)| >= 2 ==> timers.live == Some(Debounce.Armed(old(timers).nextHandle, SuggestionSearch(Trim(value), cartItems)))
      ensures |Trim(value)| < 2 ==> timers.live.None? && cartSuggestions == [] && !showCartSuggestions
      ensures |Trim(value)| >= 2 ==> cartSuggestions == old(cartSuggestions) && showCartSuggestions == old(showCartSuggestions)
    {
      cartInput := value;
      var arm := |Trim(value)| >= 2;
      Debounce.KeystrokeFacts(timers, arm, SuggestionSearch(Trim(value), cartItems));
      timers := Debounce.Keystroke(timers, arm, SuggestionSearch(Trim(value), cartItems));
      if !arm {
        cartSuggestions := [];
        showCartSuggestions := false;
      }
    }

    /** The pending timer runs and issues its search; with none pending nothing happens. */
    method FireCartTimer() returns (search: Option<SuggestionSearch>)
      modifies this`timers
      ensures search == Debounce.Fire(old(timers)).payload
      ensures timers == Debounce.Fire(old(timers)).timers
    {
      var fired := Debounce.Fire(timers);
      search := fired.payload;
      timers := fired.timers;
    }

    /**
     * The search a timer issued resolves: the results minus the cart it
     * closed over are shown when non-empty; a failure empties the list.
     */
    method ResolveCartSuggestions(search: SuggestionSearch, outcome: Result<seq<ProductRef>, string>)
      modifies this`cartSuggestions, this`showCartSuggestions
      ensures outcome.Ok? ==>
        cartSuggestions == NotInCart(outcome.value, search.cart) && showCartSuggestions == (|cartSuggestions| > 0)
      ensures outcome.Err? ==> cartSuggestions == [] && showCartSuggestions == old(showCartSuggestions)
    {
      match outcome
      case Ok(results) =>
        var filtered := NotInCart(results, search.cart);
        cartSuggestions := filtered;
        showCartSuggestions := |filtered| > 0;
      case Err(_) =>
        cartSuggestions := [];
    }

    /** The cart box's `onFocus`: re-open the suggestions when there are any. */
    method FocusCartInput()
      modifies this`showCartSuggestions
      ensures showCartSuggestions == (old(showCartSuggestions) || cartSuggestions != [])
    {
      if |cartSuggestions| > 0 {
        showCartSuggestions := true;
      }
    }

    method AddToCartFromSuggestion(item: ProductRef)
      modifies this`cartItems, this`cartInput, this`cartSuggestions, this`showCartSuggestions, this`cartResults
      ensures cartItems == AddBySuggestion(old(cartItems), item)
      ensures cartInput == "" && cartSuggestions == [] && !showCartSuggestions && cartResults == []
    {
      if !HasCode(cartItems, item.stockCode) {
        cartItems := cartItems + [item];
      }
      cartInput := "";
      cartSuggestions := [];
      showCartSuggestions := false;
      cartResults := [];
    }

    /** The form's submit: the suggestion list itself is left as it was. */
    method AddToCartManual()
      modifies this`cartItems, this`cartInput, this`showCartSuggestions, this`cartResults
      ensures cartItems == AddByName(old(cartItems), old(cartInput))
      ensures cartInput == "" && !showCartSuggestions && cartResults == []
    {
      var name := Trim(cartInput);
      if name != "" && !HasName(cartItems, name) {
        cartItems := cartItems + [ProductRef(name, name)];
      }
      cartInput := "";
      showCartSuggestions := false;
      cartResults := [];
    }

    method RemoveFromCart(code: string)
      modifies this`cartItems, this`cartResults
      ensures cartItems == Without(old(cartItems), code)
      ensures cartResults == []
    {
      cartItems := Without(cartItems, code);
      cartResults := [];
    }

    /** `getCartSuggestions`: no request for an empty cart; otherwise the codes in cart order, `top_n` 5. */
    method GetCartSuggestions() returns (call: Option<Api.Call>)
      modifies this`cartLoading
      ensures cartItems == [] ==> call.None? && cartLoading == old(cartLoading)
      ensures cartItems != [] ==> call == Some(Api.GetAssociationRecommendations(CodesOf(cartItems), CartTopN)) && cartLoading
    {
      if |cartItems| == 0 {
        return None;
      }
      cartLoading := true;
      call := Some(Api.GetAssociationRecommendations(CodesOf(cartItems), CartTopN));
    }

    method ResolveCartSuggestionsRequest(outcome: Result<seq<Endpoints.Recommendation>, string>)
      modifies this`cartResults, this`cartLoading
      ensures outcome.Ok? ==> cartResults == outcome.value
      ensures outcome.Err? ==> cartResults == old(cartResults)
      ensures !cartLoading
    {
      if outcome.Ok? {
        cartResults := outcome.value;
      }
      cartLoading := false;
    }
  }

  // ---------------------------------------------------------------- interleavings

  /** Typing `a` then `ab` before the timer runs issues a single search, for `ab`. */
  method TwoKeystrokesOneSearch(p: RulesPage) returns (first: Option<SuggestionSearch>, second: Option<SuggestionSearch>)
    requires Debounce.Valid(p.timers)
    modifies p
    ensures first == Some(SuggestionSearch("ab", old(p.cartItems)))
    ensures second.None?
  {
    p.CartInputChange("a");
    TrimUnpadded("ab");
    p.CartInputChange("ab");
    first := p.FireCartTimer();
    second := p.FireCartTimer();
  }

  /**
   * A suggestion search that is already under way is not cancelled by later
   * typing: its results are shown even though the input has since dropped
   * below two characters.
   */
  method LateSuggestionsShown(p: RulesPage, results: seq<ProductRef>)
    requires Debounce.Valid(p.timers) && p.cartItems == []
    requires results != []
    modifies p
    ensures p.cartInput == "a"
    ensures p.cartSuggestions == results && p.showCartSuggestions
  {
    TrimUnpadded("ab");
    p.CartInputChange("ab");
    var search := p.FireCartTimer();
    p.CartInputChange("a");
    NotInCartFacts(results, []);
    p.ResolveCartSuggestions(search.value, Ok(results));
  }

  /**
   * Two page loads resolve in the opposite order: the table then shows
   * page 1's rows while the page number says 2.
   */
  method OutOfOrderPages(p: RulesPage, first: Page<RuleItem>, second: Page<RuleItem>)
      returns (call1: Api.Call, call2: Api.Call)
    requires p.page == 1 && p.total > RulesPageSize
    modifies p
    ensures call1 == Api.GetRules(1, RulesPageSize, 0) && call2 == Api.GetRules(2, RulesPageSize, 0)
    ensures p.page == 2 && p.rules == first.items && !p.loading
  {
    call1 := p.LoadRules();
    p.NextPage();
    call2 := p.LoadRules();
    p.ResolveRules(Ok(second));
    p.ResolveRules(Ok(first));
  }
}
