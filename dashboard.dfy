/**
 * The dashboard router (app/api/dashboard.py): product-name translation,
 * the paginated catalog, rule and user listings, the user and product
 * searches, the cart-item universe, the user profile and the top products.
 * Each pickle is loaded on its own, so each model is a separate `Option`.
 */
module Dashboard {

  import opened Common
  import opened Seqs
  import opened Strings
  import opened Data

  // ================================================================ translation

  /**
   * `_translate`: outside Spanish, or with an empty translation table, the
   * name is kept; otherwise the exact name is looked up, then its upper-case
   * form, and the name itself is the fallback.
   */
  function Translate(name: string, lang: string, table: map<string, string>): (r: string)
    ensures lang != "es" || table == map[] ==> r == name
    ensures r == name || r in table.Values
  {
    if lang == "es" && table != map[] then
      if name in table then table[name]
      else if ToUpper(name) in table then table[ToUpper(name)]
      else name
    else name
  }

  /** The order of the lookups: the exact name wins over its upper-case form, which wins over the name. */
  lemma TranslateLookupOrder(name: string, table: map<string, string>)
    requires table != map[]
    ensures name in table ==> Translate(name, "es", table) == table[name]
    ensures name !in table && ToUpper(name) in table ==> Translate(name, "es", table) == table[ToUpper(name)]
    ensures name !in table && ToUpper(name) !in table ==> Translate(name, "es", table) == name
  {
  }

  function TranslateAll(names: seq<string>, lang: string, table: map<string, string>): (r: seq<string>)
    ensures |r| == |names|
    ensures forall i :: 0 <= i < |names| ==> r[i] == Translate(names[i], lang, table)
  {
    seq(|names|, i requires 0 <= i < |names| => Translate(names[i], lang, table))
  }

  // ================================================================ pagination

  /** One page of a listing, with the size of the whole filtered listing. */
  datatype Page<T> = Page(items: seq<T>, total: int, page: int, pageSize: int)

  /** `rows[start:end]` with `start = (page - 1) * page_size` and `end = start + page_size`. */
  function PageWindow<T>(rows: seq<T>, page: int, pageSize: int): seq<T> {
    var start := (page - 1) * pageSize;
    PySlice(rows, start, start + pageSize)
  }

  /** For a page from 1 on, the window is the rows from `start`, at most `page_size` of them. */
  lemma PageWindowFacts<T>(rows: seq<T>, page: int, pageSize: int)
    requires page >= 1 && pageSize >= 0
    ensures var start := (page - 1) * pageSize;
      var r := PageWindow(rows, page, pageSize);
      && |r| <= pageSize
      && (start >= |rows| ==> r == [])
      && (start < |rows| ==> r == rows[start..if start + pageSize <= |rows| then start + pageSize else |rows|])
  {
    var start := (page - 1) * pageSize;
    assert start >= 0 by {
      MulNonNegative(page - 1, pageSize);
    }
  }

  /**
   * Proof step for `PageWindowFacts`: the product of two non-negative
   * integers is non-negative. Stated apart so that the solver meets the
   * nonlinear fact without the slicing around it.
   */
  lemma MulNonNegative(a: int, b: int)
    requires a >= 0 && b >= 0
    ensures a * b >= 0
  {
  }

  /** Row `k` is item `k % page_size` of page `k / page_size + 1`: every row is on exactly one page. */
  lemma PageOfRow<T>(rows: seq<T>, pageSize: int, k: int)
    requires pageSize >= 1 && 0 <= k < |rows|
    ensures var p := k / pageSize + 1;
      var r := PageWindow(rows, p, pageSize);
      k % pageSize < |r| && r[k % pageSize] == rows[k]
  {
    var p := k / pageSize + 1;
    var start := (p - 1) * pageSize;
    assert start == k - k % pageSize;
    PageWindowFacts(rows, p, pageSize);
  }

  // ================================================================ product catalog

  /** `str(row.values)`: numpy's rendering of the row's stock code and description. */
  function RowText(row: CatalogRow): string {
    "['" + row.stockCode + "' '" + row.description + "']"
  }

  /** `search.lower() in str(row.values).lower()` */
  predicate RowMatches(row: CatalogRow, search: string) {
    Contains(ToLower(RowText(row)), ToLower(search))
  }

  function TranslateRow(row: CatalogRow, lang: string, table: map<string, string>): CatalogRow {
    CatalogRow(row.stockCode, Translate(row.description, lang, table))
  }

  /** The catalog rows `get_products` counts: translated, then filtered by a non-empty search. */
  function CatalogMatches(rows: seq<CatalogRow>, search: string, lang: string, table: map<string, string>): seq<CatalogRow> {
    var shown := MapSeq(rows, (row: CatalogRow) => TranslateRow(row, lang, table));
    if search == "" then shown else Filter(shown, (row: CatalogRow) => RowMatches(row, search))
  }

  /** `get_products` */
  function GetProducts(catalog: Option<seq<CatalogRow>>, page: int, pageSize: int, search: string,
                       lang: string, table: map<string, string>): (r: Result<Page<CatalogRow>, HttpError>)
    ensures catalog.None? ==> r == Err(HttpError(503, "Product catalog not loaded"))
    ensures catalog.Some? ==> r.Ok? && r.value.page == page && r.value.pageSize == pageSize
  {
    match catalog
    case None => Err(HttpError(503, "Product catalog not loaded"))
    case Some(rows) =>
      var found := CatalogMatches(rows, search, lang, table);
      Ok(Page(PageWindow(found, page, pageSize), |found|, page, pageSize))
  }

  /**
   * The page is the `(page - 1) * page_size` window of the matches, and
   * `total` counts every match: all rows when the search is empty, never
   * more than the catalog. Every listed product is a (translated) catalog
   * row that matches the search, and a page holds at most `page_size`.
   */
  lemma GetProductsFacts(rows: seq<CatalogRow>, page: int, pageSize: int, search: string,
                         lang: string, table: map<string, string>)
    ensures var p := GetProducts(Some(rows), page, pageSize, search, lang, table).value;
      && p.items == PageWindow(CatalogMatches(rows, search, lang, table), page, pageSize)
      && p.total == |CatalogMatches(rows, search, lang, table)|
      && p.total <= |rows|
      && (search == "" ==> p.total == |rows|)
      && (forall k :: 0 <= k < |p.items| ==> exists i :: 0 <= i < |rows| && p.items[k] == TranslateRow(rows[i], lang, table))
      && (search != "" ==> forall k :: 0 <= k < |p.items| ==> RowMatches(p.items[k], search))
      && (lang != "es" ==> forall k :: 0 <= k < |p.items| ==> p.items[k] in rows)
      && (page >= 1 && pageSize >= 0 ==> |p.items| <= pageSize)
  {
    var found := CatalogMatches(rows, search, lang, table);
    CatalogMatchesFacts(rows, search, lang, table);
    WindowMembers(found, page, pageSize);
    var window := PageWindow(found, page, pageSize);
    forall k | 0 <= k < |window|
      ensures exists i :: 0 <= i < |rows| && window[k] == TranslateRow(rows[i], lang, table)
      ensures search != "" ==> RowMatches(window[k], search)
      ensures lang != "es" ==> window[k] in rows
    {
      assert window[k] in found;
    }
    if page >= 1 && pageSize >= 0 {
      PageWindowFacts(found, page, pageSize);
    }
  }

  /** The rows counted are translated catalog rows, matching a non-empty search; with no search, all of them. */
  lemma CatalogMatchesFacts(rows: seq<CatalogRow>, search: string, lang: string, table: map<string, string>)
    ensures var found := CatalogMatches(rows, search, lang, table);
      && |found| <= |rows|
      && (search == "" ==> |found| == |rows|)
      && (forall x :: x in found ==> exists i :: 0 <= i < |rows| && x == TranslateRow(rows[i], lang, table))
      && (search != "" ==> forall x :: x in found ==> RowMatches(x, search))
      && (lang != "es" ==> forall x :: x in found ==> x in rows)
  {
    var shown := MapSeq(rows, (row: CatalogRow) => TranslateRow(row, lang, table));
    var found := CatalogMatches(rows, search, lang, table);
    if search != "" {
      SubseqMembers(found, shown);
    }
    forall x | x in found
      ensures exists i :: 0 <= i < |rows| && x == TranslateRow(rows[i], lang, table)
      ensures lang != "es" ==> x in rows
    {
      assert x in shown;
      var i :| 0 <= i < |shown| && shown[i] == x;
      assert x == TranslateRow(rows[i], lang, table);
    }
  }

  /** Every row of a page window comes from the rows. */
  lemma WindowMembers<T>(rows: seq<T>, page: int, pageSize: int)
    ensures forall k :: 0 <= k < |PageWindow(rows, page, pageSize)| ==> PageWindow(rows, page, pageSize)[k] in rows
  {
    var start := (page - 1) * pageSize;
    var a := SliceBound(start, |rows|);
    var b := SliceBound(start + pageSize, |rows|);
    var w := PageWindow(rows, page, pageSize);
    forall k | 0 <= k < |w| ensures w[k] in rows {
      assert w[k] == rows[a + k];
    }
  }

  /** A row whose stock code contains the search text, ignoring ASCII case, is found. */
  lemma RowMatchesCode(row: CatalogRow, search: string)
    requires Contains(ToLower(row.stockCode), ToLower(search))
    ensures RowMatches(row, search)
  {
    var q := ToLower(search);
    var i := ContainsWitness(ToLower(row.stockCode), q);
    var text := ToLower(RowText(row));
    assert text[2 + i..2 + i + |q|] == q by {
      forall k | 0 <= k < |q| ensures text[2 + i + k] == q[k] {
        assert RowText(row)[2 + i + k] == row.stockCode[i + k];
      }
    }
    ContainsAt(text, q, 2 + i);
  }

  /** A row whose description contains the search text, ignoring ASCII case, is found. */
  lemma RowMatchesDescription(row: CatalogRow, search: string)
    requires Contains(ToLower(row.description), ToLower(search))
    ensures RowMatches(row, search)
  {
    var q := ToLower(search);
    var i := ContainsWitness(ToLower(row.description), q);
    var text := ToLower(RowText(row));
    var offset := 2 + |row.stockCode| + 3;
    assert text[offset + i..offset + i + |q|] == q by {
      forall k | 0 <= k < |q| ensures text[offset + i + k] == q[k] {
        assert RowText(row)[offset + i + k] == row.description[i + k];
      }
    }
    ContainsAt(text, q, offset + i);
  }

  /** Searching by a stock code or by the displayed description finds that row. */
  lemma SearchFindsRow(rows: seq<CatalogRow>, i: int, search: string, lang: string, table: map<string, string>)
    requires 0 <= i < |rows|
    requires Contains(ToLower(rows[i].stockCode), ToLower(search))
          || Contains(ToLower(Translate(rows[i].description, lang, table)), ToLower(search))
    ensures TranslateRow(rows[i], lang, table) in CatalogMatches(rows, search, lang, table)
  {
    var row := TranslateRow(rows[i], lang, table);
    if Contains(ToLower(rows[i].stockCode), ToLower(search)) {
      RowMatchesCode(row, search);
    } else {
      RowMatchesDescription(row, search);
    }
    var shown := MapSeq(rows, (r: CatalogRow) => TranslateRow(r, lang, table));
    assert shown[i] == row;
  }

  // ================================================================ association rules

  /** A rule with its index label, which for the mined rules table is its position. */
  datatype IndexedRule = IndexedRule(id: int, rule: Rule)

  /** One rule as `get_association_rules` lists it, with translated itemsets. */
  datatype RuleItem = RuleItem(id: int, antecedents: seq<string>, consequents: seq<string>,
                               support: int, confidence: int, lift: int)

  function Indexed(rules: seq<Rule>): (r: seq<IndexedRule>)
    ensures |r| == |rules|
    ensures forall i :: 0 <= i < |rules| ==> r[i] == IndexedRule(i, rules[i])
  {
    seq(|rules|, i requires 0 <= i < |rules| => IndexedRule(i, rules[i]))
  }

  function ConfidenceKey(x: IndexedRule): Key {
    Key(x.rule.confidence, 0)
  }

  /** The rules kept by `min_confidence` (only when it is positive), by descending confidence. */
  function RulesShown(rules: seq<Rule>, minConfidence: int): seq<IndexedRule> {
    SortDesc(Kept(rules, minConfidence), ConfidenceKey)
  }

  function ToRuleItem(x: IndexedRule, lang: string, table: map<string, string>): RuleItem {
    RuleItem(x.id, TranslateAll(x.rule.antecedents, lang, table), TranslateAll(x.rule.consequents, lang, table),
             x.rule.support, x.rule.confidence, x.rule.lift)
  }

  /** `get_association_rules` */
  function GetAssociationRules(rules: Option<seq<Rule>>, page: int, pageSize: int, minConfidence: int,
                               lang: string, table: map<string, string>): (r: Result<Page<RuleItem>, HttpError>)
    ensures rules.None? ==> r == Err(HttpError(503, "Rules not loaded"))
    ensures rules.Some? ==> r.Ok? && r.value.page == page && r.value.pageSize == pageSize
  {
    match rules
    case None => Err(HttpError(503, "Rules not loaded"))
    case Some(rs) =>
      var shown := RulesShown(rs, minConfidence);
      var window := PageWindow(shown, page, pageSize);
      Ok(Page(MapSeq(window, (x: IndexedRule) => ToRuleItem(x, lang, table)), |shown|, page, pageSize))
  }

  function Kept(rules: seq<Rule>, minConfidence: int): seq<IndexedRule> {
    if minConfidence > 0
    then Filter(Indexed(rules), (x: IndexedRule) => x.rule.confidence >= minConfidence)
    else Indexed(rules)
  }

  /**
   * `total`: all rules, or with a positive `min_confidence` at most that
   * many, and every rule reaching `min_confidence` is in the listing.
   */
  lemma RulesShownTotal(rules: seq<Rule>, minConfidence: int)
    ensures var shown := RulesShown(rules, minConfidence);
      && (minConfidence <= 0 ==> |shown| == |rules|)
      && |shown| <= |rules|
      && (forall i :: 0 <= i < |rules| && rules[i].confidence >= minConfidence ==> IndexedRule(i, rules[i]) in shown)
  {
    var indexed := Indexed(rules);
    var kept := Kept(rules, minConfidence);
    assert RulesShown(rules, minConfidence) == SortDesc(kept, ConfidenceKey);
    SortDescMembers(kept, ConfidenceKey);
    if minConfidence > 0 {
      SubseqMembers(kept, indexed);
    }
    forall i | 0 <= i < |rules| && rules[i].confidence >= minConfidence ensures IndexedRule(i, rules[i]) in kept {
      assert indexed[i] == IndexedRule(i, rules[i]);
    }
  }

  /**
   * Every entry of the listing is a rule with its own index as id, reaching
   * `min_confidence` when that is positive, by descending confidence.
   */
  lemma RulesShownEntries(rules: seq<Rule>, minConfidence: int)
    ensures var shown := RulesShown(rules, minConfidence);
      && (forall k :: 0 <= k < |shown| ==> 0 <= shown[k].id < |rules| && shown[k].rule == rules[shown[k].id])
      && (minConfidence > 0 ==> forall k :: 0 <= k < |shown| ==> shown[k].rule.confidence >= minConfidence)
      && (forall a, b :: 0 <= a < b < |shown| ==> shown[a].rule.confidence >= shown[b].rule.confidence)
  {
    var kept := Kept(rules, minConfidence);
    var shown := RulesShown(rules, minConfidence);
    assert shown == SortDesc(kept, ConfidenceKey);
    SortDescMembers(kept, ConfidenceKey);
    KeptEntries(rules, minConfidence);
    forall k | 0 <= k < |shown|
      ensures 0 <= shown[k].id < |rules| && shown[k].rule == rules[shown[k].id]
      ensures minConfidence > 0 ==> shown[k].rule.confidence >= minConfidence
    {
      assert shown[k] in kept;
    }
    RulesShownOrder(rules, minConfidence);
  }

  /** The listing runs by non-increasing confidence. */
  lemma RulesShownOrder(rules: seq<Rule>, minConfidence: int)
    ensures var shown := RulesShown(rules, minConfidence);
      forall a, b :: 0 <= a < b < |shown| ==> shown[a].rule.confidence >= shown[b].rule.confidence
  {
    var shown := RulesShown(rules, minConfidence);
    assert SortedDesc(shown, ConfidenceKey);
    forall a, b | 0 <= a < b < |shown| ensures shown[a].rule.confidence >= shown[b].rule.confidence {
      assert KeyGe(ConfidenceKey(shown[a]), ConfidenceKey(shown[b]));
    }
  }

  /** What the filter keeps are indexed rules, reaching `min_confidence` when that is positive. */
  lemma KeptEntries(rules: seq<Rule>, minConfidence: int)
    ensures var kept := Kept(rules, minConfidence);
      forall x :: x in kept ==> 0 <= x.id < |rules| && x.rule == rules[x.id] && (minConfidence > 0 ==> x.rule.confidence >= minConfidence)
  {
    var indexed := Indexed(rules);
    var kept := Kept(rules, minConfidence);
    if minConfidence > 0 {
      SubseqMembers(kept, indexed);
    }
    forall x | x in kept ensures 0 <= x.id < |rules| && x.rule == rules[x.id] && (minConfidence > 0 ==> x.rule.confidence >= minConfidence) {
      var j :| 0 <= j < |kept| && kept[j] == x;
      assert x in indexed;
      var i :| 0 <= i < |indexed| && indexed[i] == x;
    }
  }

  /** `x` lists rule `x.id` of `rules` with its itemsets translated. */
  predicate ListsRule(x: RuleItem, rules: seq<Rule>, lang: string, table: map<string, string>) {
    && 0 <= x.id < |rules|
    && x.antecedents == TranslateAll(rules[x.id].antecedents, lang, table)
    && x.consequents == TranslateAll(rules[x.id].consequents, lang, table)
    && x.support == rules[x.id].support && x.confidence == rules[x.id].confidence && x.lift == rules[x.id].lift
  }

  /**
   * A page is the `(page - 1) * page_size` window of the listing. Every
   * rule on it is the rule with that id, its itemsets translated;
   * with a positive `min_confidence` it reaches that confidence, and a page
   * is ordered by descending confidence.
   */
  lemma GetAssociationRulesEntries(rules: seq<Rule>, page: int, pageSize: int, minConfidence: int,
                                   lang: string, table: map<string, string>)
    ensures var p := GetAssociationRules(Some(rules), page, pageSize, minConfidence, lang, table).value;
      && p.items == MapSeq(PageWindow(RulesShown(rules, minConfidence), page, pageSize), (x: IndexedRule) => ToRuleItem(x, lang, table))
      && (forall k :: 0 <= k < |p.items| ==> ListsRule(p.items[k], rules, lang, table))
      && (minConfidence > 0 ==> forall k :: 0 <= k < |p.items| ==> p.items[k].confidence >= minConfidence)
      && (forall a, b :: 0 <= a < b < |p.items| ==> p.items[a].confidence >= p.items[b].confidence)
  {
    var shown := RulesShown(rules, minConfidence);
    RulesShownEntries(rules, minConfidence);
    PageItems(shown, rules, page, pageSize, minConfidence, lang, table);
  }

  lemma PageItems(shown: seq<IndexedRule>, rules: seq<Rule>, page: int, pageSize: int, minConfidence: int,
                  lang: string, table: map<string, string>)
    requires forall k :: 0 <= k < |shown| ==> 0 <= shown[k].id < |rules| && shown[k].rule == rules[shown[k].id]
    requires minConfidence > 0 ==> forall k :: 0 <= k < |shown| ==> shown[k].rule.confidence >= minConfidence
    requires forall a, b :: 0 <= a < b < |shown| ==> shown[a].rule.confidence >= shown[b].rule.confidence
    ensures var items := MapSeq(PageWindow(shown, page, pageSize), (x: IndexedRule) => ToRuleItem(x, lang, table));
      && (forall k :: 0 <= k < |items| ==> ListsRule(items[k], rules, lang, table))
      && (minConfidence > 0 ==> forall k :: 0 <= k < |items| ==> items[k].confidence >= minConfidence)
      && (forall a, b :: 0 <= a < b < |items| ==> items[a].confidence >= items[b].confidence)
  {
    var window := PageWindow(shown, page, pageSize);
    var start := SliceBound((page - 1) * pageSize, |shown|);
    assert forall k :: 0 <= k < |window| ==> window[k] == shown[start + k];
  }

  /** `total` counts the whole listing, not the page, and a page holds at most `page_size` rules. */
  lemma GetAssociationRulesSize(rules: seq<Rule>, page: int, pageSize: int, minConfidence: int,
                                lang: string, table: map<string, string>)
    ensures var p := GetAssociationRules(Some(rules), page, pageSize, minConfidence, lang, table).value;
      && p.total == |RulesShown(rules, minConfidence)|
      && (page >= 1 && pageSize >= 0 ==> |p.items| <= pageSize)
  {
    if page >= 1 && pageSize >= 0 {
      PageWindowFacts(RulesShown(rules, minConfidence), page, pageSize);
    }
  }

  // ================================================================ users

  /** `get_users`: one page of the user ids in index order. */
  function GetUsers(matrix: Option<UserItemMatrix>, page: int, pageSize: int): (r: Result<Page<int>, HttpError>)
    ensures matrix.None? ==> r == Err(HttpError(503, "Models not loaded"))
    ensures matrix.Some? ==> r.Ok? && r.value.total == |matrix.value.users|
    ensures matrix.Some? ==> forall k :: 0 <= k < |r.value.items| ==> r.value.items[k] in matrix.value.users
    ensures matrix.Some? && page >= 1 && pageSize >= 0 ==> |r.value.items| <= pageSize
    ensures matrix.Some? ==> r.value.items == PageWindow(matrix.value.users, page, pageSize)
  {
    match matrix
    case None => Err(HttpError(503, "Models not loaded"))
    case Some(m) =>
      var window := PageWindow(m.users, page, pageSize);
      assert page >= 1 && pageSize >= 0 ==> |window| <= pageSize by {
        if page >= 1 && pageSize >= 0 {
          PageWindowFacts(m.users, page, pageSize);
        }
      }
      Ok(Page(window, |m.users|, page, pageSize))
  }

  /**
   * `search_users`: the ids in index order, the first `limit` of them for an
   * empty query, and otherwise those whose decimal form contains the query.
   * The ids travel as `str(u)` and come back as `int(u)`, which is the
   * identity by `ParseIntOfIntToString`.
   */
  function SearchUsers(matrix: Option<UserItemMatrix>, q: string, limit: int): (r: Result<seq<int>, HttpError>)
    requires limit <= 50
    ensures matrix.None? ==> r == Err(HttpError(503, "Models not loaded"))
    ensures matrix.Some? ==> r.Ok?
  {
    match matrix
    case None => Err(HttpError(503, "Models not loaded"))
    case Some(m) =>
      if q == "" then Ok(PySlice(m.users, 0, limit))
      else Ok(PySlice(Filter(m.users, (u: int) => Contains(IntToString(u), q)), 0, limit))
  }

  /**
   * The answer keeps index order, has at most `limit` ids, contains the
   * query in every id when the query is non-empty, is the first `limit`
   * ids for an empty query, and misses no match when `limit` covers all users.
   */
  lemma SearchUsersFacts(m: UserItemMatrix, q: string, limit: int)
    requires limit <= 50
    ensures var r := SearchUsers(Some(m), q, limit).value;
      && IsSubseq(r, m.users)
      && (limit >= 0 ==> |r| <= limit)
      && (q != "" ==> forall k :: 0 <= k < |r| ==> Contains(IntToString(r[k]), q))
      && (q == "" && limit >= 0 ==> r == m.users[..if limit <= |m.users| then limit else |m.users|])
      && (limit >= |m.users| ==> forall u :: u in m.users && Contains(IntToString(u), q) ==> u in r)
  {
    var matches := if q == "" then m.users else Filter(m.users, (u: int) => Contains(IntToString(u), q));
    if q == "" {
      SubseqRefl(m.users);
    }
    assert IsSubseq(matches, m.users);
    var r := PySlice(matches, 0, limit);
    HeadOf(matches, limit);
    SubseqMembers(matches, m.users);
    var k := |r|;
    assert r == matches[..k];
    SubseqPrefix(matches, k);
    SubseqTransitive(r, matches, m.users);
    if limit >= |m.users| {
      assert r == matches;
      forall u | u in m.users && Contains(IntToString(u), q) ensures u in r {
        if q == "" {
          assert u in matches;
        } else {
          var i :| 0 <= i < |m.users| && m.users[i] == u;
        }
      }
    }
  }

  // ================================================================ product autocomplete

  /** A product reference as the client receives it: stock code and display name. */
  datatype ProductRef = ProductRef(stockCode: string, productName: string)

  /** The description matches the query, or in Spanish its translation does. */
  predicate AutocompleteHit(row: CatalogRow, q: string, lang: string, table: map<string, string>) {
    || Contains(ToLower(row.description), ToLower(q))
    || (lang == "es" && table != map[] && Contains(ToLower(Translate(row.description, "es", table)), ToLower(q)))
  }

  /** `df[mask].head(limit)` */
  function AutocompleteMatches(rows: seq<CatalogRow>, q: string, limit: int, lang: string, table: map<string, string>): seq<CatalogRow> {
    PySlice(Filter(rows, (row: CatalogRow) => AutocompleteHit(row, q, lang, table)), 0, limit)
  }

  /** `f"{code}_{name}"`, the de-duplication key, built from the untranslated name. */
  function SuggestionKey(row: CatalogRow): string {
    row.stockCode + "_" + row.description
  }

  function Suggest(row: CatalogRow, lang: string, table: map<string, string>): ProductRef {
    ProductRef(row.stockCode, Translate(row.description, lang, table))
  }

  /** The result loop from a given `seen` set: the first row of each key not yet seen. */
  function SuggestionsFrom(rows: seq<CatalogRow>, seen: set<string>, lang: string, table: map<string, string>): seq<ProductRef>
    decreases |rows|
  {
    if rows == [] then []
    else if SuggestionKey(rows[0]) in seen then SuggestionsFrom(rows[1..], seen, lang, table)
    else [Suggest(rows[0], lang, table)] + SuggestionsFrom(rows[1..], seen + {SuggestionKey(rows[0])}, lang, table)
  }

  function Autocomplete(rows: seq<CatalogRow>, q: string, limit: int, lang: string, table: map<string, string>): seq<ProductRef> {
    SuggestionsFrom(AutocompleteMatches(rows, q, limit, lang, table), {}, lang, table)
  }

  /** `search_products_autocomplete`; the query validation gives `q` at least one character and `limit <= 30`. */
  method SearchProductsAutocomplete(catalog: Option<seq<CatalogRow>>, q: string, limit: int,
                                    lang: string, table: map<string, string>)
    returns (res: Result<seq<ProductRef>, HttpError>)
    requires |q| >= 1 && limit <= 30
    ensures catalog.None? ==> res == Err(HttpError(503, "Product catalog not loaded"))
    ensures catalog.Some? ==> res == Ok(Autocomplete(catalog.value, q, limit, lang, table))
  {
    if catalog.None? {
      return Err(HttpError(503, "Product catalog not loaded"));
    }
    var matches := AutocompleteMatches(catalog.value, q, limit, lang, table);
    var results: seq<ProductRef> := [];
    var seen: set<string> := {};
    var i := 0;
    while i < |matches|
      invariant 0 <= i <= |matches|
      invariant results + SuggestionsFrom(matches[i..], seen, lang, table) == SuggestionsFrom(matches, {}, lang, table)
    {
      var code := matches[i].stockCode;
      var name := matches[i].description;
      var displayName := Translate(name, lang, table);
      var key := code + "_" + name;
      SuggestionsStep(results, matches, i, seen, lang, table);
      if key !in seen {
        seen := seen + {key};
        results := results + [ProductRef(code, displayName)];
      }
      i := i + 1;
    }
    assert matches[i..] == [];
    assert results == SuggestionsFrom(matches, {}, lang, table);
    return Ok(results);
  }

  /** One step of the result loop: the row at `i` is appended when its key is new. */
  lemma SuggestionsStep(results: seq<ProductRef>, rows: seq<CatalogRow>, i: nat, seen: set<string>,
                        lang: string, table: map<string, string>)
    requires i < |rows|
    ensures var key := SuggestionKey(rows[i]);
      results + SuggestionsFrom(rows[i..], seen, lang, table)
      == if key in seen then results + SuggestionsFrom(rows[i + 1..], seen, lang, table)
         else (results + [Suggest(rows[i], lang, table)]) + SuggestionsFrom(rows[i + 1..], seen + {key}, lang, table)
  {
    assert rows[i..][0] == rows[i] && rows[i..][1..] == rows[i + 1..];
    var key := SuggestionKey(rows[i]);
    if key !in seen {
      var rest := SuggestionsFrom(rows[i + 1..], seen + {key}, lang, table);
      assert SuggestionsFrom(rows[i..], seen, lang, table) == [Suggest(rows[i], lang, table)] + rest;
      assert results + ([Suggest(rows[i], lang, table)] + rest) == (results + [Suggest(rows[i], lang, table)]) + rest;
    }
  }

  /** The result loop is `DedupFrom` on the key, followed by `Suggest`. */
  lemma {:induction false} SuggestionsAreDedup(rows: seq<CatalogRow>, seen: set<string>, lang: string, table: map<string, string>)
    ensures var r := SuggestionsFrom(rows, seen, lang, table);
      var kept := DedupFrom(rows, SuggestionKey, seen);
      |r| == |kept| && forall k :: 0 <= k < |r| ==> r[k] == Suggest(kept[k], lang, table)
    decreases |rows|
  {
    if rows != [] {
      var key := SuggestionKey(rows[0]);
      DedupStep(rows, SuggestionKey, seen);
      if key in seen {
        SuggestionsAreDedup(rows[1..], seen, lang, table);
        assert SuggestionsFrom(rows, seen, lang, table) == SuggestionsFrom(rows[1..], seen, lang, table);
      } else {
        var r := SuggestionsFrom(rows, seen, lang, table);
        var kept := DedupFrom(rows, SuggestionKey, seen);
        var r' := SuggestionsFrom(rows[1..], seen + {key}, lang, table);
        var kept' := DedupFrom(rows[1..], SuggestionKey, seen + {key});
        SuggestionsAreDedup(rows[1..], seen + {key}, lang, table);
        assert r == [Suggest(rows[0], lang, table)] + r';
        forall k | 0 <= k < |r| ensures r[k] == Suggest(kept[k], lang, table) {
          if k > 0 {
            assert r[k] == r'[k - 1] && kept[k] == kept'[k - 1];
          }
        }
      }
    }
  }

  /**
   * The suggestions are the `Suggest` images of `kept`: catalog rows in
   * catalog order that hit the query, no two with the same key, at most
   * `limit`; when `limit` covers the catalog, every hit's key is represented.
   */
  lemma AutocompleteFacts(rows: seq<CatalogRow>, q: string, limit: int, lang: string, table: map<string, string>)
    returns (kept: seq<CatalogRow>)
    ensures var r := Autocomplete(rows, q, limit, lang, table);
      && |r| == |kept|
      && (forall k :: 0 <= k < |r| ==> r[k] == Suggest(kept[k], lang, table))
      && IsSubseq(kept, rows)
      && (forall k :: 0 <= k < |kept| ==> AutocompleteHit(kept[k], q, lang, table))
      && (forall a, b :: 0 <= a < b < |kept| ==> SuggestionKey(kept[a]) != SuggestionKey(kept[b]))
      && (limit >= 0 ==> |r| <= limit)
      && (limit >= |rows| ==> forall i :: 0 <= i < |rows| && AutocompleteHit(rows[i], q, lang, table) ==>
            SuggestionKey(rows[i]) in KeySet(kept, SuggestionKey))
  {
    var matches := AutocompleteMatches(rows, q, limit, lang, table);
    MatchesFacts(rows, q, limit, lang, table);
    kept := DedupFrom(matches, SuggestionKey, {});
    SuggestionsAreDedup(matches, {}, lang, table);
    SubseqTransitive(kept, matches, rows);
    SubseqMembers(kept, matches);
    forall k | 0 <= k < |kept| ensures AutocompleteHit(kept[k], q, lang, table) {
      assert kept[k] in matches;
      var j :| 0 <= j < |matches| && matches[j] == kept[k];
    }
    if limit >= |rows| {
      forall i | 0 <= i < |rows| && AutocompleteHit(rows[i], q, lang, table)
        ensures SuggestionKey(rows[i]) in KeySet(kept, SuggestionKey)
      {
        var j :| 0 <= j < |matches| && matches[j] == rows[i];
        assert SuggestionKey(matches[j]) in KeySet(matches, SuggestionKey);
      }
    }
  }

  /** `df[mask].head(limit)` keeps hits only, in catalog order, at most `limit`, and all of them when `limit` covers the catalog. */
  lemma MatchesFacts(rows: seq<CatalogRow>, q: string, limit: int, lang: string, table: map<string, string>)
    ensures var matches := AutocompleteMatches(rows, q, limit, lang, table);
      && IsSubseq(matches, rows)
      && (forall k :: 0 <= k < |matches| ==> AutocompleteHit(matches[k], q, lang, table))
      && (limit >= 0 ==> |matches| <= limit)
      && (limit >= |rows| ==> forall i :: 0 <= i < |rows| && AutocompleteHit(rows[i], q, lang, table) ==>
            exists j :: 0 <= j < |matches| && matches[j] == rows[i])
  {
    var hits := Filter(rows, (row: CatalogRow) => AutocompleteHit(row, q, lang, table));
    var matches := AutocompleteMatches(rows, q, limit, lang, table);
    HeadOf(hits, limit);
    var n := |matches|;
    assert matches == hits[..n];
    SubseqPrefix(hits, n);
    SubseqTransitive(matches, hits, rows);
    SubseqMembers(hits, rows);
    forall k | 0 <= k < n ensures AutocompleteHit(matches[k], q, lang, table) {
      assert matches[k] == hits[k];
    }
    if limit >= |rows| {
      assert matches == hits;
      forall i | 0 <= i < |rows| && AutocompleteHit(rows[i], q, lang, table)
        ensures exists j :: 0 <= j < |matches| && matches[j] == rows[i]
      {
        assert rows[i] in hits;
      }
    }
  }

  /**
   * The key joins code and name with `_`, so two different rows can share
   * it: code `A_B` named `C` hides code `A` named `B_C`.
   */
  lemma AutocompleteKeyCollision()
    ensures Autocomplete([CatalogRow("A_B", "C"), CatalogRow("A", "B_C")], "C", 10, "en", map[])
         == [ProductRef("A_B", "C")]
  {
    var rows := [CatalogRow("A_B", "C"), CatalogRow("A", "B_C")];
    assert ToLower("C") == "c";
    assert ToLower("B_C") == "b_c";
    assert Contains("c", "c");
    assert Contains("b_c", "c") by {
      ContainsAt("b_c", "c", 2);
    }
    var hits := Filter(rows, (row: CatalogRow) => AutocompleteHit(row, "C", "en", map[]));
    assert hits == rows;
    assert AutocompleteMatches(rows, "C", 10, "en", map[]) == rows;
    assert SuggestionKey(rows[1]) == SuggestionKey(rows[0]);
    assert rows[1..] == [rows[1]];
  }

  // ================================================================ cart-item universe

  /** Python's `sorted` on a set of strings: strictly increasing. */
  predicate StrictlySorted(s: seq<string>) {
    forall i, j :: 0 <= i < j < |s| ==> StrLess(s[i], s[j])
  }

  function Elements(s: seq<string>): set<string> {
    set x | x in s
  }

  /** `all_antecedents` after the loop over `rules`. */
  function Antecedents(rules: seq<Rule>): set<string> {
    if rules == [] then {} else Antecedents(rules[..|rules| - 1]) + Elements(rules[|rules| - 1].antecedents)
  }

  lemma {:induction false} AntecedentsMembers(rules: seq<Rule>, a: string)
    ensures a in Antecedents(rules) <==> exists r :: r in rules && a in r.antecedents
  {
    if rules != [] {
      var init := rules[..|rules| - 1];
      AntecedentsMembers(init, a);
      assert rules == init + [rules[|rules| - 1]];
      if a in Antecedents(rules) && a !in Elements(rules[|rules| - 1].antecedents) {
        var r :| r in init && a in r.antecedents;
        assert r in rules;
      }
    }
  }

  /** Inserts `x` into a strictly sorted sequence, unless it is already there. */
  function InsertSorted(x: string, s: seq<string>): seq<string> {
    if s == [] then [x]
    else if x == s[0] then s
    else if StrLess(x, s[0]) then [x] + s
    else [s[0]] + InsertSorted(x, s[1..])
  }

  /** Insertion adds exactly `x` to the elements. */
  lemma {:induction false} InsertSortedElements(x: string, s: seq<string>)
    ensures Elements(InsertSorted(x, s)) == Elements(s) + {x}
  {
    if s != [] {
      assert s == [s[0]] + s[1..];
      assert Elements(s) == {s[0]} + Elements(s[1..]);
      if x == s[0] {
      } else if StrLess(x, s[0]) {
        assert Elements([x] + s) == {x} + Elements(s);
      } else {
        InsertSortedElements(x, s[1..]);
        var rest := InsertSorted(x, s[1..]);
        assert Elements([s[0]] + rest) == {s[0]} + Elements(rest);
      }
    }
  }

  /** Insertion keeps a strictly sorted sequence strictly sorted. */
  lemma {:induction false} InsertSortedFacts(x: string, s: seq<string>)
    requires StrictlySorted(s)
    ensures StrictlySorted(InsertSorted(x, s))
  {
    if s != [] && x != s[0] {
      if StrLess(x, s[0]) {
        forall j | 0 < j < |s| ensures StrLess(x, s[j]) {
          StrLessTransitive(x, s[0], s[j]);
        }
        var r := [x] + s;
        forall a, b | 0 <= a < b < |r| ensures StrLess(r[a], r[b]) {
          if a > 0 {
            assert r[a] == s[a - 1] && r[b] == s[b - 1];
          }
        }
      } else {
        StrLessTotal(x, s[0]);
        var tail := s[1..];
        assert StrictlySorted(tail) by {
          forall a, b | 0 <= a < b < |tail| ensures StrLess(tail[a], tail[b]) {
            assert tail[a] == s[a + 1] && tail[b] == s[b + 1];
          }
        }
        InsertSortedFacts(x, tail);
        InsertSortedElements(x, tail);
        var rest := InsertSorted(x, tail);
        forall j | 0 <= j < |rest| ensures StrLess(s[0], rest[j]) {
          assert rest[j] in Elements(rest);
          if rest[j] != x {
            var k :| 0 <= k < |tail| && tail[k] == rest[j];
            assert s[k + 1] == rest[j];
          }
        }
        var r := [s[0]] + rest;
        forall a, b | 0 <= a < b < |r| ensures StrLess(r[a], r[b]) {
          if a > 0 {
            assert r[a] == rest[a - 1] && r[b] == rest[b - 1];
          } else {
            assert r[b] == rest[b - 1];
          }
        }
      }
    }
  }

  lemma ElementsEmpty(s: seq<string>)
    ensures Elements(s) == {} <==> s == []
  {
    if s != [] {
      assert s[0] in Elements(s);
    }
  }

  /** A strictly sorted sequence is determined by its elements: `sorted(...)` has one answer. */
  lemma {:induction false} SortedUnique(a: seq<string>, b: seq<string>)
    requires StrictlySorted(a) && StrictlySorted(b) && Elements(a) == Elements(b)
    ensures a == b
    decreases |a|
  {
    if a != [] && b != [] {
      assert a[0] in Elements(b) && b[0] in Elements(a);
      if a[0] != b[0] {
        var i :| 0 <= i < |a| && a[i] == b[0];
        var j :| 0 <= j < |b| && b[j] == a[0];
        assert StrLess(a[0], a[i]) && StrLess(b[0], b[j]);
        StrLessTransitive(a[0], b[0], a[0]);
        StrLessIrreflexive(a[0]);
      }
      forall x ensures x in Elements(a[1..]) <==> x in Elements(b[1..]) {
        if x in Elements(a[1..]) {
          var i :| 0 <= i < |a[1..]| && a[1..][i] == x;
          assert StrLess(a[0], a[i + 1]);
          StrLessIrreflexive(a[0]);
          assert x in Elements(b);
        }
        if x in Elements(b[1..]) {
          var i :| 0 <= i < |b[1..]| && b[1..][i] == x;
          assert StrLess(b[0], b[i + 1]);
          StrLessIrreflexive(b[0]);
          assert x in Elements(a);
        }
      }
      SortedUnique(a[1..], b[1..]);
      assert a == [a[0]] + a[1..] && b == [b[0]] + b[1..];
    } else {
      ElementsEmpty(a);
      ElementsEmpty(b);
    }
  }

  function CodesOf(items: seq<ProductRef>): (r: seq<string>)
    ensures |r| == |items| && forall k :: 0 <= k < |items| ==> r[k] == items[k].stockCode
  {
    seq(|items|, k requires 0 <= k < |items| => items[k].stockCode)
  }

  /** `product_name` for a code: the catalog description or the code, translated. */
  function LabelFor(catalog: Option<seq<CatalogRow>>, code: string, lang: string, table: map<string, string>): string {
    Translate(NameOrCode(catalog, code), lang, table)
  }

  /**
   * `get_available_cart_items`: every antecedent of every rule once, in
   * sorted order, each with its label.
   */
  method GetAvailableCartItems(rules: Option<seq<Rule>>, catalog: Option<seq<CatalogRow>>,
                               lang: string, table: map<string, string>)
    returns (res: Result<seq<ProductRef>, HttpError>)
    ensures rules.None? ==> res == Err(HttpError(503, "Rules not loaded"))
    ensures rules.Some? ==> res.Ok?
    ensures rules.Some? ==> StrictlySorted(CodesOf(res.value))
    ensures rules.Some? ==> forall a :: a in CodesOf(res.value) <==> exists r :: r in rules.value && a in r.antecedents
    ensures rules.Some? ==> forall k :: 0 <= k < |res.value| ==>
                              res.value[k].productName == LabelFor(catalog, res.value[k].stockCode, lang, table)
  {
    if rules.None? {
      return Err(HttpError(503, "Rules not loaded"));
    }
    var rs := rules.value;
    var allAntecedents: set<string> := {};
    var i := 0;
    while i < |rs|
      invariant 0 <= i <= |rs|
      invariant allAntecedents == Antecedents(rs[..i])
    {
      assert rs[..i + 1][..i] == rs[..i];
      allAntecedents := allAntecedents + Elements(rs[i].antecedents);
      i := i + 1;
    }
    assert rs[..i] == rs;
    var codes := SortedCodes(allAntecedents);
    var items := LabelCodes(codes, catalog, lang, table);
    assert CodesOf(items) == codes;
    forall a ensures a in codes <==> exists r :: r in rs && a in r.antecedents {
      AntecedentsMembers(rs, a);
      assert a in codes <==> a in Elements(codes);
    }
    return Ok(items);
  }

  /** `sorted(all_antecedents)` */
  method SortedCodes(all: set<string>) returns (codes: seq<string>)
    ensures StrictlySorted(codes) && Elements(codes) == all
  {
    codes := [];
    var rest := all;
    while rest != {}
      invariant StrictlySorted(codes)
      invariant Elements(codes) + rest == all
      decreases |rest|
    {
      var x :| x in rest;
      InsertSortedFacts(x, codes);
      InsertSortedElements(x, codes);
      codes := InsertSorted(x, codes);
      rest := rest - {x};
    }
  }

  /** The loop that pairs each code with its label. */
  method LabelCodes(codes: seq<string>, catalog: Option<seq<CatalogRow>>, lang: string, table: map<string, string>)
    returns (items: seq<ProductRef>)
    ensures |items| == |codes|
    ensures forall j :: 0 <= j < |codes| ==> items[j] == ProductRef(codes[j], LabelFor(catalog, codes[j], lang, table))
  {
    items := [];
    var k := 0;
    while k < |codes|
      invariant 0 <= k <= |codes|
      invariant |items| == k
      invariant forall j :: 0 <= j < k ==> items[j] == ProductRef(codes[j], LabelFor(catalog, codes[j], lang, table))
    {
      var code := codes[k];
      var name := code;
      if catalog.Some? {
        var desc := Describe(catalog.value, code);
        if desc.Some? {
          name := desc.value;
        }
      }
      items := items + [ProductRef(code, Translate(name, lang, table))];
      k := k + 1;
    }
  }

  // ================================================================ user profile and top products

  /** A purchased or sold product: stock code, label and quantity. */
  datatype ProductItem = ProductItem(stockCode: string, productName: string, quantity: int)

  function QuantityKey(e: Entry): Key {
    Key(e.quantity, 0)
  }

  /** The label loop shared by both handlers: each (code, quantity) with its translated name. */
  method LabelEntries(entries: seq<Entry>, catalog: Option<seq<CatalogRow>>, lang: string, table: map<string, string>)
    returns (items: seq<ProductItem>)
    ensures |items| == |entries|
    ensures forall k :: 0 <= k < |entries| ==>
      items[k] == ProductItem(entries[k].code, LabelFor(catalog, entries[k].code, lang, table), entries[k].quantity)
  {
    items := [];
    var k := 0;
    while k < |entries|
      invariant 0 <= k <= |entries|
      invariant |items| == k
      invariant forall j :: 0 <= j < k ==>
        items[j] == ProductItem(entries[j].code, LabelFor(catalog, entries[j].code, lang, table), entries[j].quantity)
    {
      var code := entries[k].code;
      var name := code;
      if catalog.Some? {
        var desc := Describe(catalog.value, code);
        if desc.Some? {
          name := desc.value;
        }
      }
      items := items + [ProductItem(code, Translate(name, lang, table), entries[k].quantity)];
      k := k + 1;
    }
  }

  function QuantitySum(entries: seq<Entry>): int {
    if entries == [] then 0 else entries[0].quantity + QuantitySum(entries[1..])
  }

  /** The sum of the positive cells of a row. */
  function PositiveSum(row: seq<int>): int {
    if row == [] then 0 else (if row[0] > 0 then row[0] else 0) + PositiveSum(row[1..])
  }

  /** `get_user_profile`'s summary. */
  datatype Profile = Profile(userId: int, totalPurchases: int, uniqueProducts: int, products: seq<ProductItem>)

  /** `get_user_profile` */
  method GetUserProfile(matrix: Option<UserItemMatrix>, catalog: Option<seq<CatalogRow>>, userId: int,
                        lang: string, table: map<string, string>)
    returns (res: Result<Profile, HttpError>)
    requires matrix.Some? ==> WellFormed(matrix.value)
    ensures matrix.None? ==> res == Err(HttpError(503, "Models not loaded"))
    ensures matrix.Some? && userId !in matrix.value.users ==> res == Err(HttpError(404, "User not found"))
    ensures matrix.Some? && userId in matrix.value.users ==>
      var m := matrix.value;
      var u := IndexOf(m.users, userId);
      var purchased := Purchased(m, u);
      var top := PySlice(SortDesc(purchased, QuantityKey), 0, 20);
      && res.Ok?
      && res.value.userId == userId
      && res.value.totalPurchases == QuantitySum(purchased)
      && res.value.uniqueProducts == |purchased|
      && |res.value.products| == |top|
      && forall k :: 0 <= k < |top| ==>
           res.value.products[k] == ProductItem(top[k].code, LabelFor(catalog, top[k].code, lang, table), top[k].quantity)
  {
    if matrix.None? {
      return Err(HttpError(503, "Models not loaded"));
    }
    var m := matrix.value;
    if userId !in m.users {
      return Err(HttpError(404, "User not found"));
    }
    var u := IndexOf(m.users, userId);
    var purchased := Purchased(m, u);
    var top := PySlice(SortDesc(purchased, QuantityKey), 0, 20);
    var products := LabelEntries(top, catalog, lang, table);
    return Ok(Profile(userId, QuantitySum(purchased), |purchased|, products));
  }

  lemma {:induction false} FilterPositiveSum(s: seq<Entry>)
    ensures QuantitySum(Filter(s, (e: Entry) => e.quantity > 0))
         == PositiveSum(seq(|s|, i requires 0 <= i < |s| => s[i].quantity))
  {
    if s != [] {
      FilterPositiveSum(s[1..]);
      var q := seq(|s|, i requires 0 <= i < |s| => s[i].quantity);
      assert q[1..] == seq(|s[1..]|, i requires 0 <= i < |s[1..]| => s[1..][i].quantity);
    }
  }

  lemma DistinctCard(s: seq<string>)
    requires Distinct(s)
    ensures |Elements(s)| == |s|
    decreases |s|
  {
    if s != [] {
      DistinctCard(s[1..]);
      assert Elements(s) == {s[0]} + Elements(s[1..]);
      assert s[0] !in Elements(s[1..]);
    }
  }

  /** `sort_values(ascending=False).head(n)` on quantities: the ranking facts in quantity terms. */
  lemma TopByQuantity(s: seq<Entry>, n: int)
    ensures var top := PySlice(SortDesc(s, QuantityKey), 0, n);
      && (n >= 0 ==> |top| <= n)
      && (forall k :: 0 <= k < |top| ==> top[k] in s)
      && (forall a, b :: 0 <= a < b < |top| ==> top[a].quantity >= top[b].quantity)
      && (forall j :: 0 <= j < |s| && s[j] !in top ==> forall k :: 0 <= k < |top| ==> top[k].quantity >= s[j].quantity)
      && (n >= |s| ==> multiset(top) == multiset(s))
  {
    TopOfSorted(s, QuantityKey, n);
    TopOfSortedDominates(s, QuantityKey, n);
    QuantityOrder(s, PySlice(SortDesc(s, QuantityKey), 0, n));
  }

  /** Ranking by `QuantityKey` is ranking by quantity. */
  lemma QuantityOrder(s: seq<Entry>, top: seq<Entry>)
    requires SortedDesc(top, QuantityKey)
    requires forall j :: 0 <= j < |s| && s[j] !in top ==> forall i :: 0 <= i < |top| ==> KeyGe(QuantityKey(top[i]), QuantityKey(s[j]))
    ensures forall a, b :: 0 <= a < b < |top| ==> top[a].quantity >= top[b].quantity
    ensures forall j :: 0 <= j < |s| && s[j] !in top ==> forall k :: 0 <= k < |top| ==> top[k].quantity >= s[j].quantity
  {
    forall a, b | 0 <= a < b < |top| ensures top[a].quantity >= top[b].quantity {
      assert KeyGe(QuantityKey(top[a]), QuantityKey(top[b]));
    }
    forall j, k | 0 <= j < |s| && s[j] !in top && 0 <= k < |top| ensures top[k].quantity >= s[j].quantity {
      assert KeyGe(QuantityKey(top[k]), QuantityKey(s[j]));
    }
  }

  /**
   * The profile's products are bought ones (positive quantity), at most 20,
   * by non-increasing quantity, and none left out bought more than any
   * listed one; all are listed when there are at most 20.
   */
  lemma UserProfileProducts(m: UserItemMatrix, u: nat)
    requires WellFormed(m) && u < |m.users|
    ensures var purchased := Purchased(m, u);
      var top := PySlice(SortDesc(purchased, QuantityKey), 0, 20);
      && |top| <= 20
      && (forall k :: 0 <= k < |top| ==> top[k].quantity > 0 && top[k] in purchased)
      && (forall a, b :: 0 <= a < b < |top| ==> top[a].quantity >= top[b].quantity)
      && (forall j :: 0 <= j < |purchased| && purchased[j] !in top ==>
            forall k :: 0 <= k < |top| ==> top[k].quantity >= purchased[j].quantity)
      && (|purchased| <= 20 ==> multiset(top) == multiset(purchased))
  {
    var purchased := Purchased(m, u);
    TopByQuantity(purchased, 20);
  }

  /**
   * `unique_products` is the number of distinct codes bought and
   * `total_purchases` the sum of the positive cells of the user's row.
   */
  lemma UserProfileTotals(m: UserItemMatrix, u: nat)
    requires WellFormed(m) && u < |m.users|
    ensures |Purchased(m, u)| == |Elements(PurchasedCodes(m, u))|
    ensures QuantitySum(Purchased(m, u)) == PositiveSum(m.quantities[u])
  {
    DistinctCard(PurchasedCodes(m, u));
    var row := RowEntries(m, u);
    FilterPositiveSum(row);
    assert seq(|row|, i requires 0 <= i < |row| => row[i].quantity) == m.quantities[u];
  }

  /** The column sum of product `j` over all users: `user_item_matrix.sum(axis=0)`. */
  function ColumnSum(rows: seq<seq<int>>, j: nat): int {
    if rows == [] then 0 else (if j < |rows[0]| then rows[0][j] else 0) + ColumnSum(rows[1..], j)
  }

  function Totals(m: UserItemMatrix): (r: seq<Entry>)
    requires WellFormed(m)
    ensures |r| == |m.products|
    ensures forall j :: 0 <= j < |r| ==> r[j] == Entry(m.products[j], ColumnSum(m.quantities, j))
  {
    seq(|m.products|, j requires 0 <= j < |m.products| => Entry(m.products[j], ColumnSum(m.quantities, j)))
  }

  /** `get_top_products`; the query validation gives `limit <= 50`. */
  method GetTopProducts(matrix: Option<UserItemMatrix>, catalog: Option<seq<CatalogRow>>, limit: int,
                        lang: string, table: map<string, string>)
    returns (res: Result<seq<ProductItem>, HttpError>)
    requires limit <= 50
    requires matrix.Some? ==> WellFormed(matrix.value)
    ensures matrix.None? ==> res == Err(HttpError(503, "Models not loaded"))
    ensures matrix.Some? ==>
      var top := PySlice(SortDesc(Totals(matrix.value), QuantityKey), 0, limit);
      && res.Ok?
      && |res.value| == |top|
      && forall k :: 0 <= k < |top| ==>
           res.value[k] == ProductItem(top[k].code, LabelFor(catalog, top[k].code, lang, table), top[k].quantity)
  {
    if matrix.None? {
      return Err(HttpError(503, "Models not loaded"));
    }
    var top := PySlice(SortDesc(Totals(matrix.value), QuantityKey), 0, limit);
    var results := LabelEntries(top, catalog, lang, table);
    return Ok(results);
  }

  /**
   * Top products come by non-increasing total, at most `limit` of them, and
   * no product left out sold more than a listed one.
   */
  lemma TopProductsOrder(m: UserItemMatrix, limit: int)
    requires WellFormed(m)
    ensures var totals := Totals(m);
      var top := PySlice(SortDesc(totals, QuantityKey), 0, limit);
      && (limit >= 0 ==> |top| <= limit)
      && (forall a, b :: 0 <= a < b < |top| ==> top[a].quantity >= top[b].quantity)
      && (forall j :: 0 <= j < |m.products| && totals[j] !in top ==>
            forall k :: 0 <= k < |top| ==> top[k].quantity >= ColumnSum(m.quantities, j))
  {
    TopByQuantity(Totals(m), limit);
  }

  /** Each top product carries its own column's total. */
  lemma TopProductsTotals(m: UserItemMatrix, limit: int)
    requires WellFormed(m)
    ensures var top := PySlice(SortDesc(Totals(m), QuantityKey), 0, limit);
      forall k :: 0 <= k < |top| ==> ColumnTotal(m, top[k])
  {
    var totals := Totals(m);
    TopOfSorted(totals, QuantityKey, limit);
    var top := PySlice(SortDesc(totals, QuantityKey), 0, limit);
    assert forall k :: 0 <= k < |top| ==> top[k] in totals;
    TotalsColumns(m, top);
  }

  /** `e` is some column's stock code with that column's total. */
  predicate ColumnTotal(m: UserItemMatrix, e: Entry)
    requires WellFormed(m)
  {
    exists j :: 0 <= j < |m.products| && e.code == m.products[j] && e.quantity == ColumnSum(m.quantities, j)
  }

  /** Entries drawn from the totals each carry their own column's total. */
  lemma TotalsColumns(m: UserItemMatrix, top: seq<Entry>)
    requires WellFormed(m)
    requires forall k :: 0 <= k < |top| ==> top[k] in Totals(m)
    ensures forall k :: 0 <= k < |top| ==> ColumnTotal(m, top[k])
  {
    forall k | 0 <= k < |top| ensures ColumnTotal(m, top[k]) {
      var j :| 0 <= j < |Totals(m)| && Totals(m)[j] == top[k];
    }
  }
}
