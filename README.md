# ecommerce-recsys-engine, modelled in Dafny

This project models the core of an e-commerce recommendation service and of
the dashboard that uses it.

**The backend** is two FastAPI routers.

- `app/api/endpoints.py` answers two requests:
  - `GET /recommend/user/{id}` does collaborative filtering. It takes the five
    users most similar to the customer, collects what they bought and the
    customer did not, and ranks those products by how many neighbours
    bought them.
  - `POST /recommend/association` ranks the association rules whose
    antecedents meet the cart. It walks their consequents and keeps each new
    product once, up to `top_n` of them.
- `app/api/dashboard.py` serves the dashboard:
  - the product catalog, paginated and searchable;
  - the rules listing, filtered by minimum confidence and sorted by it;
  - the user listing and user-id search;
  - product autocomplete;
  - the set of products that can go in a cart (every rule antecedent,
    sorted);
  - a user's purchase profile;
  - the best-selling products.

  Every product name can be translated to Spanish through a lookup table.

**The React client** has these parts:

- `dashboard/src/api.js` builds each request URL. It appends the stored
  locale as `lang=` to every call except health, stats, user listing, user
  search, model info and the distribution. It turns a non-2xx response into
  an error whose message holds the status code.
- `dashboard/src/context/LanguageContext.jsx` holds the locale. It reads the
  locale from browser storage, writes it back after each change, and
  translates keys.
- Three pages, each with its state as a Dafny `class`. Their fields are the
  `useState` slots and their methods are the event handlers:
  - the association rules page, which has the rules table, a client-side
    rule search and a cart simulator with debounced suggestions;
  - the product catalog page;
  - the user recommendations page.

Modules follow the source files:

| module (file) | source |
|---|---|
| `Endpoints` (`endpoints.dfy`) | `app/api/endpoints.py` |
| `Dashboard` (`dashboard.dfy`) | `app/api/dashboard.py` |
| `Data` (`data.dfy`) | the model shapes and lookups both routers share |
| `Api` (`api.dfy`) | `dashboard/src/api.js` |
| `Language` (`language.dfy`) | `dashboard/src/context/LanguageContext.jsx` |
| `RulesPage`, `CatalogPage`, `UserPage` | the three page components |
| `Paging` (`paging.dfy`) | the pagination controls of the rules and catalog pages |
| `Debounce` (`debounce.dfy`) | the debounced-search timers all three pages use |
| `Common`, `Strings`, `Seqs` | general helpers |

The helpers are:

- `Option`/`Result`;
- ASCII case mapping, `trim` and substring search;
- decimal rendering of integers and `parseInt`;
- Python's string order;
- Python slices;
- filtering, de-duplication, and a stable descending sort.

The request model works as follows:

- **Requests are asynchronous.** A handler that fetches returns the
  `Api.Call` it issues. A separate `Resolve…` method applies the outcome
  whenever it arrives, as a `Result` holding the JSON or the error message.
- **Nothing orders or discards responses**, so the last outcome applied
  wins. The model proves the consequences:
  - `RulesPage.OutOfOrderPages`: page 2 is numbered while page 1's rows are on
    screen;
  - `RulesPage.LateSuggestionsShown`: suggestions appear for text that has
    since been shortened;
  - `UserPage.ClearedThenResolved`: a profile reappears after
    `clearSearch`.
- **Debounced search:**
  - The timer handle lives in component state.
  - A keystroke clears the pending timer and arms a new one only when the
    trimmed text is long enough. That means two characters on the rules and
    catalog pages and one on the user page.
  - Time does not pass. A timer runs when `Fire…` is applied.
- **The catalog listing effect** depends on `page`, `activeSearch` and the
  locale. Every handler that changes `page` or `activeSearch` ends with
  `ListingEffect`. It issues the listing request only if one of the two
  changed, which is what React does after the render.

Behaviour of the code that the contracts make explicit:

- **Stale responses apply.** Nothing sequences the requests; see above.
- **No page clamp.** When a new total arrives, the page number is not
  clamped. `Paging.EmptyListing` shows that an empty listing has zero pages
  and that `Next` would go to page 0.
- **Suggestions use the cart captured at the keystroke.** The rules page
  filters suggestions against the cart as it was when the key was pressed.
  Nothing re-filters them when the cart changes later.
- **Manual entry can repeat a code.** Adding a product by hand compares names
  only, so a typed code can duplicate a code already in the cart
  (`RulesPage.ManualEntryDuplicatesCode`).
- **Autocomplete keys can collide.** The key is `code_name`, so two different
  products can share it (`Dashboard.AutocompleteKeyCollision`).
- **`top_n <= 0` still gives one product.** `recommend_association` tests the
  limit only after appending (`Endpoints.NonPositiveTopNStillRecommends`).
- **"Not found" is detected from the text.** The user page classifies an
  error by looking for `404` in the message. A 500 whose status text reads
  `404` also counts as "not found" (`UserPage.StatusTextCanMislead`).

## Model

| member | source | states |
|---|---|---|
| Endpoints.RecommendAssociation | app/api/endpoints.py:107-149 | 503 when the rules are not loaded; otherwise the ranked, de-duplicated walk over the relevant rules |
| Endpoints.RankedRules | app/api/endpoints.py:121-128 | exactly the rules whose antecedents meet the cart, each as often as in the table (a permutation of the filtered rules), ordered by confidence and then lift, both descending |
| Endpoints.AssociationSound | app/api/endpoints.py:130-147 | ranks are 1, 2, …; no recommended product is in the cart; no product appears twice; each product is a consequent of a relevant rule and scores that rule's confidence |
| Endpoints.AssociationBound | app/api/endpoints.py:131-147 | at most `top_n` products for a positive `top_n`, and at most one otherwise |
| Endpoints.NonPositiveTopNStillRecommends | app/api/endpoints.py:136-147 | with `top_n = 0`, one relevant rule still yields one recommendation |
| Endpoints.AssociationScoresNonIncreasing | app/api/endpoints.py:128-147 | the scores of the answer never increase along it |
| Endpoints.AssociationComplete | app/api/endpoints.py:130-147 | an answer shorter than `top_n` names exactly the offered consequents that are not in the cart |
| Endpoints.AssociationBestFirst | app/api/endpoints.py:128-147 | an offered consequent missing from the answer and not in the cart comes from a rule no more confident than any recommendation's score, so a full answer holds the most confident rules' products |
| Endpoints.Neighbours | app/api/endpoints.py:72 | at most five neighbours, each a valid row of the matrix |
| Endpoints.NewRecs | app/api/endpoints.py:77-84 | no repeats; a product is in it exactly when the neighbour bought it and the user did not |
| Endpoints.CandidatesFacts | app/api/endpoints.py:74-85 | a candidate is counted at most once per neighbour, the user never bought it, and some neighbour did |
| Endpoints.CollectCandidates | app/api/endpoints.py:74-85 | the loop appends the neighbours' new purchases in neighbour order |
| Endpoints.ByCountFacts | app/api/endpoints.py:87-89 | each candidate appears exactly once, and counts never increase along the order |
| Endpoints.MostCommonFacts | app/api/endpoints.py:87-89 | exactly `n` distinct candidates (all of them when fewer, none for `n <= 0`), in non-increasing count order, and no candidate left out is counted more often than one kept |
| Endpoints.TopCodesCounts | app/api/endpoints.py:72-89 | the chosen codes are distinct, exactly `top_n` of them or every candidate when fewer, each counted once to five times, in non-increasing count, and none left out is counted more often than one chosen |
| Endpoints.TopCodesSourced | app/api/endpoints.py:74-89 | each chosen code was not bought by the user and was bought by some neighbour |
| Endpoints.Ranked | app/api/endpoints.py:92-103 | one recommendation per code, ranked from 1, with the catalog name and the neighbour count as score |
| Endpoints.FormatRecommendations | app/api/endpoints.py:91-105 | the format loop produces the ranked list |
| Endpoints.RankedFacts | app/api/endpoints.py:93-103 | ranks run from 1, scores lie in 1..5 and do not increase, and the name is the description or `Unknown Product (code)` |
| Endpoints.UserRecommendationsFacts | app/api/endpoints.py:57-105 | the collaborative answer has `top_n` entries (one per candidate when fewer), ranked from 1, scored 1..5 in non-increasing order, named from the catalog, and no candidate left out was recommended by more neighbours than any entry's score |
| Endpoints.RecommendUser | app/api/endpoints.py:57-105 | 503 without the models; 404 for an unknown id; otherwise the recommendations for the user's row |
| Data.Purchased | app/api/dashboard.py:198-199 | the user's cells with a positive quantity: distinct codes, each a matrix column, and every positive cell included |
| Data.PurchasedCodes | app/api/endpoints.py:78-82 | stock codes with a positive quantity in the row, each once |
| Data.PurchasedCodesSound | app/api/endpoints.py:78 | every listed code has a positive quantity in the row |
| Data.PurchasedCodesComplete | app/api/endpoints.py:78 | every column with a positive quantity in the row is listed |
| Data.IndexOf | app/api/endpoints.py:69 | the position of the first occurrence of the id |
| Data.Describe | app/api/endpoints.py:95-101 | `None` exactly when no catalog row has the code; otherwise the description of the first row with that code |
| Data.NameOrCode | app/api/dashboard.py:84-92 | the catalog description when the catalog is loaded and has the code; the code otherwise |
| Dashboard.Translate | app/api/dashboard.py:36-41 | names are unchanged outside Spanish or with an empty table; a translation is the name or a table value |
| Dashboard.TranslateLookupOrder | app/api/dashboard.py:38-40 | in Spanish, the exact name is tried first, then its upper-case form, then the name is kept |
| Dashboard.TranslateAll | app/api/dashboard.py:175-176 | each itemset member is translated in place |
| Dashboard.PageWindowFacts | app/api/dashboard.py:129-131 | page `p` holds at most `page_size` rows, starting at `(p-1)*page_size`; a page past the end is empty |
| Dashboard.PageOfRow | app/api/dashboard.py:129-131 | every row appears on page `k / page_size + 1`, at offset `k % page_size` |
| Dashboard.GetProducts | app/api/dashboard.py:102-148 | 503 without the catalog; otherwise a page echoing `page` and `page_size` |
| Dashboard.GetProductsFacts | app/api/dashboard.py:117-131 | the items are the `iloc[start:end]` window of the matches and `total` their number: all rows when the search is empty, never more than the catalog; items are translated catalog rows that match the search, at most `page_size` of them |
| Dashboard.CatalogMatchesFacts | app/api/dashboard.py:117-128 | the counted rows are translated catalog rows, untranslated outside Spanish, all match a non-empty search, and all rows count when there is none |
| Dashboard.SearchFindsRow | app/api/dashboard.py:124-126 | a row whose code or translated description contains the search (ignoring case) is among the matches |
| Dashboard.GetAssociationRules | app/api/dashboard.py:152-182 | 503 without rules; otherwise a page echoing `page` and `page_size` |
| Dashboard.RulesShownTotal | app/api/dashboard.py:161-166 | all rules when `min_confidence <= 0`; otherwise every rule reaching it is counted, and never more than the whole table |
| Dashboard.RulesShownEntries | app/api/dashboard.py:161-165 | each listed rule is the table's rule with that id, reaches a positive `min_confidence`, and confidence never increases |
| Dashboard.KeptEntries | app/api/dashboard.py:162-163 | the filter keeps table rules under their own index, each reaching a positive `min_confidence` |
| Dashboard.RulesShownOrder | app/api/dashboard.py:165 | the listing runs by non-increasing confidence |
| Dashboard.GetAssociationRulesEntries | app/api/dashboard.py:166-180 | the items are the `iloc[start:end]` window of the sorted listing, each its rule with translated itemsets, meeting the threshold, in descending confidence |
| Dashboard.GetAssociationRulesSize | app/api/dashboard.py:166-169 | `total` is the number of rules kept; a page holds at most `page_size` |
| Dashboard.GetUsers | app/api/dashboard.py:227-247 | 503 without the matrix; `total` is the number of users; the items are the `all_users[start:end]` window, at most `page_size` ids |
| Dashboard.SearchUsers | app/api/dashboard.py:363-370 | 503 without the matrix, otherwise a list |
| Dashboard.SearchUsersFacts | app/api/dashboard.py:372-378 | ids in index order; at most `limit`; each contains `q` in its decimal form; the first `limit` ids when `q` is empty; every match when `limit` covers all users |
| Dashboard.SearchProductsAutocomplete | app/api/dashboard.py:307-359 | 503 without the catalog; otherwise the de-duplicated suggestions of the first `limit` matches, a match being a literal, case-insensitive substring hit (see Left out) |
| Dashboard.MatchesFacts | app/api/dashboard.py:337-346 | the matches are literal substring hits in catalog order, at most `limit`, and every hit when `limit` covers the catalog |
| Dashboard.SuggestionsAreDedup | app/api/dashboard.py:348-357 | the result loop keeps the first row of each `code_name` key, with its name translated |
| Dashboard.AutocompleteFacts | app/api/dashboard.py:336-357 | suggestions come from catalog rows that contain the query as a literal substring, in catalog order; keys never repeat; at most `limit`; every matching key is represented when `limit` covers the catalog |
| Dashboard.AutocompleteKeyCollision | app/api/dashboard.py:354-356 | products `A_B`/`C` and `A`/`B_C` share the key `A_B_C`, so only the first is suggested |
| Dashboard.AntecedentsMembers | app/api/dashboard.py:391-393 | a code is collected exactly when it is an antecedent of some rule |
| Dashboard.InsertSortedFacts | app/api/dashboard.py:397 | insertion keeps the list strictly sorted |
| Dashboard.InsertSortedElements | app/api/dashboard.py:397 | insertion adds exactly the new code to the elements |
| Dashboard.SortedUnique | app/api/dashboard.py:397 | there is only one strictly sorted list of a given set, so the result is `sorted(set)` |
| Dashboard.SortedCodes | app/api/dashboard.py:397 | a strictly sorted list of exactly the given codes |
| Dashboard.LabelCodes | app/api/dashboard.py:396-407 | one item per code, in order, labelled with its translated catalog name or itself |
| Dashboard.GetAvailableCartItems | app/api/dashboard.py:382-409 | 503 without rules; codes strictly sorted; a code is listed exactly when it is some rule's antecedent; each label is its translated name |
| Dashboard.LabelEntries | app/api/dashboard.py:83-97 | each (code, quantity) gets its translated catalog name, in order |
| Dashboard.GetUserProfile | app/api/dashboard.py:186-223 | 503 without the matrix; 404 for an unknown id; otherwise the quantity total, the product count, and the top 20 purchases by quantity |
| Dashboard.TopByQuantity | app/api/dashboard.py:202 | `sort_values(ascending=False).head(n)`: at most `n` entries, in descending quantity, none beaten by a left-out entry, and all of them when `n` covers the list |
| Dashboard.UserProfileProducts | app/api/dashboard.py:199-216 | at most 20 products, all with positive quantity, descending, none beaten by an omitted purchase, and all of them when there are at most 20 |
| Dashboard.UserProfileTotals | app/api/dashboard.py:220-221 | `unique_products` counts the distinct purchased codes; `total_purchases` sums the positive cells of the row |
| Dashboard.Totals | app/api/dashboard.py:81 | one total per product: the sum of its column |
| Dashboard.GetTopProducts | app/api/dashboard.py:72-98 | 503 without the matrix; otherwise the `limit` best sellers by total quantity, labelled |
| Dashboard.TopProductsOrder | app/api/dashboard.py:81 | at most `limit` products, in descending total, none beaten by an omitted product |
| Dashboard.TopProductsTotals | app/api/dashboard.py:81-96 | each listed quantity is the column sum of that product |
| Api.GetLang | dashboard/src/api.js:24-26 | the stored locale when it is present and non-empty, otherwise `en`; never empty |
| Api.GetLangAfterWrite | dashboard/src/context/LanguageContext.jsx:15-17 | reading after a write gives back the written locale, or `en` for the empty string |
| Api.WithLangShape | dashboard/src/api.js:29-32 | the URL is kept as a prefix, followed by `?` or `&` according to whether it already had a query, then `lang=` and the locale |
| Api.WithLangInjective | dashboard/src/api.js:29-32 | different locales give different URLs |
| Api.RequestOf | dashboard/src/api.js:3-21 | the full URL is the base plus the call's URL; POST is used exactly for the association call |
| Api.InsensitiveIgnoresLang | dashboard/src/api.js:36-55 | health, stats, users, model info, distribution and user search carry no locale |
| Api.SensitiveCarriesLang | dashboard/src/api.js:40-62 | every other call carries `lang=<locale>`, so two locales make two requests |
| Api.AssociationBody | dashboard/src/api.js:61-62 | the association call posts the cart and `top_n` to `/recommend/association?lang=…` |
| Api.Outcome | dashboard/src/api.js:3-21 | the JSON exactly on a 2xx status, an error otherwise |
| Api.ErrorNamesStatus | dashboard/src/api.js:5-7 | an error message contains the status code, so a 404's message contains `404` |
| Language.Lookup | dashboard/src/context/LanguageContext.jsx:11-13 | fails exactly for a locale without a table; a non-empty entry wins; otherwise the key |
| Language.LookupFacts | dashboard/src/context/LanguageContext.jsx:11-13 | a translation is a table value or the key, and it is empty only for an empty key |
| Language.LanguageProvider.constructor | dashboard/src/context/LanguageContext.jsx:7-9 | the initial locale is the stored one, or `en` |
| Language.LanguageProvider.SetLanguage | dashboard/src/context/LanguageContext.jsx:20 | only the locale changes |
| Language.LanguageProvider.PersistEffect | dashboard/src/context/LanguageContext.jsx:15-17 | storage gets `app_lang` set to the locale, so reading it back yields the locale |
| Language.LanguageProvider.T | dashboard/src/context/LanguageContext.jsx:11-13 | `t` is the lookup in the current locale |
| Language.ReloadKeepsLanguage | dashboard/src/context/LanguageContext.jsx:7-17 | a chosen locale survives a reload |
| Language.UseLanguage | dashboard/src/context/LanguageContext.jsx:26-31 | the context value inside a provider; the documented error outside one |
| Paging.TotalPages | dashboard/src/pages/AssociationRulesPage.jsx:132 | `Math.ceil(total / size)`: the least page count whose pages hold all rows |
| Paging.TotalPagesOfSize | dashboard/src/pages/ProductCatalogPage.jsx:108 | zero pages exactly for zero rows; at least one otherwise |
| Paging.StaysInRange | dashboard/src/pages/AssociationRulesPage.jsx:336-341 | from a page in range both updates stay in range, an enabled button moves exactly one page, and a disabled button (when not loading) means an edge page |
| Paging.EmptyListing | dashboard/src/pages/ProductCatalogPage.jsx:228-235 | an empty listing has zero pages, both buttons are disabled on page 1, and `next` would go to page 0 |
| Debounce.Initial | dashboard/src/pages/UserRecommendationsPage.jsx:18 | no handle and no pending timer at first |
| Debounce.KeystrokeFacts | dashboard/src/pages/ProductCatalogPage.jsx:63-83 | after a keystroke at most the newly armed timer is pending; without arming none is and the state keeps the old handle |
| Debounce.Fire | dashboard/src/pages/ProductCatalogPage.jsx:69-77 | the pending timer's payload runs exactly when one is pending, and no timer is left pending |
| Debounce.LastKeystrokeWins | dashboard/src/pages/AssociationRulesPage.jsx:65-89 | two keystrokes before the timer runs fire only the second one's search, once |
| RulesPage.AddBySuggestionFacts | dashboard/src/pages/AssociationRulesPage.jsx:91-94 | the cart grows by at most one item at the end; the code is then in it; distinct codes stay distinct; adding again changes nothing |
| RulesPage.AddByNameFacts | dashboard/src/pages/AssociationRulesPage.jsx:101-106 | blank input changes nothing; otherwise the trimmed name is in the cart; names stay distinct up to case; re-adding changes nothing |
| RulesPage.WithoutFacts | dashboard/src/pages/AssociationRulesPage.jsx:112-115 | every item with the code goes; every other item stays, in order |
| RulesPage.ManualEntryDuplicatesCode | dashboard/src/pages/AssociationRulesPage.jsx:101-115 | typing an existing stock code adds a second item with that code, and removing it deletes both |
| RulesPage.NotInCartFacts | dashboard/src/pages/AssociationRulesPage.jsx:75-77 | suggestions are the results whose code is not in the cart, in order; with an empty cart, all of them |
| RulesPage.FilterRulesFacts | dashboard/src/pages/AssociationRulesPage.jsx:140-148 | shown rules keep their order and are exactly those mentioning the lower-cased search; every rule when the search is empty |
| RulesPage.FilterIgnoresCase | dashboard/src/pages/AssociationRulesPage.jsx:142-145 | searches equal up to case show the same rules |
| RulesPage.RulesPage.constructor | dashboard/src/pages/AssociationRulesPage.jsx:11-32 | the initial state of every slot |
| RulesPage.RulesPage.LoadRules | dashboard/src/pages/AssociationRulesPage.jsx:45-53 | loading starts, and rules page `page` is requested with 10 per page |
| RulesPage.RulesPage.ResolveRules | dashboard/src/pages/AssociationRulesPage.jsx:53-61 | success stores rows and total; failure keeps them; loading ends either way |
| RulesPage.RulesPage.PrevPage | dashboard/src/pages/AssociationRulesPage.jsx:336 | the page becomes `max(1, page - 1)` |
| RulesPage.RulesPage.NextPage | dashboard/src/pages/AssociationRulesPage.jsx:340 | the page becomes `min(totalPages, page + 1)` |
| RulesPage.RulesPage.SetRuleSearch | dashboard/src/pages/AssociationRulesPage.jsx:281 | only the rule search changes |
| RulesPage.RulesPage.CartInputChange | dashboard/src/pages/AssociationRulesPage.jsx:65-89 | the input is stored; the pending timer is cleared; a search for the trimmed text, over the current cart, is armed from two characters; shorter text hides the suggestions |
| RulesPage.RulesPage.FireCartTimer | dashboard/src/pages/AssociationRulesPage.jsx:71-73 | the pending search, if any, is issued once |
| RulesPage.RulesPage.ResolveCartSuggestions | dashboard/src/pages/AssociationRulesPage.jsx:72-82 | results not in the captured cart are shown when there are any; a failure empties the list |
| RulesPage.RulesPage.FocusCartInput | dashboard/src/pages/AssociationRulesPage.jsx:184 | focusing the cart box re-opens the suggestions exactly when there are some; nothing else changes |
| RulesPage.RulesPage.AddToCartFromSuggestion | dashboard/src/pages/AssociationRulesPage.jsx:91-99 | the cart gets the item unless its code is present; input, suggestions and results reset |
| RulesPage.RulesPage.AddToCartManual | dashboard/src/pages/AssociationRulesPage.jsx:101-110 | the cart gets the trimmed name unless it is blank or present up to case; the suggestion list itself is kept |
| RulesPage.RulesPage.RemoveFromCart | dashboard/src/pages/AssociationRulesPage.jsx:112-115 | the code's items leave the cart and the results reset |
| RulesPage.RulesPage.GetCartSuggestions | dashboard/src/pages/AssociationRulesPage.jsx:117-123 | no request for an empty cart; otherwise the cart's codes in order with `top_n` 5 |
| RulesPage.RulesPage.ResolveCartSuggestionsRequest | dashboard/src/pages/AssociationRulesPage.jsx:123-129 | success stores the recommendations; failure keeps the previous ones; loading ends |
| RulesPage.TwoKeystrokesOneSearch | dashboard/src/pages/AssociationRulesPage.jsx:65-89 | typing `a` then `ab` issues one search, for `ab` |
| RulesPage.LateSuggestionsShown | dashboard/src/pages/AssociationRulesPage.jsx:65-89 | a search already fired is shown after the input drops below two characters |
| RulesPage.OutOfOrderPages | dashboard/src/pages/AssociationRulesPage.jsx:45-62 | responses resolved in reverse leave page 1's rows under page number 2 |
| CatalogPage.CatalogPage.constructor | dashboard/src/pages/ProductCatalogPage.jsx:10-27 | the initial state of every slot |
| CatalogPage.CatalogPage.LoadProducts | dashboard/src/pages/ProductCatalogPage.jsx:48-51 | loading starts and the listing for `page` and `activeSearch` is requested, 15 per page |
| CatalogPage.CatalogPage.ListingEffect | dashboard/src/pages/ProductCatalogPage.jsx:39-41 | a request goes out exactly when the page or the committed search changed |
| CatalogPage.CatalogPage.ResolveProducts | dashboard/src/pages/ProductCatalogPage.jsx:51-59 | success stores rows and total; failure keeps them; loading ends |
| CatalogPage.CatalogPage.SearchChange | dashboard/src/pages/ProductCatalogPage.jsx:63-83 | only the typed text and the timer change; a search is armed from two trimmed characters; shorter text hides the suggestions |
| CatalogPage.CatalogPage.FireSearchTimer | dashboard/src/pages/ProductCatalogPage.jsx:69-71 | the pending suggestion search, if any, is issued with limit 6 |
| CatalogPage.CatalogPage.ResolveSuggestions | dashboard/src/pages/ProductCatalogPage.jsx:71-76 | the results are shown when there are any; a failure empties the list |
| CatalogPage.CatalogPage.FocusSearchInput | dashboard/src/pages/ProductCatalogPage.jsx:145 | focusing the search box re-opens the suggestions exactly when there are some; nothing else changes |
| CatalogPage.CatalogPage.SelectSuggestion | dashboard/src/pages/ProductCatalogPage.jsx:85-91 | the chosen name is typed and committed on page 1, and listed unless that was already the listing |
| CatalogPage.CatalogPage.HandleSearch | dashboard/src/pages/ProductCatalogPage.jsx:93-98 | the typed text is committed on page 1, and a listing is issued exactly when that changes the dependencies |
| CatalogPage.CatalogPage.ClearSearch | dashboard/src/pages/ProductCatalogPage.jsx:100-106 | everything is cleared to page 1, and listed unless the listing was already page 1 unfiltered |
| CatalogPage.CatalogPage.PrevPage | dashboard/src/pages/ProductCatalogPage.jsx:228 | `max(1, page - 1)`, with a listing exactly when the page moved |
| CatalogPage.CatalogPage.NextPage | dashboard/src/pages/ProductCatalogPage.jsx:234 | `min(totalPages, page + 1)`, with a listing exactly when the page moved |
| CatalogPage.CatalogPage.LanguageChanged | dashboard/src/pages/ProductCatalogPage.jsx:39-41 | a change of locale always re-lists the current page and committed search |
| CatalogPage.TypingDoesNotReachListing | dashboard/src/pages/ProductCatalogPage.jsx:39-83 | typed text is never listed until it is committed |
| CatalogPage.ResubmitIssuesNothing | dashboard/src/pages/ProductCatalogPage.jsx:93-98 | resubmitting the committed search on page 1 issues no request |
| CatalogPage.SubmitRestartsAtFirstPage | dashboard/src/pages/ProductCatalogPage.jsx:63-98 | submitting new text from any page lists page 1 of it |
| UserPage.SelectedIdRoundTrip | dashboard/src/pages/UserRecommendationsPage.jsx:55-74 | `parseInt(String(id))` gives back the id, so the id requested is the one chosen |
| UserPage.All | dashboard/src/pages/UserRecommendationsPage.jsx:72-75 | both values exactly when both requests succeed; otherwise the error of a failed one |
| UserPage.NotFoundShown | dashboard/src/pages/UserRecommendationsPage.jsx:78-79 | a 404 from either request is shown as the not-found text |
| UserPage.StatusTextCanMislead | dashboard/src/pages/UserRecommendationsPage.jsx:79 | a 500 whose status text is `404` is also shown as not found |
| UserPage.UserPage.constructor | dashboard/src/pages/UserRecommendationsPage.jsx:7-18 | the initial state of every slot; `top_n` is 5 |
| UserPage.UserPage.UserIdChange | dashboard/src/pages/UserRecommendationsPage.jsx:33-53 | the text is stored; an id search is armed from one trimmed character; empty text hides the suggestions |
| UserPage.UserPage.FireSearchTimer | dashboard/src/pages/UserRecommendationsPage.jsx:39-41 | the pending id search, if any, is issued with limit 8 |
| UserPage.UserPage.ResolveSuggestions | dashboard/src/pages/UserRecommendationsPage.jsx:41-46 | the ids are shown when there are any; a failure empties the list |
| UserPage.UserPage.FocusIdInput | dashboard/src/pages/UserRecommendationsPage.jsx:123 | focusing the id box re-opens the suggestions exactly when there are some; nothing else changes |
| UserPage.UserPage.SelectUser | dashboard/src/pages/UserRecommendationsPage.jsx:55-59 | the id's decimal text fills the box and the suggestions close |
| UserPage.UserPage.SetTopN | dashboard/src/pages/UserRecommendationsPage.jsx:165 | only `top_n` changes |
| UserPage.UserPage.Search | dashboard/src/pages/UserRecommendationsPage.jsx:61-75 | blank text does nothing; otherwise the page resets and both requests go out for the parsed id |
| UserPage.UserPage.ResolveSearch | dashboard/src/pages/UserRecommendationsPage.jsx:76-82 | both bodies stored on success; on failure the classified error; loading always ends |
| UserPage.UserPage.LanguageChanged | dashboard/src/pages/UserRecommendationsPage.jsx:86-90 | a refetch goes out exactly while a profile is shown and the box is non-empty |
| UserPage.UserPage.ResolveReload | dashboard/src/pages/UserRecommendationsPage.jsx:91-94 | success replaces profile and recommendations; failure leaves them |
| UserPage.UserPage.ClearSearch | dashboard/src/pages/UserRecommendationsPage.jsx:98-105 | the box, profile, recommendations, error and suggestions are cleared |
| UserPage.SelectThenSearch | dashboard/src/pages/UserRecommendationsPage.jsx:55-75 | selecting an id and searching requests that id's profile and recommendations |
| UserPage.ClearedThenResolved | dashboard/src/pages/UserRecommendationsPage.jsx:61-105 | a search resolving after `clearSearch` shows the profile with an empty box |

## Left out

- Statistics, model information and the recommendation distribution (`get_dashboard_stats`, `get_model_info`, `get_recommendation_distribution`) are not modelled. They compute floating-point aggregates and fixed numbers. On the pages, the `getStats` calls and the catalog page's top-products and stats effect only feed display panels, so they are not modelled as page state.
- Module-level model loading is not modelled. Pickles, file I/O and printing become `Option` parameters, and the translation table becomes a map parameter.
- Floating-point values are not modelled. Support, confidence and lift become integer keys, and `round(…)` in the responses is not modelled.
- `corr_matrix` and `argsort` are given as `neighbourOrder`. Ties in `argsort` are therefore whatever order that input fixes.
- The iteration order of frozensets is given as the sequence order of each `Rule`'s itemsets.
- pandas `sort_values` on one column is not stable. The model sorts stably. The proved properties hold for every order of ties except the exact order of equal keys.
- Dashboard.RowMatches: `str(row.values)` is approximated as `['code' 'description']`. numpy's repr of longer rows, and of catalog columns other than the code and description, is not modelled.
- Dashboard.SearchProductsAutocomplete: column detection (`stock_col`/`desc_col`) is taken as the catalog's code and description. The `NaN` handling of `astype(str)` and `na=False` is not modelled.
- Dashboard.GetProducts: item dictionaries hold the code and description only. The per-column `NaN`/numpy conversion is not modelled.
- Dashboard.SearchProductsAutocomplete, Dashboard.SearchUsers, Dashboard.GetTopProducts: the query-parameter bounds (`min_length=1`, `le=30`, `le=50`) become preconditions. FastAPI rejects other values with 422 before the handler runs.
- Dashboard.SearchProductsAutocomplete: the query is matched as a literal substring, but pandas' `str.contains` reads it as a regular expression. Queries with metacharacters (`.`, `|`, `*`) therefore match other rows in the source. An invalid pattern (`(`, `c++`) raises `re.error` there, which the server turns into a 500. The model returns an ordinary list for both.
- Dashboard.AutocompleteHit: a literal, ASCII case-insensitive substring test in place of the regular-expression search, for the reason above.
- MatchesFacts (Dashboard): proved for literal substring hits only. It says nothing about regular-expression matches or the 500 for an invalid pattern.
- AutocompleteFacts (Dashboard): "matching" means a literal substring hit, for the same reason. The proved de-duplication, order and bound facts do not depend on how a row is matched.
- Default argument values are not modelled. On the server these are `page=1`, `page_size=20` (`50` for users), `min_confidence=0.0`, `search=""`, `q=""`, `lang="en"`, `limit=10`, `top_n=5` for `recommend_user` and `top_n=3` for the `AssociationRequest` body; in `api.js` they are `page=1`, `pageSize=20` (`50` for `getUsers`), `search=""`, `minConfidence=0`, `limit=10` and `topN=5`. Every handler and `Api` call takes its arguments explicitly. The pages pass the values the defaults would supply, for example the threshold `0` in `Api.GetRules(page, RulesPageSize, 0)`, so no page behaviour is lost.
- Strings.ToLower, Strings.ToUpper, Strings.Trim: only ASCII case mapping and ASCII whitespace are modelled, not full Unicode. `Dashboard.Translate` uses `ToUpper` in place of Python's Unicode `str.upper()`.
- UserPage.IdSegment: `parseInt` is modelled as skipping leading whitespace, reading an optional sign and then the longest run of decimal digits, with `NaN` when there is no digit. A `0x` prefix is not modelled, and neither is what JavaScript does to ids above 2^53 (rounded) or of at least 1e21 (written with an exponent) before they reach the URL.
- `encodeURIComponent` is modelled as an arbitrary function parameter.
- The network, `fetch` and the times of arrival are not modelled. Each is an outcome handed to a `Resolve…` method, applied in any order the caller chooses.
- Timer delays (300 ms) are not modelled, and neither are click-outside listeners (the inputs' `onFocus` handlers, which re-open the suggestions, are modelled as the `Focus…Input` methods), rendering, the scatter-chart data or the submit-button `disabled` guards. The handlers are modelled without these guards. The buttons' disabled conditions are modelled in `Paging`.
- React's batching of updates within one handler is modelled as sequential assignment. Stale closures are modelled only where they matter: the cart captured by a suggestion timer.
- The `t("userNotFound")` text is passed in as a parameter, because `dashboard/src/translations.js` is not part of this model.
- The order in which the language effect and the data effects run after a locale change is left to the caller.
- Scripts, notebooks, `app/main.py`, the overview and model-performance pages, the sidebar and the app shell are outside the modelled core.
