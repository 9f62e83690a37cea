/**
 * The recommendation router (app/api/endpoints.py): the collaborative
 * filtering endpoint `recommend_user` and the association-rule endpoint
 * `recommend_association`.
 */
module Endpoints {

  import opened Common
  import opened Seqs
  import opened Data

  /** `ProductRecommendation`: position in the answer, product name and score. */
  datatype Recommendation = Recommendation(rank: int, productName: string, score: int)

  /** The body of `POST /recommend/association`. */
  datatype AssociationRequest = AssociationRequest(cartItems: seq<string>, topN: int)

  /**
   * The four models this router loads in one `try` block: when any file is
   * missing all four are `None`, so they are present or absent together.
   * `neighbourOrder[u]` is `corr_matrix[u].argsort()[::-1]`, the users
   * ordered by decreasing similarity to user `u`.
   */
  datatype Models = Models(rules: seq<Rule>, neighbourOrder: seq<seq<int>>, matrix: UserItemMatrix, catalog: seq<CatalogRow>)

  predicate ModelsValid(m: Models) {
    && WellFormed(m.matrix)
    && |m.neighbourOrder| == |m.matrix.users|
    && forall u, k :: 0 <= u < |m.neighbourOrder| && 0 <= k < |m.neighbourOrder[u]| ==>
         0 <= m.neighbourOrder[u][k] < |m.matrix.users|
  }

  // ================================================================ association rules

  /** `len(antecedents.intersection(cart_set)) > 0` */
  predicate Relevant(r: Rule, cart: seq<string>) {
    exists a :: a in r.antecedents && a in cart
  }

  function RuleKey(r: Rule): Key {
    Key(r.confidence, r.lift)
  }

  /** `relevant_rules` once filtered and sorted by confidence, then lift, both descending. */
  function RankedRules(rules: seq<Rule>, cart: seq<string>): (r: seq<Rule>)
    ensures SortedDesc(r, RuleKey)
    ensures forall x :: x in r <==> x in rules && Relevant(x, cart)
    ensures multiset(r) == multiset(Filter(rules, (x: Rule) => Relevant(x, cart)))
  {
    var relevant := Filter(rules, (x: Rule) => Relevant(x, cart));
    var r := SortDesc(relevant, RuleKey);
    SortDescMembers(relevant, RuleKey);
    r
  }

  /** The loop's state: `seen_products` and `recommendations`; `rank` is always `|recs| + 1`. */
  datatype WalkState = WalkState(seen: set<string>, recs: seq<Recommendation>)

  /**
   * The inner loop over one rule's consequents: append every product not
   * yet seen, and stop right after an append that makes `rank > top_n`.
   */
  function ScanConsequents(cons: seq<string>, score: int, st: WalkState, topN: int): WalkState
    decreases |cons|
  {
    if cons == [] then st
    else if cons[0] in st.seen then ScanConsequents(cons[1..], score, st, topN)
    else
      var next := WalkState(st.seen + {cons[0]}, st.recs + [Recommendation(|st.recs| + 1, cons[0], score)]);
      if |next.recs| + 1 > topN then next else ScanConsequents(cons[1..], score, next, topN)
  }

  /** The outer loop over the ranked rules: after each rule, stop when `rank > top_n`. */
  function ScanRules(rules: seq<Rule>, st: WalkState, topN: int): WalkState
    decreases |rules|
  {
    if rules == [] then st
    else
      var next := ScanConsequents(rules[0].consequents, rules[0].confidence, st, topN);
      if |next.recs| + 1 > topN then next else ScanRules(rules[1..], next, topN)
  }

  function CartSet(cart: seq<string>): set<string> {
    set c | c in cart
  }

  /** The list `recommend_association` returns once the rules are loaded. */
  function AssociationRecommendations(rules: seq<Rule>, cart: seq<string>, topN: int): seq<Recommendation> {
    ScanRules(RankedRules(rules, cart), WalkState(CartSet(cart), []), topN).recs
  }

  /** `recommend_association`: 503 without rules, else the ranked de-duplicated walk. */
  method RecommendAssociation(rules: Option<seq<Rule>>, request: AssociationRequest)
    returns (res: Result<seq<Recommendation>, HttpError>)
    ensures rules.None? ==> res == Err(HttpError(503, "Modelo de reglas no cargado"))
    ensures rules.Some? ==> res == Ok(AssociationRecommendations(rules.value, request.cartItems, request.topN))
  {
    if rules.None? {
      return Err(HttpError(503, "Modelo de reglas no cargado"));
    }
    var topN := request.topN;
    var recommendations: seq<Recommendation> := [];
    var relevant := RankedRules(rules.value, request.cartItems);
    var seen := CartSet(request.cartItems);
    var rank := 1;
    ghost var goal := ScanRules(relevant, WalkState(seen, []), topN);
    var i := 0;
    while i < |relevant|
      invariant 0 <= i <= |relevant|
      invariant rank == |recommendations| + 1
      invariant ScanRules(relevant[i..], WalkState(seen, recommendations), topN) == goal
    {
      var consequents := relevant[i].consequents;
      var score := relevant[i].confidence;
      ghost var inner := ScanConsequents(consequents, score, WalkState(seen, recommendations), topN);
      assert relevant[i..][0] == relevant[i] && relevant[i..][1..] == relevant[i + 1..];
      var j := 0;
      while j < |consequents|
        invariant 0 <= j <= |consequents|
        invariant rank == |recommendations| + 1
        invariant ScanConsequents(consequents[j..], score, WalkState(seen, recommendations), topN) == inner
      {
        var product := consequents[j];
        assert consequents[j..][0] == product && consequents[j..][1..] == consequents[j + 1..];
        if product !in seen {
          recommendations := recommendations + [Recommendation(rank, product, score)];
          seen := seen + {product};
          rank := rank + 1;
          if rank > topN {
            break;
          }
        }
        j := j + 1;
      }
      assert WalkState(seen, recommendations) == inner;
      if rank > topN {
        break;
      }
      i := i + 1;
    }
    assert WalkState(seen, recommendations) == goal;
    return Ok(recommendations);
  }

  // ---------------------------------------------------------------- what the walk guarantees

  function NameSet(recs: seq<Recommendation>): set<string> {
    set k | 0 <= k < |recs| :: recs[k].productName
  }

  /** `rec` names a consequent of a relevant rule of `pool` and carries that rule's confidence. */
  predicate Sourced(rec: Recommendation, cart: seq<string>, pool: seq<Rule>) {
    exists r :: r in pool && Relevant(r, cart) && rec.productName in r.consequents && rec.score == r.confidence
  }

  /** What holds of the loop state at every step. */
  predicate WalkInvariant(st: WalkState, cart: seq<string>, pool: seq<Rule>) {
    && (forall k :: 0 <= k < |st.recs| ==> st.recs[k].rank == k + 1)
    && (forall k :: 0 <= k < |st.recs| ==> st.recs[k].productName !in cart)
    && (forall a, b :: 0 <= a < b < |st.recs| ==> st.recs[a].productName != st.recs[b].productName)
    && st.seen == CartSet(cart) + NameSet(st.recs)
    && (forall k :: 0 <= k < |st.recs| ==> Sourced(st.recs[k], cart, pool))
  }

  /** The state after appending product `p`, as the inner loop does. */
  function Append(st: WalkState, p: string, score: int): WalkState {
    WalkState(st.seen + {p}, st.recs + [Recommendation(|st.recs| + 1, p, score)])
  }

  lemma NameSetAppend(recs: seq<Recommendation>, rec: Recommendation)
    ensures NameSet(recs + [rec]) == NameSet(recs) + {rec.productName}
  {
    var r := recs + [rec];
    assert forall k :: 0 <= k < |recs| ==> r[k] == recs[k];
    assert r[|recs|] == rec;
  }

  /** Appending an unseen consequent of a relevant rule keeps the invariant. */
  lemma AppendKeeps(st: WalkState, p: string, rule: Rule, cart: seq<string>, pool: seq<Rule>)
    requires WalkInvariant(st, cart, pool)
    requires rule in pool && Relevant(rule, cart) && p in rule.consequents && p !in st.seen
    ensures WalkInvariant(Append(st, p, rule.confidence), cart, pool)
  {
    var rec := Recommendation(|st.recs| + 1, p, rule.confidence);
    var next := Append(st, p, rule.confidence);
    assert next.recs == st.recs + [rec];
    assert Sourced(rec, cart, pool);
    NameSetAppend(st.recs, rec);
    assert forall k :: 0 <= k < |st.recs| ==> st.recs[k].productName in NameSet(st.recs);
    assert p !in cart;
  }

  lemma {:induction false} ScanConsequentsKeeps(cons: seq<string>, rule: Rule, st: WalkState, cart: seq<string>, pool: seq<Rule>, topN: int)
    requires WalkInvariant(st, cart, pool)
    requires rule in pool && Relevant(rule, cart)
    requires forall p :: p in cons ==> p in rule.consequents
    ensures WalkInvariant(ScanConsequents(cons, rule.confidence, st, topN), cart, pool)
    decreases |cons|
  {
    if cons != [] {
      assert cons[0] in cons;
      if cons[0] in st.seen {
        ScanConsequentsKeeps(cons[1..], rule, st, cart, pool, topN);
      } else {
        var next := Append(st, cons[0], rule.confidence);
        AppendKeeps(st, cons[0], rule, cart, pool);
        assert ScanConsequents(cons, rule.confidence, st, topN)
            == if |next.recs| + 1 > topN then next else ScanConsequents(cons[1..], rule.confidence, next, topN);
        if |next.recs| + 1 <= topN {
          ScanConsequentsKeeps(cons[1..], rule, next, cart, pool, topN);
        }
      }
    }
  }

  lemma {:induction false} ScanRulesKeeps(rules: seq<Rule>, st: WalkState, cart: seq<string>, pool: seq<Rule>, topN: int)
    requires WalkInvariant(st, cart, pool)
    requires forall r :: r in rules ==> r in pool && Relevant(r, cart)
    ensures WalkInvariant(ScanRules(rules, st, topN), cart, pool)
    decreases |rules|
  {
    if rules != [] {
      ScanConsequentsKeeps(rules[0].consequents, rules[0], st, cart, pool, topN);
      var next := ScanConsequents(rules[0].consequents, rules[0].confidence, st, topN);
      if |next.recs| + 1 <= topN {
        ScanRulesKeeps(rules[1..], next, cart, pool, topN);
      }
    }
  }

  /**
   * Every recommendation is a consequent of a loaded rule whose antecedents
   * meet the cart, scored with that rule's confidence; none is in the cart,
   * none repeats, and the ranks are 1, 2, ... in order.
   */
  lemma AssociationSound(rules: seq<Rule>, cart: seq<string>, topN: int)
    ensures var recs := AssociationRecommendations(rules, cart, topN);
      && (forall k :: 0 <= k < |recs| ==> recs[k].rank == k + 1)
      && (forall k :: 0 <= k < |recs| ==> recs[k].productName !in cart)
      && (forall a, b :: 0 <= a < b < |recs| ==> recs[a].productName != recs[b].productName)
      && (forall k :: 0 <= k < |recs| ==> Sourced(recs[k], cart, rules))
  {
    var ranked := RankedRules(rules, cart);
    var init := WalkState(CartSet(cart), []);
    assert NameSet([]) == {};
    ScanRulesKeeps(ranked, init, cart, ranked, topN);
    var recs := AssociationRecommendations(rules, cart, topN);
    forall k | 0 <= k < |recs| ensures Sourced(recs[k], cart, rules) {
      assert Sourced(recs[k], cart, ranked);
    }
  }

  // ---------------------------------------------------------------- size of the answer

  function AtLeastOne(n: int): int {
    if n < 1 then 1 else n
  }

  lemma {:induction false} ScanConsequentsBound(cons: seq<string>, score: int, st: WalkState, topN: int)
    requires |st.recs| < AtLeastOne(topN)
    ensures |st.recs| <= |ScanConsequents(cons, score, st, topN).recs| <= AtLeastOne(topN)
    decreases |cons|
  {
    if cons != [] {
      if cons[0] in st.seen {
        ScanConsequentsBound(cons[1..], score, st, topN);
      } else {
        var next := WalkState(st.seen + {cons[0]}, st.recs + [Recommendation(|st.recs| + 1, cons[0], score)]);
        if |next.recs| + 1 <= topN {
          ScanConsequentsBound(cons[1..], score, next, topN);
        }
      }
    }
  }

  lemma {:induction false} ScanRulesBound(rules: seq<Rule>, st: WalkState, topN: int)
    requires |st.recs| < AtLeastOne(topN)
    ensures |st.recs| <= |ScanRules(rules, st, topN).recs| <= AtLeastOne(topN)
    decreases |rules|
  {
    if rules != [] {
      ScanConsequentsBound(rules[0].consequents, rules[0].confidence, st, topN);
      var next := ScanConsequents(rules[0].consequents, rules[0].confidence, st, topN);
      if |next.recs| + 1 <= topN {
        ScanRulesBound(rules[1..], next, topN);
      }
    }
  }

  /**
   * At most `top_n` recommendations when `top_n >= 1`; because the bound is
   * checked only after an append, `top_n <= 0` still lets one through.
   */
  lemma AssociationBound(rules: seq<Rule>, cart: seq<string>, topN: int)
    ensures topN >= 1 ==> |AssociationRecommendations(rules, cart, topN)| <= topN
    ensures topN <= 0 ==> |AssociationRecommendations(rules, cart, topN)| <= 1
  {
    ScanRulesBound(RankedRules(rules, cart), WalkState(CartSet(cart), []), topN);
  }

  /** A cart `["A"]` and one rule `{A} -> {B, C}` with `top_n = 0` give one recommendation, for `B`. */
  lemma NonPositiveTopNStillRecommends()
    ensures AssociationRecommendations([Rule(["A"], ["B", "C"], 1, 1, 1)], ["A"], 0)
         == [Recommendation(1, "B", 1)]
  {
    var rule := Rule(["A"], ["B", "C"], 1, 1, 1);
    assert Relevant(rule, ["A"]) by {
      assert "A" in rule.antecedents && "A" in ["A"];
    }
    var ranked := RankedRules([rule], ["A"]);
    assert ranked == [rule] by {
      SortDescMembers(Filter([rule], (x: Rule) => Relevant(x, ["A"])), RuleKey);
      assert Filter([rule], (x: Rule) => Relevant(x, ["A"])) == [rule];
    }
    assert CartSet(["A"]) == {"A"};
    assert "B" !in CartSet(["A"]);
  }

  // ---------------------------------------------------------------- order of scores

  predicate ScoresNonIncreasing(recs: seq<Recommendation>) {
    forall a, b :: 0 <= a < b < |recs| ==> recs[a].score >= recs[b].score
  }

  predicate ScoresAtLeast(recs: seq<Recommendation>, c: int) {
    forall k :: 0 <= k < |recs| ==> recs[k].score >= c
  }

  lemma {:induction false} ScanConsequentsScores(cons: seq<string>, score: int, st: WalkState, topN: int)
    requires ScoresNonIncreasing(st.recs) && ScoresAtLeast(st.recs, score)
    ensures var r := ScanConsequents(cons, score, st, topN).recs;
      ScoresNonIncreasing(r) && ScoresAtLeast(r, score)
    decreases |cons|
  {
    if cons != [] {
      if cons[0] in st.seen {
        ScanConsequentsScores(cons[1..], score, st, topN);
      } else {
        var next := WalkState(st.seen + {cons[0]}, st.recs + [Recommendation(|st.recs| + 1, cons[0], score)]);
        assert ScoresNonIncreasing(next.recs) && ScoresAtLeast(next.recs, score);
        if |next.recs| + 1 <= topN {
          ScanConsequentsScores(cons[1..], score, next, topN);
        }
      }
    }
  }

  lemma {:induction false} ScanRulesScores(rules: seq<Rule>, st: WalkState, topN: int)
    requires SortedDesc(rules, RuleKey)
    requires ScoresNonIncreasing(st.recs)
    requires rules != [] ==> ScoresAtLeast(st.recs, rules[0].confidence)
    ensures ScoresNonIncreasing(ScanRules(rules, st, topN).recs)
    decreases |rules|
  {
    if rules != [] {
      ScanConsequentsScores(rules[0].consequents, rules[0].confidence, st, topN);
      var next := ScanConsequents(rules[0].consequents, rules[0].confidence, st, topN);
      if |next.recs| + 1 <= topN {
        if |rules| > 1 {
          assert KeyGe(RuleKey(rules[0]), RuleKey(rules[1]));
          assert rules[1..][0] == rules[1];
        }
        ScanRulesScores(rules[1..], next, topN);
      }
    }
  }

  /** Rules are visited by descending confidence, so scores never increase along the answer. */
  lemma AssociationScoresNonIncreasing(rules: seq<Rule>, cart: seq<string>, topN: int)
    ensures ScoresNonIncreasing(AssociationRecommendations(rules, cart, topN))
  {
    var ranked := RankedRules(rules, cart);
    ScanRulesScores(ranked, WalkState(CartSet(cart), []), topN);
  }

  // ---------------------------------------------------------------- completeness

  lemma {:induction false} ScanConsequentsComplete(cons: seq<string>, score: int, st: WalkState, topN: int)
    ensures var r := ScanConsequents(cons, score, st, topN);
      && st.seen <= r.seen
      && |st.recs| <= |r.recs|
      && (|r.recs| + 1 <= topN ==> forall p :: p in cons ==> p in r.seen)
    decreases |cons|
  {
    if cons != [] {
      if cons[0] in st.seen {
        ScanConsequentsComplete(cons[1..], score, st, topN);
        assert cons == [cons[0]] + cons[1..];
      } else {
        var next := WalkState(st.seen + {cons[0]}, st.recs + [Recommendation(|st.recs| + 1, cons[0], score)]);
        if |next.recs| + 1 <= topN {
          ScanConsequentsComplete(cons[1..], score, next, topN);
          assert cons == [cons[0]] + cons[1..];
        }
      }
    }
  }

  lemma {:induction false} ScanRulesComplete(rules: seq<Rule>, st: WalkState, topN: int)
    ensures var r := ScanRules(rules, st, topN);
      && st.seen <= r.seen
      && |st.recs| <= |r.recs|
      && (|r.recs| + 1 <= topN ==> forall x, p :: x in rules && p in x.consequents ==> p in r.seen)
    decreases |rules|
  {
    if rules != [] {
      ScanConsequentsComplete(rules[0].consequents, rules[0].confidence, st, topN);
      var next := ScanConsequents(rules[0].consequents, rules[0].confidence, st, topN);
      if |next.recs| + 1 <= topN {
        ScanRulesComplete(rules[1..], next, topN);
        assert rules == [rules[0]] + rules[1..];
      }
    }
  }

  /** `p` is a consequent of some loaded rule whose antecedents meet the cart. */
  predicate Offered(p: string, rules: seq<Rule>, cart: seq<string>) {
    exists r :: r in rules && Relevant(r, cart) && p in r.consequents
  }

  /**
   * When the answer is shorter than `top_n`, the walk ran out of rules and
   * the answer names exactly the offered products that are not in the cart.
   */
  lemma AssociationComplete(rules: seq<Rule>, cart: seq<string>, topN: int)
    ensures var recs := AssociationRecommendations(rules, cart, topN);
      |recs| < topN ==> forall p :: p in NameSet(recs) <==> Offered(p, rules, cart) && p !in cart
  {
    var ranked := RankedRules(rules, cart);
    var init := WalkState(CartSet(cart), []);
    assert NameSet([]) == {};
    ScanRulesKeeps(ranked, init, cart, ranked, topN);
    ScanRulesComplete(ranked, init, topN);
    var recs := AssociationRecommendations(rules, cart, topN);
    if |recs| < topN {
      forall p ensures p in NameSet(recs) <==> Offered(p, rules, cart) && p !in cart {
        if p in NameSet(recs) {
          var k :| 0 <= k < |recs| && recs[k].productName == p;
          assert Sourced(recs[k], cart, ranked);
        }
        if Offered(p, rules, cart) && p !in cart {
          var r :| r in rules && Relevant(r, cart) && p in r.consequents;
          assert r in ranked;
        }
      }
    }
  }

  // ---------------------------------------------------------------- best first

  /** The inner loop only appends, and every appended entry carries the rule's score. */
  lemma {:induction false} ScanConsequentsExtends(cons: seq<string>, score: int, st: WalkState, topN: int)
    ensures var r := ScanConsequents(cons, score, st, topN).recs;
      && |st.recs| <= |r|
      && r[..|st.recs|] == st.recs
      && (forall k :: |st.recs| <= k < |r| ==> r[k].score == score)
    decreases |cons|
  {
    if cons != [] {
      if cons[0] in st.seen {
        ScanConsequentsExtends(cons[1..], score, st, topN);
      } else {
        var next := WalkState(st.seen + {cons[0]}, st.recs + [Recommendation(|st.recs| + 1, cons[0], score)]);
        if |next.recs| + 1 <= topN {
          ScanConsequentsExtends(cons[1..], score, next, topN);
          var r := ScanConsequents(cons[1..], score, next, topN).recs;
          assert r[..|next.recs|][..|st.recs|] == r[..|st.recs|];
          assert forall k :: |st.recs| <= k < |next.recs| ==> r[k] == r[..|next.recs|][k];
        }
      }
    }
  }

  /** The outer loop only appends too. */
  lemma {:induction false} ScanRulesExtends(rules: seq<Rule>, st: WalkState, topN: int)
    ensures var r := ScanRules(rules, st, topN).recs;
      |st.recs| <= |r| && r[..|st.recs|] == st.recs
    decreases |rules|
  {
    if rules != [] {
      ScanConsequentsExtends(rules[0].consequents, rules[0].confidence, st, topN);
      var next := ScanConsequents(rules[0].consequents, rules[0].confidence, st, topN);
      if |next.recs| + 1 <= topN {
        ScanRulesExtends(rules[1..], next, topN);
        var r := ScanRules(rules[1..], next, topN).recs;
        assert r[..|next.recs|][..|st.recs|] == r[..|st.recs|];
      }
    }
  }

  /**
   * Walking rules in descending order, a product `p` of a rule `x` that the
   * walk never reached scores no higher than anything the walk appended.
   */
  lemma {:induction false} ScanRulesBestFirst(rules: seq<Rule>, st: WalkState, topN: int, x: Rule, p: string)
    requires SortedDesc(rules, RuleKey)
    requires x in rules && p in x.consequents && p !in ScanRules(rules, st, topN).seen
    ensures var r := ScanRules(rules, st, topN).recs;
      forall k :: |st.recs| <= k < |r| ==> r[k].score >= x.confidence
    decreases |rules|
  {
    var c0 := rules[0].confidence;
    var next := ScanConsequents(rules[0].consequents, c0, st, topN);
    ScanConsequentsExtends(rules[0].consequents, c0, st, topN);
    ScanConsequentsComplete(rules[0].consequents, c0, st, topN);
    assert c0 >= x.confidence by {
      var i :| 0 <= i < |rules| && rules[i] == x;
      if i > 0 {
        assert KeyGe(RuleKey(rules[0]), RuleKey(rules[i]));
      }
    }
    if |next.recs| + 1 <= topN {
      var tail := rules[1..];
      assert SortedDesc(tail, RuleKey) by {
        forall i, j | 0 <= i < j < |tail| ensures KeyGe(RuleKey(tail[i]), RuleKey(tail[j])) {
          assert tail[i] == rules[i + 1] && tail[j] == rules[j + 1];
        }
      }
      ScanRulesComplete(tail, next, topN);
      var r := ScanRules(tail, next, topN);
      assert x != rules[0];
      assert x in tail by {
        assert rules == [rules[0]] + tail;
      }
      ScanRulesBestFirst(tail, next, topN, x, p);
      ScanRulesExtends(tail, next, topN);
      forall k | |st.recs| <= k < |next.recs| ensures r.recs[k].score >= x.confidence {
        assert r.recs[k] == r.recs[..|next.recs|][k] == next.recs[k];
      }
    }
  }

  /**
   * The walk is best first: a product offered by a relevant rule that is
   * neither in the cart nor in the answer came from a rule no more
   * confident than any recommendation made, so a full answer holds the
   * products of the most confident rules.
   */
  lemma AssociationBestFirst(rules: seq<Rule>, cart: seq<string>, topN: int)
    ensures var recs := AssociationRecommendations(rules, cart, topN);
      forall r, p :: r in rules && Relevant(r, cart) && p in r.consequents && p !in cart && p !in NameSet(recs) ==>
        forall k :: 0 <= k < |recs| ==> recs[k].score >= r.confidence
  {
    var ranked := RankedRules(rules, cart);
    var init := WalkState(CartSet(cart), []);
    assert NameSet([]) == {};
    var walk := ScanRules(ranked, init, topN);
    assert walk.seen == CartSet(cart) + NameSet(walk.recs) by {
      ScanRulesKeeps(ranked, init, cart, ranked, topN);
    }
    var recs := AssociationRecommendations(rules, cart, topN);
    assert recs == walk.recs;
    forall r, p | r in rules && Relevant(r, cart) && p in r.consequents && p !in cart && p !in NameSet(recs)
      ensures forall k :: 0 <= k < |recs| ==> recs[k].score >= r.confidence
    {
      assert r in ranked;
      assert p !in walk.seen;
      ScanRulesBestFirst(ranked, init, topN, r, p);
    }
  }

  // ================================================================ collaborative filtering

  /** `argsort()[::-1][1:6]`: up to five users after the most similar one (normally the user itself). */
  function Neighbours(m: Models, u: nat): (r: seq<int>)
    requires ModelsValid(m) && u < |m.matrix.users|
    ensures |r| <= 5
    ensures forall k :: 0 <= k < |r| ==> 0 <= r[k] < |m.matrix.users|
  {
    PySlice(m.neighbourOrder[u], 1, 6)
  }

  /** `new_recs`: what neighbour `v` bought and user `u` did not. */
  function NewRecs(mat: UserItemMatrix, v: nat, u: nat): (r: seq<string>)
    requires WellFormed(mat) && v < |mat.users| && u < |mat.users|
    ensures Distinct(r)
    ensures forall p :: p in r <==> p in PurchasedCodes(mat, v) && p !in PurchasedCodes(mat, u)
  {
    var already := PurchasedCodes(mat, u);
    var r := Filter(PurchasedCodes(mat, v), (p: string) => p !in already);
    SubseqDistinct(r, PurchasedCodes(mat, v));
    r
  }

  /** `recommended_products` once every neighbour's `new_recs` has been appended. */
  function Candidates(mat: UserItemMatrix, ns: seq<int>, u: nat): seq<string>
    requires WellFormed(mat) && u < |mat.users|
    requires forall k :: 0 <= k < |ns| ==> 0 <= ns[k] < |mat.users|
  {
    if ns == [] then [] else NewRecs(mat, ns[0], u) + Candidates(mat, ns[1..], u)
  }

  /**
   * `Counter(pool).most_common()` as codes: the distinct codes in order of
   * first appearance, stably sorted by descending count.
   */
  function ByCount(pool: seq<string>): seq<string> {
    var counts := multiset(pool);
    SortDesc(DedupFrom(pool, (c: string) => c, {}), (c: string) => Key(counts[c], 0))
  }

  /** `[code for code, _ in Counter(pool).most_common(n)]`: the first `n` of them, none when `n <= 0`. */
  function MostCommon(pool: seq<string>, n: int): seq<string> {
    PySlice(ByCount(pool), 0, if n < 0 then 0 else n)
  }

  /** The name `recommend_user` reports: the catalog description, else `Unknown Product (<code>)`. */
  function ProductName(catalog: seq<CatalogRow>, code: string): string {
    match Describe(catalog, code)
    case Some(d) => d
    case None => "Unknown Product (" + code + ")"
  }

  /** `ProductRecommendation(rank=i+1, product_name=name, score=rec_counts[code])` for each code. */
  function Ranked(codes: seq<string>, pool: seq<string>, catalog: seq<CatalogRow>): (r: seq<Recommendation>)
    ensures |r| == |codes|
    ensures forall i :: 0 <= i < |codes| ==>
      r[i] == Recommendation(i + 1, ProductName(catalog, codes[i]), multiset(pool)[codes[i]])
  {
    if codes == [] then []
    else
      var n := |codes|;
      Ranked(codes[..n - 1], pool, catalog) + [Recommendation(n, ProductName(catalog, codes[n - 1]), multiset(pool)[codes[n - 1]])]
  }

  /** The codes `recommend_user` ranks for the user at row `u`. */
  function TopCodes(m: Models, u: nat, topN: int): seq<string>
    requires ModelsValid(m) && u < |m.matrix.users|
  {
    MostCommon(Candidates(m.matrix, Neighbours(m, u), u), topN)
  }

  function UserRecommendations(m: Models, u: nat, topN: int): seq<Recommendation>
    requires ModelsValid(m) && u < |m.matrix.users|
  {
    Ranked(TopCodes(m, u, topN), Candidates(m.matrix, Neighbours(m, u), u), m.catalog)
  }

  /** `recommend_user`: 503 without models, 404 for an unknown id, else the ranked neighbour purchases. */
  method RecommendUser(models: Option<Models>, userId: int, topN: int)
    returns (res: Result<seq<Recommendation>, HttpError>)
    requires models.Some? ==> ModelsValid(models.value)
    ensures models.None? ==> res == Err(HttpError(503, "Modelos no cargados"))
    ensures models.Some? && userId !in models.value.matrix.users ==>
      res == Err(HttpError(404, "Usuario no encontrado"))
    ensures models.Some? && userId in models.value.matrix.users ==>
      res == Ok(UserRecommendations(models.value, IndexOf(models.value.matrix.users, userId), topN))
  {
    if models.None? {
      return Err(HttpError(503, "Modelos no cargados"));
    }
    var m := models.value;
    if userId !in m.matrix.users {
      return Err(HttpError(404, "Usuario no encontrado"));
    }
    var userIdx := IndexOf(m.matrix.users, userId);
    var similar := Neighbours(m, userIdx);
    var recommended := CollectCandidates(m.matrix, similar, userIdx);
    var codes := MostCommon(recommended, topN);
    var results := FormatRecommendations(codes, recommended, m.catalog);
    assert codes == TopCodes(m, userIdx, topN);
    return Ok(results);
  }

  /** The loop over the neighbours that appends each one's `new_recs`. */
  method CollectCandidates(mat: UserItemMatrix, similar: seq<int>, userIdx: nat) returns (recommended: seq<string>)
    requires WellFormed(mat) && userIdx < |mat.users|
    requires forall k :: 0 <= k < |similar| ==> 0 <= similar[k] < |mat.users|
    ensures recommended == Candidates(mat, similar, userIdx)
  {
    recommended := [];
    var i := 0;
    while i < |similar|
      invariant 0 <= i <= |similar|
      invariant recommended + Candidates(mat, similar[i..], userIdx) == Candidates(mat, similar, userIdx)
    {
      CandidatesStep(recommended, mat, similar, i, userIdx);
      recommended := recommended + NewRecs(mat, similar[i], userIdx);
      i := i + 1;
    }
    assert similar[i..] == [];
  }

  /** One turn of the loop: appending neighbour `i`'s new purchases moves it from the rest to the prefix. */
  lemma CandidatesStep(acc: seq<string>, mat: UserItemMatrix, similar: seq<int>, i: nat, userIdx: nat)
    requires WellFormed(mat) && userIdx < |mat.users| && i < |similar|
    requires forall k :: 0 <= k < |similar| ==> 0 <= similar[k] < |mat.users|
    ensures acc + Candidates(mat, similar[i..], userIdx)
         == (acc + NewRecs(mat, similar[i], userIdx)) + Candidates(mat, similar[i + 1..], userIdx)
  {
    var tail := similar[i..];
    assert tail[0] == similar[i] && tail[1..] == similar[i + 1..];
    assert Candidates(mat, tail, userIdx) == NewRecs(mat, tail[0], userIdx) + Candidates(mat, tail[1..], userIdx);
    Regroup(acc, Candidates(mat, tail, userIdx), NewRecs(mat, similar[i], userIdx), Candidates(mat, similar[i + 1..], userIdx));
  }

  /**
   * Proof step for `CandidatesStep`: moving `head` from the front of `whole`
   * onto the end of `acc` keeps the concatenation. Kept apart so that the
   * regrouping is done over plain sequences.
   */
  lemma Regroup<T>(acc: seq<T>, whole: seq<T>, head: seq<T>, rest: seq<T>)
    requires whole == head + rest
    ensures acc + whole == (acc + head) + rest
  {
  }

  /** The loop that turns the top codes into ranked, named recommendations. */
  method FormatRecommendations(codes: seq<string>, recommended: seq<string>, catalog: seq<CatalogRow>)
    returns (results: seq<Recommendation>)
    ensures results == Ranked(codes, recommended, catalog)
  {
    results := [];
    var k := 0;
    while k < |codes|
      invariant 0 <= k <= |codes|
      invariant results == Ranked(codes[..k], recommended, catalog)
    {
      var code := codes[k];
      var name := match Describe(catalog, code)
        case Some(d) => d
        case None => "Unknown Product (" + code + ")";
      assert name == ProductName(catalog, code);
      results := results + [Recommendation(k + 1, name, multiset(recommended)[code])];
      assert codes[..k + 1][..k] == codes[..k];
      k := k + 1;
    }
    assert codes[..k] == codes;
  }

  // ---------------------------------------------------------------- what the ranking guarantees

  lemma {:induction false} CandidatesFacts(mat: UserItemMatrix, ns: seq<int>, u: nat, c: string)
    requires WellFormed(mat) && u < |mat.users|
    requires forall k :: 0 <= k < |ns| ==> 0 <= ns[k] < |mat.users|
    ensures multiset(Candidates(mat, ns, u))[c] <= |ns|
    ensures c in Candidates(mat, ns, u) ==> c !in PurchasedCodes(mat, u)
    ensures c in Candidates(mat, ns, u) ==> exists k :: 0 <= k < |ns| && c in PurchasedCodes(mat, ns[k])
  {
    if ns != [] {
      var head := NewRecs(mat, ns[0], u);
      CandidatesFacts(mat, ns[1..], u, c);
      DistinctCount(head, c);
      assert multiset(Candidates(mat, ns, u)) == multiset(head) + multiset(Candidates(mat, ns[1..], u));
      if c in Candidates(mat, ns, u) && c !in head {
        var k :| 0 <= k < |ns[1..]| && c in PurchasedCodes(mat, ns[1..][k]);
        assert ns[1..][k] == ns[k + 1];
      }
    }
  }

  lemma {:induction false} PermutationDistinct<T>(a: seq<T>, b: seq<T>)
    requires multiset(a) == multiset(b) && Distinct(b)
    ensures Distinct(a)
  {
    forall i, j | 0 <= i < j < |a| ensures a[i] != a[j] {
      if a[i] == a[j] {
        var x := a[i];
        assert a == a[..j] + a[j..];
        assert x in a[..j] && x in a[j..];
        assert multiset(a)[x] == multiset(a[..j])[x] + multiset(a[j..])[x];
        DistinctCount(b, x);
      }
    }
  }

  /** Every code of the pool once, most frequent first. */
  lemma ByCountFacts(pool: seq<string>)
    ensures var r := ByCount(pool);
      && Distinct(r)
      && (forall c :: c in r <==> c in pool)
      && (forall a, b :: 0 <= a < b < |r| ==> multiset(pool)[r[a]] >= multiset(pool)[r[b]])
  {
    var counts := multiset(pool);
    var id := (c: string) => c;
    var key := (c: string) => Key(counts[c], 0);
    var firsts := DedupFrom(pool, id, {});
    var ranked := SortDesc(firsts, key);
    SortDescMembers(firsts, key);
    SubseqMembers(firsts, pool);
    forall c | c in pool ensures c in firsts {
      var i :| 0 <= i < |pool| && pool[i] == c;
      assert id(pool[i]) in KeySet(pool, id);
    }
    PermutationDistinct(ranked, firsts);
    forall a, b | 0 <= a < b < |ranked| ensures counts[ranked[a]] >= counts[ranked[b]] {
      assert KeyGe(key(ranked[a]), key(ranked[b]));
    }
  }

  /**
   * `most_common(n)`: the `n` most frequent codes (all of them when `n`
   * covers every distinct code, none when `n <= 0`), each once, most
   * frequent first, and no code left out occurs more often than one kept.
   */
  lemma MostCommonFacts(pool: seq<string>, n: int)
    ensures var codes := MostCommon(pool, n);
      && |codes| == (if n <= 0 then 0 else if n <= |ByCount(pool)| then n else |ByCount(pool)|)
      && Distinct(codes)
      && (forall c :: c in codes ==> c in pool)
      && (n >= |ByCount(pool)| ==> forall c :: c in pool ==> c in codes)
      && (forall a, b :: 0 <= a < b < |codes| ==> multiset(pool)[codes[a]] >= multiset(pool)[codes[b]])
      && (forall c :: c in pool && c !in codes ==>
            forall k :: 0 <= k < |codes| ==> multiset(pool)[codes[k]] >= multiset(pool)[c])
  {
    var ranked := ByCount(pool);
    ByCountFacts(pool);
    var m := if n < 0 then 0 else n;
    HeadOf(ranked, m);
    var codes := MostCommon(pool, n);
    var len := if m <= |ranked| then m else |ranked|;
    assert codes == ranked[..len];
    forall c | c in pool && c !in codes
      ensures forall k :: 0 <= k < |codes| ==> multiset(pool)[codes[k]] >= multiset(pool)[c]
    {
      var p :| 0 <= p < |ranked| && ranked[p] == c;
      forall k | 0 <= k < |codes| ensures multiset(pool)[codes[k]] >= multiset(pool)[c] {
        assert codes[k] == ranked[k];
      }
    }
  }

  /**
   * The codes `recommend_user` ranks: at most `top_n` (none when it is not
   * positive), distinct, each counted between once and five times in the
   * pool, and in non-increasing count.
   */
  lemma TopCodesCounts(m: Models, u: nat, topN: int)
    requires ModelsValid(m) && u < |m.matrix.users|
    ensures var ns := Neighbours(m, u);
      var pool := Candidates(m.matrix, ns, u);
      var codes := TopCodes(m, u, topN);
      && |codes| == (if topN <= 0 then 0 else if topN <= |ByCount(pool)| then topN else |ByCount(pool)|)
      && Distinct(codes)
      && (forall k :: 0 <= k < |codes| ==> 1 <= multiset(pool)[codes[k]] <= |ns| <= 5)
      && (forall a, b :: 0 <= a < b < |codes| ==> multiset(pool)[codes[a]] >= multiset(pool)[codes[b]])
      && (forall c :: c in pool && c !in codes ==>
            forall k :: 0 <= k < |codes| ==> multiset(pool)[codes[k]] >= multiset(pool)[c])
  {
    var ns := Neighbours(m, u);
    var pool := Candidates(m.matrix, ns, u);
    forall c | c in pool ensures multiset(pool)[c] <= |ns| {
      CandidatesFacts(m.matrix, ns, u, c);
    }
    MostCommonCounts(pool, topN, |ns|);
    assert TopCodes(m, u, topN) == MostCommon(pool, topN);
  }

  /** When no code occurs more than `bound` times, each chosen code occurs between once and `bound` times. */
  lemma MostCommonCounts(pool: seq<string>, n: int, bound: int)
    requires forall c :: c in pool ==> multiset(pool)[c] <= bound
    ensures var codes := MostCommon(pool, n);
      && |codes| == (if n <= 0 then 0 else if n <= |ByCount(pool)| then n else |ByCount(pool)|)
      && Distinct(codes)
      && (forall k :: 0 <= k < |codes| ==> 1 <= multiset(pool)[codes[k]] <= bound)
      && (forall a, b :: 0 <= a < b < |codes| ==> multiset(pool)[codes[a]] >= multiset(pool)[codes[b]])
      && (forall c :: c in pool && c !in codes ==>
            forall k :: 0 <= k < |codes| ==> multiset(pool)[codes[k]] >= multiset(pool)[c])
  {
    var codes := MostCommon(pool, n);
    MostCommonFacts(pool, n);
    forall k | 0 <= k < |codes| ensures 1 <= multiset(pool)[codes[k]] <= bound {
      assert codes[k] in codes;
    }
  }

  /** Each ranked code is one the user never bought and one of the neighbours did. */
  lemma TopCodesSourced(m: Models, u: nat, topN: int)
    requires ModelsValid(m) && u < |m.matrix.users|
    ensures var ns := Neighbours(m, u);
      var codes := TopCodes(m, u, topN);
      && (forall k :: 0 <= k < |codes| ==> codes[k] !in PurchasedCodes(m.matrix, u))
      && (forall k :: 0 <= k < |codes| ==> exists v :: 0 <= v < |ns| && codes[k] in PurchasedCodes(m.matrix, ns[v]))
  {
    var ns := Neighbours(m, u);
    var pool := Candidates(m.matrix, ns, u);
    var codes := TopCodes(m, u, topN);
    MostCommonFacts(pool, topN);
    forall k | 0 <= k < |codes|
      ensures codes[k] !in PurchasedCodes(m.matrix, u)
      ensures exists v :: 0 <= v < |ns| && codes[k] in PurchasedCodes(m.matrix, ns[v])
    {
      assert codes[k] in codes;
      CandidatesFacts(m.matrix, ns, u, codes[k]);
    }
  }

  /**
   * The answer of `recommend_user` has one entry per top code, ranked
   * `i+1`, named by the catalog or `Unknown Product (<code>)`, with scores
   * between 1 and 5 that never increase. It holds `top_n` entries, or one
   * per candidate when there are fewer, and no candidate left out was
   * recommended by more neighbours than an entry's score.
   */
  lemma UserRecommendationsFacts(m: Models, u: nat, topN: int)
    requires ModelsValid(m) && u < |m.matrix.users|
    ensures var pool := Candidates(m.matrix, Neighbours(m, u), u);
      var codes := TopCodes(m, u, topN);
      var recs := UserRecommendations(m, u, topN);
      && |codes| == (if topN <= 0 then 0 else if topN <= |ByCount(pool)| then topN else |ByCount(pool)|)
      && RankedAnswer(recs, codes, m.catalog)
      && (forall c :: c in pool && c !in codes ==>
            forall k :: 0 <= k < |recs| ==> recs[k].score >= multiset(pool)[c])
  {
    var pool := Candidates(m.matrix, Neighbours(m, u), u);
    var codes := TopCodes(m, u, topN);
    TopCodesCounts(m, u, topN);
    RankedFacts(codes, pool, m.catalog);
    assert UserRecommendations(m, u, topN) == Ranked(codes, pool, m.catalog);
  }

  /**
   * One entry per code, ranked from 1, with a score between 1 and 5 that
   * never increases, named by the catalog or `Unknown Product (<code>)`.
   */
  predicate RankedAnswer(recs: seq<Recommendation>, codes: seq<string>, catalog: seq<CatalogRow>) {
    && |recs| == |codes|
    && (forall k :: 0 <= k < |recs| ==> recs[k].rank == k + 1)
    && (forall k :: 0 <= k < |recs| ==> 1 <= recs[k].score <= 5)
    && (forall a, b :: 0 <= a < b < |recs| ==> recs[a].score >= recs[b].score)
    && (forall k :: 0 <= k < |recs| ==>
          recs[k].productName == if Describe(catalog, codes[k]).Some?
                                 then Describe(catalog, codes[k]).value
                                 else "Unknown Product (" + codes[k] + ")")
  }

  lemma RankedFacts(codes: seq<string>, pool: seq<string>, catalog: seq<CatalogRow>)
    requires forall k :: 0 <= k < |codes| ==> 1 <= multiset(pool)[codes[k]] <= 5
    requires forall a, b :: 0 <= a < b < |codes| ==> multiset(pool)[codes[a]] >= multiset(pool)[codes[b]]
    ensures RankedAnswer(Ranked(codes, pool, catalog), codes, catalog)
  {
  }

}
