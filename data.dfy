/**
 * The shapes of the trained models the backend loads at start-up (the
 * association rules table, the user-item matrix and the product catalog)
 * and the lookups both routers perform on them.
 */
module Data {

  import opened Common
  import opened Seqs

  /**
   * One row of the association-rules table. The antecedent and consequent
   * frozensets are given in their iteration order; support, confidence and
   * lift are floating-point numbers in the source and ordered keys here.
   */
  datatype Rule = Rule(antecedents: seq<string>, consequents: seq<string>, support: int, confidence: int, lift: int)

  /** One row of the product catalog, whose index is the stock code. */
  datatype CatalogRow = CatalogRow(stockCode: string, description: string)

  /**
   * The user-item matrix: one row per customer id (the index), one column
   * per stock code, each cell a purchased quantity.
   */
  datatype UserItemMatrix = UserItemMatrix(users: seq<int>, products: seq<string>, quantities: seq<seq<int>>)

  /** A pivot table has one row per user, a full row of cells, and distinct index and column labels. */
  predicate WellFormed(m: UserItemMatrix) {
    && |m.quantities| == |m.users|
    && (forall u :: 0 <= u < |m.quantities| ==> |m.quantities[u]| == |m.products|)
    && Distinct(m.products)
    && Distinct(m.users)
  }

  /** One cell of a matrix row: the column's stock code and the quantity. */
  datatype Entry = Entry(code: string, quantity: int)

  function MapSeq<A, B>(s: seq<A>, f: A -> B): (r: seq<B>)
    ensures |r| == |s| && forall i :: 0 <= i < |s| ==> r[i] == f(s[i])
  {
    seq(|s|, i requires 0 <= i < |s| => f(s[i]))
  }

  lemma {:induction false} SubseqMap<A, B>(a: seq<A>, b: seq<A>, f: A -> B)
    requires IsSubseq(a, b)
    ensures IsSubseq(MapSeq(a, f), MapSeq(b, f))
    decreases |b|
  {
    if a != [] {
      assert MapSeq(a, f)[1..] == MapSeq(a[1..], f);
      assert MapSeq(b, f)[1..] == MapSeq(b[1..], f);
      if a[0] == b[0] && IsSubseq(a[1..], b[1..]) {
        SubseqMap(a[1..], b[1..], f);
      } else {
        SubseqMap(a, b[1..], f);
      }
    }
  }

  function CodeOf(e: Entry): string { e.code }

  /** Row `u` of the matrix as (stock code, quantity) pairs in column order. */
  function RowEntries(m: UserItemMatrix, u: nat): (r: seq<Entry>)
    requires WellFormed(m) && u < |m.users|
    ensures |r| == |m.products|
    ensures forall j :: 0 <= j < |r| ==> r[j] == Entry(m.products[j], m.quantities[u][j])
  {
    seq(|m.products|, j requires 0 <= j < |m.products| => Entry(m.products[j], m.quantities[u][j]))
  }

  /** `row[row > 0]`: the cells of row `u` with a positive quantity, in column order. */
  function Purchased(m: UserItemMatrix, u: nat): (r: seq<Entry>)
    requires WellFormed(m) && u < |m.users|
    ensures forall i :: 0 <= i < |r| ==> r[i].quantity > 0
    ensures Distinct(MapSeq(r, CodeOf))
    ensures forall j :: 0 <= j < |m.products| && m.quantities[u][j] > 0 ==> Entry(m.products[j], m.quantities[u][j]) in r
    ensures forall e :: e in r ==> e.code in m.products
    ensures forall i :: 0 <= i < |r| ==> r[i] in RowEntries(m, u)
  {
    var row := RowEntries(m, u);
    var r := Filter(row, (e: Entry) => e.quantity > 0);
    assert MapSeq(row, CodeOf) == m.products;
    SubseqMap(r, row, CodeOf);
    SubseqDistinct(MapSeq(r, CodeOf), m.products);
    r
  }

  /** `row[row > 0].index.tolist()`: the stock codes row `u` bought. */
  function PurchasedCodes(m: UserItemMatrix, u: nat): (r: seq<string>)
    requires WellFormed(m) && u < |m.users|
    ensures Distinct(r)
    ensures forall c :: c in r <==> exists j :: 0 <= j < |m.products| && m.products[j] == c && m.quantities[u][j] > 0
  {
    var r := MapSeq(Purchased(m, u), CodeOf);
    PurchasedCodesSound(m, u);
    PurchasedCodesComplete(m, u);
    r
  }

  /** Every code listed has a positive quantity in row `u`. */
  lemma PurchasedCodesSound(m: UserItemMatrix, u: nat)
    requires WellFormed(m) && u < |m.users|
    ensures var r := MapSeq(Purchased(m, u), CodeOf);
      forall c :: c in r ==> exists j :: 0 <= j < |m.products| && m.products[j] == c && m.quantities[u][j] > 0
  {
    var p := Purchased(m, u);
    var r := MapSeq(p, CodeOf);
    forall c | c in r ensures exists j :: 0 <= j < |m.products| && m.products[j] == c && m.quantities[u][j] > 0 {
      var i :| 0 <= i < |r| && r[i] == c;
      PurchasedColumn(m, u, i);
    }
  }

  /** The `i`-th purchase comes from a column of row `u` with that code and a positive quantity. */
  lemma PurchasedColumn(m: UserItemMatrix, u: nat, i: nat)
    requires WellFormed(m) && u < |m.users| && i < |Purchased(m, u)|
    ensures exists j :: 0 <= j < |m.products| && m.products[j] == Purchased(m, u)[i].code && m.quantities[u][j] > 0
  {
    var e := Purchased(m, u)[i];
    var row := RowEntries(m, u);
    assert e.quantity > 0 && e in row;
    var j :| 0 <= j < |row| && row[j] == e;
    assert m.products[j] == e.code && m.quantities[u][j] > 0;
  }

  /** Every column with a positive quantity in row `u` is listed. */
  lemma PurchasedCodesComplete(m: UserItemMatrix, u: nat)
    requires WellFormed(m) && u < |m.users|
    ensures var r := MapSeq(Purchased(m, u), CodeOf);
      forall j :: 0 <= j < |m.products| && m.quantities[u][j] > 0 ==> m.products[j] in r
  {
    var p := Purchased(m, u);
    var r := MapSeq(p, CodeOf);
    forall j | 0 <= j < |m.products| && m.quantities[u][j] > 0 ensures m.products[j] in r {
      var e := Entry(m.products[j], m.quantities[u][j]);
      assert e in p;
      var i :| 0 <= i < |p| && p[i] == e;
      assert r[i] == m.products[j];
    }
  }

  /** `list(index).index(x)`: the position of the first occurrence. */
  function IndexOf(s: seq<int>, x: int): (i: nat)
    requires x in s
    ensures i < |s| && s[i] == x
    ensures forall j :: 0 <= j < i ==> s[j] != x
  {
    if s[0] == x then 0 else 1 + IndexOf(s[1..], x)
  }

  /**
   * `product_catalog.loc[code, "Description"]`: the description of the first
   * row with that stock code (a repeated code yields a Series whose first
   * element is taken); `None` stands for the KeyError.
   */
  function Describe(catalog: seq<CatalogRow>, code: string): (r: Option<string>)
    ensures r.None? <==> forall i :: 0 <= i < |catalog| ==> catalog[i].stockCode != code
    ensures r.Some? ==> exists i :: 0 <= i < |catalog| && catalog[i] == CatalogRow(code, r.value)
                                     && forall j :: 0 <= j < i ==> catalog[j].stockCode != code
  {
    if catalog == [] then None
    else if catalog[0].stockCode == code then Some(catalog[0].description)
    else
      var r := Describe(catalog[1..], code);
      assert forall i :: 1 <= i < |catalog| ==> catalog[i] == catalog[1..][i - 1];
      r
  }

  /**
   * The dashboard's product-name resolution: the catalog description when
   * the catalog is loaded and has the code, and the code itself otherwise.
   */
  function NameOrCode(catalog: Option<seq<CatalogRow>>, code: string): (r: string)
    ensures catalog.Some? && Describe(catalog.value, code).Some? ==> r == Describe(catalog.value, code).value
    ensures catalog.None? || Describe(catalog.value, code).None? ==> r == code
  {
    match catalog
    case None => code
    case Some(rows) =>
      match Describe(rows, code)
      case Some(d) => d
      case None => code
  }
}
