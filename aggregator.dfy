/** The figures the report tab, the monthly statement and the share text show:
    month and product filters over the two collections, per-product and
    overall sums, and the profit or loss derived from them. */
module Aggregator {
  import opened Records

  // ---------------------------------------------------------------- filters

  /** `entries.filter(x => x.date.startsWith(month))`; on strings `a <= b`
      says that `a` is a prefix of `b`. */
  function ForMonth<P(==)>(s: seq<Entry<P>>, month: string): (r: seq<Entry<P>>)
    ensures IsSubsequence(r, s)
    ensures forall x :: x in r ==> x in s && month <= x.date
    ensures forall x :: x in s && month <= x.date ==> x in r
    ensures forall x :: x in s ==> multiset(r)[x] == if month <= x.date then multiset(s)[x] else 0
  {
    if s == [] then []
    else
      assert s == [s[0]] + s[1..];
      if month <= s[0].date then [s[0]] + ForMonth(s[1..], month) else ForMonth(s[1..], month)
  }

  /** Filtering twice by the same month is filtering once. */
  lemma {:induction false} ForMonthIdempotent<P>(s: seq<Entry<P>>, month: string)
    ensures ForMonth(ForMonth(s, month), month) == ForMonth(s, month)
  {
    if s != [] {
      ForMonthIdempotent(s[1..], month);
      if month <= s[0].date {
        var r := [s[0]] + ForMonth(s[1..], month);
        assert r[0] == s[0] && r[1..] == ForMonth(s[1..], month);
      }
    }
  }

  /** `entries.filter(x => x.productId === id)` */
  function ForProduct<P>(s: seq<Entry<P>>, id: int): seq<Entry<P>> {
    if s == [] then []
    else if s[0].productId == id then [s[0]] + ForProduct(s[1..], id)
    else ForProduct(s[1..], id)
  }

  // ------------------------------------------------------------------- sums

  /** `h.grossTotal || h.total`: the gross amount, falling back to the net
      amount when the gross is missing or zero. */
  function Revenue(h: Harvest): (r: real)
    ensures h.grossTotal.Some? && h.grossTotal.value != 0.0 ==> r == h.grossTotal.value
    ensures h.grossTotal.None? || h.grossTotal == Some(0.0) ==> r == h.total
    ensures HarvestConsistent(h) && h.kg * h.rate != 0.0 ==> r == h.kg * h.rate
  {
    if h.grossTotal.Some? && h.grossTotal.value != 0.0 then h.grossTotal.value else h.total
  }

  /** The harvest figures that get added up. */
  datatype Column = KgColumn | RevenueColumn | CommissionColumn | NetColumn

  function Value(h: Harvest, c: Column): real {
    match c
    case KgColumn => h.kg
    case RevenueColumn => Revenue(h)
    case CommissionColumn => h.commission.GetOr(0.0)    // `h.commission || 0`
    case NetColumn => h.total
  }

  /** `harvests.reduce((sum, h) => sum + <column of h>, 0)` */
  function HarvestSum(s: seq<HarvestEntry>, c: Column): real {
    if s == [] then 0.0 else Value(s[0].fields, c) + HarvestSum(s[1..], c)
  }

  /** `expenses.reduce((sum, e) => sum + e.total, 0)` */
  function ExpenseSum(s: seq<ExpenseEntry>): real {
    if s == [] then 0.0 else s[0].fields.total + ExpenseSum(s[1..])
  }

  /** Adding up two lists one after the other is adding up each. */
  lemma {:induction false} HarvestSumAppend(a: seq<HarvestEntry>, b: seq<HarvestEntry>, c: Column)
    ensures HarvestSum(a + b, c) == HarvestSum(a, c) + HarvestSum(b, c)
  {
    if a == [] {
      assert a + b == b;
    } else {
      assert (a + b)[0] == a[0] && (a + b)[1..] == a[1..] + b;
      HarvestSumAppend(a[1..], b, c);
    }
  }

  lemma {:induction false} ExpenseSumAppend(a: seq<ExpenseEntry>, b: seq<ExpenseEntry>)
    ensures ExpenseSum(a + b) == ExpenseSum(a) + ExpenseSum(b)
  {
    if a == [] {
      assert a + b == b;
    } else {
      assert (a + b)[0] == a[0] && (a + b)[1..] == a[1..] + b;
      ExpenseSumAppend(a[1..], b);
    }
  }

  /** A sum of non-negative amounts is non-negative. */
  lemma {:induction false} HarvestSumNonNegative(s: seq<HarvestEntry>, c: Column)
    requires forall x :: x in s ==> 0.0 <= Value(x.fields, c)
    ensures 0.0 <= HarvestSum(s, c)
  {
    if s != [] {
      assert s[0] in s;
      assert forall x :: x in s[1..] ==> x in s;
      HarvestSumNonNegative(s[1..], c);
    }
  }

  lemma {:induction false} ExpenseSumNonNegative(s: seq<ExpenseEntry>)
    requires forall x :: x in s ==> 0.0 <= x.fields.total
    ensures 0.0 <= ExpenseSum(s)
  {
    if s != [] {
      assert s[0] in s;
      assert forall x :: x in s[1..] ==> x in s;
      ExpenseSumNonNegative(s[1..]);
    }
  }

  // ---------------------------------------------------------------- figures

  /** One row of a breakdown, or the summary of a whole period. */
  datatype Figures = Figures(kg: real, revenue: real, commission: real, expense: real, profitLoss: real)

  const Zero := Figures(0.0, 0.0, 0.0, 0.0, 0.0)

  function Summarize(h: seq<HarvestEntry>, e: seq<ExpenseEntry>): Figures {
    var revenue := HarvestSum(h, RevenueColumn);
    var commission := HarvestSum(h, CommissionColumn);
    var expense := ExpenseSum(e);
    Figures(HarvestSum(h, KgColumn), revenue, commission, expense, revenue - commission - expense)
  }

  /** The figures of one product. */
  function ProductFigures(h: seq<HarvestEntry>, e: seq<ExpenseEntry>, id: int): Figures {
    Summarize(ForProduct(h, id), ForProduct(e, id))
  }

  /** The figures of two lists of entries put together are the figures of
      each added column by column: a period's summary splits over its parts. */
  lemma SummarizeSplits(h1: seq<HarvestEntry>, e1: seq<ExpenseEntry>, h2: seq<HarvestEntry>, e2: seq<ExpenseEntry>)
    ensures Summarize(h1 + h2, e1 + e2) == Add(Summarize(h1, e1), Summarize(h2, e2))
  {
    HarvestSumAppend(h1, h2, KgColumn);
    HarvestSumAppend(h1, h2, RevenueColumn);
    HarvestSumAppend(h1, h2, CommissionColumn);
    ExpenseSumAppend(e1, e2);
  }

  /** Whether a product appears in a breakdown at all. */
  predicate HasEntries(h: seq<HarvestEntry>, e: seq<ExpenseEntry>, id: int) {
    |ForProduct(h, id)| > 0 || |ForProduct(e, id)| > 0
  }

  /** The products a breakdown lists: those with a harvest or an expense. */
  function Active(ps: seq<Product>, h: seq<HarvestEntry>, e: seq<ExpenseEntry>): seq<Product> {
    if ps == [] then []
    else if HasEntries(h, e, ps[0].id) then [ps[0]] + Active(ps[1..], h, e)
    else Active(ps[1..], h, e)
  }

  /** Exactly the catalog products with a harvest or an expense are listed,
      in catalog order. */
  lemma {:induction false} ActiveIsProductsWithEntries(ps: seq<Product>, h: seq<HarvestEntry>, e: seq<ExpenseEntry>)
    ensures IsSubsequence(Active(ps, h, e), ps)
    ensures forall p :: p in Active(ps, h, e) <==> p in ps && HasEntries(h, e, p.id)
  {
    if ps != [] {
      ActiveIsProductsWithEntries(ps[1..], h, e);
      assert ps == [ps[0]] + ps[1..];
      if HasEntries(h, e, ps[0].id) {
        var r := [ps[0]] + Active(ps[1..], h, e);
        assert r[0] == ps[0] && r[1..] == Active(ps[1..], h, e);
      }
    }
  }

  /** A non-empty list is its first part followed by its last element. */
  lemma SplitLast<T>(s: seq<T>)
    requires s != []
    ensures s == s[..|s| - 1] + [s[|s| - 1]]
  {
  }

  /** Extending the catalog at the end extends the listed products at most by
      that product, as a `forEach` over the catalog sees it. */
  lemma {:induction false} ActiveSnoc(ps: seq<Product>, p: Product, h: seq<HarvestEntry>, e: seq<ExpenseEntry>)
    ensures Active(ps + [p], h, e) == Active(ps, h, e) + (if HasEntries(h, e, p.id) then [p] else [])
  {
    if ps == [] {
      assert [p][1..] == [];
    } else {
      assert (ps + [p])[0] == ps[0];
      assert (ps + [p])[1..] == ps[1..] + [p];
      ActiveSnoc(ps[1..], p, h, e);
    }
  }

  datatype Row = Row(product: Product, figures: Figures)

  /** One row per product of `act`, holding that product's figures. */
  function Rows(act: seq<Product>, h: seq<HarvestEntry>, e: seq<ExpenseEntry>): seq<Row> {
    if act == [] then [] else [Row(act[0], ProductFigures(h, e, act[0].id))] + Rows(act[1..], h, e)
  }

  /** The product-wise table: a row for each product with entries. */
  function Breakdown(ps: seq<Product>, h: seq<HarvestEntry>, e: seq<ExpenseEntry>): seq<Row> {
    Rows(Active(ps, h, e), h, e)
  }

  /** Row `i` of a table is its `i`-th product with that product's figures. */
  lemma {:induction false} RowsAt(act: seq<Product>, h: seq<HarvestEntry>, e: seq<ExpenseEntry>, i: nat)
    ensures |Rows(act, h, e)| == |act|
    ensures i < |act| ==> Rows(act, h, e)[i] == Row(act[i], ProductFigures(h, e, act[i].id))
  {
    if act != [] {
      var row, rest := Row(act[0], ProductFigures(h, e, act[0].id)), Rows(act[1..], h, e);
      RowsAt(act[1..], h, e, if i == 0 then 0 else i - 1);
      if 0 < i < |act| {
        assert ([row] + rest)[i] == rest[i - 1];
      }
    }
  }

  function Add(a: Figures, b: Figures): Figures {
    Figures(a.kg + b.kg, a.revenue + b.revenue, a.commission + b.commission,
            a.expense + b.expense, a.profitLoss + b.profitLoss)
  }

  /** Column by column sum of a table (its total line). */
  function Total(rows: seq<Row>): Figures {
    if rows == [] then Zero else Add(rows[0].figures, Total(rows[1..]))
  }

  // ------------------------------------------- per-product sums add up

  /** The sum of one column over each product's harvests, product by product. */
  function HarvestPerProduct(ps: seq<Product>, s: seq<HarvestEntry>, c: Column): real {
    if ps == [] then 0.0 else HarvestSum(ForProduct(s, ps[0].id), c) + HarvestPerProduct(ps[1..], s, c)
  }

  /** The sum of expenses over each product's expenses, product by product. */
  function ExpensePerProduct(ps: seq<Product>, s: seq<ExpenseEntry>): real {
    if ps == [] then 0.0 else ExpenseSum(ForProduct(s, ps[0].id)) + ExpensePerProduct(ps[1..], s)
  }

  /** One more entry lands in the product it belongs to and no other. */
  lemma {:induction false} ForProductCons<P>(x: Entry<P>, t: seq<Entry<P>>, id: int)
    ensures ForProduct([x] + t, id) == (if x.productId == id then [x] else []) + ForProduct(t, id)
  {
    assert ([x] + t)[0] == x && ([x] + t)[1..] == t;
  }

  lemma {:induction false} HarvestPerProductCons(ps: seq<Product>, x: HarvestEntry, t: seq<HarvestEntry>, c: Column)
    requires DistinctIds(ps)
    ensures HarvestPerProduct(ps, [x] + t, c)
         == HarvestPerProduct(ps, t, c) + (if Listed(ps, x.productId) then Value(x.fields, c) else 0.0)
  {
    if ps == [] {
      return;
    }
    HarvestPerProductCons(ps[1..], x, t, c);
    ForProductCons(x, t, ps[0].id);
    var r := ForProduct(t, ps[0].id);
    if x.productId == ps[0].id {
      assert ([x] + r)[0] == x && ([x] + r)[1..] == r;
    } else {
      assert [] + r == r;
    }
  }

  lemma {:induction false} ExpensePerProductCons(ps: seq<Product>, x: ExpenseEntry, t: seq<ExpenseEntry>)
    requires DistinctIds(ps)
    ensures ExpensePerProduct(ps, [x] + t)
         == ExpensePerProduct(ps, t) + (if Listed(ps, x.productId) then x.fields.total else 0.0)
  {
    if ps == [] {
      return;
    }
    ExpensePerProductCons(ps[1..], x, t);
    ForProductCons(x, t, ps[0].id);
    var r := ForProduct(t, ps[0].id);
    if x.productId == ps[0].id {
      assert ([x] + r)[0] == x && ([x] + r)[1..] == r;
    } else {
      assert [] + r == r;
    }
  }

  lemma {:induction false} PerProductOfNothing(ps: seq<Product>, c: Column)
    ensures HarvestPerProduct(ps, [], c) == 0.0 && ExpensePerProduct(ps, []) == 0.0
  {
    if ps != [] {
      PerProductOfNothing(ps[1..], c);
    }
  }

  /** When every harvest names a product of a catalog with distinct ids, the
      overall sum of a column is the sum of the per-product sums. */
  lemma {:induction false} HarvestSumByProduct(ps: seq<Product>, s: seq<HarvestEntry>, c: Column)
    requires DistinctIds(ps)
    requires forall x :: x in s ==> Listed(ps, x.productId)
    ensures HarvestSum(s, c) == HarvestPerProduct(ps, s, c)
  {
    if s == [] {
      PerProductOfNothing(ps, c);
    } else {
      var x, t := s[0], s[1..];
      assert s == [x] + t;
      assert x in s;
      HarvestSumByProduct(ps, t, c);
      HarvestPerProductCons(ps, x, t, c);
    }
  }

  /** The same for expenses. */
  lemma {:induction false} ExpenseSumByProduct(ps: seq<Product>, s: seq<ExpenseEntry>)
    requires DistinctIds(ps)
    requires forall x :: x in s ==> Listed(ps, x.productId)
    ensures ExpenseSum(s) == ExpensePerProduct(ps, s)
  {
    if s == [] {
      PerProductOfNothing(ps, KgColumn);
    } else {
      var x, t := s[0], s[1..];
      assert s == [x] + t;
      assert x in s;
      ExpenseSumByProduct(ps, t);
      ExpensePerProductCons(ps, x, t);
    }
  }

  /** A product without entries has all-zero figures. */
  lemma {:induction false} NoEntriesNoFigures(h: seq<HarvestEntry>, e: seq<ExpenseEntry>, id: int)
    requires !HasEntries(h, e, id)
    ensures ProductFigures(h, e, id) == Zero
  {
    assert ForProduct(h, id) == [] && ForProduct(e, id) == [];
  }

  /** The table of a catalog starts with the first product's row, if it has one. */
  lemma {:induction false} BreakdownCons(ps: seq<Product>, h: seq<HarvestEntry>, e: seq<ExpenseEntry>)
    requires ps != []
    ensures Breakdown(ps, h, e)
         == (if HasEntries(h, e, ps[0].id) then [Row(ps[0], ProductFigures(h, e, ps[0].id))] else [])
            + Breakdown(ps[1..], h, e)
  {
    var p, act := ps[0], Active(ps[1..], h, e);
    if HasEntries(h, e, p.id) {
      assert ([p] + act)[0] == p && ([p] + act)[1..] == act;
    } else {
      assert [] + Rows(act, h, e) == Rows(act, h, e);
    }
  }

  lemma {:induction false} TotalOfCons(r: Row, rest: seq<Row>)
    ensures Total([r] + rest) == Add(r.figures, Total(rest))
  {
    assert ([r] + rest)[1..] == rest;
  }

  /** The first catalog product adds its own figures to the total line of the
      table, or nothing when it has no entries and so no row. */
  lemma {:induction false} TotalCons(ps: seq<Product>, h: seq<HarvestEntry>, e: seq<ExpenseEntry>)
    requires ps != []
    ensures Total(Breakdown(ps, h, e)) == Add(ProductFigures(h, e, ps[0].id), Total(Breakdown(ps[1..], h, e)))
  {
    BreakdownCons(ps, h, e);
    var rest := Breakdown(ps[1..], h, e);
    if HasEntries(h, e, ps[0].id) {
      TotalOfCons(Row(ps[0], ProductFigures(h, e, ps[0].id)), rest);
    } else {
      NoEntriesNoFigures(h, e, ps[0].id);
      assert [] + rest == rest;
    }
  }

  /** The total line of the table, column by column. */
  lemma {:induction false} TotalOfBreakdown(ps: seq<Product>, h: seq<HarvestEntry>, e: seq<ExpenseEntry>)
    ensures Total(Breakdown(ps, h, e))
         == Figures(HarvestPerProduct(ps, h, KgColumn), HarvestPerProduct(ps, h, RevenueColumn),
                    HarvestPerProduct(ps, h, CommissionColumn), ExpensePerProduct(ps, e),
                    HarvestPerProduct(ps, h, RevenueColumn) - HarvestPerProduct(ps, h, CommissionColumn)
                      - ExpensePerProduct(ps, e))
  {
    if ps == [] {
      assert Breakdown(ps, h, e) == [];
    } else {
      var f, rest := ProductFigures(h, e, ps[0].id), ps[1..];
      TotalOfBreakdown(rest, h, e);
      TotalCons(ps, h, e);
      assert HarvestPerProduct(ps, h, KgColumn) == f.kg + HarvestPerProduct(rest, h, KgColumn);
      assert HarvestPerProduct(ps, h, RevenueColumn) == f.revenue + HarvestPerProduct(rest, h, RevenueColumn);
      assert HarvestPerProduct(ps, h, CommissionColumn) == f.commission + HarvestPerProduct(rest, h, CommissionColumn);
      assert ExpensePerProduct(ps, e) == f.expense + ExpensePerProduct(rest, e);
    }
  }

  /** The report's summary cards equal the total line of its product-wise
      table, in every column, when every entry names a product of a catalog
      with distinct ids. Products without entries have no row and lose
      nothing by it. */
  lemma BreakdownAddsUp(ps: seq<Product>, h: seq<HarvestEntry>, e: seq<ExpenseEntry>)
    requires DistinctIds(ps)
    requires forall x :: x in h ==> Listed(ps, x.productId)
    requires forall x :: x in e ==> Listed(ps, x.productId)
    ensures Total(Breakdown(ps, h, e)) == Summarize(h, e)
  {
    TotalOfBreakdown(ps, h, e);
    HarvestSumByProduct(ps, h, KgColumn);
    HarvestSumByProduct(ps, h, RevenueColumn);
    HarvestSumByProduct(ps, h, CommissionColumn);
    ExpenseSumByProduct(ps, e);
  }

  /** The same identity for the monthly statement. */
  lemma MonthlyBreakdownAddsUp(ps: seq<Product>, h: seq<HarvestEntry>, e: seq<ExpenseEntry>, month: string)
    requires DistinctIds(ps)
    requires forall x :: x in h ==> Listed(ps, x.productId)
    requires forall x :: x in e ==> Listed(ps, x.productId)
    ensures Total(Breakdown(ps, ForMonth(h, month), ForMonth(e, month)))
         == Summarize(ForMonth(h, month), ForMonth(e, month))
  {
    BreakdownAddsUp(ps, ForMonth(h, month), ForMonth(e, month));
  }

  // ------------------------------------------- net-based and gross-based profit

  /** A harvest whose net amount is its nonzero gross less its commission. */
  predicate NetFromGross(h: Harvest) {
    h.grossTotal.Some? && h.grossTotal.value != 0.0 && h.total == h.grossTotal.value - h.commission.GetOr(0.0)
  }

  /** Adding up net amounts (as the share text does) gives revenue less
      commission (as the report tab does) when every entry is NetFromGross. */
  lemma {:induction false} NetSumIsRevenueLessCommission(s: seq<HarvestEntry>)
    requires forall x :: x in s ==> NetFromGross(x.fields)
    ensures HarvestSum(s, NetColumn) == HarvestSum(s, RevenueColumn) - HarvestSum(s, CommissionColumn)
  {
    if s != [] {
      assert s[0] in s;
      assert forall x :: x in s[1..] ==> x in s;
      NetSumIsRevenueLessCommission(s[1..]);
    }
  }

  /** The product filter keeps exactly the entries of that product, in their
      order, each as often as it occurs. */
  lemma {:induction false} ForProductKeeps<P>(s: seq<Entry<P>>, id: int)
    ensures IsSubsequence(ForProduct(s, id), s)
    ensures forall x :: x in ForProduct(s, id) ==> x in s && x.productId == id
    ensures forall x :: x in s && x.productId == id ==> x in ForProduct(s, id)
    ensures forall x :: x in s ==> multiset(ForProduct(s, id))[x] == if x.productId == id then multiset(s)[x] else 0
  {
    if s != [] {
      ForProductKeeps(s[1..], id);
      assert s == [s[0]] + s[1..];
      if s[0].productId == id {
        var r := [s[0]] + ForProduct(s[1..], id);
        assert r[0] == s[0] && r[1..] == ForProduct(s[1..], id);
      }
    }
  }

  /** The net-based profit of the share text equals the report's profit or
      loss, for the whole store and for each product. */
  lemma NetProfitAgrees(h: seq<HarvestEntry>, e: seq<ExpenseEntry>, id: int)
    requires forall x :: x in h ==> NetFromGross(x.fields)
    ensures HarvestSum(h, NetColumn) - ExpenseSum(e) == Summarize(h, e).profitLoss
    ensures HarvestSum(ForProduct(h, id), NetColumn) - ExpenseSum(ForProduct(e, id))
         == ProductFigures(h, e, id).profitLoss
  {
    NetSumIsRevenueLessCommission(h);
    ForProductKeeps(h, id);
    NetSumIsRevenueLessCommission(ForProduct(h, id));
  }

  /** A harvest of "0" kg with a commission is consistent, yet its gross of
      zero makes the report fall back to the net amount, so the two profit
      figures differ by the commission. */
  lemma ZeroGrossFallsBackToNet()
    ensures var x := Entry(1, 1, "", "2024-01-05", "harvest",
                           Harvest(0.0, 10.0, Some(5.0), Some(0.0), -5.0));
            && HarvestConsistent(x.fields)
            && HarvestSum([x], NetColumn) - ExpenseSum([]) == -5.0
            && Summarize([x], []).profitLoss == -10.0
  {
    var x := Entry(1, 1, "", "2024-01-05", "harvest", Harvest(0.0, 10.0, Some(5.0), Some(0.0), -5.0));
    assert [x][1..] == [];
  }

  /** For any consistent harvest whose gross is zero, the report's profit
      counts its commission twice: revenue falls back to the net amount,
      which already has the commission taken off, and the commission is
      taken off again. */
  lemma ZeroGrossDoubleCounts(x: HarvestEntry, e: seq<ExpenseEntry>)
    requires HarvestConsistent(x.fields) && x.fields.grossTotal == Some(0.0)
    ensures Summarize([x], e).profitLoss
         == HarvestSum([x], NetColumn) - ExpenseSum(e) - x.fields.commission.value
  {
    assert [x][1..] == [];
    assert HarvestSum([x], RevenueColumn) == x.fields.total;
    assert HarvestSum([x], CommissionColumn) == x.fields.commission.value;
    assert HarvestSum([x], NetColumn) == x.fields.total;
  }
}
