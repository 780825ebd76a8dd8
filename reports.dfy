/** The two text reports: the share text of the report tab and the monthly
    profit/loss statement. Both are built line by line over the catalog; each
    product with entries gets a block, and every figure of profit or loss is
    written as a "Profit" or "Loss" caption and an amount without sign. */
module Reports {
  import opened Records
  import opened Aggregator

  /** A line of a report. Numbers stay numbers: `Money(c, x)` reads as the
      caption `c`, "₹" and `x` with two decimals; `Quantity(c, x)` as `c`, `x`
      with two decimals and " kg"; `Rule(c, n)` is `c` repeated `n` times. */
  datatype Line =
    | Text(s: string)
    | Rule(ch: char, width: nat)
    | Blank
    | Quantity(caption: string, kg: real)
    | Money(caption: string, amount: real)

  function Abs(x: real): (r: real)
    ensures r >= 0.0 && (r == x || r == -x)
  {
    if x < 0.0 then -x else x
  }

  /** `${x >= 0 ? profit : loss}₹${Math.abs(x)}`: the caption tells the sign,
      the amount the size, and together they give back `x`. */
  function Verdict(profit: string, loss: string, x: real): (l: Line)
    ensures l.Money? && l.amount >= 0.0
    ensures profit != loss ==> (l.caption == profit <==> x >= 0.0)
    ensures profit != loss ==> (l.caption == loss <==> x < 0.0)
    ensures profit != loss ==> x == (if l.caption == profit then l.amount else -l.amount)
  {
    Money(if x >= 0.0 then profit else loss, Abs(x))
  }

  // ------------------------------------------------------------ share text

  function ShareHeader(): seq<Line> {
    [Text("🌾 AGRICULTURE HARVEST REPORT 🌾"), Rule('=', 40), Blank]
  }

  /** The profit or loss the share text gives a product: the net amounts of
      its harvests less its expenses. */
  function ShareProfit(p: Product, h: seq<HarvestEntry>, e: seq<ExpenseEntry>): real {
    HarvestSum(ForProduct(h, p.id), NetColumn) - ExpenseSum(ForProduct(e, p.id))
  }

  /** The block of one product. Its revenue is the sum of the net amounts. */
  function ShareBlock(p: Product, h: seq<HarvestEntry>, e: seq<ExpenseEntry>): seq<Line> {
    var ph, pe := ForProduct(h, p.id), ForProduct(e, p.id);
    var revenue, expense := HarvestSum(ph, NetColumn), ExpenseSum(pe);
    [Text("📦 " + p.name), Rule('-', 40),
     Quantity("Total Harvested: ", HarvestSum(ph, KgColumn)),
     Money("Total Revenue: ", revenue),
     Money("Total Expenses: ", expense),
     Verdict("Profit: ", "Loss: ", ShareProfit(p, h, e)),
     Blank]
  }

  /** The product's name heads its block; line 5 is its verdict. */
  lemma ShareBlockLines(p: Product, h: seq<HarvestEntry>, e: seq<ExpenseEntry>)
    ensures |ShareBlock(p, h, e)| == 7
    ensures ShareBlock(p, h, e)[0] == Text("📦 " + p.name)
    ensures ShareBlock(p, h, e)[5]
         == Verdict("Profit: ", "Loss: ", ShareProfit(p, h, e))
  {
  }

  /** The share text as far as the products of `ps`: the header, then the
      block of each of them that has entries, in order. */
  function ShareUpTo(ps: seq<Product>, h: seq<HarvestEntry>, e: seq<ExpenseEntry>): seq<Line> {
    if ps == [] then ShareHeader()
    else
      var p := ps[|ps| - 1];
      ShareUpTo(ps[..|ps| - 1], h, e) + (if HasEntries(h, e, p.id) then ShareBlock(p, h, e) else [])
  }

  /** The closing lines: the net amounts of all harvests less all expenses. */
  function ShareFooter(h: seq<HarvestEntry>, e: seq<ExpenseEntry>): seq<Line> {
    [Rule('=', 40),
     Verdict("💰 TOTAL PROFIT: ", "💰 TOTAL LOSS: ", HarvestSum(h, NetColumn) - ExpenseSum(e)),
     Rule('=', 40)]
  }

  /** The whole share text. */
  function ShareReport(h: seq<HarvestEntry>, e: seq<ExpenseEntry>): seq<Line> {
    ShareUpTo(Catalog, h, e) + ShareFooter(h, e)
  }

  /** One more catalog product adds its block, if it has entries. */
  lemma ShareStep(ps: seq<Product>, i: nat, h: seq<HarvestEntry>, e: seq<ExpenseEntry>)
    requires i < |ps|
    ensures ShareUpTo(ps[..i + 1], h, e)
         == ShareUpTo(ps[..i], h, e) + (if HasEntries(h, e, ps[i].id) then ShareBlock(ps[i], h, e) else [])
  {
    assert ps[..i + 1][..i] == ps[..i];
  }

  /** The lines of one product in the share text: none when it has no
      entries, else its block. */
  method ProductShare(product: Product, history: seq<HarvestEntry>, expenses: seq<ExpenseEntry>) returns (block: seq<Line>)
    ensures block == if HasEntries(history, expenses, product.id) then ShareBlock(product, history, expenses) else []
  {
    var productHistory := ForProduct(history, product.id);
    var productExpenses := ForProduct(expenses, product.id);
    if |productHistory| > 0 || |productExpenses| > 0 {
      var totalKg := HarvestSum(productHistory, KgColumn);
      var totalRevenue := HarvestSum(productHistory, NetColumn);
      var totalExpense := ExpenseSum(productExpenses);
      var profitLoss := totalRevenue - totalExpense;
      block := [Text("📦 " + product.name), Rule('-', 40),
                Quantity("Total Harvested: ", totalKg),
                Money("Total Revenue: ", totalRevenue),
                Money("Total Expenses: ", totalExpense),
                Verdict("Profit: ", "Loss: ", profitLoss),
                Blank];
    } else {
      block := [];
    }
  }

  /** `generateShareText` */
  method ShareText(history: seq<HarvestEntry>, expenses: seq<ExpenseEntry>) returns (text: seq<Line>)
    ensures text == ShareReport(history, expenses)
  {
    text := [Text("🌾 AGRICULTURE HARVEST REPORT 🌾"), Rule('=', 40), Blank];
    var i := 0;
    while i < |Catalog|
      invariant 0 <= i <= |Catalog|
      invariant text == ShareUpTo(Catalog[..i], history, expenses)
    {
      ShareStep(Catalog, i, history, expenses);
      var block := ProductShare(Catalog[i], history, expenses);
      text := text + block;
      i := i + 1;
    }
    assert Catalog[..|Catalog|] == Catalog;
    var grandRevenue := HarvestSum(history, NetColumn);
    var grandExpenses := ExpenseSum(expenses);
    var grandProfitLoss := grandRevenue - grandExpenses;
    text := text + [Rule('=', 40),
                    Verdict("💰 TOTAL PROFIT: ", "💰 TOTAL LOSS: ", grandProfitLoss),
                    Rule('=', 40)];
  }

  /** The header has three lines, then each product with entries has seven. */
  lemma {:induction false} ShareUpToLength(ps: seq<Product>, h: seq<HarvestEntry>, e: seq<ExpenseEntry>)
    ensures |ShareUpTo(ps, h, e)| == 3 + 7 * |Active(ps, h, e)|
  {
    if ps != [] {
      var init, p := ps[..|ps| - 1], ps[|ps| - 1];
      SplitLast(ps);
      ActiveSnoc(init, p, h, e);
      ShareUpToLength(init, h, e);
    }
  }

  /** The `k`-th block is headed by the name of the `k`-th product with
      entries. */
  lemma {:induction false} ShareNameAt(ps: seq<Product>, h: seq<HarvestEntry>, e: seq<ExpenseEntry>, k: nat)
    requires k < |Active(ps, h, e)|
    ensures |ShareUpTo(ps, h, e)| == 3 + 7 * |Active(ps, h, e)|
    ensures ShareUpTo(ps, h, e)[3 + 7 * k] == Text("📦 " + Active(ps, h, e)[k].name)
  {
    ShareUpToLength(ps, h, e);
    var init, p := ps[..|ps| - 1], ps[|ps| - 1];
    SplitLast(ps);
    ActiveSnoc(init, p, h, e);
    var act := Active(init, h, e);
    var u := ShareUpTo(init, h, e);
    ShareUpToLength(init, h, e);
    assert |u| == 3 + 7 * |act|;
    if k < |act| {
      ShareNameAt(init, h, e, k);
      assert Active(ps, h, e)[k] == act[k];
    } else {
      assert Active(ps, h, e)[k] == p;
      ShareBlockLines(p, h, e);
    }
  }

  /** Line 5 of the `k`-th block is the verdict on the net amounts less the
      expenses of the `k`-th product with entries. */
  lemma {:induction false} ShareVerdictAt(ps: seq<Product>, h: seq<HarvestEntry>, e: seq<ExpenseEntry>, k: nat)
    requires k < |Active(ps, h, e)|
    ensures |ShareUpTo(ps, h, e)| == 3 + 7 * |Active(ps, h, e)|
    ensures ShareUpTo(ps, h, e)[3 + 7 * k + 5]
         == Verdict("Profit: ", "Loss: ", ShareProfit(Active(ps, h, e)[k], h, e))
  {
    ShareUpToLength(ps, h, e);
    var init, p := ps[..|ps| - 1], ps[|ps| - 1];
    SplitLast(ps);
    ActiveSnoc(init, p, h, e);
    var act := Active(init, h, e);
    var u := ShareUpTo(init, h, e);
    ShareUpToLength(init, h, e);
    assert |u| == 3 + 7 * |act|;
    if k < |act| {
      ShareVerdictAt(init, h, e, k);
      assert Active(ps, h, e)[k] == act[k];
    } else {
      assert Active(ps, h, e)[k] == p;
      ShareBlockLines(p, h, e);
    }
  }

  /** The share text has a block of seven lines for each product with
      entries; block `k` names the `k`-th such product and reads "Profit"
      exactly when the net amounts of its harvests cover its expenses. The
      line before last is the overall verdict. */
  lemma ShareReportLayout(h: seq<HarvestEntry>, e: seq<ExpenseEntry>, k: nat)
    ensures var act := Active(Catalog, h, e);
            var r := ShareReport(h, e);
            && |r| == 7 * |act| + 6
            && r[|r| - 2] == Verdict("💰 TOTAL PROFIT: ", "💰 TOTAL LOSS: ", HarvestSum(h, NetColumn) - ExpenseSum(e))
            && (k < |act| ==>
                  && r[3 + 7 * k] == Text("📦 " + act[k].name)
                  && r[3 + 7 * k + 5]
                     == Verdict("Profit: ", "Loss: ", HarvestSum(ForProduct(h, act[k].id), NetColumn)
                                                       - ExpenseSum(ForProduct(e, act[k].id))))
  {
    ShareUpToLength(Catalog, h, e);
    ShareReportEnds(Catalog, h, e);
    if k < |Active(Catalog, h, e)| {
      ShareNameAt(Catalog, h, e, k);
      ShareVerdictAt(Catalog, h, e, k);
      ShareReportKeeps(Catalog, h, e, 3 + 7 * k);
      ShareReportKeeps(Catalog, h, e, 3 + 7 * k + 5);
    }
  }

  /** The footer follows the blocks: the line before last is the overall verdict. */
  lemma ShareReportEnds(ps: seq<Product>, h: seq<HarvestEntry>, e: seq<ExpenseEntry>)
    ensures var r := ShareUpTo(ps, h, e) + ShareFooter(h, e);
            r[|r| - 2] == Verdict("💰 TOTAL PROFIT: ", "💰 TOTAL LOSS: ", HarvestSum(h, NetColumn) - ExpenseSum(e))
  {
  }

  /** Appending the footer leaves the lines before it in place. */
  lemma ShareReportKeeps(ps: seq<Product>, h: seq<HarvestEntry>, e: seq<ExpenseEntry>, i: nat)
    requires i < |ShareUpTo(ps, h, e)|
    ensures (ShareUpTo(ps, h, e) + ShareFooter(h, e))[i] == ShareUpTo(ps, h, e)[i]
  {
  }

  /** When every harvest's net amount is its nonzero gross less its
      commission, the share text's verdicts agree with the report tab: the
      per-product verdict with that product's profit or loss and the overall
      verdict with the overall profit or loss. */
  lemma ShareAgreesWithReport(h: seq<HarvestEntry>, e: seq<ExpenseEntry>, k: nat)
    requires forall x :: x in h ==> NetFromGross(x.fields)
    ensures var act := Active(Catalog, h, e);
            var r := ShareReport(h, e);
            && |r| == 7 * |act| + 6
            && r[|r| - 2] == Verdict("💰 TOTAL PROFIT: ", "💰 TOTAL LOSS: ", Summarize(h, e).profitLoss)
            && (k < |act| ==>
                  r[3 + 7 * k + 5] == Verdict("Profit: ", "Loss: ", ProductFigures(h, e, act[k].id).profitLoss))
  {
    ShareTotalAgrees(h, e);
    if k < |Active(Catalog, h, e)| {
      ShareProductAgrees(h, e, k);
    }
  }

  /** The overall half of `ShareAgreesWithReport`. */
  lemma ShareTotalAgrees(h: seq<HarvestEntry>, e: seq<ExpenseEntry>)
    requires forall x :: x in h ==> NetFromGross(x.fields)
    ensures |ShareReport(h, e)| == 7 * |Active(Catalog, h, e)| + 6
    ensures ShareReport(h, e)[|ShareReport(h, e)| - 2]
         == Verdict("💰 TOTAL PROFIT: ", "💰 TOTAL LOSS: ", Summarize(h, e).profitLoss)
  {
    var r := ShareReport(h, e);
    ShareUpToLength(Catalog, h, e);
    NetProfitAgrees(h, e, 0);
    assert r[|r| - 2] == ShareFooter(h, e)[1];
  }

  /** The per-product half of `ShareAgreesWithReport`. */
  lemma ShareProductAgrees(h: seq<HarvestEntry>, e: seq<ExpenseEntry>, k: nat)
    requires forall x :: x in h ==> NetFromGross(x.fields)
    requires k < |Active(Catalog, h, e)|
    ensures |ShareReport(h, e)| == 7 * |Active(Catalog, h, e)| + 6
    ensures ShareReport(h, e)[3 + 7 * k + 5]
         == Verdict("Profit: ", "Loss: ", ProductFigures(h, e, Active(Catalog, h, e)[k].id).profitLoss)
  {
    var act, u, r := Active(Catalog, h, e), ShareUpTo(Catalog, h, e), ShareReport(h, e);
    ShareUpToLength(Catalog, h, e);
    NetProfitAgrees(h, e, act[k].id);
    ShareVerdictAt(Catalog, h, e, k);
    assert r[3 + 7 * k + 5] == u[3 + 7 * k + 5];
  }

  // ----------------------------------------------------- monthly statement

  /** The opening lines, the month's summary `f` and the breakdown heading. */
  function StatementTop(f: Figures, period: string): seq<Line> {
    [Text("🌾 MONTHLY PROFIT/LOSS STATEMENT"), Text("📅 Period: " + period), Rule('=', 50), Blank,
     Text("💰 SUMMARY"), Rule('-', 50),
     Money("Total Revenue:    ", f.revenue),
     Money("Total Commission: ", f.commission),
     Money("Total Expenses:   ", f.expense),
     Verdict("Net Profit:        ", "Net Loss:        ", f.profitLoss),
     Blank,
     Text("📦 PRODUCT-WISE BREAKDOWN"), Rule('-', 50)]
  }

  /** The block of one row of the product-wise table. */
  function RowBlock(r: Row): seq<Line> {
    [Blank, Text(r.product.name + ":"),
     Quantity("  Harvested: ", r.figures.kg),
     Money("  Revenue:   ", r.figures.revenue),
     Money("  Commission: ", r.figures.commission),
     Money("  Expenses:  ", r.figures.expense),
     Verdict("  Profit:     ", "  Loss:     ", r.figures.profitLoss)]
  }

  /** The statement of the month's entries `mh`, `me` as far as the products
      of `ps`: the top, then the block of each of them that has entries. */
  function StatementUpTo(ps: seq<Product>, mh: seq<HarvestEntry>, me: seq<ExpenseEntry>, period: string): seq<Line> {
    if ps == [] then StatementTop(Summarize(mh, me), period)
    else
      var p := ps[|ps| - 1];
      StatementUpTo(ps[..|ps| - 1], mh, me, period)
        + (if HasEntries(mh, me, p.id) then RowBlock(Row(p, ProductFigures(mh, me, p.id))) else [])
  }

  /** The statement of the entries dated in `month`, headed by `period`
      (the month's name). */
  function Statement(h: seq<HarvestEntry>, e: seq<ExpenseEntry>, month: string, period: string): seq<Line> {
    StatementUpTo(Catalog, ForMonth(h, month), ForMonth(e, month), period) + [Blank, Rule('=', 50)]
  }

  /** One more catalog product adds its block, if it has entries. */
  lemma StatementStep(ps: seq<Product>, i: nat, mh: seq<HarvestEntry>, me: seq<ExpenseEntry>, period: string)
    requires i < |ps|
    ensures StatementUpTo(ps[..i + 1], mh, me, period)
         == StatementUpTo(ps[..i], mh, me, period)
            + (if HasEntries(mh, me, ps[i].id) then RowBlock(Row(ps[i], ProductFigures(mh, me, ps[i].id))) else [])
  {
    assert ps[..i + 1][..i] == ps[..i];
  }

  /** The lines of one product in the monthly statement: none when the
      product has no entries in the month, else the block of its row. */
  method ProductStatement(product: Product, monthlyHarvest: seq<HarvestEntry>, monthlyExpenses: seq<ExpenseEntry>)
    returns (block: seq<Line>)
    ensures block == if HasEntries(monthlyHarvest, monthlyExpenses, product.id)
                     then RowBlock(Row(product, ProductFigures(monthlyHarvest, monthlyExpenses, product.id)))
                     else []
  {
    var productHarvest := ForProduct(monthlyHarvest, product.id);
    var productExpenses := ForProduct(monthlyExpenses, product.id);
    if |productHarvest| > 0 || |productExpenses| > 0 {
      var totalKg := HarvestSum(productHarvest, KgColumn);
      var grossRevenue := HarvestSum(productHarvest, RevenueColumn);
      var commission := HarvestSum(productHarvest, CommissionColumn);
      var expense := ExpenseSum(productExpenses);
      var profitLoss := grossRevenue - commission - expense;
      block := [Blank, Text(product.name + ":"),
                Quantity("  Harvested: ", totalKg),
                Money("  Revenue:   ", grossRevenue),
                Money("  Commission: ", commission),
                Money("  Expenses:  ", expense),
                Verdict("  Profit:     ", "  Loss:     ", profitLoss)];
      ghost var figures := Figures(totalKg, grossRevenue, commission, expense, profitLoss);
      assert figures == ProductFigures(monthlyHarvest, monthlyExpenses, product.id);
      assert block == RowBlock(Row(product, figures));
    } else {
      block := [];
    }
  }

  /** The monthly statement shown under the month's tables; `period` is the
      month's name as the locale writes it. */
  method MonthlyStatement(history: seq<HarvestEntry>, expenses: seq<ExpenseEntry>, month: string, period: string)
    returns (statement: seq<Line>)
    ensures statement == Statement(history, expenses, month, period)
  {
    var monthlyHarvest := ForMonth(history, month);
    var monthlyExpenses := ForMonth(expenses, month);
    var totalGrossRevenue := HarvestSum(monthlyHarvest, RevenueColumn);
    var totalExpense := ExpenseSum(monthlyExpenses);
    var totalCommission := HarvestSum(monthlyHarvest, CommissionColumn);
    var netProfit := totalGrossRevenue - totalCommission - totalExpense;

    statement := [Text("🌾 MONTHLY PROFIT/LOSS STATEMENT"), Text("📅 Period: " + period), Rule('=', 50), Blank,
                  Text("💰 SUMMARY"), Rule('-', 50),
                  Money("Total Revenue:    ", totalGrossRevenue),
                  Money("Total Commission: ", totalCommission),
                  Money("Total Expenses:   ", totalExpense),
                  Verdict("Net Profit:        ", "Net Loss:        ", netProfit),
                  Blank,
                  Text("📦 PRODUCT-WISE BREAKDOWN"), Rule('-', 50)];
    ghost var summary := Summarize(monthlyHarvest, monthlyExpenses);
    assert summary.revenue == totalGrossRevenue && summary.commission == totalCommission;
    assert summary.expense == totalExpense && summary.profitLoss == netProfit;
    assert statement == StatementTop(summary, period);
    var i := 0;
    while i < |Catalog|
      invariant 0 <= i <= |Catalog|
      invariant statement == StatementUpTo(Catalog[..i], monthlyHarvest, monthlyExpenses, period)
    {
      StatementStep(Catalog, i, monthlyHarvest, monthlyExpenses, period);
      var block := ProductStatement(Catalog[i], monthlyHarvest, monthlyExpenses);
      statement := statement + block;
      i := i + 1;
    }
    assert Catalog[..|Catalog|] == Catalog;
    statement := statement + [Blank, Rule('=', 50)];
  }

  /** The product's name heads its block after a blank line; line 6 is its
      verdict. */
  lemma RowBlockLines(r: Row)
    ensures |RowBlock(r)| == 7
    ensures RowBlock(r)[1] == Text(r.product.name + ":")
    ensures RowBlock(r)[6] == Verdict("  Profit:     ", "  Loss:     ", r.figures.profitLoss)
  {
  }

  /** The top has thirteen lines and keeps them; then each product with
      entries has seven. */
  lemma {:induction false} StatementUpToLength(ps: seq<Product>, mh: seq<HarvestEntry>, me: seq<ExpenseEntry>, period: string)
    ensures |StatementUpTo(ps, mh, me, period)| == 13 + 7 * |Active(ps, mh, me)|
    ensures StatementUpTo(ps, mh, me, period)[9] == StatementTop(Summarize(mh, me), period)[9]
  {
    if ps != [] {
      var init, p := ps[..|ps| - 1], ps[|ps| - 1];
      SplitLast(ps);
      ActiveSnoc(init, p, mh, me);
      StatementUpToLength(init, mh, me, period);
    }
  }

  /** The `k`-th block names the `k`-th product with entries. */
  lemma {:induction false} StatementNameAt(ps: seq<Product>, mh: seq<HarvestEntry>, me: seq<ExpenseEntry>, period: string,
                                           k: nat)
    requires k < |Active(ps, mh, me)|
    ensures |StatementUpTo(ps, mh, me, period)| == 13 + 7 * |Active(ps, mh, me)|
    ensures StatementUpTo(ps, mh, me, period)[13 + 7 * k + 1] == Text(Active(ps, mh, me)[k].name + ":")
  {
    StatementUpToLength(ps, mh, me, period);
    var init, p := ps[..|ps| - 1], ps[|ps| - 1];
    SplitLast(ps);
    ActiveSnoc(init, p, mh, me);
    var act := Active(init, mh, me);
    var u := StatementUpTo(init, mh, me, period);
    StatementUpToLength(init, mh, me, period);
    assert |u| == 13 + 7 * |act|;
    if k < |act| {
      StatementNameAt(init, mh, me, period, k);
      assert Active(ps, mh, me)[k] == act[k];
    } else {
      assert Active(ps, mh, me)[k] == p;
      RowBlockLines(Row(p, ProductFigures(mh, me, p.id)));
    }
  }

  /** Line 6 of the `k`-th block is the verdict on the figures of the `k`-th
      product with entries. */
  lemma {:induction false} StatementVerdictAt(ps: seq<Product>, mh: seq<HarvestEntry>, me: seq<ExpenseEntry>, period: string,
                                              k: nat)
    requires k < |Active(ps, mh, me)|
    ensures |StatementUpTo(ps, mh, me, period)| == 13 + 7 * |Active(ps, mh, me)|
    ensures StatementUpTo(ps, mh, me, period)[13 + 7 * k + 6]
         == Verdict("  Profit:     ", "  Loss:     ", ProductFigures(mh, me, Active(ps, mh, me)[k].id).profitLoss)
  {
    StatementUpToLength(ps, mh, me, period);
    var init, p := ps[..|ps| - 1], ps[|ps| - 1];
    SplitLast(ps);
    ActiveSnoc(init, p, mh, me);
    var act := Active(init, mh, me);
    var u := StatementUpTo(init, mh, me, period);
    StatementUpToLength(init, mh, me, period);
    assert |u| == 13 + 7 * |act|;
    if k < |act| {
      StatementVerdictAt(init, mh, me, period, k);
      assert Active(ps, mh, me)[k] == act[k];
    } else {
      assert Active(ps, mh, me)[k] == p;
      RowBlockLines(Row(p, ProductFigures(mh, me, p.id)));
    }
  }

  /** The statement's net verdict is the month's profit or loss; block `k`
      names the `k`-th product with entries in the month, and its verdict is
      the profit or loss in row `k` of the month's product-wise table. */
  lemma StatementLayout(h: seq<HarvestEntry>, e: seq<ExpenseEntry>, month: string, period: string, k: nat)
    ensures var mh, me := ForMonth(h, month), ForMonth(e, month);
            var act, rows := Active(Catalog, mh, me), Breakdown(Catalog, mh, me);
            var r := Statement(h, e, month, period);
            && |r| == 7 * |act| + 15 && |rows| == |act|
            && r[9] == Verdict("Net Profit:        ", "Net Loss:        ", Summarize(mh, me).profitLoss)
            && (k < |act| ==>
                  && r[13 + 7 * k + 1] == Text(act[k].name + ":")
                  && r[13 + 7 * k + 6] == Verdict("  Profit:     ", "  Loss:     ", rows[k].figures.profitLoss))
  {
    var mh, me := ForMonth(h, month), ForMonth(e, month);
    var act, u, r := Active(Catalog, mh, me), StatementUpTo(Catalog, mh, me, period), Statement(h, e, month, period);
    RowsAt(act, mh, me, k);
    StatementUpToLength(Catalog, mh, me, period);
    assert r[9] == u[9];
    if k < |act| {
      StatementNameAt(Catalog, mh, me, period, k);
      StatementVerdictAt(Catalog, mh, me, period, k);
      assert r[13 + 7 * k + 1] == u[13 + 7 * k + 1];
      assert r[13 + 7 * k + 6] == u[13 + 7 * k + 6];
    }
  }
}
