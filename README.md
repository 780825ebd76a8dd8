# Harvest and expense book — a verified model

The application is a single-page record book for a farmer. A fixed catalog of
five products (Tamil vegetable and groundnut names, ids 1 to 5) can be picked
on cards. For the selected product the farmer records:

- harvest sales: kilograms, rate per kilogram, the buyer's commission and a date;
- expenses: fertilizer, labor and other costs, and a date.

Records are kept in two lists, newest first. A harvest record can be opened
in the form again, revised, or deleted. An expense record can only be deleted.

From the two lists the application derives:

- a report tab, with summary cards and a product-wise table;
- a monthly tab, with cards, a table and a text statement for one month;
- a share text that can be copied to the clipboard.

The share text, the monthly statement and the monthly tab's net card print a
figure of profit or loss as a "Profit" or "Loss" caption followed by the amount
without its sign. The report tab's "Net Profit/Loss" card and the Profit/Loss
columns of both tables print the signed figure.

The model has four modules:

- `Records` (`records.dfy`): the catalog, the record types, and the invariants
  every record written by the editor satisfies;
- `Aggregator` (`aggregator.dfy`): the month and product filters, the column
  sums, per-product figures, the breakdown table and its total line;
- `Editor` (`editor.dfy`): the form state and the handlers, as a class `App`
  whose fields are the component's state variables;
- `Reports` (`reports.dfy`): the share text and the monthly statement. Both are
  methods that build the text line by line over the catalog, and each is proved
  equal to a specification function. Lemmas about those functions state the
  layout and the profit or loss verdicts.

Amounts are exact `real`s. A text is a sequence of `Line`s. A line keeps its
numbers as numbers: `Money("Total Revenue: ", x)` stands for the caption
followed by "₹" and `x` with two decimals. An id the clock would supply is a
`freshId` parameter, and "today" is a `today` parameter. The user's answer to
the confirmation dialog is a `confirmed` parameter.

## Model

| member | source | states |
|---|---|---|
| Records.CatalogDistinct | src/App.jsx:4-10 | the catalog's ids are distinct and exactly 1 to 5 occur |
| Records.FindProduct | src/App.jsx:124 | `products.find`: a result exactly when some product has the id; it has that id, is in the list and is the first such |
| Aggregator.ForProduct | src/App.jsx:162 | `entries.filter(x => x.productId === id)`, the first entry first; also used at lines 569, 706 and 834 |
| Aggregator.ForProductKeeps | src/App.jsx:162 | the product filter keeps exactly the entries of that product, in their order (a subsequence), each as often as it occurs |
| Aggregator.ForMonth | src/App.jsx:526-527 | the month filter keeps exactly the entries whose date starts with the month, in their order (a subsequence) |
| Aggregator.ForMonthIdempotent | src/App.jsx:526-527 | filtering twice by the same month is filtering once |
| Aggregator.Revenue | src/App.jsx:528 | the gross, or else the net (a JavaScript "or" of the two amounts): a nonzero gross is the revenue, a missing or zero gross falls back to the net, and a consistent record with nonzero kg × rate has kg × rate; the same expression is at lines 575, 799 and 840 |
| Aggregator.HarvestSum | src/App.jsx:528-530 | `reduce((sum, h) => sum + <column>, 0)` over harvests, for the kg, revenue, commission and net columns |
| Aggregator.ExpenseSum | src/App.jsx:529 | `reduce((sum, e) => sum + e.total, 0)` over expenses |
| Aggregator.HarvestSumAppend | src/App.jsx:528-530 | the sum over two lists one after the other is the sum of the two sums |
| Aggregator.ExpenseSumAppend | src/App.jsx:529 | the same for expenses |
| Aggregator.HarvestSumNonNegative | src/App.jsx:528-530 | a column sum of non-negative amounts is non-negative |
| Aggregator.ExpenseSumNonNegative | src/App.jsx:529 | the same for expenses |
| Aggregator.Summarize | src/App.jsx:528-531 | the cards of a period: kg, revenue, commission and expense sums, and profit or loss as revenue less commission less expenses; the report tab computes the same at lines 799-814 |
| Aggregator.SummarizeSplits | src/App.jsx:528-531 | the figures of two lists put together are the figures of each, added column by column |
| Aggregator.ProductFigures | src/App.jsx:574-578 | one table row: the figures of the product's own harvests and expenses; the same at lines 839-843 |
| Aggregator.Active | src/App.jsx:568-572 | the catalog products that have a harvest or an expense, in catalog order; the same test is at lines 833-837 |
| Aggregator.Breakdown | src/App.jsx:833-837 | the product-wise table: one row per listed product, with its figures; the monthly table at lines 568-572 |
| Aggregator.ActiveIsProductsWithEntries | src/App.jsx:568-572 | a breakdown lists exactly the catalog products with a harvest or an expense, in catalog order |
| Aggregator.RowsAt | src/App.jsx:833-843 | row `i` of the breakdown is the `i`-th listed product with its own figures, one row per listed product |
| Aggregator.NoEntriesNoFigures | src/App.jsx:837 | a product left out of the table has all-zero figures, so omitting it loses nothing |
| Aggregator.HarvestSumByProduct | src/App.jsx:799-814 | with distinct catalog ids and every record of a catalog product, a harvest column's grand sum is the sum of its per-product sums |
| Aggregator.ExpenseSumByProduct | src/App.jsx:803 | the same for the expense totals |
| Aggregator.BreakdownAddsUp | src/App.jsx:799-814 | under the same conditions the report tab's cards equal the column totals of its product-wise table (kg, revenue, commission, expenses, profit or loss) |
| Aggregator.MonthlyBreakdownAddsUp | src/App.jsx:526-531 | the monthly cards equal the column totals of the monthly product-wise table |
| Aggregator.NetSumIsRevenueLessCommission | src/App.jsx:170 | when every harvest's net is its nonzero gross less its commission, the sum of nets is the revenue sum less the commission sum |
| Aggregator.NetProfitAgrees | src/App.jsx:181-183 | under that condition the share text's net-based profit, overall and per product, equals the report tab's revenue less commission less expenses |
| Aggregator.ZeroGrossFallsBackToNet | src/App.jsx:528 | a consistent harvest of 0 kg with a commission: its zero gross makes revenue fall back to the net, so the two profit figures differ |
| Aggregator.ZeroGrossDoubleCounts | src/App.jsx:528-531 | for every consistent harvest with a zero gross, the report's profit is the net-based profit less the commission once more, because the fallback net already has the commission taken off |
| Editor.HarvestInputValid | src/App.jsx:52 | a harvest is accepted when a product is selected and kg and rate are filled in |
| Editor.ExpenseInputValid | src/App.jsx:98 | an expense is accepted when a product is selected and at least one amount is filled in |
| Editor.HarvestFigures | src/App.jsx:81-85 | saved harvest figures: kg and rate as typed, commission defaulting to 0, gross = kg × rate, net = gross − commission |
| Editor.ExpenseFigures | src/App.jsx:106-111 | saved expense figures: empty amounts are 0, total is their sum |
| Editor.NewHarvest | src/App.jsx:77-88 | a new harvest record carries the fresh id, the selected product's id and name, the form's date, type "harvest" and those figures |
| Editor.NewExpense | src/App.jsx:103-115 | the same for a new expense record with type "expense" |
| Editor.ReviseHarvest | src/App.jsx:61-69 | a revised record keeps its id, product id, product name and type, and takes the form's date and figures |
| Editor.ApplyEdit | src/App.jsx:58-71 | the update keeps the length; each record with the id is revised, every other record is unchanged |
| Editor.Prefill | src/App.jsx:125-130 | the edit form shows the record's kg, rate and date; its commission reads back as the record's, and a zero commission shows as an empty field |
| Editor.PrefillRoundTrip | src/App.jsx:125-130 | filling the form from a consistent record and reading it back gives that record's figures and the record itself |
| Editor.WithoutId | src/App.jsx:138 | deletion keeps exactly the records with another id, in their order; no record with the id is left |
| Editor.DeleteUnknownId | src/App.jsx:138 | deleting an id no record has is a no-op |
| Editor.DeleteRemovesOne | src/App.jsx:138 | with unique ids, deleting a present id removes exactly one record |
| Editor.DeleteKeepsIds | src/App.jsx:138 | deletion introduces no id |
| Editor.DeleteKeepsUnique | src/App.jsx:138 | deletion keeps ids unique |
| Editor.CreateThenDelete | src/App.jsx:89 | deleting a just-created record with a new id restores the collection |
| Editor.EditKeepsIds | src/App.jsx:58-71 | the update keeps the set of ids |
| Editor.EditKeepsUnique | src/App.jsx:58-71 | the update keeps ids unique |
| Editor.EditUntouchedIsNoOp | src/App.jsx:122-132 | opening a record in the editor and saving it unchanged leaves the history as it was |
| Editor.EditOfUnknownId | src/App.jsx:58-71 | updating an id no record has changes nothing |
| Editor.HarvestCreateKeepsRecorded | src/App.jsx:77-89 | prepending a consistent harvest of a catalog product with a new id keeps the store well formed |
| Editor.ExpenseCreateKeepsRecorded | src/App.jsx:103-117 | the same for an expense |
| Editor.EditKeepsRecorded | src/App.jsx:58-71 | the update keeps the store well formed |
| Editor.DeleteKeepsRecorded | src/App.jsx:135-143 | deletion from either list keeps the store well formed |
| Editor.RecordedBreakdownAddsUp | src/App.jsx:799-843 | on a store the editor built, the report and monthly cards equal the totals of their tables |
| Editor.App.Editing | src/App.jsx:57 | `if (editingHarvestId)`: edit mode is on when an id is set and it is not 0 |
| Editor.App.constructor | src/App.jsx:12-40 | the start state: the saved lists, the harvest tab, no product, blank forms dated today, the current month, not editing |
| Editor.App.SelectTab | src/App.jsx:209-233 | a tab button sets the tab and nothing else |
| Editor.App.SelectProduct | src/App.jsx:247 | a product card selects that product and nothing else |
| Editor.App.FillHarvestForm | src/App.jsx:274-312 | typing sets the harvest form and nothing else |
| Editor.App.FillExpenseForm | src/App.jsx:362-393 | typing sets the expense form and nothing else |
| Editor.App.SelectMonth | src/App.jsx:520 | the month picker sets the month and nothing else |
| Editor.App.SubmitHarvest | src/App.jsx:50-94 | accepted exactly when a product is selected and kg and rate are filled in, otherwise no change; in edit mode the record is revised and edit mode ends, else the new record goes in front; the form is cleared; the other fields stay; the store stays well formed |
| Editor.App.SubmitExpense | src/App.jsx:96-120 | accepted exactly when a product is selected and some amount is filled in, otherwise no change; the new record goes in front; the form is cleared; the store stays well formed |
| Editor.App.EditHarvest | src/App.jsx:122-132 | switches to the harvest tab, selects the record's catalog product, sets the form from the record (a zero commission as empty) and the editing id; the lists stay |
| Editor.App.CancelEdit | src/App.jsx:339-342 | leaves edit mode and clears the harvest form; nothing else changes |
| Editor.App.Delete | src/App.jsx:135-143 | unconfirmed: no change; confirmed: the records with the id leave the chosen list only; the store stays well formed |
| Reports.Abs | src/App.jsx:177 | `Math.abs`: non-negative, and `x` or `−x` |
| Reports.Verdict | src/App.jsx:177 | the label is the profit caption exactly when the figure is ≥ 0 and the loss caption exactly when it is < 0; the amount is non-negative; caption and amount give back the figure |
| Reports.ShareHeader | src/App.jsx:158-159 | the title line, a rule of 40 "=" and a blank line |
| Reports.ShareProfit | src/App.jsx:169-172 | a product's figure in the share text: the sum of its net amounts less the sum of its expenses |
| Reports.ShareBlock | src/App.jsx:166-177 | a product's block: its name, a rule, its kg, net revenue and expense sums, its verdict and a blank line |
| Reports.ShareBlockLines | src/App.jsx:166-177 | the block has seven lines, the first names the product and line 5 is the verdict on its net revenue less its expenses |
| Reports.ShareFooter | src/App.jsx:185-187 | a rule, the overall verdict on all net amounts less all expenses, and a rule |
| Reports.ProductShare | src/App.jsx:161-178 | no lines for a product without records, else its seven-line block |
| Reports.ShareText | src/App.jsx:157-190 | the text built by the loop equals the share report function |
| Reports.ShareUpToLength | src/App.jsx:158-180 | three header lines, then seven lines for each product with records |
| Reports.ShareNameAt | src/App.jsx:161-166 | block `k` is headed by the name of the `k`-th product with records |
| Reports.ShareVerdictAt | src/App.jsx:169-177 | line 5 of block `k` is the verdict on the `k`-th product's net amounts less its expenses |
| Reports.ShareReportLayout | src/App.jsx:157-190 | the whole share text: its length, each block's name and verdict, and the overall verdict on net sums less expenses in the line before last |
| Reports.ShareTotalAgrees | src/App.jsx:181-186 | when every net is nonzero gross less commission, the share text's overall verdict is on the report tab's profit or loss |
| Reports.ShareProductAgrees | src/App.jsx:169-177 | under the same condition, block `k`'s verdict is on row `k`'s profit or loss in the report tab's table |
| Reports.ShareAgreesWithReport | src/App.jsx:169-186 | when every net is nonzero gross less commission, the share text's verdicts are the report tab's profit or loss, per product and overall |
| Reports.StatementTop | src/App.jsx:692-704 | the title, the period, the summary of revenue, commission and expenses, the net verdict and the breakdown heading |
| Reports.RowBlock | src/App.jsx:715-721 | a row's block: a blank line, the product's name, its kg, revenue, commission and expense, and its verdict |
| Reports.RowBlockLines | src/App.jsx:715-721 | the block has seven lines, line 1 names the product and line 6 is the verdict on the row's profit or loss |
| Reports.ProductStatement | src/App.jsx:706-722 | no lines for a product without records in the month, else the block of its row in the monthly table |
| Reports.MonthlyStatement | src/App.jsx:692-726 | the statement built by the loop equals the statement function of the month's records |
| Reports.StatementUpToLength | src/App.jsx:692-704 | thirteen opening lines whose net verdict is kept, then seven lines for each product with records |
| Reports.StatementNameAt | src/App.jsx:705-715 | block `k` names the `k`-th product with records in the month |
| Reports.StatementVerdictAt | src/App.jsx:709-721 | line 6 of block `k` is the verdict on that product's figures for the month |
| Reports.StatementLayout | src/App.jsx:692-726 | the statement's length, its net verdict on the month's profit or loss, and block `k`'s name and verdict on row `k` of the monthly table |

## Left out

- Loading and saving through `localStorage` (src/App.jsx:31-49) is left out. The saved lists are constructor parameters, and the model does not claim they are well formed. A malformed saved value would make `JSON.parse` throw at line 33; that is not modelled.
- The clock and the locale are parameters: record ids, today's date, the current month and the month's printed name.
- `parseFloat` on raw text is left out. A form field is either empty or holds a number. Input that does not parse (NaN) is not modelled. The text "0" is a filled-in field.
- `toFixed(2)` rounding and floating point are left out. Amounts are exact reals, and a line keeps its number unformatted.
- Alerts, the confirmation dialog and the clipboard are left out. The dialog's answer is the `confirmed` parameter.
- Rendering, the tables' markup and the product pictures (with their fallback URL) are left out. Products carry only an id and a name.
- `calculateProfitLoss` (src/App.jsx:145-155) is never called. Its net-based figure is the one the share text uses, and `Aggregator.NetProfitAgrees` covers it.
- The copy button's statement builder (src/App.jsx:731-771) is left out. It repeats the one at lines 692-726, which `Reports.MonthlyStatement` models.
- Editor.App.SubmitHarvest: keeps the store well formed only when the fresh id is new to the history. The source assumes the clock never repeats a time stamp.
- Editor.App.SubmitExpense: the same assumption, for the expenses.
- The report tab's kilogram column is summed in its table, but the source shows no kilogram card. `Aggregator.BreakdownAddsUp` proves the kilogram total too.
