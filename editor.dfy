/** The entry editor: the form state, its validation, and the handlers that
    create, revise and delete records. Each handler replaces some of the
    component's state fields and leaves the others as they were. */
module Editor {
  import opened Records
  import Aggregator

  datatype Tab = HarvestTab | ExpenseTab | HistoryTab | ReportTab | MonthlyTab

  /** The harvest form. A number field is empty (`None`) or holds the number
      typed in; the text "0" is a value, not an empty field. */
  datatype HarvestForm = HarvestForm(kg: Option<real>, rate: Option<real>, commission: Option<real>, date: string)

  /** The expense form, with the same reading of its fields. */
  datatype ExpenseForm = ExpenseForm(fertilizer: Option<real>, labor: Option<real>, other: Option<real>, date: string)

  function BlankHarvestForm(today: string): HarvestForm {
    HarvestForm(None, None, None, today)
  }

  function BlankExpenseForm(today: string): ExpenseForm {
    ExpenseForm(None, None, None, today)
  }

  /** A harvest is accepted when a product is selected and kg and rate are filled in. */
  predicate HarvestInputValid(p: Option<Product>, f: HarvestForm) {
    p.Some? && f.kg.Some? && f.rate.Some?
  }

  /** An expense is accepted when a product is selected and at least one
      amount is filled in. */
  predicate ExpenseInputValid(p: Option<Product>, f: ExpenseForm) {
    p.Some? && (f.fertilizer.Some? || f.labor.Some? || f.other.Some?)
  }

  /** The figures written for a filled-in harvest form: gross is kg times
      rate, an empty commission counts as 0, net is gross less commission. */
  function HarvestFigures(f: HarvestForm): (h: Harvest)
    requires f.kg.Some? && f.rate.Some?
    ensures HarvestConsistent(h)
    ensures h.kg == f.kg.value && h.rate == f.rate.value
    ensures h.commission == Some(f.commission.GetOr(0.0))
  {
    var gross := f.kg.value * f.rate.value;
    var commission := f.commission.GetOr(0.0);
    var h := Harvest(f.kg.value, f.rate.value, Some(commission), Some(gross), gross - commission);
    assert gross == h.kg * h.rate;
    assert h.grossTotal == Some(h.kg * h.rate) && h.total == h.kg * h.rate - h.commission.value;
    assert HarvestConsistent(h);
    h
  }

  /** The figures written for an expense form: empty amounts count as 0 and
      the total is their sum. */
  function ExpenseFigures(f: ExpenseForm): (x: Expense)
    ensures ExpenseConsistent(x)
    ensures x.fertilizer == f.fertilizer.GetOr(0.0) && x.labor == f.labor.GetOr(0.0) && x.other == f.other.GetOr(0.0)
  {
    var fertilizer, labor, other := f.fertilizer.GetOr(0.0), f.labor.GetOr(0.0), f.other.GetOr(0.0);
    Expense(fertilizer, labor, other, fertilizer + labor + other)
  }

  /** A new harvest record of product `p`. */
  function NewHarvest(id: int, p: Product, f: HarvestForm): (e: HarvestEntry)
    requires f.kg.Some? && f.rate.Some?
    ensures e.id == id && e.productId == p.id && e.productName == p.name
    ensures e.recordType == "harvest" && e.date == f.date && e.fields == HarvestFigures(f)
  {
    Entry(id, p.id, p.name, f.date, "harvest", HarvestFigures(f))
  }

  /** A new expense record of product `p`. */
  function NewExpense(id: int, p: Product, f: ExpenseForm): (e: ExpenseEntry)
    ensures e.id == id && e.productId == p.id && e.productName == p.name
    ensures e.recordType == "expense" && e.date == f.date && e.fields == ExpenseFigures(f)
  {
    Entry(id, p.id, p.name, f.date, "expense", ExpenseFigures(f))
  }

  /** The record being edited, with the form's date and figures. Its id,
      product and type stay, whichever product is selected now. */
  function ReviseHarvest(e: HarvestEntry, f: HarvestForm): (r: HarvestEntry)
    requires f.kg.Some? && f.rate.Some?
    ensures r.id == e.id && r.productId == e.productId && r.productName == e.productName
    ensures r.recordType == e.recordType
    ensures r.date == f.date && r.fields == HarvestFigures(f)
  {
    e.(date := f.date, fields := HarvestFigures(f))
  }

  /** `history.map(item => item.id === id ? <revised item> : item)` */
  function ApplyEdit(s: seq<HarvestEntry>, id: int, f: HarvestForm): (r: seq<HarvestEntry>)
    requires f.kg.Some? && f.rate.Some?
    ensures |r| == |s|
    ensures forall i :: 0 <= i < |s| ==> r[i] == if s[i].id == id then ReviseHarvest(s[i], f) else s[i]
  {
    if s == [] then []
    else [if s[0].id == id then ReviseHarvest(s[0], f) else s[0]] + ApplyEdit(s[1..], id, f)
  }

  /** The form as the edit button fills it from a record: a commission of 0
      (or none) is shown as an empty field. */
  function Prefill(e: HarvestEntry): (f: HarvestForm)
    ensures f.kg == Some(e.fields.kg) && f.rate == Some(e.fields.rate) && f.date == e.date
    ensures f.commission.GetOr(0.0) == e.fields.commission.GetOr(0.0)
    ensures f.commission.Some? ==> f.commission.value != 0.0
  {
    var c := e.fields.commission;
    HarvestForm(Some(e.fields.kg), Some(e.fields.rate), if c.Some? && c.value != 0.0 then c else None, e.date)
  }

  /** Filling the form from a consistent record and reading the figures back
      gives the record's own figures. */
  lemma PrefillRoundTrip(e: HarvestEntry)
    requires HarvestConsistent(e.fields)
    ensures HarvestFigures(Prefill(e)) == e.fields
    ensures ReviseHarvest(e, Prefill(e)) == e
  {
  }

  /** `s.filter(item => item.id !== id)` */
  function WithoutId<P(==)>(s: seq<Entry<P>>, id: int): (r: seq<Entry<P>>)
    ensures IsSubsequence(r, s)
    ensures forall x :: x in r ==> x in s && x.id != id
    ensures forall x :: x in s && x.id != id ==> x in r
    ensures forall x :: x in s ==> multiset(r)[x] == if x.id != id then multiset(s)[x] else 0
    ensures !HasId(r, id)
  {
    if s == [] then []
    else
      assert s == [s[0]] + s[1..];
      if s[0].id != id then
        var r := [s[0]] + WithoutId(s[1..], id);
        assert r[0] == s[0] && r[1..] == WithoutId(s[1..], id);
        r
      else WithoutId(s[1..], id)
  }

  // --------------------------------------------------------------- lemmas

  /** Deleting an id no entry carries changes nothing. */
  lemma {:induction false} DeleteUnknownId<P>(s: seq<Entry<P>>, id: int)
    requires !HasId(s, id)
    ensures WithoutId(s, id) == s
  {
    if s != [] {
      DeleteUnknownId(s[1..], id);
      assert [s[0]] + s[1..] == s;
    }
  }

  /** With unique ids, deleting an id that is present removes exactly one entry. */
  lemma {:induction false} DeleteRemovesOne<P>(s: seq<Entry<P>>, id: int)
    requires UniqueIds(s) && HasId(s, id)
    ensures |WithoutId(s, id)| == |s| - 1
  {
    if s[0].id == id {
      DeleteUnknownId(s[1..], id);
    } else {
      DeleteRemovesOne(s[1..], id);
    }
  }

  /** An id occurs after deletion only where it occurred before. */
  lemma {:induction false} DeleteKeepsIds<P>(s: seq<Entry<P>>, id: int, k: int)
    ensures HasId(WithoutId(s, id), k) ==> HasId(s, k)
  {
    if s != [] {
      DeleteKeepsIds(s[1..], id, k);
    }
  }

  /** Deleting keeps ids unique. */
  lemma {:induction false} DeleteKeepsUnique<P>(s: seq<Entry<P>>, id: int)
    requires UniqueIds(s)
    ensures UniqueIds(WithoutId(s, id))
  {
    if s != [] {
      DeleteKeepsUnique(s[1..], id);
      DeleteKeepsIds(s[1..], id, s[0].id);
      if s[0].id != id {
        var r := [s[0]] + WithoutId(s[1..], id);
        assert r[0] == s[0] && r[1..] == WithoutId(s[1..], id);
      }
    }
  }

  /** Deleting a record just created, under an id no other record has,
      gives back the collection as it was before. */
  lemma CreateThenDelete<P>(x: Entry<P>, s: seq<Entry<P>>)
    requires !HasId(s, x.id)
    ensures WithoutId([x] + s, x.id) == s
  {
    assert ([x] + s)[0] == x && ([x] + s)[1..] == s;
    DeleteUnknownId(s, x.id);
  }

  /** Revising keeps the set of ids. */
  lemma {:induction false} EditKeepsIds(s: seq<HarvestEntry>, id: int, f: HarvestForm, k: int)
    requires f.kg.Some? && f.rate.Some?
    ensures HasId(ApplyEdit(s, id, f), k) <==> HasId(s, k)
  {
    if s != [] {
      EditKeepsIds(s[1..], id, f, k);
      var r := ApplyEdit(s, id, f);
      assert r[1..] == ApplyEdit(s[1..], id, f);
    }
  }

  /** Revising keeps ids unique. */
  lemma {:induction false} EditKeepsUnique(s: seq<HarvestEntry>, id: int, f: HarvestForm)
    requires f.kg.Some? && f.rate.Some?
    requires UniqueIds(s)
    ensures UniqueIds(ApplyEdit(s, id, f))
  {
    if s != [] {
      EditKeepsUnique(s[1..], id, f);
      EditKeepsIds(s[1..], id, f, s[0].id);
      var r := ApplyEdit(s, id, f);
      assert r[1..] == ApplyEdit(s[1..], id, f);
    }
  }

  /** Opening a consistent record in the editor and saving it untouched
      leaves the history as it was, when that record's id is unique. */
  lemma {:induction false} EditUntouchedIsNoOp(s: seq<HarvestEntry>, e: HarvestEntry)
    requires HarvestConsistent(e.fields)
    requires UniqueIds(s) && e in s
    ensures ApplyEdit(s, e.id, Prefill(e)) == s
  {
    var r := ApplyEdit(s, e.id, Prefill(e));
    if s[0] == e {
      PrefillRoundTrip(e);
      DeleteUnknownId(s[1..], e.id);
      EditOfUnknownId(s[1..], e.id, Prefill(e));
    } else {
      assert e in s[1..] by { assert s == [s[0]] + s[1..]; }
      EditUntouchedIsNoOp(s[1..], e);
      HasIdOfMember(s[1..], e);
    }
    assert r == [r[0]] + r[1..];
    assert r[1..] == ApplyEdit(s[1..], e.id, Prefill(e));
  }

  /** Revising an id no record has changes nothing. */
  lemma {:induction false} EditOfUnknownId(s: seq<HarvestEntry>, id: int, f: HarvestForm)
    requires f.kg.Some? && f.rate.Some?
    requires !HasId(s, id)
    ensures ApplyEdit(s, id, f) == s
  {
    if s != [] {
      EditOfUnknownId(s[1..], id, f);
      var r := ApplyEdit(s, id, f);
      assert r == [r[0]] + r[1..];
      assert s == [s[0]] + s[1..];
    }
  }

  lemma {:induction false} HasIdOfMember<P>(s: seq<Entry<P>>, x: Entry<P>)
    requires x in s
    ensures HasId(s, x.id)
  {
    if s[0] != x {
      assert x in s[1..] by { assert s == [s[0]] + s[1..]; }
      HasIdOfMember(s[1..], x);
    }
  }

  lemma {:induction false} ListedOfMember(ps: seq<Product>, p: Product)
    requires p in ps
    ensures Listed(ps, p.id)
  {
    if ps[0] != p {
      assert p in ps[1..] by { assert ps == [ps[0]] + ps[1..]; }
      ListedOfMember(ps[1..], p);
    }
  }

  /** What the editor keeps true of the store: every record consistent, ids
      unique within each collection, every record of a catalog product. */
  predicate Recorded(history: seq<HarvestEntry>, expenses: seq<ExpenseEntry>) {
    && StoreWellFormed(history, expenses)
    && (forall x :: x in history ==> Listed(Catalog, x.productId))
    && (forall x :: x in expenses ==> Listed(Catalog, x.productId))
  }

  /** Putting a consistent harvest of a catalog product with a new id in
      front of the history keeps the store recorded. */
  lemma HarvestCreateKeepsRecorded(history: seq<HarvestEntry>, expenses: seq<ExpenseEntry>, h: HarvestEntry)
    requires Recorded(history, expenses)
    requires HarvestConsistent(h.fields) && Listed(Catalog, h.productId) && !HasId(history, h.id)
    ensures Recorded([h] + history, expenses)
  {
    assert ([h] + history)[1..] == history;
  }

  /** The same for an expense put in front of the expenses. */
  lemma ExpenseCreateKeepsRecorded(history: seq<HarvestEntry>, expenses: seq<ExpenseEntry>, x: ExpenseEntry)
    requires Recorded(history, expenses)
    requires ExpenseConsistent(x.fields) && Listed(Catalog, x.productId) && !HasId(expenses, x.id)
    ensures Recorded(history, [x] + expenses)
  {
    assert ([x] + expenses)[1..] == expenses;
  }

  /** Revising records keeps the store recorded. */
  lemma EditKeepsRecorded(history: seq<HarvestEntry>, expenses: seq<ExpenseEntry>, id: int, f: HarvestForm)
    requires f.kg.Some? && f.rate.Some?
    requires Recorded(history, expenses)
    ensures Recorded(ApplyEdit(history, id, f), expenses)
  {
    var r := ApplyEdit(history, id, f);
    EditKeepsUnique(history, id, f);
    forall x | x in r
      ensures HarvestConsistent(x.fields) && Listed(Catalog, x.productId)
    {
      var i :| 0 <= i < |r| && r[i] == x;
      assert history[i] in history;
    }
  }

  /** Deleting from either collection keeps the store recorded. */
  lemma DeleteKeepsRecorded(history: seq<HarvestEntry>, expenses: seq<ExpenseEntry>, id: int)
    requires Recorded(history, expenses)
    ensures Recorded(WithoutId(history, id), expenses)
    ensures Recorded(history, WithoutId(expenses, id))
  {
    DeleteKeepsUnique(history, id);
    DeleteKeepsUnique(expenses, id);
  }

  /** On such a store the summary cards of the report tab and of any month's
      statement equal the total line of the product-wise table. */
  lemma RecordedBreakdownAddsUp(history: seq<HarvestEntry>, expenses: seq<ExpenseEntry>, month: string)
    requires Recorded(history, expenses)
    ensures Aggregator.Total(Aggregator.Breakdown(Catalog, history, expenses)) == Aggregator.Summarize(history, expenses)
    ensures Aggregator.Total(Aggregator.Breakdown(Catalog, Aggregator.ForMonth(history, month), Aggregator.ForMonth(expenses, month)))
         == Aggregator.Summarize(Aggregator.ForMonth(history, month), Aggregator.ForMonth(expenses, month))
  {
    CatalogDistinct();
    Aggregator.BreakdownAddsUp(Catalog, history, expenses);
    Aggregator.MonthlyBreakdownAddsUp(Catalog, history, expenses, month);
  }

  // -------------------------------------------------------------- the state

  class App {
    var activeTab: Tab
    var selectedMonth: string
    var selectedProduct: Option<Product>
    var harvestForm: HarvestForm
    var expenseForm: ExpenseForm
    var editingHarvestId: Option<int>
    var history: seq<HarvestEntry>
    var expenses: seq<ExpenseEntry>

    /** The store is well formed and any selected product is a catalog product. */
    predicate Valid()
      reads this
    {
      Recorded(history, expenses) && (selectedProduct.Some? ==> selectedProduct.value in Catalog)
    }

    /** `if (editingHarvestId)`: an id of 0 reads as "not editing". */
    predicate Editing()
      reads this
    {
      editingHarvestId.Some? && editingHarvestId.value != 0
    }

    /** The component as it starts: the saved collections, the harvest tab,
        no product, blank forms dated today, not editing. */
    constructor (savedHistory: seq<HarvestEntry>, savedExpenses: seq<ExpenseEntry>, today: string, thisMonth: string)
      ensures activeTab == HarvestTab && selectedMonth == thisMonth && selectedProduct == None
      ensures harvestForm == BlankHarvestForm(today) && expenseForm == BlankExpenseForm(today)
      ensures editingHarvestId == None && history == savedHistory && expenses == savedExpenses
      ensures Valid() <==> Recorded(savedHistory, savedExpenses)
    {
      activeTab := HarvestTab;
      selectedMonth := thisMonth;
      selectedProduct := None;
      harvestForm := BlankHarvestForm(today);
      expenseForm := BlankExpenseForm(today);
      editingHarvestId := None;
      history := savedHistory;
      expenses := savedExpenses;
    }

    /** A click on a product card; only catalog products have one. */
    method SelectProduct(p: Product)
      requires p in Catalog
      modifies this
      ensures selectedProduct == Some(p)
      ensures activeTab == old(activeTab) && selectedMonth == old(selectedMonth)
      ensures harvestForm == old(harvestForm) && expenseForm == old(expenseForm)
      ensures editingHarvestId == old(editingHarvestId) && history == old(history) && expenses == old(expenses)
      ensures old(Valid()) ==> Valid()
    {
      selectedProduct := Some(p);
    }

    /** A click on one of the five tab buttons. */
    method SelectTab(t: Tab)
      modifies this
      ensures activeTab == t
      ensures selectedMonth == old(selectedMonth) && selectedProduct == old(selectedProduct)
      ensures harvestForm == old(harvestForm) && expenseForm == old(expenseForm)
      ensures editingHarvestId == old(editingHarvestId) && history == old(history) && expenses == old(expenses)
      ensures old(Valid()) ==> Valid()
    {
      activeTab := t;
    }

    /** Picking a month ("yyyy-mm") on the monthly tab. */
    method SelectMonth(month: string)
      modifies this
      ensures selectedMonth == month
      ensures activeTab == old(activeTab) && selectedProduct == old(selectedProduct)
      ensures harvestForm == old(harvestForm) && expenseForm == old(expenseForm)
      ensures editingHarvestId == old(editingHarvestId) && history == old(history) && expenses == old(expenses)
      ensures old(Valid()) ==> Valid()
    {
      selectedMonth := month;
    }

    /** Typing into the harvest form. */
    method FillHarvestForm(f: HarvestForm)
      modifies this
      ensures harvestForm == f
      ensures activeTab == old(activeTab) && selectedMonth == old(selectedMonth) && selectedProduct == old(selectedProduct)
      ensures expenseForm == old(expenseForm) && editingHarvestId == old(editingHarvestId)
      ensures history == old(history) && expenses == old(expenses)
    {
      harvestForm := f;
    }

    /** Typing into the expense form. */
    method FillExpenseForm(f: ExpenseForm)
      modifies this
      ensures expenseForm == f
      ensures activeTab == old(activeTab) && selectedMonth == old(selectedMonth) && selectedProduct == old(selectedProduct)
      ensures harvestForm == old(harvestForm) && editingHarvestId == old(editingHarvestId)
      ensures history == old(history) && expenses == old(expenses)
    {
      expenseForm := f;
    }

    /** Saving the harvest form. A rejected form changes nothing. In edit mode
        the record being edited is revised in place and edit mode ends;
        otherwise a new record, with the fresh id, goes in front. Either way
        the form is cleared. */
    method SubmitHarvest(freshId: int, today: string) returns (accepted: bool)
      modifies this
      ensures accepted <==> HarvestInputValid(old(selectedProduct), old(harvestForm))
      ensures !accepted ==> unchanged(this)
      ensures accepted && old(Editing()) ==>
                history == ApplyEdit(old(history), old(editingHarvestId).value, old(harvestForm))
                && editingHarvestId == None
      ensures accepted && !old(Editing()) ==>
                history == [NewHarvest(freshId, old(selectedProduct).value, old(harvestForm))] + old(history)
                && editingHarvestId == old(editingHarvestId)
      ensures accepted ==> harvestForm == BlankHarvestForm(today)
      ensures accepted ==> activeTab == old(activeTab) && selectedMonth == old(selectedMonth)
                           && selectedProduct == old(selectedProduct) && expenseForm == old(expenseForm)
                           && expenses == old(expenses)
      ensures old(Valid()) && (old(Editing()) || !HasId(old(history), freshId)) ==> Valid()
    {
      if !HarvestInputValid(selectedProduct, harvestForm) {
        return false;
      }
      if Editing() {
        var id := editingHarvestId.value;
        if Valid() {
          EditKeepsRecorded(history, expenses, id, harvestForm);
        }
        history := ApplyEdit(history, id, harvestForm);
        editingHarvestId := None;
      } else {
        var entry := NewHarvest(freshId, selectedProduct.value, harvestForm);
        if Valid() {
          ListedOfMember(Catalog, selectedProduct.value);
          if !HasId(history, freshId) {
            HarvestCreateKeepsRecorded(history, expenses, entry);
          }
        }
        history := [entry] + history;
      }
      harvestForm := BlankHarvestForm(today);
      return true;
    }

    /** Saving the expense form: a rejected form changes nothing; otherwise a
        new record, with the fresh id, goes in front and the form is cleared. */
    method SubmitExpense(freshId: int, today: string) returns (accepted: bool)
      modifies this
      ensures accepted <==> ExpenseInputValid(old(selectedProduct), old(expenseForm))
      ensures !accepted ==> unchanged(this)
      ensures accepted ==>
                expenses == [NewExpense(freshId, old(selectedProduct).value, old(expenseForm))] + old(expenses)
                && expenseForm == BlankExpenseForm(today)
                && activeTab == old(activeTab) && selectedMonth == old(selectedMonth)
                && selectedProduct == old(selectedProduct) && harvestForm == old(harvestForm)
                && editingHarvestId == old(editingHarvestId) && history == old(history)
      ensures old(Valid()) && !HasId(old(expenses), freshId) ==> Valid()
    {
      if !ExpenseInputValid(selectedProduct, expenseForm) {
        return false;
      }
      var entry := NewExpense(freshId, selectedProduct.value, expenseForm);
      if Valid() {
        ListedOfMember(Catalog, selectedProduct.value);
        if !HasId(expenses, freshId) {
          ExpenseCreateKeepsRecorded(history, expenses, entry);
        }
      }
      expenses := [entry] + expenses;
      expenseForm := BlankExpenseForm(today);
      return true;
    }

    /** The edit button of a harvest record: switch to the harvest tab,
        select the record's product (none if it is not in the catalog), fill
        the form from the record and enter edit mode. */
    method EditHarvest(entry: HarvestEntry)
      modifies this
      ensures activeTab == HarvestTab
      ensures selectedProduct == FindProduct(Catalog, entry.productId)
      ensures harvestForm == Prefill(entry) && editingHarvestId == Some(entry.id)
      ensures selectedMonth == old(selectedMonth) && expenseForm == old(expenseForm)
      ensures history == old(history) && expenses == old(expenses)
      ensures old(Valid()) ==> Valid()
    {
      activeTab := HarvestTab;
      selectedProduct := FindProduct(Catalog, entry.productId);
      harvestForm := Prefill(entry);
      editingHarvestId := Some(entry.id);
    }

    /** Leaving edit mode without saving. */
    method CancelEdit(today: string)
      modifies this
      ensures editingHarvestId == None && harvestForm == BlankHarvestForm(today)
      ensures activeTab == old(activeTab) && selectedMonth == old(selectedMonth) && selectedProduct == old(selectedProduct)
      ensures expenseForm == old(expenseForm) && history == old(history) && expenses == old(expenses)
      ensures old(Valid()) ==> Valid()
    {
      editingHarvestId := None;
      harvestForm := BlankHarvestForm(today);
    }

    /** The delete button: unless confirmed nothing changes; a "harvest"
        record is removed from the history, any other kind from the expenses. */
    method Delete(id: int, recordType: string, confirmed: bool)
      modifies this
      ensures !confirmed ==> unchanged(this)
      ensures confirmed && recordType == "harvest" ==> history == WithoutId(old(history), id) && expenses == old(expenses)
      ensures confirmed && recordType != "harvest" ==> expenses == WithoutId(old(expenses), id) && history == old(history)
      ensures activeTab == old(activeTab) && selectedMonth == old(selectedMonth) && selectedProduct == old(selectedProduct)
      ensures harvestForm == old(harvestForm) && expenseForm == old(expenseForm) && editingHarvestId == old(editingHarvestId)
      ensures old(Valid()) ==> Valid()
    {
      if confirmed {
        if Valid() {
          DeleteKeepsRecorded(history, expenses, id);
        }
        if recordType == "harvest" {
          history := WithoutId(history, id);
        } else {
          expenses := WithoutId(expenses, id);
        }
      }
    }
  }
}
