/** The records the application keeps: the fixed product catalog, harvest
    entries and expense entries, and the invariants every entry created by
    the entry editor satisfies. */
module Records {

  datatype Option<T> = None | Some(value: T) {
    /** `x || 0` on a field that may be missing */
    function GetOr(default: T): T {
      if Some? then value else default
    }
  }

  /** A crop the farmer sells. Never created or destroyed at run time. (Its
      picture is only shown, never computed with.) */
  datatype Product = Product(id: int, name: string)

  /** A stored record. Both kinds carry an id (a time stamp when created),
      the product's id and name, an ISO date "yyyy-mm-dd" and a type tag;
      `fields` holds what is particular to the kind. */
  datatype Entry<P> = Entry(id: int, productId: int, productName: string,
                            date: string, recordType: string, fields: P)

  /** One sale. `commission` and `grossTotal` are missing on records saved
      before those fields existed; `total` is the net amount. */
  datatype Harvest = Harvest(kg: real, rate: real, commission: Option<real>,
                             grossTotal: Option<real>, total: real)

  /** One production cost. */
  datatype Expense = Expense(fertilizer: real, labor: real, other: real, total: real)

  type HarvestEntry = Entry<Harvest>
  type ExpenseEntry = Entry<Expense>

  const Catalog: seq<Product> := [
    Product(1, "கோவக்காய்"),
    Product(2, "புடலங்காய்"),
    Product(3, "வேர்கடலை"),
    Product(4, "பாகற்காய்"),
    Product(5, "சுரைக்காய்")
  ]

  /** Some product of `ps` has id `k`. */
  predicate Listed(ps: seq<Product>, k: int) {
    |ps| > 0 && (ps[0].id == k || Listed(ps[1..], k))
  }

  /** No two products of `ps` share an id. */
  predicate DistinctIds(ps: seq<Product>) {
    |ps| == 0 || (!Listed(ps[1..], ps[0].id) && DistinctIds(ps[1..]))
  }

  lemma CatalogDistinct()
    ensures DistinctIds(Catalog)
    ensures forall k :: Listed(Catalog, k) <==> 1 <= k <= 5
  {
    var c := Catalog;
    assert c[1..][1..][1..][1..][1..] == [];
    assert forall k :: Listed(c[1..][1..][1..][1..], k) <==> k == 5;
    assert forall k :: Listed(c[1..][1..][1..], k) <==> 4 <= k <= 5;
    assert forall k :: Listed(c[1..][1..], k) <==> 3 <= k <= 5;
    assert forall k :: Listed(c[1..], k) <==> 2 <= k <= 5;
  }

  /** `products.find(p => p.id === k)`: the first product with id `k`. */
  function FindProduct(ps: seq<Product>, k: int): (r: Option<Product>)
    ensures r.Some? <==> Listed(ps, k)
    ensures r.Some? ==> r.value in ps && r.value.id == k
    ensures r.Some? && |ps| > 0 && ps[0].id == k ==> r.value == ps[0]
    ensures r.Some? ==> exists i :: 0 <= i < |ps| && ps[i] == r.value && forall j :: 0 <= j < i ==> ps[j].id != k
  {
    if |ps| == 0 then None
    else if ps[0].id == k then Some(ps[0])
    else FindProduct(ps[1..], k)
  }

  /** What the entry editor establishes for every harvest it writes:
      gross = kg * rate and net = gross - commission, both fields present. */
  predicate HarvestConsistent(h: Harvest) {
    && h.commission.Some?
    && h.grossTotal == Some(h.kg * h.rate)
    && h.total == h.kg * h.rate - h.commission.value
  }

  /** What the entry editor establishes for every expense it writes. */
  predicate ExpenseConsistent(e: Expense) {
    e.total == e.fertilizer + e.labor + e.other
  }

  /** `r` is `s` with some elements left out, the rest in their order. */
  predicate IsSubsequence<T(==)>(r: seq<T>, s: seq<T>)
    decreases |r| + |s|
  {
    if r == [] then true
    else if s == [] then false
    else (r[0] == s[0] && IsSubsequence(r[1..], s[1..])) || IsSubsequence(r, s[1..])
  }

  /** Some entry of `s` has id `id`. */
  predicate HasId<P>(s: seq<Entry<P>>, id: int) {
    |s| > 0 && (s[0].id == id || HasId(s[1..], id))
  }

  /** No two entries of `s` share an id. */
  predicate UniqueIds<P>(s: seq<Entry<P>>) {
    |s| == 0 || (!HasId(s[1..], s[0].id) && UniqueIds(s[1..]))
  }

  /** The invariant of the record store: every entry consistent, ids unique
      within each collection. */
  predicate StoreWellFormed(history: seq<HarvestEntry>, expenses: seq<ExpenseEntry>) {
    && (forall x :: x in history ==> HarvestConsistent(x.fields))
    && (forall x :: x in expenses ==> ExpenseConsistent(x.fields))
    && UniqueIds(history)
    && UniqueIds(expenses)
  }
}
