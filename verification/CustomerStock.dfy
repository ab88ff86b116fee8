/** The locally projected stock figures: the home card's totals, and the per-product breakdown. */
module CustomerStock {
  import opened Option
  import opened Grouping
  import opened Reals

  datatype Item = Item(product: string, quantity: real)

  datatype Load = Load(completed: bool, cartons: Option<real>)

  datatype Order = Order(date: int, items: seq<Item>, loads: seq<Load>)

  function Quantity(i: Item): real {
    i.quantity
  }

  /** The cartons of a completed load; a load with no figure counts as none. */
  function CompletedCartons(l: Load): real {
    if l.completed then l.cartons.GetOr(0.0) else 0.0
  }

  function PaidOf(o: Order): real {
    SumOf(Quantity, o.items)
  }

  function LoadedOf(o: Order): real {
    SumOf(CompletedCartons, o.loads)
  }

  function Min(a: real, b: real): real {
    if a < b then a else b
  }

  // ---------------------------------------------------------------- the home card

  function OwedOn(o: Order): real {
    AtLeastZero(PaidOf(o) - LoadedOf(o))
  }

  method HomeTotals(orders: seq<Order>) returns (totalPaid: real, totalLoaded: real, remaining: real)
    ensures totalPaid == SumOf(PaidOf, orders)
    ensures remaining == SumOf(OwedOn, orders) && totalLoaded == totalPaid - remaining && totalLoaded <= totalPaid
  {
    totalPaid, totalLoaded := 0.0, 0.0;
    for i := 0 to |orders|
      invariant totalPaid == SumOf(PaidOf, orders[..i])
      invariant totalPaid - totalLoaded == SumOf(OwedOn, orders[..i]) >= 0.0
    {
      var o := orders[i];
      assert orders[..i + 1] == orders[..i] + [o];
      SumOfAppend(PaidOf, orders[..i], o);
      SumOfAppend(OwedOn, orders[..i], o);
      var paid, loaded := PaidOf(o), LoadedOf(o);
      totalPaid := totalPaid + paid;
      totalLoaded := totalLoaded + Min(loaded, paid);
    }
    assert orders[..|orders|] == orders;
    remaining := AtLeastZero(totalPaid - totalLoaded);
  }

  // ---------------------------------------------------------------- apportioning a load

  /** `loaded` split in proportion, in whole cartons. */
  function Portion(quantity: real, total: real, loaded: real): real
    requires total > 0.0
  {
    Round((quantity / total) * loaded)
  }

  /** An item's part of the order's completed load. */
  function Share(o: Order, i: Item): real {
    if PaidOf(o) > 0.0 && LoadedOf(o) > 0.0 then Portion(i.quantity, PaidOf(o), LoadedOf(o)) else 0.0
  }

  /** One item as the breakdown sees it. */
  datatype Entry = Entry(product: string, quantity: real, share: real, date: int)

  function ProductOf(e: Entry): string {
    e.product
  }

  function EntryQuantity(e: Entry): real {
    e.quantity
  }

  function EntryShare(e: Entry): real {
    e.share
  }

  /** Items as entries, each with the part of its order's load that `share` gives it. */
  function EntriesOf(share: Item -> real, items: seq<Item>, date: int): seq<Entry> {
    if items == [] then []
    else
      var last := items[|items| - 1];
      EntriesOf(share, items[..|items| - 1], date) + [Entry(last.product, last.quantity, share(last), date)]
  }

  function Shares(o: Order): Item -> real {
    (i: Item) => Share(o, i)
  }

  function EntriesOfOrder(o: Order): seq<Entry> {
    EntriesOf(Shares(o), o.items, o.date)
  }

  function AllEntries(orders: seq<Order>): seq<Entry> {
    if orders == [] then [] else AllEntries(orders[..|orders| - 1]) + EntriesOfOrder(orders[|orders| - 1])
  }

  // ---------------------------------------------------------------- the breakdown

  datatype Row = Row(paid: real, loaded: real, lastOrderDate: Option<int>)

  datatype Product = Product(name: string, paid: real, loaded: real, remaining: real, lastOrderDate: Option<int>)

  datatype Breakdown = Breakdown(purchased: real, loaded: real, remaining: real, progress: real, products: seq<Product>)

  function LastDate(entries: seq<Entry>): Option<int> {
    if entries == [] then None
    else
      var rest, d := LastDate(entries[..|entries| - 1]), entries[|entries| - 1].date;
      if rest.None? || d > rest.value then Some(d) else rest
  }

  function RowOf(entries: seq<Entry>): Row {
    Row(SumOf(EntryQuantity, entries), SumOf(EntryShare, entries), LastDate(entries))
  }

  function RowFor(n: string, entries: seq<Entry>): Row {
    RowOf(Group(ProductOf, n, entries))
  }

  function ProductOfRow(name: string, r: Row): Product {
    Product(name, r.paid, r.loaded, AtLeastZero(r.paid - r.loaded), r.lastOrderDate)
  }

  function ProductsOf(names: seq<string>, entries: seq<Entry>): seq<Product> {
    if names == [] then []
    else
      ProductsOf(names[..|names| - 1], entries) + [ProductOfRow(names[|names| - 1], RowFor(names[|names| - 1], entries))]
  }

  function Paid(p: Product): real {
    p.paid
  }

  function Loaded(p: Product): real {
    p.loaded
  }

  function Remaining(p: Product): real {
    p.remaining
  }

  /** What is still to collect: products taken in full drop out of the list. */
  function StillOwed(products: seq<Product>): seq<Product> {
    if products == [] then []
    else
      var rest, last := StillOwed(products[..|products| - 1]), products[|products| - 1];
      if last.remaining > 0.0 then rest + [last] else rest
  }

  /** The percentage bar: whole percents, and none where nothing was purchased. */
  function Progress(purchased: real, loaded: real): real {
    if purchased > 0.0 then Round((loaded / purchased) * 100.0) else 0.0
  }

  function BreakdownOf(orders: seq<Order>): Breakdown {
    var entries := AllEntries(orders);
    var products := ProductsOf(Keys(ProductOf, entries), entries);
    var purchased, loaded := SumOf(Paid, products), SumOf(Loaded, products);
    Breakdown(purchased, loaded, SumOf(Remaining, products), Progress(purchased, loaded), StillOwed(products))
  }

  ghost predicate HoldsRow(r: Row, n: string, entries: seq<Entry>) {
    r == RowFor(n, entries)
  }

  /** The product map, insertion-ordered, over some entries. */
  ghost predicate Tracks(names: seq<string>, rows: map<string, Row>, entries: seq<Entry>) {
    names == Keys(ProductOf, entries) && (forall n :: n in names <==> n in rows) &&
    forall n :: n in rows ==> HoldsRow(rows[n], n, entries)
  }

  /** An order's items while its load is being apportioned: the first `j` have their share, the rest none yet. */
  function Partly(share: Item -> real, items: seq<Item>, date: int, j: nat): seq<Entry>
    requires j <= |items|
  {
    EntriesOf(share, items[..j], date) + Unshared(items[j..], date)
  }

  function Unshared(items: seq<Item>, date: int): seq<Entry> {
    if items == [] then []
    else Unshared(items[..|items| - 1], date) + [Entry(items[|items| - 1].product, items[|items| - 1].quantity, 0.0, date)]
  }

  lemma RowOfAppend(entries: seq<Entry>, e: Entry)
    ensures RowOf(entries + [e]).paid == RowOf(entries).paid + e.quantity
    ensures RowOf(entries + [e]).loaded == RowOf(entries).loaded + e.share
    ensures RowOf(entries + [e]).lastOrderDate ==
            var last := RowOf(entries).lastOrderDate;
            if last.None? || e.date > last.value then Some(e.date) else last
  {
    assert (entries + [e])[..|entries|] == entries;
  }

  function WithItem(seen: Row, i: Item, date: int): Row {
    var last := if seen.lastOrderDate.None? || date > seen.lastOrderDate.value then Some(date) else seen.lastOrderDate;
    seen.(paid := seen.paid + i.quantity, lastOrderDate := last)
  }

  function Plus(r: Row, e: Entry): Row {
    Row(r.paid + e.quantity, r.loaded + e.share,
        if r.lastOrderDate.None? || e.date > r.lastOrderDate.value then Some(e.date) else r.lastOrderDate)
  }

  lemma RowForAppend(n: string, entries: seq<Entry>, e: Entry)
    ensures RowFor(n, entries + [e]) == if e.product == n then Plus(RowFor(n, entries), e) else RowFor(n, entries)
  {
    GroupAppend(ProductOf, n, entries, e);
    RowOfAppend(Group(ProductOf, n, entries), e);
  }

  /** An entry of another product leaves a row alone. */
  lemma OtherRowHeld(r: Row, n: string, entries: seq<Entry>, e: Entry)
    requires HoldsRow(r, n, entries) && e.product != n
    ensures HoldsRow(r, n, entries + [e])
  {
    RowForAppend(n, entries, e);
  }

  lemma OwnRowHeld(r: Row, entries: seq<Entry>, i: Item, date: int)
    requires HoldsRow(r, i.product, entries)
    ensures HoldsRow(WithItem(r, i, date), i.product, entries + [Entry(i.product, i.quantity, 0.0, date)])
  {
    RowForAppend(i.product, entries, Entry(i.product, i.quantity, 0.0, date));
  }

  lemma NewRowHeld(entries: seq<Entry>, n: string)
    requires n !in Keys(ProductOf, entries)
    ensures HoldsRow(Row(0.0, 0.0, None), n, entries)
  {
    NoSuchGroup(ProductOf, n, entries);
  }

  lemma OtherRowsHeld(rows: map<string, Row>, entries: seq<Entry>, e: Entry)
    requires forall n :: n in rows ==> HoldsRow(rows[n], n, entries)
    ensures forall n :: n in rows && n != e.product ==> HoldsRow(rows[n], n, entries + [e])
  {
    forall n | n in rows && n != e.product
      ensures HoldsRow(rows[n], n, entries + [e])
    {
      OtherRowHeld(rows[n], n, entries, e);
    }
  }

  lemma TracksItem(names: seq<string>, rows: map<string, Row>, entries: seq<Entry>, i: Item, date: int)
    requires Tracks(names, rows, entries)
    ensures var seen := if i.product in rows then rows[i.product] else Row(0.0, 0.0, None);
            Tracks(if i.product in rows then names else names + [i.product], rows[i.product := WithItem(seen, i, date)],
                   entries + [Entry(i.product, i.quantity, 0.0, date)])
  {
    var e := Entry(i.product, i.quantity, 0.0, date);
    KeysAppend(ProductOf, entries, e);
    OtherRowsHeld(rows, entries, e);
    if i.product in rows {
      OwnRowHeld(rows[i.product], entries, i, date);
    } else {
      NewRowHeld(entries, i.product);
      OwnRowHeld(Row(0.0, 0.0, None), entries, i, date);
    }
  }

  /** Writing one entry, seen from the end of the list. */
  lemma UpdateSplits(init: seq<Entry>, last: Entry, k: nat, e: Entry)
    requires k <= |init|
    ensures (init + [last])[k := e] == if k == |init| then init + [e] else init[k := e] + [last]
  {
  }

  function WithShare(r: Row, share: real): Row {
    r.(loaded := r.loaded + share)
  }

  /** What giving a share to an entry of product `p` should do to the row of product `n`. */
  function Raised(r: Row, share: real, p: string, n: string): Row {
    if p == n then WithShare(r, share) else r
  }

  lemma ShareLast(init: seq<Entry>, last: Entry, share: real, n: string)
    requires last.share == 0.0
    ensures RowFor(n, init + [last.(share := share)]) == Raised(RowFor(n, init + [last]), share, last.product, n)
  {
    RowForAppend(n, init, last);
    RowForAppend(n, init, last.(share := share));
  }

  lemma ShareEarlier(init: seq<Entry>, shared: seq<Entry>, last: Entry, share: real, p: string, n: string)
    requires RowFor(n, shared) == Raised(RowFor(n, init), share, p, n)
    ensures RowFor(n, shared + [last]) == Raised(RowFor(n, init + [last]), share, p, n)
  {
    RowForAppend(n, init, last);
    RowForAppend(n, shared, last);
    RaisedThenMore(RowFor(n, init), last, share, p, n);
  }

  /** A share given before another entry arrives, or after it, comes to the same. */
  lemma RaisedThenMore(r: Row, e: Entry, share: real, p: string, n: string)
    ensures Plus(Raised(r, share, p, n), e) == Raised(Plus(r, e), share, p, n)
  {
  }

  /** Giving one entry its share raises its own product's loaded figure and changes nothing else. */
  lemma {:induction false} ShareOne(entries: seq<Entry>, k: nat, share: real, n: string)
    requires k < |entries| && entries[k].share == 0.0
    ensures RowFor(n, entries[k := entries[k].(share := share)]) == Raised(RowFor(n, entries), share, entries[k].product, n)
  {
    var init, last, e := entries[..|entries| - 1], entries[|entries| - 1], entries[k].(share := share);
    assert entries == init + [last];
    UpdateSplits(init, last, k, e);
    if k == |init| {
      ShareLast(init, last, share, n);
    } else {
      ShareOne(init, k, share, n);
      ShareEarlier(init, init[k := e], last, share, e.product, n);
    }
  }

  lemma {:induction false} SharingKeepsNames(entries: seq<Entry>, k: nat, share: real)
    requires k < |entries|
    ensures Keys(ProductOf, entries[k := entries[k].(share := share)]) == Keys(ProductOf, entries)
  {
    var init, last, e := entries[..|entries| - 1], entries[|entries| - 1], entries[k].(share := share);
    assert entries == init + [last];
    UpdateSplits(init, last, k, e);
    KeysAppend(ProductOf, init, last);
    if k == |init| {
      KeysAppend(ProductOf, init, e);
    } else {
      SharingKeepsNames(init, k, share);
      KeysAppend(ProductOf, init[k := e], last);
    }
  }

  lemma SharedRowHeld(r: Row, n: string, entries: seq<Entry>, k: nat, share: real)
    requires HoldsRow(r, n, entries) && k < |entries| && entries[k].share == 0.0
    ensures HoldsRow(Raised(r, share, entries[k].product, n), n, entries[k := entries[k].(share := share)])
  {
    ShareOne(entries, k, share, n);
  }

  lemma TracksShare(names: seq<string>, rows: map<string, Row>, entries: seq<Entry>, k: nat, share: real, after: seq<Entry>)
    requires Tracks(names, rows, entries)
    requires k < |entries| && entries[k].share == 0.0 && after == entries[k := entries[k].(share := share)]
    ensures entries[k].product in rows
    ensures Tracks(names, rows[entries[k].product := WithShare(rows[entries[k].product], share)], after)
  {
    var p := entries[k].product;
    KeyOfElement(ProductOf, entries, k);
    assert p in names;
    SharingKeepsNames(entries, k, share);
    var shared := rows[p := WithShare(rows[p], share)];
    forall n | n in shared
      ensures HoldsRow(shared[n], n, after)
    {
      SharedRowHeld(rows[n], n, entries, k, share);
    }
  }

  lemma {:induction false} EntriesLengths(share: Item -> real, items: seq<Item>, date: int)
    ensures |EntriesOf(share, items, date)| == |items| && |Unshared(items, date)| == |items|
    ensures forall i :: 0 <= i < |items| ==>
              EntriesOf(share, items, date)[i] == Entry(items[i].product, items[i].quantity, share(items[i]), date) &&
              Unshared(items, date)[i] == Entry(items[i].product, items[i].quantity, 0.0, date)
  {
    if items != [] {
      EntriesLengths(share, items[..|items| - 1], date);
    }
  }

  lemma PartlyAt(share: Item -> real, items: seq<Item>, date: int, j: nat, i: nat)
    requires j <= |items| && i < |items|
    ensures |Partly(share, items, date, j)| == |items|
    ensures Partly(share, items, date, j)[i] ==
            Entry(items[i].product, items[i].quantity, if i < j then share(items[i]) else 0.0, date)
  {
    EntriesLengths(share, items[..j], date);
    EntriesLengths(share, items[j..], date);
  }

  lemma PartlyNext(share: Item -> real, items: seq<Item>, date: int, j: nat)
    requires j < |items|
    ensures |Partly(share, items, date, j)| == |items|
    ensures Partly(share, items, date, j)[j] == Entry(items[j].product, items[j].quantity, 0.0, date)
    ensures Partly(share, items, date, j + 1) ==
            Partly(share, items, date, j)[j := Partly(share, items, date, j)[j].(share := share(items[j]))]
  {
    var before, after := Partly(share, items, date, j), Partly(share, items, date, j + 1);
    PartlyAt(share, items, date, j, j);
    PartlyAt(share, items, date, j + 1, j);
    forall i | 0 <= i < |items|
      ensures after[i] == if i == j then before[j].(share := share(items[j])) else before[i]
    {
      PartlyAt(share, items, date, j, i);
      PartlyAt(share, items, date, j + 1, i);
    }
  }

  ghost predicate TracksPartly(
    names: seq<string>, rows: map<string, Row>, before: seq<Entry>, share: Item -> real, items: seq<Item>, date: int, j: nat)
  {
    j <= |items| && Tracks(names, rows, before + Partly(share, items, date, j))
  }

  lemma TracksNextShare(
    share: Item -> real, items: seq<Item>, date: int, j: nat, names: seq<string>, rows: map<string, Row>, before: seq<Entry>)
    requires j < |items| && TracksPartly(names, rows, before, share, items, date, j)
    ensures items[j].product in rows
    ensures var p := items[j].product;
            TracksPartly(names, rows[p := WithShare(rows[p], share(items[j]))], before, share, items, date, j + 1)
  {
    PartlyNext(share, items, date, j);
    var entries, k := before + Partly(share, items, date, j), |before| + j;
    var after := before + Partly(share, items, date, j + 1);
    assert entries[k] == Partly(share, items, date, j)[j];
    assert after == entries[k := entries[k].(share := share(items[j]))];
    TracksShare(names, rows, entries, k, share(items[j]), after);
  }

  lemma PartlyEnds(share: Item -> real, items: seq<Item>, date: int)
    ensures Partly(share, items, date, |items|) == EntriesOf(share, items, date)
    ensures Partly(share, items, date, 0) == Unshared(items, date)
  {
    assert items[..|items|] == items && items[0..] == items;
    assert EntriesOf(share, items[..0], date) == [] && Unshared(items[|items|..], date) == [];
  }

  /** Without a load to apportion, every share is zero already. */
  lemma NothingToShare(o: Order)
    requires !(PaidOf(o) > 0.0 && LoadedOf(o) > 0.0)
    ensures EntriesOfOrder(o) == Unshared(o.items, o.date)
  {
    EntriesLengths(Shares(o), o.items, o.date);
  }

  ghost predicate TracksAdded(names: seq<string>, rows: map<string, Row>, before: seq<Entry>, o: Order, j: nat) {
    j <= |o.items| && Tracks(names, rows, before + Unshared(o.items[..j], o.date))
  }

  lemma TracksNextItem(o: Order, j: nat, names: seq<string>, rows: map<string, Row>, before: seq<Entry>)
    requires j < |o.items| && TracksAdded(names, rows, before, o, j)
    ensures var i := o.items[j];
            var seen := if i.product in rows then rows[i.product] else Row(0.0, 0.0, None);
            TracksAdded(if i.product in rows then names else names + [i.product], rows[i.product := WithItem(seen, i, o.date)], before, o, j + 1)
  {
    UnsharedNext(before, o.items, o.date, j);
    TracksItem(names, rows, before + Unshared(o.items[..j], o.date), o.items[j], o.date);
  }

  lemma UnsharedNext(before: seq<Entry>, items: seq<Item>, date: int, j: nat)
    requires j < |items|
    ensures before + Unshared(items[..j + 1], date) ==
            (before + Unshared(items[..j], date)) + [Entry(items[j].product, items[j].quantity, 0.0, date)]
  {
    assert items[..j + 1][..j] == items[..j];
  }

  method AddItems(o: Order, names: seq<string>, rows: map<string, Row>, ghost before: seq<Entry>)
    returns (names': seq<string>, rows': map<string, Row>)
    requires Tracks(names, rows, before)
    ensures Tracks(names', rows', before + Unshared(o.items, o.date))
  {
    names', rows' := names, rows;
    assert before + Unshared(o.items[..0], o.date) == before;
    for j := 0 to |o.items|
      invariant TracksAdded(names', rows', before, o, j)
    {
      var item := o.items[j];
      TracksNextItem(o, j, names', rows', before);
      var existing := if item.product in rows' then rows'[item.product] else Row(0.0, 0.0, None);
      if item.product !in rows' {
        names' := names' + [item.product];
      }
      rows' := rows'[item.product := WithItem(existing, item, o.date)];
    }
    assert o.items[..|o.items|] == o.items;
  }

  method ShareOf(ghost o: Order, i: Item, total: real, loaded: real) returns (share: real)
    requires total == PaidOf(o) > 0.0 && loaded == LoadedOf(o) > 0.0
    ensures share == Shares(o)(i)
  {
    share := Portion(i.quantity, total, loaded);
  }

  method GiveShare(
    i: Item, given: real, rows: map<string, Row>,
    ghost share: Item -> real, ghost items: seq<Item>, ghost date: int, ghost j: nat, ghost names: seq<string>, ghost before: seq<Entry>)
    returns (rows': map<string, Row>)
    requires j < |items| && i == items[j] && given == share(i) && TracksPartly(names, rows, before, share, items, date, j)
    ensures TracksPartly(names, rows', before, share, items, date, j + 1)
  {
    TracksNextShare(share, items, date, j, names, rows, before);
    rows' := rows[i.product := WithShare(rows[i.product], given)];
  }

  method ShareLoad(o: Order, total: real, loaded: real, ghost names: seq<string>, rows: map<string, Row>, ghost before: seq<Entry>)
    returns (rows': map<string, Row>)
    requires total == PaidOf(o) > 0.0 && loaded == LoadedOf(o) > 0.0
    requires TracksPartly(names, rows, before, Shares(o), o.items, o.date, 0)
    ensures TracksPartly(names, rows', before, Shares(o), o.items, o.date, |o.items|)
  {
    rows' := rows;
    for j := 0 to |o.items|
      invariant TracksPartly(names, rows', before, Shares(o), o.items, o.date, j)
    {
      var share := ShareOf(o, o.items[j], total, loaded);
      rows' := GiveShare(o.items[j], share, rows', Shares(o), o.items, o.date, j, names, before);
    }
  }

  method AddShares(o: Order, ghost names: seq<string>, rows: map<string, Row>, ghost before: seq<Entry>) returns (rows': map<string, Row>)
    requires Tracks(names, rows, before + Unshared(o.items, o.date))
    ensures Tracks(names, rows', before + EntriesOfOrder(o))
  {
    rows' := rows;
    var total, loaded := PaidOf(o), LoadedOf(o);
    if total > 0.0 && loaded > 0.0 {
      PartlyEnds(Shares(o), o.items, o.date);
      rows' := ShareLoad(o, total, loaded, names, rows, before);
    } else {
      NothingToShare(o);
    }
  }

  /** The map's entries as the response lists them. */
  method ProductList(names: seq<string>, rows: map<string, Row>, ghost entries: seq<Entry>) returns (products: seq<Product>)
    requires Tracks(names, rows, entries)
    ensures products == ProductsOf(names, entries)
  {
    products := [];
    for i := 0 to |names|
      invariant products == ProductsOf(names[..i], entries)
    {
      assert names[..i + 1][..i] == names[..i];
      products := products + [ProductOfRow(names[i], rows[names[i]])];
    }
    assert names[..|names|] == names;
  }

  /** The fallback breakdown, from the locally projected orders of the window. */
  method GetStockBalanceBreakdown(orders: seq<Order>) returns (b: Breakdown)
    ensures b == BreakdownOf(orders)
  {
    var names: seq<string> := [];
    var rows: map<string, Row> := map[];
    for i := 0 to |orders|
      invariant Tracks(names, rows, AllEntries(orders[..i]))
    {
      ghost var before := AllEntries(orders[..i]);
      assert orders[..i + 1][..i] == orders[..i];
      names, rows := AddItems(orders[i], names, rows, before);
      rows := AddShares(orders[i], names, rows, before);
    }
    assert orders[..|orders|] == orders;
    var products := ProductList(names, rows, AllEntries(orders));
    var purchased, loaded := SumOf(Paid, products), SumOf(Loaded, products);
    b := Breakdown(purchased, loaded, SumOf(Remaining, products), Progress(purchased, loaded), StillOwed(products));
  }

  // ---------------------------------------------------------------- laws

  lemma {:induction false} ProductsSum(names: seq<string>, entries: seq<Entry>)
    ensures SumOf(Paid, ProductsOf(names, entries)) == GroupSums(EntryQuantity, ProductOf, names, entries)
    ensures SumOf(Loaded, ProductsOf(names, entries)) == GroupSums(EntryShare, ProductOf, names, entries)
  {
    if names != [] {
      var init := names[..|names| - 1];
      ProductsSum(init, entries);
      var p := ProductOfRow(names[|names| - 1], RowFor(names[|names| - 1], entries));
      SumOfAppend(Paid, ProductsOf(init, entries), p);
      SumOfAppend(Loaded, ProductsOf(init, entries), p);
    }
  }

  lemma {:induction false} EntryQuantities(o: Order, items: seq<Item>)
    ensures SumOf(EntryQuantity, EntriesOf(Shares(o), items, o.date)) == SumOf(Quantity, items)
  {
    if items != [] {
      EntryQuantities(o, items[..|items| - 1]);
      var last := items[|items| - 1];
      SumOfAppend(EntryQuantity, EntriesOf(Shares(o), items[..|items| - 1], o.date), Entry(last.product, last.quantity, Share(o, last), o.date));
    }
  }

  lemma {:induction false} AllQuantities(orders: seq<Order>)
    ensures SumOf(EntryQuantity, AllEntries(orders)) == SumOf(PaidOf, orders)
  {
    if orders != [] {
      var last := orders[|orders| - 1];
      AllQuantities(orders[..|orders| - 1]);
      SumOfConcat(EntryQuantity, AllEntries(orders[..|orders| - 1]), EntriesOfOrder(last));
      EntryQuantities(last, last.items);
    }
  }

  /** Dividing by the whole and multiplying by the load is multiplying by one fixed rate. */
  lemma RateOf(quantity: real, total: real, loaded: real)
    requires total > 0.0
    ensures (quantity / total) * loaded == Times(quantity, loaded / total)
    ensures Times(total, loaded / total) == loaded
  {
    var rate := loaded / total;
    assert rate * total == loaded;
    assert (quantity / total) * total == quantity;
    assert (quantity / total) * (rate * total) == ((quantity / total) * total) * rate;
  }

  /** The bar is within half a percent of what it shows, and unlike the home card's it is not capped. */
  lemma ProgressIsNear(purchased: real, loaded: real)
    ensures if purchased > 0.0 then -0.5 < Progress(purchased, loaded) - (loaded / purchased) * 100.0 <= 0.5
            else Progress(purchased, loaded) == 0.0
  {
    if purchased > 0.0 {
      RoundingError((loaded / purchased) * 100.0);
    }
  }

  lemma ShareError(o: Order, i: Item)
    requires PaidOf(o) > 0.0 && LoadedOf(o) > 0.0
    ensures var exact := Times(i.quantity, LoadedOf(o) / PaidOf(o));
            exact - 0.5 < Share(o, i) <= exact + 0.5
  {
    RateOf(i.quantity, PaidOf(o), LoadedOf(o));
    RoundingError((i.quantity / PaidOf(o)) * LoadedOf(o));
  }

  /** Each share is off by at most half a carton, and the exact shares add up to the load. */
  lemma {:induction false} SharesNearExact(o: Order, items: seq<Item>)
    requires PaidOf(o) > 0.0 && LoadedOf(o) > 0.0
    ensures var exact, half := Times(SumOf(Quantity, items), LoadedOf(o) / PaidOf(o)), (|items| as real) * 0.5;
            var shares := SumOf(EntryShare, EntriesOf(Shares(o), items, o.date));
            exact - half <= shares <= exact + half && (items != [] ==> exact - half < shares)
  {
    if items != [] {
      var init, last := items[..|items| - 1], items[|items| - 1];
      SharesNearExact(o, init);
      SumOfAppend(EntryShare, EntriesOf(Shares(o), init, o.date), Entry(last.product, last.quantity, Share(o, last), o.date));
      ShareError(o, last);
      TimesSum(SumOf(Quantity, init), last.quantity, LoadedOf(o) / PaidOf(o));
      assert (|items| as real) * 0.5 == (|init| as real) * 0.5 + 0.5;
    } else {
      TimesSum(0.0, 0.0, LoadedOf(o) / PaidOf(o));
    }
  }

  /** Apportioning a completed load over `n` items assigns a total within `n` / 2 cartons of it. */
  lemma ApportioningIsClose(o: Order)
    requires PaidOf(o) > 0.0 && LoadedOf(o) > 0.0
    ensures LoadedOf(o) - (|o.items| as real) * 0.5 < SumOf(EntryShare, EntriesOfOrder(o)) <= LoadedOf(o) + (|o.items| as real) * 0.5
  {
    SharesNearExact(o, o.items);
    RateOf(0.0, PaidOf(o), LoadedOf(o));
  }

  /** The load an order puts into the breakdown: none where nothing was paid for. */
  function Apportionable(o: Order): real {
    if PaidOf(o) > 0.0 && LoadedOf(o) > 0.0 then LoadedOf(o) else 0.0
  }

  function Slack(o: Order): real {
    (|o.items| as real) * 0.5
  }

  lemma {:induction false} NoShares(o: Order, items: seq<Item>)
    requires !(PaidOf(o) > 0.0 && LoadedOf(o) > 0.0)
    ensures SumOf(EntryShare, EntriesOf(Shares(o), items, o.date)) == 0.0
  {
    if items != [] {
      NoShares(o, items[..|items| - 1]);
      var last := items[|items| - 1];
      SumOfAppend(EntryShare, EntriesOf(Shares(o), items[..|items| - 1], o.date), Entry(last.product, last.quantity, Share(o, last), o.date));
    }
  }

  lemma {:induction false} AllShares(orders: seq<Order>)
    ensures SumOf(Apportionable, orders) - SumOf(Slack, orders) <= SumOf(EntryShare, AllEntries(orders))
            <= SumOf(Apportionable, orders) + SumOf(Slack, orders)
  {
    if orders != [] {
      var o := orders[|orders| - 1];
      AllShares(orders[..|orders| - 1]);
      SumOfConcat(EntryShare, AllEntries(orders[..|orders| - 1]), EntriesOfOrder(o));
      if PaidOf(o) > 0.0 && LoadedOf(o) > 0.0 {
        ApportioningIsClose(o);
      } else {
        NoShares(o, o.items);
      }
    }
  }

  lemma {:induction false} StillOwedMembers(products: seq<Product>)
    ensures forall p :: p in StillOwed(products) <==> p in products && p.remaining > 0.0
  {
    if products != [] {
      var init, last := products[..|products| - 1], products[|products| - 1];
      StillOwedMembers(init);
      assert products == init + [last];
    }
  }

  lemma {:induction false} DroppingCollectedKeepsTotal(products: seq<Product>)
    requires forall p :: p in products ==> p.remaining >= 0.0
    ensures SumOf(Remaining, StillOwed(products)) == SumOf(Remaining, products)
  {
    if products != [] {
      var init, last := products[..|products| - 1], products[|products| - 1];
      assert last in products;
      assert forall p :: p in init ==> p in products;
      DroppingCollectedKeepsTotal(init);
      SumOfAppend(Remaining, StillOwed(init), last);
    }
  }

  lemma {:induction false} RemaindersAreFloored(names: seq<string>, entries: seq<Entry>)
    ensures forall p :: p in ProductsOf(names, entries) ==> p.remaining == AtLeastZero(p.paid - p.loaded)
  {
    if names != [] {
      RemaindersAreFloored(names[..|names| - 1], entries);
    }
  }

  /**
   * The breakdown as returned: it purchases what the orders hold, its loaded
   * total is within half a carton an item of the loads apportioned, and the
   * listed products' remainders still add up to its remaining total.
   */
  lemma BreakdownAddsUp(orders: seq<Order>)
    ensures var b := BreakdownOf(orders);
            b.purchased == SumOf(PaidOf, orders) &&
            SumOf(Apportionable, orders) - SumOf(Slack, orders) <= b.loaded <= SumOf(Apportionable, orders) + SumOf(Slack, orders) &&
            SumOf(Remaining, b.products) == b.remaining &&
            forall p :: p in b.products ==> p.remaining == p.paid - p.loaded > 0.0
  {
    var entries := AllEntries(orders);
    var names := Keys(ProductOf, entries);
    ProductsSum(names, entries);
    SumOverGroups(EntryQuantity, ProductOf, entries);
    SumOverGroups(EntryShare, ProductOf, entries);
    AllQuantities(orders);
    AllShares(orders);
    RemaindersAreFloored(names, entries);
    DroppingCollectedKeepsTotal(ProductsOf(names, entries));
    StillOwedMembers(ProductsOf(names, entries));
  }

  // ---------------------------------------------------------------- on the orders' rows

  function Collected(): Load -> real {
    (l: Load) => if l.completed && l.cartons.Some? then l.cartons.value else 0.0
  }

  /** What one order purchases, has had collected, and still owes, read off its items and its loads. */
  lemma OrderOnRows(o: Order)
    ensures var paid, collected := SumOf((i: Item) => i.quantity, o.items), SumOf(Collected(), o.loads);
            PaidOf(o) == paid && LoadedOf(o) == collected && OwedOn(o) == if paid > collected then paid - collected else 0.0
  {
    SameSum(Quantity, (i: Item) => i.quantity, o.items);
    SameSum(CompletedCartons, Collected(), o.loads);
  }

  /**
   * An item's part of its order's collected cartons is within half a carton of its
   * part of the order, and nothing where nothing was collected or bought.
   */
  lemma ShareOnRows(o: Order, i: Item)
    ensures var paid, collected := SumOf((j: Item) => j.quantity, o.items), SumOf(Collected(), o.loads);
            if paid > 0.0 && collected > 0.0 then
              var exact := Times(i.quantity, collected / paid); exact - 0.5 < Share(o, i) <= exact + 0.5
            else Share(o, i) == 0.0
  {
    OrderOnRows(o);
    if PaidOf(o) > 0.0 && LoadedOf(o) > 0.0 {
      ShareError(o, i);
    }
  }

  /** What an order holds of one product: the cartons bought, and their shares of what was collected. */
  function BoughtOf(product: string): Order -> real {
    (o: Order) => SumOf((i: Item) => if i.product == product then i.quantity else 0.0, o.items)
  }

  function SharedOf(product: string): Order -> real {
    (o: Order) => SumOf((i: Item) => if i.product == product then Share(o, i) else 0.0, o.items)
  }

  predicate Holds(o: Order, product: string) {
    exists i :: i in o.items && i.product == product
  }

  /** The product's last order, if any has it. */
  ghost predicate IsLastOrder(orders: seq<Order>, product: string, date: Option<int>) {
    if date.Some? then
      (exists o :: o in orders && Holds(o, product) && o.date == date.value) && forall o :: o in orders && Holds(o, product) ==> o.date <= date.value
    else forall o :: o in orders ==> !Holds(o, product)
  }

  lemma GroupSumAppend(n: string, entries: seq<Entry>, e: Entry)
    ensures RowFor(n, entries + [e]).paid == RowFor(n, entries).paid + if e.product == n then e.quantity else 0.0
    ensures RowFor(n, entries + [e]).loaded == RowFor(n, entries).loaded + if e.product == n then e.share else 0.0
  {
    RowForAppend(n, entries, e);
  }

  /** One order's items add their own product's cartons and shares to a row. */
  lemma {:induction false} OrderAddsSums(n: string, before: seq<Entry>, o: Order, items: seq<Item>)
    ensures var after := RowFor(n, before + EntriesOf(Shares(o), items, o.date));
            after.paid == RowFor(n, before).paid + SumOf((i: Item) => if i.product == n then i.quantity else 0.0, items) &&
            after.loaded == RowFor(n, before).loaded + SumOf((i: Item) => if i.product == n then Share(o, i) else 0.0, items)
  {
    if items == [] {
      assert before + EntriesOf(Shares(o), items, o.date) == before;
    } else {
      var init, last := items[..|items| - 1], items[|items| - 1];
      var e := Entry(last.product, last.quantity, Share(o, last), o.date);
      OrderAddsSums(n, before, o, init);
      assert before + EntriesOf(Shares(o), items, o.date) == (before + EntriesOf(Shares(o), init, o.date)) + [e];
      GroupSumAppend(n, before + EntriesOf(Shares(o), init, o.date), e);
    }
  }

  lemma {:induction false} SumsOnRows(orders: seq<Order>, n: string)
    ensures RowFor(n, AllEntries(orders)).paid == SumOf(BoughtOf(n), orders)
    ensures RowFor(n, AllEntries(orders)).loaded == SumOf(SharedOf(n), orders)
  {
    if orders != [] {
      var init, o := orders[..|orders| - 1], orders[|orders| - 1];
      SumsOnRows(init, n);
      OrderAddsSums(n, AllEntries(init), o, o.items);
    }
  }

  /** An entry of this product and date. */
  predicate IsDated(entries: seq<Entry>, n: string, date: int) {
    exists e :: e in entries && e.product == n && e.date == date
  }

  lemma {:induction false} LastDateMeans(n: string, entries: seq<Entry>)
    ensures var last := RowFor(n, entries).lastOrderDate;
            if last.Some? then IsDated(entries, n, last.value) && forall e :: e in entries && e.product == n ==> e.date <= last.value
            else forall e :: e in entries ==> e.product != n
  {
    if entries != [] {
      var init, e := entries[..|entries| - 1], entries[|entries| - 1];
      assert entries == init + [e];
      LastDateMeans(n, init);
      RowForAppend(n, init, e);
      assert e in entries;
    }
  }

  lemma {:induction false} EntriesOfMembers(share: Item -> real, items: seq<Item>, date: int, n: string)
    ensures (exists e :: e in EntriesOf(share, items, date) && e.product == n) <==> exists i :: i in items && i.product == n
    ensures forall e :: e in EntriesOf(share, items, date) ==> e.date == date
  {
    if items != [] {
      var init, last := items[..|items| - 1], items[|items| - 1];
      assert items == init + [last];
      EntriesOfMembers(share, init, date, n);
      var e := Entry(last.product, last.quantity, share(last), date);
      assert e in EntriesOf(share, items, date) && last in items;
    }
  }

  lemma {:induction false} AllEntriesMembers(orders: seq<Order>, n: string, date: int)
    ensures IsDated(AllEntries(orders), n, date) <==> exists o :: o in orders && Holds(o, n) && o.date == date
  {
    if orders != [] {
      var init, o := orders[..|orders| - 1], orders[|orders| - 1];
      assert orders == init + [o];
      AllEntriesMembers(init, n, date);
      EntriesOfMembers(Shares(o), o.items, o.date, n);
      if IsDated(AllEntries(orders), n, date) {
        var e :| e in AllEntries(orders) && e.product == n && e.date == date;
        if e in AllEntries(init) {
          assert IsDated(AllEntries(init), n, date);
        } else {
          assert e in EntriesOfOrder(o);
        }
      }
      if IsDated(AllEntries(init), n, date) {
        var e :| e in AllEntries(init) && e.product == n && e.date == date;
        assert e in AllEntries(orders);
      }
      if Holds(o, n) && o.date == date {
        var e :| e in EntriesOfOrder(o) && e.product == n;
        assert e in AllEntries(orders) && e.date == date;
      }
    }
  }

  lemma LastOrderOnRows(orders: seq<Order>, n: string)
    ensures IsLastOrder(orders, n, RowFor(n, AllEntries(orders)).lastOrderDate)
  {
    var entries := AllEntries(orders);
    LastDateMeans(n, entries);
    var last := RowFor(n, entries).lastOrderDate;
    forall o | o in orders && Holds(o, n)
      ensures last.Some? && o.date <= last.value
    {
      AllEntriesMembers(orders, n, o.date);
      var e :| e in entries && e.product == n && e.date == o.date;
    }
    if last.Some? {
      AllEntriesMembers(orders, n, last.value);
    }
  }

  lemma {:induction false} ProductsOfMembers(names: seq<string>, entries: seq<Entry>, p: Product)
    ensures p in ProductsOf(names, entries) <==> p.name in names && p == ProductOfRow(p.name, RowFor(p.name, entries))
  {
    if names != [] {
      ProductsOfMembers(names[..|names| - 1], entries, p);
      assert names == names[..|names| - 1] + [names[|names| - 1]];
    }
  }

  /** Every product listed, on the orders' rows: what was bought of it, its shares of what was collected, the difference, and its last order. */
  lemma ProductOnRows(orders: seq<Order>, p: Product)
    requires p in BreakdownOf(orders).products
    ensures p.paid == SumOf(BoughtOf(p.name), orders) && p.loaded == SumOf(SharedOf(p.name), orders)
    ensures p.remaining == p.paid - p.loaded && p.paid > p.loaded && IsLastOrder(orders, p.name, p.lastOrderDate)
  {
    var entries := AllEntries(orders);
    var names := Keys(ProductOf, entries);
    StillOwedMembers(ProductsOf(names, entries));
    ProductsOfMembers(names, entries, p);
    SumsOnRows(orders, p.name);
    LastOrderOnRows(orders, p.name);
  }

  /** And every product of any order is listed, unless its shares have reached what was bought of it. */
  lemma OwedProductIsListed(orders: seq<Order>, o: Order, n: string)
    requires o in orders && Holds(o, n) && SumOf(BoughtOf(n), orders) > SumOf(SharedOf(n), orders)
    ensures exists p :: p in BreakdownOf(orders).products && p.name == n
  {
    var entries := AllEntries(orders);
    var names := Keys(ProductOf, entries);
    var p := ProductOfRow(n, RowFor(n, entries));
    AllEntriesMembers(orders, n, o.date);
    var e :| e in entries && e.product == n && e.date == o.date;
    var i :| 0 <= i < |entries| && entries[i] == e;
    KeyOfElement(ProductOf, entries, i);
    SumsOnRows(orders, n);
    ProductsOfMembers(names, entries, p);
    StillOwedMembers(ProductsOf(names, entries));
    assert p in BreakdownOf(orders).products;
  }
}
