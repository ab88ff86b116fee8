/** Stock still to collect, from the ERP sales-order feed: by product, by customer, and across a portfolio. */
module StockBalance {
  import opened Option
  import opened Grouping
  import opened Lists
  import opened Ordering
  import opened Reals
  import Resolver = ProductResolver
  import StripCjk

  /** One sales-order line, with blank quantities already read as zero; `docDate` is a day number. */
  datatype Line = Line(
    isSalesOrder: bool, customerId: Option<string>, product: Option<string>, itemCode: Option<string>, spec: Option<string>,
    ordered: real, delivered: real, close: Option<string>, approveStatus: Option<string>, docDate: int)

  /** One row of raw_customer, which carries both a customer's code and the ERP's internal id. */
  datatype CustomerRow = CustomerRow(code: Option<string>, id: Option<string>, lastSeenAt: Option<int>)

  /** Which order dates count, both ends included where given. */
  datatype DateRange = DateRange(start: Option<int>, end: Option<int>)

  const ALL_TIME := DateRange(None, None)

  datatype Product = Product(
    itemCode: Option<string>, name: string, spec: Option<string>, paid: real, loaded: real, remaining: real, lastOrderDate: Option<int>)

  datatype Balance = Balance(purchased: real, loaded: real, remaining: real, products: seq<Product>)

  /** The three figures a customer list shows. */
  datatype CustomerStock = CustomerStock(totalStock: real, stockLoaded: real, stockBalance: real)

  type TextOrder = (string, string) -> bool

  /**
   * What a product row is labelled from: the order the database compares text in,
   * the screen's own, the item codes learned from the whole feed as they stand,
   * and the specification sheet.
   */
  datatype Catalogue = Catalogue(
    sqlOrder: TextOrder, collate: TextOrder, feedCodes: map<string, string>, norm: Resolver.Normaliser, sheet: seq<Resolver.Row>)

  function Ordered(l: Line): real {
    l.ordered
  }

  function Delivered(l: Line): real {
    l.delivered
  }

  function ProductOf(l: Line): Option<string> {
    l.product
  }

  function CustomerOf(l: Line): Option<string> {
    l.customerId
  }

  /** nullif(text, ''). */
  function NonBlank(text: Option<string>): Option<string> {
    if text == Some("") then None else text
  }

  function CodeOf(l: Line): Option<string> {
    NonBlank(l.itemCode)
  }

  function SpecOf(l: Line): Option<string> {
    NonBlank(l.spec)
  }

  // ---------------------------------------------------------------- queries

  /** Open, approved, of one of these customers, inside the window. */
  predicate Counts(l: Line, ids: set<string>, range: DateRange) {
    l.isSalesOrder && l.close == Some("0") && l.approveStatus == Some("Y") &&
    l.customerId.Some? && l.customerId.value in ids &&
    (range.start.None? || range.start.value <= l.docDate) && (range.end.None? || l.docDate <= range.end.value)
  }

  function Counted(lines: seq<Line>, ids: set<string>, range: DateRange): seq<Line> {
    if lines == [] then []
    else
      var rest := Counted(lines[..|lines| - 1], ids, range);
      if Counts(lines[|lines| - 1], ids, range) then rest + [lines[|lines| - 1]] else rest
  }

  /** One aggregate row: a group and its two sums. */
  datatype Aggregate = Aggregate(group: Option<string>, ordered: real, delivered: real)

  function AggregateOf(group: Option<string>, mine: seq<Line>): Aggregate {
    Aggregate(group, SumOf(Ordered, mine), SumOf(Delivered, mine))
  }

  function Aggregates(key: Line -> Option<string>, groups: seq<Option<string>>, lines: seq<Line>): seq<Aggregate> {
    if groups == [] then []
    else
      var g := groups[|groups| - 1];
      Aggregates(key, groups[..|groups| - 1], lines) + [AggregateOf(g, Group(key, g, lines))]
  }

  /** min(column) over the lines that state one. */
  function Least(order: TextOrder, column: Line -> Option<string>, lines: seq<Line>): Option<string> {
    if lines == [] then None
    else
      var rest, v := Least(order, column, lines[..|lines| - 1]), column(lines[|lines| - 1]);
      if v.None? || (rest.Some? && order(rest.value, v.value)) then rest else v
  }

  /** What count(DISTINCT column) counts. */
  function Stated(column: Line -> Option<string>, lines: seq<Line>): set<string> {
    set l | l in lines && column(l).Some? :: column(l).value
  }

  /** max(day). */
  function Latest(lines: seq<Line>): Option<int> {
    if lines == [] then None
    else
      var rest, day := Latest(lines[..|lines| - 1]), lines[|lines| - 1].docDate;
      if rest.Some? && rest.value >= day then rest else Some(day)
  }

  /** One row of the product queries: the group and its sums, a code, the one specification if there is just one, the latest order. */
  datatype ProductAggregate = ProductAggregate(sums: Aggregate, itemCode: Option<string>, spec: Option<string>, lastOrderDate: Option<int>)

  function ProductAggregateOf(order: TextOrder, product: Option<string>, mine: seq<Line>): ProductAggregate {
    ProductAggregate(
      AggregateOf(product, mine), Least(order, CodeOf, mine),
      if |Stated(SpecOf, mine)| == 1 then Least(order, SpecOf, mine) else None, Latest(mine))
  }

  function ProductAggregates(order: TextOrder, products: seq<Option<string>>, lines: seq<Line>): seq<ProductAggregate> {
    if products == [] then []
    else
      var p := products[|products| - 1];
      ProductAggregates(order, products[..|products| - 1], lines) + [ProductAggregateOf(order, p, Group(ProductOf, p, lines))]
  }

  /**
   * SELECT product, sums, code, specification, day ... GROUP BY product: the
   * single-customer query with one id, the portfolio query with many.
   */
  function ByProduct(order: TextOrder, lines: seq<Line>, ids: set<string>, range: DateRange): seq<ProductAggregate> {
    var counted := Counted(lines, ids, range);
    ProductAggregates(order, Keys(ProductOf, counted), counted)
  }

  /** The same filters without a window, GROUP BY customer. */
  function ByCustomer(lines: seq<Line>, ids: set<string>): seq<Aggregate> {
    var counted := Counted(lines, ids, ALL_TIME);
    Aggregates(CustomerOf, Keys(CustomerOf, counted), counted)
  }

  /** ORDER BY last_seen_at DESC NULLS LAST. */
  predicate SeenNoLater(a: CustomerRow, b: CustomerRow) {
    a.lastSeenAt.None? || (b.lastSeenAt.Some? && a.lastSeenAt.value <= b.lastSeenAt.value)
  }

  /** The freshest raw_customer row of a code, if any. */
  function Freshest(customers: seq<CustomerRow>, code: string): Option<CustomerRow> {
    if customers == [] then None
    else
      var rest, c := Freshest(customers[..|customers| - 1], code), customers[|customers| - 1];
      if c.code != Some(code) || (rest.Some? && SeenNoLater(c, rest.value)) then rest else Some(c)
  }

  /** The internal id the single-customer query filters on. */
  function IdOf(customers: seq<CustomerRow>, code: string): Option<string> {
    var c := Freshest(customers, code);
    if c.None? then None else c.value.id
  }

  /** SELECT DISTINCT id, code ... WHERE code = ANY(codes), null and empty ids dropped. */
  function IdPairs(customers: seq<CustomerRow>, codes: set<string>): seq<(string, string)> {
    if customers == [] then []
    else
      var rest, c := IdPairs(customers[..|customers| - 1], codes), customers[|customers| - 1];
      if c.code.Some? && c.code.value in codes && c.id.Some? && c.id.value != "" && (c.id.value, c.code.value) !in rest then
        rest + [(c.id.value, c.code.value)]
      else rest
  }

  function IdsOf(pairs: seq<(string, string)>): set<string> {
    set p | p in pairs :: p.0
  }

  // ---------------------------------------------------------------- shaping

  /** The code the feed gives this product name anywhere. */
  function CodeFor(feedCodes: map<string, string>, product: Option<string>): Option<string> {
    if product.Some? && product.value != "" && product.value in feedCodes then NonBlank(Some(feedCodes[product.value])) else None
  }

  /** The rows' own code before the feed's, the feed's before the sheet's. */
  function ItemCodeOf(cat: Catalogue, a: ProductAggregate, name: string): Option<string> {
    var fromFeed := CodeFor(cat.feedCodes, a.sums.group);
    if a.itemCode.Some? then a.itemCode
    else if fromFeed.Some? then fromFeed
    else Resolver.ByMaps(cat.norm, cat.sheet, Some(name), a.spec).productId
  }

  function ProductRow(cat: Catalogue, a: ProductAggregate): Product {
    var name := a.sums.group.GetOr("Unspecified");
    Product(ItemCodeOf(cat, a, name), name, StripCjk.Strip(a.spec),
            a.sums.ordered, a.sums.delivered, AtLeastZero(a.sums.ordered - a.sums.delivered), a.lastOrderDate)
  }

  function ProductRows(cat: Catalogue, rows: seq<ProductAggregate>): seq<Product> {
    if rows == [] then [] else ProductRows(cat, rows[..|rows| - 1]) + [ProductRow(cat, rows[|rows| - 1])]
  }

  function Paid(p: Product): real {
    p.paid
  }

  function Loaded(p: Product): real {
    p.loaded
  }

  function Remaining(p: Product): real {
    p.remaining
  }

  /** Most to collect first, then by name. */
  predicate ListedBefore(collate: TextOrder, a: Product, b: Product) {
    if a.remaining != b.remaining then a.remaining > b.remaining else collate(a.name, b.name)
  }

  function ProductOrder(collate: TextOrder): (Product, Product) -> bool {
    (a, b) => ListedBefore(collate, a, b)
  }

  function Shape(cat: Catalogue, rows: seq<ProductAggregate>): Balance {
    var products := ProductRows(cat, rows);
    var purchased, loaded := SumOf(Paid, products), SumOf(Loaded, products);
    Balance(purchased, loaded, AtLeastZero(purchased - loaded), Sort(products, ProductOrder(cat.collate)))
  }

  // ---------------------------------------------------------------- service

  function CodeById(pairs: seq<(string, string)>): map<string, string> {
    if pairs == [] then map[] else CodeById(pairs[..|pairs| - 1])[pairs[|pairs| - 1].0 := pairs[|pairs| - 1].1]
  }

  function StockOf(a: Aggregate): CustomerStock {
    CustomerStock(a.ordered, a.delivered, AtLeastZero(a.ordered - a.delivered))
  }

  /** The list column's map, one aggregate row at a time. */
  function StockMap(rows: seq<Aggregate>, codeById: map<string, string>): map<string, CustomerStock> {
    if rows == [] then map[]
    else
      var rest, a := StockMap(rows[..|rows| - 1], codeById), rows[|rows| - 1];
      if a.group.Some? && a.group.value in codeById && codeById[a.group.value] != "" then rest[codeById[a.group.value] := StockOf(a)] else rest
  }

  function StockByErpIdOf(customers: seq<CustomerRow>, lines: seq<Line>, codes: set<string>): map<string, CustomerStock> {
    var codeById := CodeById(IdPairs(customers, codes));
    StockMap(ByCustomer(lines, codeById.Keys), codeById)
  }

  function SingleBalance(cat: Catalogue, customers: seq<CustomerRow>, lines: seq<Line>, code: string, range: DateRange)
    : Option<Balance>
  {
    var id := IdOf(customers, code);
    var rows := ByProduct(cat.sqlOrder, lines, if id.Some? then {id.value} else {}, range);
    if rows == [] then None else Some(Shape(cat, rows))
  }

  function PortfolioBalance(
    cat: Catalogue, customers: seq<CustomerRow>, lines: seq<Line>, codes: set<string>, range: DateRange): Option<Balance>
  {
    var ids := IdsOf(IdPairs(customers, codes));
    var rows := ByProduct(cat.sqlOrder, lines, ids, range);
    if ids == {} || rows == [] then None else Some(Shape(cat, rows))
  }

  class ErpStockBalanceService {
    var available: Option<bool>

    constructor ()
      ensures available == None
    {
      available := None;
    }

    /** Probes the feed once; the answer is kept for good. `probe` is None where the probe itself fails. */
    method IsAvailable(probe: Option<bool>) returns (r: bool)
      modifies this
      ensures available == if old(available).Some? then old(available) else Some(probe == Some(true))
      ensures Some(r) == available
    {
      if available.Some? {
        return available.value;
      }
      available := Some(probe == Some(true));
      r := probe == Some(true);
    }

    method GetStockBalance(cat: Catalogue, customers: seq<CustomerRow>, lines: seq<Line>, code: string, range: DateRange, probe: Option<bool>)
      returns (r: Option<Balance>)
      modifies this
      ensures r == if code != "" && available == Some(true) then SingleBalance(cat, customers, lines, code, range) else None
    {
      if code == "" {
        return None;
      }
      var present := IsAvailable(probe);
      if !present {
        return None;
      }
      var id := IdOf(customers, code);
      var rows := ByProduct(cat.sqlOrder, lines, if id.Some? then {id.value} else {}, range);
      if rows == [] {
        return None;
      }
      r := Some(Shape(cat, rows));
    }

    method GetStockBalanceForCustomers(
      cat: Catalogue, customers: seq<CustomerRow>, lines: seq<Line>, erpIds: seq<string>, range: DateRange, probe: Option<bool>)
      returns (r: Option<Balance>)
      modifies this
      ensures var codes := set c | c in erpIds && c != "";
              r == if codes != {} && available == Some(true) then PortfolioBalance(cat, customers, lines, codes, range) else None
    {
      var codes := set c | c in erpIds && c != "";
      if codes == {} {
        return None;
      }
      var present := IsAvailable(probe);
      if !present {
        return None;
      }
      var ids := IdsOf(IdPairs(customers, codes));
      if ids == {} {
        return None;
      }
      var rows := ByProduct(cat.sqlOrder, lines, ids, range);
      if rows == [] {
        return None;
      }
      r := Some(Shape(cat, rows));
    }

    method StockByErpId(customers: seq<CustomerRow>, lines: seq<Line>, erpIds: seq<string>, probe: Option<bool>)
      returns (stock: map<string, CustomerStock>)
      modifies this
      ensures var codes := set c | c in erpIds && c != "";
              stock == if codes != {} && available == Some(true) then StockByErpIdOf(customers, lines, codes) else map[]
    {
      stock := map[];
      var codes := set c | c in erpIds && c != "";
      if codes == {} {
        return;
      }
      var present := IsAvailable(probe);
      if !present {
        return;
      }
      var pairs := IdPairs(customers, codes);
      var codeById: map<string, string> := map[];
      for i := 0 to |pairs|
        invariant codeById == CodeById(pairs[..i])
      {
        assert pairs[..i + 1][..i] == pairs[..i];
        codeById := codeById[pairs[i].0 := pairs[i].1];
      }
      assert pairs[..|pairs|] == pairs;
      if codeById == map[] {
        NoPairsNoRows(lines);
        assert codeById.Keys == {};
        assert StockByErpIdOf(customers, lines, codes) == StockMap(ByCustomer(lines, {}), map[]) == map[];
        return;
      }
      var rows := ByCustomer(lines, codeById.Keys);
      for i := 0 to |rows|
        invariant stock == StockMap(rows[..i], codeById)
      {
        var a := rows[i];
        assert rows[..i + 1][..i] == rows[..i];
        if a.group.Some? && a.group.value in codeById && codeById[a.group.value] != "" {
          stock := stock[codeById[a.group.value] := CustomerStock(a.ordered, a.delivered, AtLeastZero(a.ordered - a.delivered))];
        }
      }
      assert rows[..|rows|] == rows;
    }
  }

  lemma {:induction false} NoPairsNoRows(lines: seq<Line>)
    ensures Counted(lines, {}, ALL_TIME) == []
  {
    if lines != [] {
      NoPairsNoRows(lines[..|lines| - 1]);
    }
  }

  // ---------------------------------------------------------------- totals do not depend on the grouping

  lemma ProductRowsAppend(cat: Catalogue, rows: seq<ProductAggregate>, a: ProductAggregate)
    ensures ProductRows(cat, rows + [a]) == ProductRows(cat, rows) + [ProductRow(cat, a)]
  {
    assert (rows + [a])[..|rows|] == rows;
  }

  lemma {:induction false} RowSums(cat: Catalogue, products: seq<Option<string>>, lines: seq<Line>)
    ensures var rows := ProductRows(cat, ProductAggregates(cat.sqlOrder, products, lines));
            SumOf(Paid, rows) == GroupSums(Ordered, ProductOf, products, lines) &&
            SumOf(Loaded, rows) == GroupSums(Delivered, ProductOf, products, lines)
  {
    if products != [] {
      var init, p := products[..|products| - 1], products[|products| - 1];
      RowSums(cat, init, lines);
      var rows, a := ProductAggregates(cat.sqlOrder, init, lines), ProductAggregateOf(cat.sqlOrder, p, Group(ProductOf, p, lines));
      ProductRowsAppend(cat, rows, a);
      SumOfAppend(Paid, ProductRows(cat, rows), ProductRow(cat, a));
      SumOfAppend(Loaded, ProductRows(cat, rows), ProductRow(cat, a));
    }
  }

  /** These rows, or the balance made of them, sum these lines. */
  ghost predicate RowsSumUp(rows: seq<Product>, counted: seq<Line>) {
    SumOf(Paid, rows) == SumOf(Ordered, counted) && SumOf(Loaded, rows) == SumOf(Delivered, counted)
  }

  ghost predicate SumsUp(b: Balance, counted: seq<Line>) {
    b.purchased == SumOf(Ordered, counted) && b.loaded == SumOf(Delivered, counted) &&
    b.remaining == AtLeastZero(SumOf(Ordered, counted) - SumOf(Delivered, counted))
  }

  /** Grouped by product, the rows' sums are the lines' sums. */
  lemma ByProductTotals(cat: Catalogue, lines: seq<Line>, ids: set<string>, range: DateRange)
    ensures RowsSumUp(ProductRows(cat, ByProduct(cat.sqlOrder, lines, ids, range)), Counted(lines, ids, range))
  {
    var counted := Counted(lines, ids, range);
    RowSums(cat, Keys(ProductOf, counted), counted);
    SumOverGroups(Ordered, ProductOf, counted);
    SumOverGroups(Delivered, ProductOf, counted);
  }

  lemma ShapeOfTotals(cat: Catalogue, rows: seq<ProductAggregate>, counted: seq<Line>)
    requires RowsSumUp(ProductRows(cat, rows), counted)
    ensures SumsUp(Shape(cat, rows), counted)
  {
  }

  /** The breakdown's totals are the plain sums of the counted lines, however those fall into products. */
  lemma ShapeTotalsAreLineSums(cat: Catalogue, lines: seq<Line>, ids: set<string>, range: DateRange)
    ensures SumsUp(Shape(cat, ByProduct(cat.sqlOrder, lines, ids, range)), Counted(lines, ids, range))
  {
    ByProductTotals(cat, lines, ids, range);
    ShapeOfTotals(cat, ByProduct(cat.sqlOrder, lines, ids, range), Counted(lines, ids, range));
  }

  lemma {:induction false} OneRowEach(key: Line -> Option<string>, groups: seq<Option<string>>, lines: seq<Line>)
    ensures |Aggregates(key, groups, lines)| == |groups|
  {
    if groups != [] {
      OneRowEach(key, groups[..|groups| - 1], lines);
    }
  }

  lemma {:induction false} AggregateAt(key: Line -> Option<string>, groups: seq<Option<string>>, lines: seq<Line>, i: nat)
    requires i < |groups|
    ensures |Aggregates(key, groups, lines)| == |groups|
    ensures Aggregates(key, groups, lines)[i] == AggregateOf(groups[i], Group(key, groups[i], lines))
  {
    var init := groups[..|groups| - 1];
    OneRowEach(key, init, lines);
    if i < |init| {
      AggregateAt(key, init, lines, i);
      assert init[i] == groups[i];
    }
  }

  lemma {:induction false} CountedMembers(lines: seq<Line>, ids: set<string>, range: DateRange)
    ensures forall l :: l in Counted(lines, ids, range) <==> l in lines && Counts(l, ids, range)
  {
    if lines != [] {
      CountedMembers(lines[..|lines| - 1], ids, range);
      assert lines == lines[..|lines| - 1] + [lines[|lines| - 1]];
    }
  }

  /** One customer's group of the batch is what counting that customer alone gives. */
  lemma {:induction false} GroupIsCountedAlone(lines: seq<Line>, ids: set<string>, id: string)
    requires id in ids
    ensures Group(CustomerOf, Some(id), Counted(lines, ids, ALL_TIME)) == Counted(lines, {id}, ALL_TIME)
  {
    if lines != [] {
      var init, l := lines[..|lines| - 1], lines[|lines| - 1];
      GroupIsCountedAlone(init, ids, id);
      if Counts(l, ids, ALL_TIME) {
        GroupAppend(CustomerOf, Some(id), Counted(init, ids, ALL_TIME), l);
      }
    }
  }

  // ---------------------------------------------------------------- list column and breakdown agree

  /** Within `codes`, each code has one internal id in the feed. */
  ghost predicate OneIdPerCode(customers: seq<CustomerRow>, codes: set<string>) {
    forall c, d :: c in customers && d in customers && c.code.Some? && c.code.value in codes && c.code == d.code ==>
      c.id == d.id && c.id.Some? && c.id.value != ""
  }

  lemma {:induction false} FreshestIsRow(customers: seq<CustomerRow>, code: string)
    ensures Freshest(customers, code).Some? ==> Freshest(customers, code).value in customers && Freshest(customers, code).value.code == Some(code)
    ensures Freshest(customers, code).None? ==> forall c :: c in customers ==> c.code != Some(code)
  {
    if customers != [] {
      FreshestIsRow(customers[..|customers| - 1], code);
      assert customers == customers[..|customers| - 1] + [customers[|customers| - 1]];
    }
  }

  lemma {:induction false} IdPairsMembers(customers: seq<CustomerRow>, codes: set<string>)
    ensures forall id, code :: (id, code) in IdPairs(customers, codes) <==>
              code in codes && id != "" && exists c :: c in customers && c.code == Some(code) && c.id == Some(id)
  {
    if customers != [] {
      var init, last := customers[..|customers| - 1], customers[|customers| - 1];
      IdPairsMembers(init, codes);
      assert customers == init + [last];
      forall id, code
        ensures (id, code) in IdPairs(customers, codes) <==>
                code in codes && id != "" && exists c :: c in customers && c.code == Some(code) && c.id == Some(id)
      {
        if last.code == Some(code) && last.id == Some(id) {
          assert last in customers;
        }
        if c :| c in init && c.code == Some(code) && c.id == Some(id) {
          assert c in customers;
        }
      }
    }
  }

  /** With one id per code, the pairs say exactly which id each code has. */
  lemma PairsAreIds(customers: seq<CustomerRow>, codes: set<string>, id: string, code: string)
    requires OneIdPerCode(customers, codes) && code in codes
    ensures (id, code) in IdPairs(customers, codes) <==> IdOf(customers, code) == Some(id)
  {
    IdPairsMembers(customers, codes);
    FreshestIsRow(customers, code);
  }

  lemma {:induction false} CodeByIdEntries(pairs: seq<(string, string)>)
    ensures CodeById(pairs).Keys == IdsOf(pairs)
    ensures forall id :: id in CodeById(pairs) ==> (id, CodeById(pairs)[id]) in pairs
  {
    if pairs != [] {
      var init, last := pairs[..|pairs| - 1], pairs[|pairs| - 1];
      CodeByIdEntries(init);
      assert pairs == init + [last];
      assert IdsOf(pairs) == IdsOf(init) + {last.0};
      forall id | id in CodeById(pairs)
        ensures (id, CodeById(pairs)[id]) in pairs
      {
        if id == last.0 {
          assert last == (id, CodeById(pairs)[id]);
        }
      }
    }
  }

  /** Some group's customer is mapped to this code. */
  ghost predicate Backed(rows: seq<Aggregate>, codeById: map<string, string>, code: string, a: Aggregate) {
    a in rows && a.group.Some? && a.group.value in codeById && codeById[a.group.value] == code
  }

  lemma {:induction false} StockMapEntries(rows: seq<Aggregate>, codeById: map<string, string>, code: string)
    requires code != ""
    ensures code in StockMap(rows, codeById) <==> exists a :: Backed(rows, codeById, code, a)
    ensures code in StockMap(rows, codeById) ==> exists a :: Backed(rows, codeById, code, a) && StockMap(rows, codeById)[code] == StockOf(a)
  {
    if rows != [] {
      var init, last := rows[..|rows| - 1], rows[|rows| - 1];
      StockMapEntries(init, codeById, code);
      assert rows == init + [last];
      if last.group.Some? && last.group.value in codeById && codeById[last.group.value] == code {
        assert Backed(rows, codeById, code, last);
      } else {
        if code in StockMap(init, codeById) {
          var a :| Backed(init, codeById, code, a) && StockMap(init, codeById)[code] == StockOf(a);
          assert Backed(rows, codeById, code, a);
        }
        if a :| Backed(rows, codeById, code, a) {
          assert Backed(init, codeById, code, a);
        }
      }
    }
  }

  /** What the ERP owes this customer, over all time. */
  function Mine(customers: seq<CustomerRow>, lines: seq<Line>, code: string): seq<Line> {
    var id := IdOf(customers, code);
    Counted(lines, if id.Some? then {id.value} else {}, ALL_TIME)
  }

  function StockOfLines(lines: seq<Line>): CustomerStock {
    CustomerStock(SumOf(Ordered, lines), SumOf(Delivered, lines), AtLeastZero(SumOf(Ordered, lines) - SumOf(Delivered, lines)))
  }

  function Totals(b: Balance): CustomerStock {
    CustomerStock(b.purchased, b.loaded, b.remaining)
  }

  /** The breakdown of one customer totals that customer's lines, and is absent exactly when there are none. */
  lemma SingleTotals(cat: Catalogue, customers: seq<CustomerRow>, lines: seq<Line>, code: string)
    ensures var b := SingleBalance(cat, customers, lines, code, ALL_TIME);
            (b.None? <==> Mine(customers, lines, code) == []) && (b.Some? ==> Totals(b.value) == StockOfLines(Mine(customers, lines, code)))
  {
    var id := IdOf(customers, code);
    var ids := if id.Some? then {id.value} else {};
    ShapeTotalsAreLineSums(cat, lines, ids, ALL_TIME);
    RowsIffLines(cat, lines, ids, ALL_TIME);
  }

  /** Every aggregate row is a customer's, and sums that customer's lines. */
  lemma RowHasLines(lines: seq<Line>, ids: set<string>, a: Aggregate)
    requires a in ByCustomer(lines, ids)
    ensures a.group.Some? && a.group.value in ids
    ensures Counted(lines, {a.group.value}, ALL_TIME) != [] && a == AggregateOf(a.group, Counted(lines, {a.group.value}, ALL_TIME))
  {
    var counted := Counted(lines, ids, ALL_TIME);
    var ks := Keys(CustomerOf, counted);
    OneRowEach(CustomerOf, ks, counted);
    var i :| 0 <= i < |ks| && ByCustomer(lines, ids)[i] == a;
    AggregateAt(CustomerOf, ks, counted, i);
    var j := ElementOfKey(CustomerOf, counted, ks[i]);
    CountedMembers(lines, ids, ALL_TIME);
    assert counted[j] in counted;
    GroupIsCountedAlone(lines, ids, ks[i].value);
    GroupMembers(CustomerOf, ks[i], counted);
    assert counted[j] in Group(CustomerOf, ks[i], counted);
  }

  /** Every customer with lines has a row. */
  lemma LinesHaveRow(lines: seq<Line>, ids: set<string>, id: string)
    requires id in ids && Counted(lines, {id}, ALL_TIME) != []
    ensures AggregateOf(Some(id), Counted(lines, {id}, ALL_TIME)) in ByCustomer(lines, ids)
  {
    var counted, mine := Counted(lines, ids, ALL_TIME), Counted(lines, {id}, ALL_TIME);
    var ks := Keys(CustomerOf, counted);
    GroupIsCountedAlone(lines, ids, id);
    GroupMembers(CustomerOf, Some(id), counted);
    assert mine[0] in mine;
    var j :| 0 <= j < |counted| && counted[j] == mine[0];
    KeyOfElement(CustomerOf, counted, j);
    var i :| 0 <= i < |ks| && ks[i] == Some(id);
    AggregateAt(CustomerOf, ks, counted, i);
    assert ByCustomer(lines, ids)[i] in ByCustomer(lines, ids);
  }

  /** The aggregate row of one customer, where that customer has lines. */
  lemma CustomerRowOf(lines: seq<Line>, ids: set<string>, a: Aggregate)
    ensures a in ByCustomer(lines, ids) <==>
            a.group.Some? && a.group.value in ids && Counted(lines, {a.group.value}, ALL_TIME) != [] &&
            a == AggregateOf(a.group, Counted(lines, {a.group.value}, ALL_TIME))
  {
    if a in ByCustomer(lines, ids) {
      RowHasLines(lines, ids, a);
    } else if a.group.Some? && a.group.value in ids && Counted(lines, {a.group.value}, ALL_TIME) != [] {
      LinesHaveRow(lines, ids, a.group.value);
    }
  }

  /** Whether the reverse map leads from this code's internal id back to this code. */
  predicate LeadsBack(customers: seq<CustomerRow>, codes: set<string>, code: string) {
    var id, codeById := IdOf(customers, code), CodeById(IdPairs(customers, codes));
    id.Some? && id.value in codeById && codeById[id.value] == code
  }

  /** What the list column holds for a code, in terms of that customer's own lines. */
  lemma ListColumnOf(customers: seq<CustomerRow>, lines: seq<Line>, codes: set<string>, code: string)
    requires OneIdPerCode(customers, codes) && code in codes && "" !in codes
    ensures var stock, mine := StockByErpIdOf(customers, lines, codes), Mine(customers, lines, code);
            (code in stock <==> mine != [] && LeadsBack(customers, codes, code)) && (code in stock ==> stock[code] == StockOfLines(mine))
  {
    var pairs := IdPairs(customers, codes);
    var codeById := CodeById(pairs);
    var rows := ByCustomer(lines, codeById.Keys);
    CodeByIdEntries(pairs);
    StockMapEntries(rows, codeById, code);
    NoPairsNoRows(lines);
    forall a | Backed(rows, codeById, code, a)
      ensures IdOf(customers, code) == a.group && Mine(customers, lines, code) != [] && StockOf(a) == StockOfLines(Mine(customers, lines, code))
    {
      assert (a.group.value, code) in pairs;
      PairsAreIds(customers, codes, a.group.value, code);
      CustomerRowOf(lines, codeById.Keys, a);
    }
    if Mine(customers, lines, code) != [] && LeadsBack(customers, codes, code) {
      var id, mine := IdOf(customers, code), Mine(customers, lines, code);
      var a := Aggregate(id, SumOf(Ordered, mine), SumOf(Delivered, mine));
      CustomerRowOf(lines, codeById.Keys, a);
      assert Backed(rows, codeById, code, a);
    }
  }

  /** The list column's answer and the customer's own breakdown, as a caller sees them. */
  function ListColumn(customers: seq<CustomerRow>, lines: seq<Line>, codes: set<string>, code: string): Option<CustomerStock> {
    var stock := StockByErpIdOf(customers, lines, codes);
    if code in stock then Some(stock[code]) else None
  }

  function Breakdown(cat: Catalogue, customers: seq<CustomerRow>, lines: seq<Line>, code: string): Option<CustomerStock> {
    var b := SingleBalance(cat, customers, lines, code, ALL_TIME);
    if b.None? then None else Some(Totals(b.value))
  }

  /** Two codes of the page with outstanding lines and one internal id between them. */
  ghost predicate SharesId(customers: seq<CustomerRow>, lines: seq<Line>, codes: set<string>, c: string, d: string) {
    c in codes && d in codes && c != d && IdOf(customers, c) == IdOf(customers, d) && Mine(customers, lines, c) != []
  }

  /**
   * Given one internal id per code, the column shows every customer the figures
   * of their own screen exactly when no two of the codes share an internal id
   * that has lines; of two that do, the reverse map forgets one.
   */
  lemma ColumnAgreesWithBreakdown(cat: Catalogue, customers: seq<CustomerRow>, lines: seq<Line>, codes: set<string>)
    requires OneIdPerCode(customers, codes) && "" !in codes
    ensures (forall c :: c in codes ==> ListColumn(customers, lines, codes, c) == Breakdown(cat, customers, lines, c)) <==>
            (forall c, d :: !SharesId(customers, lines, codes, c, d))
  {
    forall c | c in codes
      ensures ListColumn(customers, lines, codes, c) == Breakdown(cat, customers, lines, c) <==>
              Mine(customers, lines, c) == [] || LeadsBack(customers, codes, c)
    {
      ListColumnOf(customers, lines, codes, c);
      SingleTotals(cat, customers, lines, c);
    }
    forall c, d | SharesId(customers, lines, codes, c, d)
      ensures !(LeadsBack(customers, codes, c) && LeadsBack(customers, codes, d))
    {
    }
    forall c | c in codes && Mine(customers, lines, c) != [] && !LeadsBack(customers, codes, c)
      ensures exists d :: SharesId(customers, lines, codes, c, d)
    {
      RivalOf(customers, lines, codes, c);
    }
    if d, c :| SharesId(customers, lines, codes, c, d) {
      assert Mine(customers, lines, d) == Mine(customers, lines, c);
    }
  }

  lemma RivalOf(customers: seq<CustomerRow>, lines: seq<Line>, codes: set<string>, c: string)
    requires OneIdPerCode(customers, codes) && c in codes && Mine(customers, lines, c) != [] && !LeadsBack(customers, codes, c)
    ensures exists d :: SharesId(customers, lines, codes, c, d)
  {
    NoPairsNoRows(lines);
    var id := IdOf(customers, c);
    var pairs := IdPairs(customers, codes);
    PairsAreIds(customers, codes, id.value, c);
    CodeByIdEntries(pairs);
    assert (id.value, c) in pairs;
    assert id.value in IdsOf(pairs);
    var d := CodeById(pairs)[id.value];
    IdPairsMembers(customers, codes);
    PairsAreIds(customers, codes, id.value, d);
    assert SharesId(customers, lines, codes, c, d);
  }

  /** The internal id whose figures the column shows for a code: of the groups that lead back to it, the last one read. */
  function ShownId(rows: seq<Aggregate>, codeById: map<string, string>, code: string): Option<string> {
    if rows == [] then None
    else
      var a := rows[|rows| - 1];
      if a.group.Some? && a.group.value in codeById && codeById[a.group.value] == code then a.group
      else ShownId(rows[..|rows| - 1], codeById, code)
  }

  lemma {:induction false} StockMapShows(rows: seq<Aggregate>, codeById: map<string, string>, code: string)
    requires code != ""
    ensures code in StockMap(rows, codeById) <==> ShownId(rows, codeById, code).Some?
    ensures code in StockMap(rows, codeById) ==>
              exists a :: a in rows && a.group == ShownId(rows, codeById, code) && StockMap(rows, codeById)[code] == StockOf(a)
  {
    if rows != [] {
      var init, last := rows[..|rows| - 1], rows[|rows| - 1];
      StockMapShows(init, codeById, code);
      assert rows == init + [last];
      if ShownId(rows, codeById, code) == last.group && last.group.Some? {
        assert last in rows;
      }
    }
  }

  /** The id shown for a code on a page, over all rows of the grouped query. */
  function ShownOnPage(customers: seq<CustomerRow>, lines: seq<Line>, codes: set<string>, code: string): Option<string> {
    var codeById := CodeById(IdPairs(customers, codes));
    ShownId(ByCustomer(lines, codeById.Keys), codeById, code)
  }

  /**
   * What the column shows with no assumption on ids: where the code has several,
   * or shares one, the lines of the shown id alone.
   */
  lemma ColumnShows(customers: seq<CustomerRow>, lines: seq<Line>, codes: set<string>, code: string)
    requires code != ""
    ensures var id := ShownOnPage(customers, lines, codes, code);
            ListColumn(customers, lines, codes, code) ==
            if id.None? then None else Some(StockOfLines(Counted(lines, {id.value}, ALL_TIME)))
  {
    var codeById := CodeById(IdPairs(customers, codes));
    var rows := ByCustomer(lines, codeById.Keys);
    StockMapShows(rows, codeById, code);
    if code in StockMap(rows, codeById) {
      var a :| a in rows && a.group == ShownId(rows, codeById, code) && StockMap(rows, codeById)[code] == StockOf(a);
      CustomerRowOf(lines, codeById.Keys, a);
    }
  }

  /** So the column shows a customer the figures of their own screen exactly when the shown id and the freshest one total the same. */
  lemma ColumnAgreesAt(cat: Catalogue, customers: seq<CustomerRow>, lines: seq<Line>, codes: set<string>, code: string)
    requires code != ""
    ensures var id, mine := ShownOnPage(customers, lines, codes, code), Mine(customers, lines, code);
            ListColumn(customers, lines, codes, code) == Breakdown(cat, customers, lines, code) <==>
            if id.None? then mine == [] else mine != [] && StockOfLines(Counted(lines, {id.value}, ALL_TIME)) == StockOfLines(mine)
  {
    ColumnShows(customers, lines, codes, code);
    SingleTotals(cat, customers, lines, code);
  }

  /** The shown id leads back to the code and has a row; where none is shown, no row's id leads back. */
  lemma {:induction false} ShownIdLeadsBack(rows: seq<Aggregate>, codeById: map<string, string>, code: string)
    ensures var id := ShownId(rows, codeById, code);
            if id.Some? then id.value in codeById && codeById[id.value] == code && exists a :: a in rows && a.group == id
            else forall a :: a in rows && a.group.Some? && a.group.value in codeById ==> codeById[a.group.value] != code
  {
    if rows != [] {
      var init, last := rows[..|rows| - 1], rows[|rows| - 1];
      assert rows == init + [last];
      ShownIdLeadsBack(init, codeById, code);
      if ShownId(rows, codeById, code).Some? && ShownId(rows, codeById, code) == last.group {
        assert last in rows;
      }
    }
  }

  /** An id with lines is shown where it leads back and no other does. */
  lemma ShownIsTheOne(customers: seq<CustomerRow>, lines: seq<Line>, codes: set<string>, code: string)
    ensures var codeById, id := CodeById(IdPairs(customers, codes)), ShownOnPage(customers, lines, codes, code);
            if id.Some? then id.value in codeById && codeById[id.value] == code && Counted(lines, {id.value}, ALL_TIME) != []
            else forall x :: x in codeById && codeById[x] == code ==> Counted(lines, {x}, ALL_TIME) == []
  {
    var codeById := CodeById(IdPairs(customers, codes));
    var rows := ByCustomer(lines, codeById.Keys);
    ShownIdLeadsBack(rows, codeById, code);
    var id := ShownId(rows, codeById, code);
    if id.Some? {
      var a :| a in rows && a.group == id;
      RowHasLines(lines, codeById.Keys, a);
    } else {
      forall x | x in codeById && codeById[x] == code
        ensures Counted(lines, {x}, ALL_TIME) == []
      {
        if Counted(lines, {x}, ALL_TIME) != [] {
          LinesHaveRow(lines, codeById.Keys, x);
        }
      }
    }
  }

  /**
   * The customer rows lead from exactly one id to the code, and it is the one
   * its own screen reads, or from none and its own screen reads none.
   */
  ghost predicate OneWayBack(customers: seq<CustomerRow>, codes: set<string>, code: string) {
    var codeById := CodeById(IdPairs(customers, codes));
    forall id :: (id in codeById && codeById[id] == code) <==> IdOf(customers, code) == Some(id)
  }

  lemma OneWayBackAgrees(
    cat: Catalogue, customers: seq<CustomerRow>, lines: seq<Line>, codes: set<string>, code: string)
    requires code != "" && OneWayBack(customers, codes, code)
    ensures ListColumn(customers, lines, codes, code) == Breakdown(cat, customers, lines, code)
  {
    NoPairsNoRows(lines);
    ShownIsTheOne(customers, lines, codes, code);
    ColumnAgreesAt(cat, customers, lines, codes, code);
  }

  /** Of a feed of one order, the column shows an id that leads back and the code's own screen the id it reads. */
  lemma OneOrderShown(cat: Catalogue, customers: seq<CustomerRow>, codes: set<string>, code: string, id: string)
    requires code != ""
    ensures var lines, codeById := [OpenLine(id, 10.0)], CodeById(IdPairs(customers, codes));
            (ListColumn(customers, lines, codes, code).Some? <==> id in codeById && codeById[id] == code) &&
            (Breakdown(cat, customers, lines, code).Some? <==> IdOf(customers, code) == Some(id))
  {
    var lines := [OpenLine(id, 10.0)];
    forall x
      ensures Counted(lines, {x}, ALL_TIME) != [] <==> x == id
    {
      OneLineCounted(id, 10.0, {x});
    }
    NoPairsNoRows(lines);
    ShownIsTheOne(customers, lines, codes, code);
    ColumnShows(customers, lines, codes, code);
    SingleTotals(cat, customers, lines, code);
  }

  /**
   * When the column can be trusted: it shows a code the figures of its own screen
   * on every feed of orders exactly when the customer rows lead back to the code
   * from the id its own screen reads and from no other. A code with several ids,
   * or one that gave its id away, fails on some feed.
   */
  lemma ColumnAgreesOnEveryFeed(cat: Catalogue, customers: seq<CustomerRow>, codes: set<string>, code: string)
    requires code != ""
    ensures (forall lines :: ListColumn(customers, lines, codes, code) == Breakdown(cat, customers, lines, code)) <==>
            OneWayBack(customers, codes, code)
  {
    if OneWayBack(customers, codes, code) {
      forall lines
        ensures ListColumn(customers, lines, codes, code) == Breakdown(cat, customers, lines, code)
      {
        OneWayBackAgrees(cat, customers, lines, codes, code);
      }
    } else {
      var codeById := CodeById(IdPairs(customers, codes));
      var id :| !((id in codeById && codeById[id] == code) <==> IdOf(customers, code) == Some(id));
      OneOrderShown(cat, customers, codes, code, id);
    }
  }

  /** An open, approved order of one carton figure. */
  function OpenLine(id: string, ordered: real): Line {
    Line(true, Some(id), None, None, None, ordered, 0.0, Some("0"), Some("Y"), 0)
  }

  lemma OneLineCounted(id: string, ordered: real, ids: set<string>)
    ensures Counted([OpenLine(id, ordered)], ids, ALL_TIME) == if id in ids then [OpenLine(id, ordered)] else []
  {
    var l := OpenLine(id, ordered);
    assert [l][..0] == [] && [] + [l] == [l];
  }

  lemma CodeByIdAppend(pairs: seq<(string, string)>, p: (string, string))
    ensures CodeById(pairs + [p]) == CodeById(pairs)[p.0 := p.1]
  {
    assert (pairs + [p])[..|pairs|] == pairs;
  }

  lemma FreshestAppend(customers: seq<CustomerRow>, c: CustomerRow, code: string)
    ensures var rest := Freshest(customers, code);
            Freshest(customers + [c], code) == if c.code != Some(code) || (rest.Some? && SeenNoLater(c, rest.value)) then rest else Some(c)
  {
    assert (customers + [c])[..|customers|] == customers;
  }

  lemma IdPairsAppend(customers: seq<CustomerRow>, c: CustomerRow, codes: set<string>)
    requires c.code.Some? && c.code.value in codes && c.id.Some? && c.id.value != ""
    requires (c.id.value, c.code.value) !in IdPairs(customers, codes)
    ensures IdPairs(customers + [c], codes) == IdPairs(customers, codes) + [(c.id.value, c.code.value)]
  {
    assert (customers + [c])[..|customers|] == customers;
  }

  /** The code's freshest row of two, and the pairs of both. */
  lemma TwoRows(a: CustomerRow, b: CustomerRow, codes: set<string>, code: string)
    requires a.code.Some? && a.code.value in codes && a.id.Some? && a.id.value != ""
    requires b.code.Some? && b.code.value in codes && b.id.Some? && b.id.value != ""
    requires (a.id, a.code) != (b.id, b.code)
    ensures IdPairs([a, b], codes) == [(a.id.value, a.code.value), (b.id.value, b.code.value)]
    ensures Freshest([a, b], code) ==
            if a.code != Some(code) then if b.code == Some(code) then Some(b) else None
            else if b.code == Some(code) && !SeenNoLater(b, a) then Some(b)
            else Some(a)
  {
    assert [] + [a] == [a] && [a] + [b] == [a, b];
    FreshestAppend([], a, code);
    FreshestAppend([a], b, code);
    IdPairsAppend([], a, codes);
    IdPairsAppend([a], b, codes);
  }

  /** Two customer rows with different codes and one internal id. */
  lemma TwoCodesOneId(a: CustomerRow, b: CustomerRow, codes: set<string>)
    requires a.code.Some? && b.code.Some? && a.code != b.code && a.code.value in codes && b.code.value in codes
    requires a.id.Some? && a.id == b.id && a.id.value != ""
    ensures CodeById(IdPairs([a, b], codes)) == map[a.id.value := b.code.value]
    ensures IdOf([a, b], a.code.value) == a.id && IdOf([a, b], b.code.value) == b.id
  {
    var p, q := (a.id.value, a.code.value), (b.id.value, b.code.value);
    TwoRows(a, b, codes, a.code.value);
    TwoRows(a, b, codes, b.code.value);
    TwoPairs(p, q);
  }

  lemma TwoPairs(p: (string, string), q: (string, string))
    ensures CodeById([p, q]) == map[p.0 := p.1][q.0 := q.1]
  {
    assert [] + [p] == [p] && [p] + [q] == [p, q];
    CodeByIdAppend([], p);
    CodeByIdAppend([p], q);
  }

  /** A code no id leads back to is not shown. */
  lemma {:induction false} ForgottenCode(rows: seq<Aggregate>, codeById: map<string, string>, code: string)
    requires forall id :: id in codeById ==> codeById[id] != code
    ensures ShownId(rows, codeById, code) == None
  {
    if rows != [] {
      ForgottenCode(rows[..|rows| - 1], codeById, code);
    }
  }

  lemma StockOfOne(l: Line)
    ensures StockOfLines([l]) == CustomerStock(l.ordered, l.delivered, AtLeastZero(l.ordered - l.delivered))
  {
    assert [] + [l] == [l];
    SumOfAppend(Ordered, [], l);
    SumOfAppend(Delivered, [], l);
  }

  /** On a feed of one order, the breakdown of its customer's code is that order. */
  lemma BreakdownOfOne(cat: Catalogue, customers: seq<CustomerRow>, code: string, id: string, ordered: real)
    requires IdOf(customers, code) == Some(id)
    ensures Breakdown(cat, customers, [OpenLine(id, ordered)], code) == Some(CustomerStock(ordered, 0.0, AtLeastZero(ordered)))
  {
    OneLineCounted(id, ordered, {id});
    StockOfOne(OpenLine(id, ordered));
    SingleTotals(cat, customers, [OpenLine(id, ordered)], code);
  }

  /** Two codes under one id with lines: the column has no entry for the first, whose own screen shows the cartons. */
  lemma SharedIdExample(cat: Catalogue)
    ensures var customers := [CustomerRow(Some("A"), Some("7"), None), CustomerRow(Some("B"), Some("7"), None)];
            var lines := [OpenLine("7", 10.0)];
            ListColumn(customers, lines, {"A", "B"}, "A") == None &&
            Breakdown(cat, customers, lines, "A") == Some(CustomerStock(10.0, 0.0, 10.0))
  {
    var a, b, l := CustomerRow(Some("A"), Some("7"), None), CustomerRow(Some("B"), Some("7"), None), OpenLine("7", 10.0);
    TwoCodesOneId(a, b, {"A", "B"});
    ForgottenCode(ByCustomer([l], {"7"}), map["7" := "B"], "A");
    ColumnShows([a, b], [l], {"A", "B"}, "A");
    BreakdownOfOne(cat, [a, b], "A", "7", 10.0);
  }

  lemma TwoIdsOneCode(a: CustomerRow, b: CustomerRow, codes: set<string>)
    requires a.code.Some? && b.code == a.code && a.code.value in codes
    requires a.id.Some? && b.id.Some? && a.id != b.id && a.id.value != "" && b.id.value != ""
    requires SeenNoLater(b, a)
    ensures CodeById(IdPairs([a, b], codes)) == map[a.id.value := a.code.value, b.id.value := a.code.value]
    ensures IdOf([a, b], a.code.value) == a.id
  {
    TwoRows(a, b, codes, a.code.value);
    TwoPairs((a.id.value, a.code.value), (b.id.value, a.code.value));
  }

  lemma TwoLinesCounted(l: Line, m: Line, ids: set<string>)
    requires Counts(l, ids, ALL_TIME) && Counts(m, ids, ALL_TIME)
    ensures Counted([l, m], ids, ALL_TIME) == [l, m]
  {
    assert [l, m][..1] == [l] && [l][..0] == [];
    assert Counted([l], ids, ALL_TIME) == [l];
  }

  lemma FirstOfTwoCounted(l: Line, m: Line, ids: set<string>)
    requires Counts(l, ids, ALL_TIME) && !Counts(m, ids, ALL_TIME)
    ensures Counted([l, m], ids, ALL_TIME) == [l] && Counted([m, l], ids, ALL_TIME) == [l]
  {
    assert [l, m][..1] == [l] && [l][..0] == [];
    assert [m, l][..1] == [m] && [m][..0] == [];
    assert Counted([l], ids, ALL_TIME) == [l] && Counted([m], ids, ALL_TIME) == [];
  }

  /** The last group of two customers' lines is the second customer's. */
  lemma LastGroupOfTwo(l: Line, m: Line, codeById: map<string, string>, code: string)
    requires l.customerId.Some? && m.customerId.Some? && l.customerId != m.customerId
    requires Counts(l, codeById.Keys, ALL_TIME) && Counts(m, codeById.Keys, ALL_TIME)
    requires codeById[m.customerId.value] == code
    ensures ShownId(ByCustomer([l, m], codeById.Keys), codeById, code) == m.customerId
  {
    TwoLinesCounted(l, m, codeById.Keys);
    assert [] + [l] == [l] && [l] + [m] == [l, m];
    KeysAppend(CustomerOf, [], l);
    KeysAppend(CustomerOf, [l], m);
    AggregateAt(CustomerOf, Keys(CustomerOf, [l, m]), [l, m], 1);
  }

  /** One code under two ids: its own screen shows the fresher id's cartons, the column the other's. */
  lemma SeveralIdsExample(cat: Catalogue)
    ensures var customers := [CustomerRow(Some("A"), Some("1"), Some(2)), CustomerRow(Some("A"), Some("2"), Some(1))];
            var lines := [OpenLine("1", 10.0), OpenLine("2", 99.0)];
            ListColumn(customers, lines, {"A"}, "A") == Some(CustomerStock(99.0, 0.0, 99.0)) &&
            Breakdown(cat, customers, lines, "A") == Some(CustomerStock(10.0, 0.0, 10.0))
  {
    var a, b := CustomerRow(Some("A"), Some("1"), Some(2)), CustomerRow(Some("A"), Some("2"), Some(1));
    var l, m := OpenLine("1", 10.0), OpenLine("2", 99.0);
    TwoIdsOneCode(a, b, {"A"});
    LastGroupOfTwo(l, m, CodeById(IdPairs([a, b], {"A"})), "A");
    ColumnShows([a, b], [l, m], {"A"}, "A");
    SingleTotals(cat, [a, b], [l, m], "A");
    FirstOfTwoCounted(l, m, {"1"});
    FirstOfTwoCounted(m, l, {"2"});
    StockOfOne(l);
    StockOfOne(m);
  }

  // ---------------------------------------------------------------- the portfolio

  /** Counting two separate sets of customers together adds up. */
  lemma {:induction false} CountedSplits(f: Line -> real, lines: seq<Line>, a: set<string>, b: set<string>, range: DateRange)
    requires a !! b
    ensures SumOf(f, Counted(lines, a + b, range)) == SumOf(f, Counted(lines, a, range)) + SumOf(f, Counted(lines, b, range))
  {
    if lines != [] {
      var init, l := lines[..|lines| - 1], lines[|lines| - 1];
      CountedSplits(f, init, a, b, range);
      SumOfAppend(f, Counted(init, a + b, range), l);
      SumOfAppend(f, Counted(init, a, range), l);
      SumOfAppend(f, Counted(init, b, range), l);
    }
  }

  /** The sum of a figure of each code's own lines. */
  function SumOverCodes(f: Line -> real, customers: seq<CustomerRow>, lines: seq<Line>, codes: seq<string>): real {
    if codes == [] then 0.0
    else SumOverCodes(f, customers, lines, codes[..|codes| - 1]) + SumOf(f, Mine(customers, lines, codes[|codes| - 1]))
  }

  function IdsOfCodes(customers: seq<CustomerRow>, codes: seq<string>): set<string> {
    set c | c in codes && IdOf(customers, c).Some? :: IdOf(customers, c).value
  }

  /** No two of the codes have one internal id. */
  ghost predicate OwnIds(customers: seq<CustomerRow>, codes: seq<string>) {
    forall i, j :: 0 <= i < j < |codes| ==> IdOf(customers, codes[i]).None? || IdOf(customers, codes[i]) != IdOf(customers, codes[j])
  }

  lemma OwnIdsWithout(customers: seq<CustomerRow>, codes: seq<string>, c: string)
    requires OwnIds(customers, codes + [c])
    ensures OwnIds(customers, codes)
    ensures IdOf(customers, c).Some? ==> IdOf(customers, c).value !in IdsOfCodes(customers, codes)
  {
    var all := codes + [c];
    assert forall i :: 0 <= i < |codes| ==> all[i] == codes[i];
    assert all[|codes|] == c;
  }

  lemma IdsOfCodesAppend(customers: seq<CustomerRow>, codes: seq<string>, c: string)
    ensures IdsOfCodes(customers, codes + [c]) ==
            IdsOfCodes(customers, codes) + if IdOf(customers, c).Some? then {IdOf(customers, c).value} else {}
  {
  }

  lemma SumOverCodesAppend(f: Line -> real, customers: seq<CustomerRow>, lines: seq<Line>, codes: seq<string>, c: string)
    ensures SumOverCodes(f, customers, lines, codes + [c]) == SumOverCodes(f, customers, lines, codes) + SumOf(f, Mine(customers, lines, c))
  {
    assert (codes + [c])[..|codes|] == codes;
  }

  /** One more customer adds their own lines. */
  lemma CountedWithOneMore(f: Line -> real, customers: seq<CustomerRow>, lines: seq<Line>, ids: set<string>, c: string)
    requires IdOf(customers, c).Some? ==> IdOf(customers, c).value !in ids
    ensures var more := if IdOf(customers, c).Some? then {IdOf(customers, c).value} else {};
            SumOf(f, Counted(lines, ids + more, ALL_TIME)) == SumOf(f, Counted(lines, ids, ALL_TIME)) + SumOf(f, Mine(customers, lines, c))
  {
    var id := IdOf(customers, c);
    if id.Some? {
      CountedSplits(f, lines, ids, {id.value}, ALL_TIME);
    } else {
      NoPairsNoRows(lines);
      assert ids + {} == ids;
    }
  }

  lemma {:induction false} PortfolioIsSumOfCustomers(f: Line -> real, customers: seq<CustomerRow>, lines: seq<Line>, codes: seq<string>)
    requires OwnIds(customers, codes)
    ensures SumOf(f, Counted(lines, IdsOfCodes(customers, codes), ALL_TIME)) == SumOverCodes(f, customers, lines, codes)
  {
    if codes == [] {
      NoPairsNoRows(lines);
      assert IdsOfCodes(customers, codes) == {};
    } else {
      var init, c := codes[..|codes| - 1], codes[|codes| - 1];
      assert codes == init + [c];
      OwnIdsWithout(customers, init, c);
      PortfolioIsSumOfCustomers(f, customers, lines, init);
      IdsOfCodesAppend(customers, init, c);
      CountedWithOneMore(f, customers, lines, IdsOfCodes(customers, init), c);
      SumOverCodesAppend(f, customers, lines, init, c);
    }
  }

  lemma {:induction false} OneProductEach(order: TextOrder, products: seq<Option<string>>, lines: seq<Line>)
    ensures |ProductAggregates(order, products, lines)| == |products|
  {
    if products != [] {
      OneProductEach(order, products[..|products| - 1], lines);
    }
  }

  /** With lines to count there are rows, and without there are none. */
  lemma RowsIffLines(cat: Catalogue, lines: seq<Line>, ids: set<string>, range: DateRange)
    ensures ByProduct(cat.sqlOrder, lines, ids, range) == [] <==> Counted(lines, ids, range) == []
  {
    var counted := Counted(lines, ids, range);
    OneProductEach(cat.sqlOrder, Keys(ProductOf, counted), counted);
    if counted != [] {
      KeyOfElement(ProductOf, counted, 0);
    }
  }

  /** The portfolio totals the lines of its internal ids, and is absent exactly when there are none. */
  lemma PortfolioTotals(cat: Catalogue, customers: seq<CustomerRow>, lines: seq<Line>, codes: set<string>)
    ensures var b := PortfolioBalance(cat, customers, lines, codes, ALL_TIME);
            var counted := Counted(lines, IdsOf(IdPairs(customers, codes)), ALL_TIME);
            if b.Some? then b.value.purchased == SumOf(Ordered, counted) && b.value.loaded == SumOf(Delivered, counted) else counted == []
  {
    var ids := IdsOf(IdPairs(customers, codes));
    RowsIffLines(cat, lines, ids, ALL_TIME);
    NoPairsNoRows(lines);
    ShapeTotalsAreLineSums(cat, lines, ids, ALL_TIME);
  }

  /** An officer's portfolio totals what their customers' own screens total, one customer at a time. */
  lemma PortfolioAddsUp(cat: Catalogue, customers: seq<CustomerRow>, lines: seq<Line>, codes: seq<string>)
    requires OneIdPerCode(customers, set c | c in codes)
    requires OwnIds(customers, codes)
    ensures var b := PortfolioBalance(cat, customers, lines, (set c | c in codes), ALL_TIME);
            if b.Some? then
              b.value.purchased == SumOverCodes(Ordered, customers, lines, codes) &&
              b.value.loaded == SumOverCodes(Delivered, customers, lines, codes)
            else SumOverCodes(Ordered, customers, lines, codes) == 0.0 == SumOverCodes(Delivered, customers, lines, codes)
  {
    IdSetsAgree(customers, codes);
    PortfolioTotals(cat, customers, lines, set c | c in codes);
    PortfolioIsSumOfCustomers(Ordered, customers, lines, codes);
    PortfolioIsSumOfCustomers(Delivered, customers, lines, codes);
  }

  lemma IdSetsAgree(customers: seq<CustomerRow>, codes: seq<string>)
    requires OneIdPerCode(customers, set c | c in codes)
    ensures IdsOf(IdPairs(customers, set c | c in codes)) == IdsOfCodes(customers, codes)
  {
    var all := set c | c in codes;
    var pairs := IdPairs(customers, all);
    IdPairsMembers(customers, all);
    forall id
      ensures id in IdsOf(pairs) <==> id in IdsOfCodes(customers, codes)
    {
      if id in IdsOf(pairs) {
        var p :| p in pairs && p.0 == id;
        assert p == (id, p.1);
        PairsAreIds(customers, all, id, p.1);
      }
      if id in IdsOfCodes(customers, codes) {
        var c :| c in codes && IdOf(customers, c) == Some(id);
        PairsAreIds(customers, all, id, c);
        assert (id, c) in pairs;
      }
    }
  }

  // ---------------------------------------------------------------- flooring once or row by row

  /** Some product is still to collect. */
  predicate Owed(products: seq<Product>) {
    exists p :: p in products && p.paid > p.loaded
  }

  /** Some product has been delivered above what was ordered. */
  predicate OverDelivered(products: seq<Product>) {
    exists p :: p in products && p.paid < p.loaded
  }

  ghost predicate Floored(products: seq<Product>) {
    forall p :: p in products ==> p.remaining == AtLeastZero(p.paid - p.loaded)
  }

  function Excess(p: Product): real {
    AtLeastZero(p.loaded - p.paid)
  }

  /** The rows' remainders less the rows' excesses is the plain difference of the totals. */
  lemma {:induction false} RemaindersLessExcesses(products: seq<Product>)
    requires Floored(products)
    ensures SumOf(Remaining, products) - SumOf(Excess, products) == SumOf(Paid, products) - SumOf(Loaded, products)
    ensures SumOf(Remaining, products) >= 0.0 && SumOf(Excess, products) >= 0.0
    ensures SumOf(Remaining, products) > 0.0 <==> Owed(products)
    ensures SumOf(Excess, products) > 0.0 <==> OverDelivered(products)
  {
    if products != [] {
      var init, last := products[..|products| - 1], products[|products| - 1];
      assert products == init + [last];
      RemaindersLessExcesses(init);
      assert last in products;
      if Owed(products) && !(last.paid > last.loaded) {
        assert Owed(init);
      }
      if OverDelivered(products) && !(last.paid < last.loaded) {
        assert OverDelivered(init);
      }
    }
  }

  /**
   * The headline is at most what the product rows add up to, and equals it
   * exactly unless one product is owed while another is over-delivered.
   */
  lemma HeadlineVersusRows(products: seq<Product>)
    requires Floored(products)
    ensures AtLeastZero(SumOf(Paid, products) - SumOf(Loaded, products)) <= SumOf(Remaining, products)
    ensures AtLeastZero(SumOf(Paid, products) - SumOf(Loaded, products)) == SumOf(Remaining, products) <==>
            !(Owed(products) && OverDelivered(products))
  {
    RemaindersLessExcesses(products);
  }

  lemma {:induction false} ProductRowsAreFloored(cat: Catalogue, rows: seq<ProductAggregate>)
    ensures Floored(ProductRows(cat, rows))
  {
    if rows != [] {
      ProductRowsAreFloored(cat, rows[..|rows| - 1]);
    }
  }

  /** Sorting moves no row in or out and no total. */
  lemma SortingMovesNothing(collate: TextOrder, products: seq<Product>, f: Product -> real)
    ensures var sorted := Sort(products, ProductOrder(collate));
            (forall p :: p in sorted <==> p in products) && SumOf(f, sorted) == SumOf(f, products)
  {
    var sorted := Sort(products, ProductOrder(collate));
    SortKeepsElements(products, ProductOrder(collate));
    SameMembers(sorted, products);
    SumIgnoresOrder(f, products, sorted);
  }

  /** The headline is computed before the rows are sorted; read off the rows returned, it is the same. */
  lemma HeadlineOfRows(cat: Catalogue, rows: seq<ProductAggregate>)
    ensures var b := Shape(cat, rows);
            Floored(b.products) && b.purchased == SumOf(Paid, b.products) && b.loaded == SumOf(Loaded, b.products) &&
            b.remaining == AtLeastZero(b.purchased - b.loaded)
  {
    var products := ProductRows(cat, rows);
    ProductRowsAreFloored(cat, rows);
    SortingMovesNothing(cat.collate, products, Paid);
    SortingMovesNothing(cat.collate, products, Loaded);
  }

  /** The same for the balance as it is returned, whatever the aggregate rows, its products sorted for the screen. */
  lemma BalanceHeadline(cat: Catalogue, rows: seq<ProductAggregate>)
    ensures var b := Shape(cat, rows);
            b.purchased == SumOf(Paid, b.products) && b.loaded == SumOf(Loaded, b.products) &&
            b.remaining <= SumOf(Remaining, b.products) &&
            (b.remaining == SumOf(Remaining, b.products) <==> !(Owed(b.products) && OverDelivered(b.products)))
  {
    var b := Shape(cat, rows);
    HeadlineOfRows(cat, rows);
    HeadlineOfTotals(b.purchased, b.loaded, b.products);
  }

  // ---------------------------------------------------------------- the portfolio's headline

  /** A customer's own totals, as one row of the portfolio. */
  function OwnTotals(customers: seq<CustomerRow>, lines: seq<Line>, code: string): Product {
    var own := StockOfLines(Mine(customers, lines, code));
    Product(None, code, None, own.totalStock, own.stockLoaded, own.stockBalance, None)
  }

  function EveryonesTotals(customers: seq<CustomerRow>, lines: seq<Line>, codes: seq<string>): seq<Product> {
    if codes == [] then []
    else EveryonesTotals(customers, lines, codes[..|codes| - 1]) + [OwnTotals(customers, lines, codes[|codes| - 1])]
  }

  lemma {:induction false} EveryonesSums(customers: seq<CustomerRow>, lines: seq<Line>, codes: seq<string>)
    ensures var all := EveryonesTotals(customers, lines, codes);
            Floored(all) && SumOf(Paid, all) == SumOverCodes(Ordered, customers, lines, codes) &&
            SumOf(Loaded, all) == SumOverCodes(Delivered, customers, lines, codes)
  {
    if codes != [] {
      var init, last := codes[..|codes| - 1], OwnTotals(customers, lines, codes[|codes| - 1]);
      EveryonesSums(customers, lines, init);
      SumOfAppend(Paid, EveryonesTotals(customers, lines, init), last);
      SumOfAppend(Loaded, EveryonesTotals(customers, lines, init), last);
    }
  }

  lemma HeadlineOfTotals(purchased: real, loaded: real, all: seq<Product>)
    requires Floored(all) && purchased == SumOf(Paid, all) && loaded == SumOf(Loaded, all)
    ensures var remaining := AtLeastZero(purchased - loaded);
            remaining <= SumOf(Remaining, all) && (remaining == SumOf(Remaining, all) <==> !(Owed(all) && OverDelivered(all)))
  {
    HeadlineVersusRows(all);
  }

  /**
   * The portfolio's remainder is at most what its customers' own screens add up
   * to, and equals it exactly unless one customer is owed while another has been
   * over-delivered.
   */
  lemma PortfolioHeadline(cat: Catalogue, customers: seq<CustomerRow>, lines: seq<Line>, codes: seq<string>)
    requires OneIdPerCode(customers, set c | c in codes)
    requires OwnIds(customers, codes)
    requires PortfolioBalance(cat, customers, lines, (set c | c in codes), ALL_TIME).Some?
    ensures var b := PortfolioBalance(cat, customers, lines, (set c | c in codes), ALL_TIME).value;
            var all := EveryonesTotals(customers, lines, codes);
            b.remaining <= SumOf(Remaining, all) && (b.remaining == SumOf(Remaining, all) <==> !(Owed(all) && OverDelivered(all)))
  {
    var b := PortfolioBalance(cat, customers, lines, (set c | c in codes), ALL_TIME).value;
    PortfolioAddsUp(cat, customers, lines, codes);
    EveryonesSums(customers, lines, codes);
    HeadlineOfTotals(b.purchased, b.loaded, EveryonesTotals(customers, lines, codes));
  }
}
