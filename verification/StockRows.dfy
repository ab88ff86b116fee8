/** What the product rows of a stock balance state, and that the feed's row order decides none of it. */
module StockRows {
  import opened Option
  import opened Grouping
  import opened Lists
  import opened Ordering
  import opened Reals
  import opened StockBalance
  import StripCjk
  import Resolver = ProductResolver

  // ---------------------------------------------------------------- which lines count, and whose

  /** An open, approved sales order of one of these customers, placed in the window, both ends included. */
  predicate IsOwed(l: Line, ids: set<string>, range: DateRange) {
    l.isSalesOrder && l.close == Some("0") && l.approveStatus == Some("Y") && l.customerId.Some? && l.customerId.value in ids &&
    (range.start.Some? ==> l.docDate >= range.start.value) && (range.end.Some? ==> l.docDate <= range.end.value)
  }

  function OrderedBy(ids: set<string>, range: DateRange): Line -> real {
    (l: Line) => if IsOwed(l, ids, range) then l.ordered else 0.0
  }

  function DeliveredTo(ids: set<string>, range: DateRange): Line -> real {
    (l: Line) => if IsOwed(l, ids, range) then l.delivered else 0.0
  }

  lemma {:induction false} CountedSums(lines: seq<Line>, ids: set<string>, range: DateRange)
    ensures SumOf(Ordered, Counted(lines, ids, range)) == SumOf(OrderedBy(ids, range), lines)
    ensures SumOf(Delivered, Counted(lines, ids, range)) == SumOf(DeliveredTo(ids, range), lines)
    ensures Counted(lines, ids, range) == [] <==> forall l :: l in lines ==> !IsOwed(l, ids, range)
  {
    if lines != [] {
      var init, l := lines[..|lines| - 1], lines[|lines| - 1];
      assert lines == init + [l];
      CountedSums(init, ids, range);
      SumOfAppend(Ordered, Counted(init, ids, range), l);
      SumOfAppend(Delivered, Counted(init, ids, range), l);
      assert Counts(l, ids, range) <==> IsOwed(l, ids, range);
    }
  }

  /** The row a code is read from: none of the code's was seen later, and it was never seen only if none of them was. */
  ghost predicate IsFreshest(customers: seq<CustomerRow>, code: string, c: CustomerRow) {
    c in customers && c.code == Some(code) &&
    forall d :: d in customers && d.code == Some(code) ==>
      (c.lastSeenAt == None ==> d.lastSeenAt == None) &&
      (d.lastSeenAt.Some? && c.lastSeenAt.Some? ==> d.lastSeenAt.value <= c.lastSeenAt.value)
  }

  lemma {:induction false} FreshestIsFreshest(customers: seq<CustomerRow>, code: string)
    ensures var r := Freshest(customers, code);
            if r.Some? then IsFreshest(customers, code, r.value) else forall c :: c in customers ==> c.code != Some(code)
  {
    if customers != [] {
      var init, c := customers[..|customers| - 1], customers[|customers| - 1];
      assert customers == init + [c];
      FreshestIsFreshest(init, code);
    }
  }

  /** A balance sums what was ordered and delivered on the owed lines, and what that leaves to collect. */
  ghost predicate SumsLines(b: Balance, lines: seq<Line>, ids: set<string>, range: DateRange) {
    b.purchased == SumOf(OrderedBy(ids, range), lines) && b.loaded == SumOf(DeliveredTo(ids, range), lines) &&
    b.remaining == if b.purchased > b.loaded then b.purchased - b.loaded else 0.0
  }

  lemma ShapeSumsLines(cat: Catalogue, lines: seq<Line>, ids: set<string>, range: DateRange)
    ensures var rows := ByProduct(cat.sqlOrder, lines, ids, range);
            SumsLines(Shape(cat, rows), lines, ids, range) && (rows == [] <==> forall l :: l in lines ==> !IsOwed(l, ids, range))
  {
    CountedSums(lines, ids, range);
    ShapeTotalsAreLineSums(cat, lines, ids, range);
    RowsIffLines(cat, lines, ids, range);
  }

  /** One customer's screen, on the lines: those of the id on the code's freshest row, and absent exactly where none is owed. */
  lemma BalanceOnLines(cat: Catalogue, customers: seq<CustomerRow>, lines: seq<Line>, code: string, range: DateRange)
    ensures var b, c := SingleBalance(cat, customers, lines, code, range), Freshest(customers, code);
            var ids := if c.Some? && c.value.id.Some? then {c.value.id.value} else {};
            (c.Some? ==> IsFreshest(customers, code, c.value)) && (c == None ==> forall d :: d in customers ==> d.code != Some(code)) &&
            if exists l :: l in lines && IsOwed(l, ids, range) then b.Some? && SumsLines(b.value, lines, ids, range) else b == None
  {
    FreshestIsFreshest(customers, code);
    var c := Freshest(customers, code);
    ShapeSumsLines(cat, lines, if c.Some? && c.value.id.Some? then {c.value.id.value} else {}, range);
  }

  /** A portfolio, on the lines: those of every id any row gives one of its codes. */
  lemma PortfolioOnLines(cat: Catalogue, customers: seq<CustomerRow>, lines: seq<Line>, codes: set<string>, range: DateRange)
    ensures var b := PortfolioBalance(cat, customers, lines, codes, range);
            var ids := set c | c in customers && c.code.Some? && c.code.value in codes && c.id.Some? && c.id.value != "" :: c.id.value;
            if exists l :: l in lines && IsOwed(l, ids, range) then b.Some? && SumsLines(b.value, lines, ids, range) else b == None
  {
    var ids := set c | c in customers && c.code.Some? && c.code.value in codes && c.id.Some? && c.id.value != "" :: c.id.value;
    var pairs := IdPairs(customers, codes);
    IdPairsMembers(customers, codes);
    forall id
      ensures id in IdsOf(pairs) <==> id in ids
    {
      if id in IdsOf(pairs) {
        var p :| p in pairs && p.0 == id;
        assert p == (id, p.1);
      }
      if id in ids {
        var c :| c in customers && c.code.Some? && c.code.value in codes && c.id == Some(id) && id != "";
        assert (id, c.code.value) in pairs;
      }
    }
    assert IdsOf(pairs) == ids;
    ShapeSumsLines(cat, lines, ids, range);
  }

  // ---------------------------------------------------------------- the columns over a product's lines

  ghost predicate IsLeast(order: TextOrder, values: set<string>, v: string) {
    v in values && forall w :: w in values ==> order(v, w)
  }

  lemma StatedAppend(column: Line -> Option<string>, lines: seq<Line>, l: Line)
    ensures Stated(column, lines + [l]) == Stated(column, lines) + if column(l).Some? then {column(l).value} else {}
  {
  }

  lemma {:induction false} LeastMeans(order: TextOrder, column: Line -> Option<string>, lines: seq<Line>)
    requires TotalPreorder(order)
    ensures var r := Least(order, column, lines);
            if r.Some? then IsLeast(order, Stated(column, lines), r.value) else Stated(column, lines) == {}
  {
    if lines != [] {
      var init, l := lines[..|lines| - 1], lines[|lines| - 1];
      assert lines == init + [l];
      LeastMeans(order, column, init);
      StatedAppend(column, init, l);
    }
  }

  /** A specification is stated exactly where all lines that state one state the same. */
  lemma OneSpecification(order: TextOrder, product: Option<string>, mine: seq<Line>, v: string)
    requires TotalPreorder(order)
    ensures ProductAggregateOf(order, product, mine).spec == Some(v) <==> Stated(SpecOf, mine) == {v}
  {
    var stated := Stated(SpecOf, mine);
    LeastMeans(order, SpecOf, mine);
    if |stated| == 1 {
      var w := Least(order, SpecOf, mine).value;
      assert |stated - {w}| == 0;
      assert stated == {w};
    }
  }

  ghost predicate IsLatest(lines: seq<Line>, day: Option<int>) {
    day.Some? && (exists l :: l in lines && l.docDate == day.value) && forall l :: l in lines ==> l.docDate <= day.value
  }

  lemma {:induction false} LatestMeans(lines: seq<Line>)
    requires lines != []
    ensures IsLatest(lines, Latest(lines))
  {
    var init, l := lines[..|lines| - 1], lines[|lines| - 1];
    assert lines == init + [l];
    assert l in lines;
    if init != [] {
      LatestMeans(init);
    }
  }

  // ---------------------------------------------------------------- the rows of a balance

  /** The feed gives this product name a code somewhere. */
  predicate FeedNames(cat: Catalogue, product: Option<string>) {
    product.Some? && product.value != "" && product.value in cat.feedCodes && cat.feedCodes[product.value] != ""
  }

  /** The row of one product name, said of the lines that carry it. */
  ghost predicate States(cat: Catalogue, product: Option<string>, mine: seq<Line>, p: Product) {
    var codes, specs := Stated(CodeOf, mine), Stated(SpecOf, mine);
    p.name == product.GetOr("Unspecified") &&
    p.paid == SumOf(Ordered, mine) && p.loaded == SumOf(Delivered, mine) && p.remaining == AtLeastZero(p.paid - p.loaded) &&
    IsLatest(mine, p.lastOrderDate) &&
    (forall v :: specs == {v} ==> p.spec == StripCjk.Strip(Some(v))) && (|specs| != 1 ==> p.spec == None) &&
    (codes != {} ==> p.itemCode.Some? && IsLeast(cat.sqlOrder, codes, p.itemCode.value)) &&
    (codes == {} && FeedNames(cat, product) ==> p.itemCode == Some(cat.feedCodes[product.value])) &&
    (codes == {} && !FeedNames(cat, product) ==>
       exists spec: Option<string> ::
         (forall v :: spec == Some(v) <==> specs == {v}) &&
         p.itemCode == Resolver.ByMaps(cat.norm, cat.sheet, Some(p.name), spec).productId)
  }

  function RowFor(cat: Catalogue, product: Option<string>, counted: seq<Line>): Product {
    ProductRow(cat, ProductAggregateOf(cat.sqlOrder, product, Group(ProductOf, product, counted)))
  }

  lemma RowStates(cat: Catalogue, product: Option<string>, counted: seq<Line>)
    requires TotalPreorder(cat.sqlOrder) && Group(ProductOf, product, counted) != []
    ensures States(cat, product, Group(ProductOf, product, counted), RowFor(cat, product, counted))
  {
    var mine := Group(ProductOf, product, counted);
    var a := ProductAggregateOf(cat.sqlOrder, product, mine);
    LatestMeans(mine);
    LeastMeans(cat.sqlOrder, CodeOf, mine);
    forall v
      ensures a.spec == Some(v) <==> Stated(SpecOf, mine) == {v}
    {
      OneSpecification(cat.sqlOrder, product, mine, v);
    }
  }

  /** One more product name adds its row at the end. */
  lemma RowsNext(cat: Catalogue, products: seq<Option<string>>, k: Option<string>, counted: seq<Line>)
    ensures ProductRows(cat, ProductAggregates(cat.sqlOrder, products + [k], counted)) ==
            ProductRows(cat, ProductAggregates(cat.sqlOrder, products, counted)) + [RowFor(cat, k, counted)]
  {
    assert (products + [k])[..|products|] == products;
    ProductRowsAppend(cat, ProductAggregates(cat.sqlOrder, products, counted),
                      ProductAggregateOf(cat.sqlOrder, k, Group(ProductOf, k, counted)));
  }

  lemma MapNext<A, B>(f: A -> B, xs: seq<A>, x: A)
    ensures Map(f, xs + [x]) == Map(f, xs) + [f(x)]
  {
    MapAppend(f, xs, [x]);
    assert Map(f, [x]) == [f(x)] + Map(f, []);
  }

  lemma {:induction false} RowsAreMapped(cat: Catalogue, products: seq<Option<string>>, counted: seq<Line>)
    ensures ProductRows(cat, ProductAggregates(cat.sqlOrder, products, counted)) == Map((k: Option<string>) => RowFor(cat, k, counted), products)
  {
    if products != [] {
      var init, k := products[..|products| - 1], products[|products| - 1];
      assert products == init + [k];
      RowsAreMapped(cat, init, counted);
      RowsNext(cat, init, k, counted);
      MapNext((j: Option<string>) => RowFor(cat, j, counted), init, k);
    }
  }

  lemma ShapeKeepsRows(cat: Catalogue, rows: seq<ProductAggregate>, p: Product)
    ensures p in Shape(cat, rows).products <==> p in ProductRows(cat, rows)
  {
    var products := ProductRows(cat, rows);
    SortKeepsElements(products, ProductOrder(cat.collate));
    SameMembers(Sort(products, ProductOrder(cat.collate)), products);
  }

  lemma RowsOfKeys(cat: Catalogue, ks: seq<Option<string>>, counted: seq<Line>, p: Product)
    ensures p in ProductRows(cat, ProductAggregates(cat.sqlOrder, ks, counted)) <==> exists k :: k in ks && p == RowFor(cat, k, counted)
  {
    var f := (k: Option<string>) => RowFor(cat, k, counted);
    RowsAreMapped(cat, ks, counted);
    InMap(f, ks, p);
    assert forall k :: f(k) == RowFor(cat, k, counted);
  }

  /** The products of a balance are the rows of the product names among its lines, and nothing else. */
  lemma ProductsAreRows(cat: Catalogue, lines: seq<Line>, ids: set<string>, range: DateRange, p: Product)
    ensures var counted := Counted(lines, ids, range);
            p in Shape(cat, ByProduct(cat.sqlOrder, lines, ids, range)).products <==>
            exists k :: k in Keys(ProductOf, counted) && p == RowFor(cat, k, counted)
  {
    var counted := Counted(lines, ids, range);
    ShapeKeepsRows(cat, ByProduct(cat.sqlOrder, lines, ids, range), p);
    RowsOfKeys(cat, Keys(ProductOf, counted), counted, p);
    assert ByProduct(cat.sqlOrder, lines, ids, range) == ProductAggregates(cat.sqlOrder, Keys(ProductOf, counted), counted);
  }

  /** A row of some product name among the counted lines. */
  ghost predicate IsRow(cat: Catalogue, counted: seq<Line>, p: Product) {
    exists k :: Group(ProductOf, k, counted) != [] && States(cat, k, Group(ProductOf, k, counted), p)
  }

  lemma RowOfKey(cat: Catalogue, counted: seq<Line>, k: Option<string>)
    requires TotalPreorder(cat.sqlOrder) && k in Keys(ProductOf, counted)
    ensures States(cat, k, Group(ProductOf, k, counted), RowFor(cat, k, counted)) && IsRow(cat, counted, RowFor(cat, k, counted))
  {
    var i := ElementOfKey(ProductOf, counted, k);
    GroupMembers(ProductOf, k, counted);
    assert counted[i] in Group(ProductOf, k, counted);
    RowStates(cat, k, counted);
  }

  /** Every product row of a balance states the figures and columns of the lines of one product name. */
  lemma ProductStates(cat: Catalogue, lines: seq<Line>, ids: set<string>, range: DateRange, p: Product)
    requires TotalPreorder(cat.sqlOrder)
    requires p in Shape(cat, ByProduct(cat.sqlOrder, lines, ids, range)).products
    ensures IsRow(cat, Counted(lines, ids, range), p)
  {
    var counted := Counted(lines, ids, range);
    ProductsAreRows(cat, lines, ids, range, p);
    var k :| k in Keys(ProductOf, counted) && p == RowFor(cat, k, counted);
    RowOfKey(cat, counted, k);
  }

  /** And every counted line is in the row of its product name. */
  lemma LineIsInRow(cat: Catalogue, lines: seq<Line>, ids: set<string>, range: DateRange, l: Line)
    requires TotalPreorder(cat.sqlOrder) && l in Counted(lines, ids, range)
    ensures var mine := Group(ProductOf, l.product, Counted(lines, ids, range));
            l in mine && exists p :: p in Shape(cat, ByProduct(cat.sqlOrder, lines, ids, range)).products && States(cat, l.product, mine, p)
  {
    var counted := Counted(lines, ids, range);
    var i :| 0 <= i < |counted| && counted[i] == l;
    KeyOfElement(ProductOf, counted, i);
    GroupMembers(ProductOf, l.product, counted);
    RowOfKey(cat, counted, l.product);
    ProductsAreRows(cat, lines, ids, range, RowFor(cat, l.product, counted));
  }

  // ---------------------------------------------------------------- the order of the feed

  lemma SameStated(column: Line -> Option<string>, xs: seq<Line>, ys: seq<Line>)
    requires multiset(xs) == multiset(ys)
    ensures Stated(column, xs) == Stated(column, ys)
  {
    SameMembers(xs, ys);
  }

  lemma SameLeast(order: TextOrder, column: Line -> Option<string>, xs: seq<Line>, ys: seq<Line>)
    requires TotalOrder(order) && multiset(xs) == multiset(ys)
    ensures Least(order, column, xs) == Least(order, column, ys)
  {
    SameStated(column, xs, ys);
    LeastMeans(order, column, xs);
    LeastMeans(order, column, ys);
  }

  lemma SameLatest(xs: seq<Line>, ys: seq<Line>)
    requires multiset(xs) == multiset(ys)
    ensures Latest(xs) == Latest(ys)
  {
    SameMembers(xs, ys);
    SameLength(xs, ys);
    if xs != [] {
      LatestMeans(xs);
      LatestMeans(ys);
    }
  }

  /** The row of a product is decided by its lines, in whatever order. */
  lemma SameRow(cat: Catalogue, product: Option<string>, xs: seq<Line>, ys: seq<Line>)
    requires TotalOrder(cat.sqlOrder) && multiset(xs) == multiset(ys)
    ensures RowFor(cat, product, xs) == RowFor(cat, product, ys)
  {
    var mine, other := Group(ProductOf, product, xs), Group(ProductOf, product, ys);
    GroupPermutes(ProductOf, product, xs, ys);
    SameLeast(cat.sqlOrder, CodeOf, mine, other);
    SameLeast(cat.sqlOrder, SpecOf, mine, other);
    SameStated(SpecOf, mine, other);
    SameLatest(mine, other);
    SumIgnoresOrder(Ordered, mine, other);
    SumIgnoresOrder(Delivered, mine, other);
  }

  lemma {:induction false} CountedCount(lines: seq<Line>, ids: set<string>, range: DateRange, l: Line)
    ensures multiset(Counted(lines, ids, range))[l] == if Counts(l, ids, range) then multiset(lines)[l] else 0
  {
    if lines != [] {
      CountedCount(lines[..|lines| - 1], ids, range, l);
      assert lines == lines[..|lines| - 1] + [lines[|lines| - 1]];
    }
  }

  lemma CountedPermutes(xs: seq<Line>, ys: seq<Line>, ids: set<string>, range: DateRange)
    requires multiset(xs) == multiset(ys)
    ensures multiset(Counted(xs, ids, range)) == multiset(Counted(ys, ids, range))
  {
    forall l
      ensures multiset(Counted(xs, ids, range))[l] == multiset(Counted(ys, ids, range))[l]
    {
      CountedCount(xs, ids, range, l);
      CountedCount(ys, ids, range, l);
    }
    assert multiset(Counted(xs, ids, range)) == multiset(Counted(ys, ids, range));
  }

  /** The rows before they are sorted for the screen: the same ones. */
  lemma RowsPermute(cat: Catalogue, xs: seq<Line>, ys: seq<Line>, ids: set<string>, range: DateRange)
    requires TotalOrder(cat.sqlOrder) && multiset(xs) == multiset(ys)
    ensures multiset(ProductRows(cat, ByProduct(cat.sqlOrder, xs, ids, range))) ==
            multiset(ProductRows(cat, ByProduct(cat.sqlOrder, ys, ids, range)))
  {
    var us, vs := Counted(xs, ids, range), Counted(ys, ids, range);
    var f, g := (k: Option<string>) => RowFor(cat, k, us), (k: Option<string>) => RowFor(cat, k, vs);
    CountedPermutes(xs, ys, ids, range);
    KeysPermute(ProductOf, us, vs);
    RowsAreMapped(cat, Keys(ProductOf, us), us);
    RowsAreMapped(cat, Keys(ProductOf, vs), vs);
    forall k
      ensures f(k) == g(k)
    {
      SameRow(cat, k, us, vs);
    }
    SameMap(f, g, Keys(ProductOf, us));
    MapPermutes(g, Keys(ProductOf, us), Keys(ProductOf, vs));
  }

  lemma ListingIsTotal(collate: TextOrder)
    requires TotalPreorder(collate)
    ensures TotalPreorder(ProductOrder(collate))
  {
  }

  /** A balance lists its products by what is left to collect, most first, and equal amounts by name. */
  lemma ListedMostFirst(cat: Catalogue, rows: seq<ProductAggregate>)
    requires TotalPreorder(cat.collate)
    ensures Sorted(Shape(cat, rows).products, ProductOrder(cat.collate))
    ensures var ps := Shape(cat, rows).products;
            forall i, j :: 0 <= i < j < |ps| ==>
              ps[i].remaining >= ps[j].remaining && (ps[i].remaining == ps[j].remaining ==> cat.collate(ps[i].name, ps[j].name))
  {
    ListingIsTotal(cat.collate);
    SortSorts(ProductRows(cat, rows), ProductOrder(cat.collate));
  }

  /**
   * Lines without a product name next to lines of a product called what such
   * lines are shown as, with two different rows and as much left to collect.
   */
  ghost predicate RowsTie(cat: Catalogue, counted: seq<Line>) {
    var p, q := RowFor(cat, None, counted), RowFor(cat, Some("Unspecified"), counted);
    (exists l :: l in counted && l.product == None) && (exists l :: l in counted && l.product == Some("Unspecified")) &&
    p != q && p.remaining == q.remaining
  }

  /** Without such a tie no two rows are listed at one place. */
  lemma NoTies(cat: Catalogue, lines: seq<Line>, ids: set<string>, range: DateRange, p: Product, q: Product)
    requires !RowsTie(cat, Counted(lines, ids, range))
    requires var products := Shape(cat, ByProduct(cat.sqlOrder, lines, ids, range)).products; p in products && q in products
    requires p.name == q.name && p.remaining == q.remaining
    ensures p == q
  {
    var counted := Counted(lines, ids, range);
    ProductsAreRows(cat, lines, ids, range, p);
    ProductsAreRows(cat, lines, ids, range, q);
    var k :| k in Keys(ProductOf, counted) && p == RowFor(cat, k, counted);
    var h :| h in Keys(ProductOf, counted) && q == RowFor(cat, h, counted);
    var i := ElementOfKey(ProductOf, counted, k);
    var j := ElementOfKey(ProductOf, counted, h);
    assert counted[i] in counted && counted[j] in counted;
    if p != q {
      assert RowsTie(cat, counted);
    }
  }

  /** The feed's row order decides no figure and no product row; nor where the rows are listed, if none tie. */
  lemma BalanceIgnoresLineOrder(cat: Catalogue, xs: seq<Line>, ys: seq<Line>, ids: set<string>, range: DateRange)
    requires TotalOrder(cat.sqlOrder) && TotalOrder(cat.collate) && multiset(xs) == multiset(ys)
    ensures var b, c := Shape(cat, ByProduct(cat.sqlOrder, xs, ids, range)), Shape(cat, ByProduct(cat.sqlOrder, ys, ids, range));
            b.purchased == c.purchased && b.loaded == c.loaded && b.remaining == c.remaining &&
            multiset(b.products) == multiset(c.products) && (!RowsTie(cat, Counted(xs, ids, range)) ==> b == c)
  {
    var us, vs := ByProduct(cat.sqlOrder, xs, ids, range), ByProduct(cat.sqlOrder, ys, ids, range);
    var b, c := Shape(cat, us), Shape(cat, vs);
    RowsPermute(cat, xs, ys, ids, range);
    SumIgnoresOrder(Paid, ProductRows(cat, us), ProductRows(cat, vs));
    SumIgnoresOrder(Loaded, ProductRows(cat, us), ProductRows(cat, vs));
    SortKeepsElements(ProductRows(cat, us), ProductOrder(cat.collate));
    SortKeepsElements(ProductRows(cat, vs), ProductOrder(cat.collate));
    if !RowsTie(cat, Counted(xs, ids, range)) {
      ListedMostFirst(cat, us);
      ListedMostFirst(cat, vs);
      forall p, q | p in b.products && q in b.products && ListedBefore(cat.collate, p, q) && ListedBefore(cat.collate, q, p)
        ensures p == q
      {
        NoTies(cat, xs, ids, range, p, q);
      }
      SortedIsUnique(b.products, c.products, ProductOrder(cat.collate));
    }
  }

  // ---------------------------------------------------------------- two rows that tie

  /** The first element this one is listed no later than. */
  function FirstNotBefore<T>(x: T, xs: seq<T>, le: (T, T) -> bool): Option<T> {
    if xs == [] then None else if le(x, xs[0]) then Some(xs[0]) else FirstNotBefore(x, xs[1..], le)
  }

  lemma {:induction false} InsertedFirst<T>(x: T, xs: seq<T>, le: (T, T) -> bool)
    requires le(x, x)
    ensures FirstNotBefore(x, Insert(x, xs, le), le) == Some(x)
  {
    if xs != [] && !le(x, xs[0]) {
      InsertedFirst(x, xs[1..], le);
    }
  }

  lemma {:induction false} SameFirst<T>(x: T, y: T, xs: seq<T>, le: (T, T) -> bool)
    requires forall z :: z in xs ==> (le(x, z) <==> le(y, z))
    ensures FirstNotBefore(x, xs, le) == FirstNotBefore(y, xs, le)
  {
    if xs != [] {
      SameFirst(x, y, xs[1..], le);
    }
  }

  lemma {:induction false} CountedFirst(l: Line, rest: seq<Line>, ids: set<string>, range: DateRange)
    requires Counts(l, ids, range)
    ensures Counted([l] + rest, ids, range) != [] && Counted([l] + rest, ids, range)[0] == l
  {
    if rest == [] {
      assert [l] + rest == [l] && [l][..0] == [];
      assert [] + [l] == [l];
    } else {
      assert ([l] + rest)[..|rest|] == [l] + rest[..|rest| - 1];
      CountedFirst(l, rest[..|rest| - 1], ids, range);
    }
  }

  lemma {:induction false} FirstKey(lines: seq<Line>)
    requires lines != []
    ensures Keys(ProductOf, lines) != [] && Keys(ProductOf, lines)[0] == lines[0].product
  {
    if |lines| > 1 {
      FirstKey(lines[..|lines| - 1]);
    }
  }

  /** The feed with this line read first. */
  function ReadFirst(lines: seq<Line>, i: nat): seq<Line>
    requires i < |lines|
  {
    [lines[i]] + (lines[..i] + lines[i + 1..])
  }

  lemma ReadFirstPermutes(lines: seq<Line>, i: nat)
    requires i < |lines|
    ensures multiset(ReadFirst(lines, i)) == multiset(lines)
  {
    SplitAround(lines, i);
  }

  /** Where a line is read first, its product's row comes before any it ties with. */
  lemma ReadFirstListedFirst(cat: Catalogue, lines: seq<Line>, ids: set<string>, range: DateRange, i: nat)
    requires TotalOrder(cat.sqlOrder) && TotalOrder(cat.collate) && i < |lines| && Counts(lines[i], ids, range)
    ensures var p := RowFor(cat, lines[i].product, Counted(lines, ids, range));
            FirstNotBefore(p, Shape(cat, ByProduct(cat.sqlOrder, ReadFirst(lines, i), ids, range)).products, ProductOrder(cat.collate)) == Some(p)
  {
    var read, l := ReadFirst(lines, i), lines[i];
    var counted := Counted(read, ids, range);
    ReadFirstPermutes(lines, i);
    CountedFirst(l, lines[..i] + lines[i + 1..], ids, range);
    FirstKey(counted);
    RowsAreMapped(cat, Keys(ProductOf, counted), counted);
    CountedPermutes(lines, read, ids, range);
    SameRow(cat, l.product, Counted(lines, ids, range), counted);
    var p := RowFor(cat, l.product, counted);
    var rows := ProductRows(cat, ByProduct(cat.sqlOrder, read, ids, range));
    assert rows[0] == p;
    InsertedFirst(p, Sort(rows[1..], ProductOrder(cat.collate)), ProductOrder(cat.collate));
  }

  /** Of two different rows that tie, the lists that start their tie with one and with the other differ. */
  lemma TiedListsDiffer(collate: TextOrder, p: Product, q: Product, xs: seq<Product>, ys: seq<Product>)
    requires p != q && p.name == q.name && p.remaining == q.remaining
    requires FirstNotBefore(p, xs, ProductOrder(collate)) == Some(p) && FirstNotBefore(q, ys, ProductOrder(collate)) == Some(q)
    ensures xs != ys
  {
    SameFirst(p, q, xs, ProductOrder(collate));
  }

  /** Two rows that tie are listed either way round, by which of their lines is read first. */
  lemma TiedRowsSwap(cat: Catalogue, xs: seq<Line>, ids: set<string>, range: DateRange)
    requires TotalOrder(cat.sqlOrder) && TotalOrder(cat.collate) && RowsTie(cat, Counted(xs, ids, range))
    ensures exists ys ::
              multiset(ys) == multiset(xs) &&
              Shape(cat, ByProduct(cat.sqlOrder, ys, ids, range)) != Shape(cat, ByProduct(cat.sqlOrder, xs, ids, range))
  {
    var counted := Counted(xs, ids, range);
    var l :| l in counted && l.product == None;
    var m :| m in counted && m.product == Some("Unspecified");
    CountedMembers(xs, ids, range);
    var i :| 0 <= i < |xs| && xs[i] == l;
    var j :| 0 <= j < |xs| && xs[j] == m;
    ReadFirstPermutes(xs, i);
    ReadFirstPermutes(xs, j);
    ReadFirstListedFirst(cat, xs, ids, range, i);
    ReadFirstListedFirst(cat, xs, ids, range, j);
    TiedListsDiffer(
      cat.collate, RowFor(cat, None, counted), RowFor(cat, Some("Unspecified"), counted),
      Shape(cat, ByProduct(cat.sqlOrder, ReadFirst(xs, i), ids, range)).products,
      Shape(cat, ByProduct(cat.sqlOrder, ReadFirst(xs, j), ids, range)).products);
  }

  /**
   * When the feed's row order can show: a balance is the same under every order
   * of the feed exactly when its nameless lines' row does not tie with another
   * row under the name they are given.
   */
  lemma LineOrderShowsIff(cat: Catalogue, xs: seq<Line>, ids: set<string>, range: DateRange)
    requires TotalOrder(cat.sqlOrder) && TotalOrder(cat.collate)
    ensures (forall ys :: multiset(ys) == multiset(xs) ==>
               Shape(cat, ByProduct(cat.sqlOrder, ys, ids, range)) == Shape(cat, ByProduct(cat.sqlOrder, xs, ids, range))) <==>
            !RowsTie(cat, Counted(xs, ids, range))
  {
    if RowsTie(cat, Counted(xs, ids, range)) {
      TiedRowsSwap(cat, xs, ids, range);
    } else {
      forall ys | multiset(ys) == multiset(xs)
        ensures Shape(cat, ByProduct(cat.sqlOrder, ys, ids, range)) == Shape(cat, ByProduct(cat.sqlOrder, xs, ids, range))
      {
        BalanceIgnoresLineOrder(cat, xs, ys, ids, range);
      }
    }
  }
}
