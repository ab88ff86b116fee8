/** Repeated order lines for one product, collapsed into one. */
module LineMerging {
  import opened Option
  import opened Grouping
  import opened Reals

  /** Null money is money not stated, which is not zero. */
  datatype OrderLine = OrderLine(
    id: string, productName: string, itemCode: Option<string>, quantity: real, unitPrice: Option<real>, lineTotal: Option<real>)

  /** A missing code and an empty one alike fall back to the product name. */
  function KeyOf(line: OrderLine): string {
    if line.itemCode.Some? && line.itemCode.value != "" then "code:" + line.itemCode.value else "name:" + line.productName
  }

  function Quantity(line: OrderLine): real {
    line.quantity
  }

  function AmountOrZero(line: OrderLine): real {
    line.lineTotal.GetOr(0.0)
  }

  /** `Math.round(x * 100) / 100`. */
  function Round2(x: real): real {
    Round(x * 100.0) / 100.0
  }

  // ---------------------------------------------------------------- specification

  function TotalAmount(parts: seq<OrderLine>): Option<real> {
    if parts == [] then None
    else
      var rest, last := TotalAmount(parts[..|parts| - 1]), parts[|parts| - 1].lineTotal;
      if last.None? then rest else Some(rest.GetOr(0.0) + last.value)
  }

  function Prices(parts: seq<OrderLine>): set<Option<real>> {
    set p | p in parts :: p.unitPrice
  }

  predicate PricesAgree(parts: seq<OrderLine>) {
    forall p, q :: p in parts && q in parts ==> p.unitPrice == q.unitPrice
  }

  /** The price of a merged line whose parts disagree. */
  function EffectivePrice(quantity: real, amount: Option<real>): Option<real> {
    if amount.Some? && quantity > 0.0 then Some(Round2(amount.value / quantity)) else None
  }

  /** One group's line: the first part's identity, the parts' summed quantity and money. */
  function Summary(parts: seq<OrderLine>): OrderLine
    requires parts != []
  {
    var quantity, amount := SumOf(Quantity, parts), TotalAmount(parts);
    var price := if PricesAgree(parts) then parts[0].unitPrice else EffectivePrice(quantity, amount);
    parts[0].(quantity := quantity, lineTotal := amount, unitPrice := price)
  }

  function SummariesOf(ks: seq<string>, lines: seq<OrderLine>): seq<OrderLine>
    requires forall k :: k in ks ==> Group(KeyOf, k, lines) != []
  {
    if ks == [] then []
    else SummariesOf(ks[..|ks| - 1], lines) + [Summary(Group(KeyOf, ks[|ks| - 1], lines))]
  }

  lemma GroupsAreInhabited(lines: seq<OrderLine>)
    ensures forall k :: k in Keys(KeyOf, lines) ==> Group(KeyOf, k, lines) != []
  {
    forall k | k in Keys(KeyOf, lines)
      ensures Group(KeyOf, k, lines) != []
    {
      var i := ElementOfKey(KeyOf, lines, k);
      GroupMembers(KeyOf, k, lines);
      assert lines[i] in Group(KeyOf, k, lines);
    }
  }

  function Merged(lines: seq<OrderLine>): seq<OrderLine> {
    GroupsAreInhabited(lines);
    SummariesOf(Keys(KeyOf, lines), lines)
  }

  // ---------------------------------------------------------------- the loop

  /** What the map holds for a key: the line so far, under its first part's price, and every price seen. */
  ghost predicate Holds(seen: OrderLine, prices: set<Option<real>>, parts: seq<OrderLine>) {
    parts != [] && prices == Prices(parts) &&
    seen == parts[0].(quantity := SumOf(Quantity, parts), lineTotal := TotalAmount(parts))
  }

  lemma HoldsFirst(line: OrderLine)
    ensures Holds(line, {line.unitPrice}, [line])
  {
    assert [line][..0] == [];
    assert SumOf(Quantity, [line]) == 0.0 + line.quantity;
    assert TotalAmount([line]) == line.lineTotal;
  }

  lemma HoldsNext(seen: OrderLine, prices: set<Option<real>>, parts: seq<OrderLine>, line: OrderLine)
    requires Holds(seen, prices, parts)
    ensures Holds(seen.(quantity := seen.quantity + line.quantity,
                        lineTotal := if line.lineTotal.Some? then Some(seen.lineTotal.GetOr(0.0) + line.lineTotal.value) else seen.lineTotal),
                  prices + {line.unitPrice}, parts + [line])
  {
    SumOfAppend(Quantity, parts, line);
    assert (parts + [line])[..|parts|] == parts;
    assert Prices(parts + [line]) == Prices(parts) + {line.unitPrice};
  }

  lemma OnePriceMeansAgreement(parts: seq<OrderLine>)
    requires parts != []
    ensures |Prices(parts)| == 1 <==> PricesAgree(parts)
  {
    var p := parts[0].unitPrice;
    assert p in Prices(parts);
    if PricesAgree(parts) {
      assert Prices(parts) == {p};
    } else {
      var a, b :| a in parts && b in parts && a.unitPrice != b.unitPrice;
      assert {a.unitPrice, b.unitPrice} <= Prices(parts);
      assert b.unitPrice in Prices(parts) - {a.unitPrice};
      assert |Prices(parts)| == |Prices(parts) - {a.unitPrice}| + 1;
    }
  }

  datatype Entry = Entry(line: OrderLine, prices: set<Option<real>>)

  ghost predicate HoldsGroup(e: Entry, k: string, lines: seq<OrderLine>) {
    Holds(e.line, e.prices, Group(KeyOf, k, lines))
  }

  /** An insertion-ordered map over a prefix of the lines: its keys in order, and what each one holds. */
  ghost predicate Tracks(order: seq<string>, merged: map<string, Entry>, lines: seq<OrderLine>) {
    order == Keys(KeyOf, lines) &&
    (forall k :: k in order <==> k in merged) &&
    forall k :: k in merged ==> HoldsGroup(merged[k], k, lines)
  }

  /** What a line adds to the entry already held for its key. */
  function Added(seen: Entry, line: OrderLine): Entry {
    var total := if line.lineTotal.Some? then Some(seen.line.lineTotal.GetOr(0.0) + line.lineTotal.value) else seen.line.lineTotal;
    Entry(seen.line.(quantity := seen.line.quantity + line.quantity, lineTotal := total), seen.prices + {line.unitPrice})
  }

  /** A line of another key leaves a group alone. */
  lemma OtherGroupHeld(e: Entry, k: string, lines: seq<OrderLine>, line: OrderLine)
    requires HoldsGroup(e, k, lines) && KeyOf(line) != k
    ensures HoldsGroup(e, k, lines + [line])
  {
    GroupAppend(KeyOf, k, lines, line);
  }

  lemma OwnGroupHeld(e: Entry, lines: seq<OrderLine>, line: OrderLine)
    requires HoldsGroup(e, KeyOf(line), lines)
    ensures HoldsGroup(Added(e, line), KeyOf(line), lines + [line])
  {
    GroupAppend(KeyOf, KeyOf(line), lines, line);
    HoldsNext(e.line, e.prices, Group(KeyOf, KeyOf(line), lines), line);
  }

  lemma NewGroupHeld(lines: seq<OrderLine>, line: OrderLine)
    requires KeyOf(line) !in Keys(KeyOf, lines)
    ensures HoldsGroup(Entry(line, {line.unitPrice}), KeyOf(line), lines + [line])
  {
    GroupAppend(KeyOf, KeyOf(line), lines, line);
    NoSuchGroup(KeyOf, KeyOf(line), lines);
    HoldsFirst(line);
    assert [] + [line] == [line];
  }

  lemma TracksSeen(order: seq<string>, merged: map<string, Entry>, lines: seq<OrderLine>, line: OrderLine)
    requires Tracks(order, merged, lines) && KeyOf(line) in merged
    ensures Tracks(order, merged[KeyOf(line) := Added(merged[KeyOf(line)], line)], lines + [line])
  {
    var key := KeyOf(line);
    KeysAppend(KeyOf, lines, line);
    OwnGroupHeld(merged[key], lines, line);
    OthersHeld(merged, lines, line);
  }

  lemma TracksNew(order: seq<string>, merged: map<string, Entry>, lines: seq<OrderLine>, line: OrderLine)
    requires Tracks(order, merged, lines) && KeyOf(line) !in merged
    ensures Tracks(order + [KeyOf(line)], merged[KeyOf(line) := Entry(line, {line.unitPrice})], lines + [line])
  {
    KeysAppend(KeyOf, lines, line);
    NewGroupHeld(lines, line);
    OthersHeld(merged, lines, line);
  }

  lemma OthersHeld(merged: map<string, Entry>, lines: seq<OrderLine>, line: OrderLine)
    requires forall k :: k in merged ==> HoldsGroup(merged[k], k, lines)
    ensures forall k :: k in merged && k != KeyOf(line) ==> HoldsGroup(merged[k], k, lines + [line])
  {
    forall k | k in merged && k != KeyOf(line)
      ensures HoldsGroup(merged[k], k, lines + [line])
    {
      OtherGroupHeld(merged[k], k, lines, line);
    }
  }

  method MergeLinesByProduct(lines: seq<OrderLine>) returns (out: seq<OrderLine>)
    ensures out == Merged(lines)
  {
    var order: seq<string> := [];
    var merged: map<string, Entry> := map[];
    for i := 0 to |lines|
      invariant Tracks(order, merged, lines[..i])
    {
      var line := lines[i];
      var key := KeyOf(line);
      assert lines[..i + 1] == lines[..i] + [line];
      if key !in merged {
        TracksNew(order, merged, lines[..i], line);
        order := order + [key];
        merged := merged[key := Entry(line, {line.unitPrice})];
      } else {
        TracksSeen(order, merged, lines[..i], line);
        merged := merged[key := Added(merged[key], line)];
      }
    }
    assert lines[..|lines|] == lines;
    out := Finish(order, merged, lines);
  }

  /** The price settled once all the prices of a line are known. */
  function Settled(e: Entry): OrderLine {
    if |e.prices| == 1 then e.line else e.line.(unitPrice := EffectivePrice(e.line.quantity, e.line.lineTotal))
  }

  lemma SettledIsSummary(e: Entry, k: string, lines: seq<OrderLine>)
    requires HoldsGroup(e, k, lines)
    ensures Group(KeyOf, k, lines) != [] && Settled(e) == Summary(Group(KeyOf, k, lines))
  {
    OnePriceMeansAgreement(Group(KeyOf, k, lines));
  }

  lemma SummariesAppend(ks: seq<string>, k: string, lines: seq<OrderLine>)
    requires forall q :: q in ks + [k] ==> Group(KeyOf, q, lines) != []
    ensures k in ks + [k] && forall q :: q in ks ==> q in ks + [k]
    ensures SummariesOf(ks + [k], lines) == SummariesOf(ks, lines) + [Summary(Group(KeyOf, k, lines))]
  {
    assert (ks + [k])[|ks|] == k;
    assert (ks + [k])[..|ks|] == ks;
  }

  /** The final `map` over the values, which settles each line's price. */
  method Finish(order: seq<string>, merged: map<string, Entry>, ghost lines: seq<OrderLine>) returns (out: seq<OrderLine>)
    requires Tracks(order, merged, lines)
    ensures out == Merged(lines)
  {
    GroupsAreInhabited(lines);
    out := [];
    for i := 0 to |order|
      invariant out == SummariesOf(order[..i], lines)
    {
      assert order[..i + 1] == order[..i] + [order[i]];
      SettledIsSummary(merged[order[i]], order[i], lines);
      SummariesAppend(order[..i], order[i], lines);
      var line := merged[order[i]].line;
      if |merged[order[i]].prices| != 1 {
        line := line.(unitPrice := EffectivePrice(line.quantity, line.lineTotal));
      }
      out := out + [line];
    }
    assert order[..|order|] == order;
  }

  // ---------------------------------------------------------------- laws

  lemma {:induction false} SummaryAt(ks: seq<string>, lines: seq<OrderLine>, i: nat)
    requires forall k :: k in ks ==> Group(KeyOf, k, lines) != []
    ensures |SummariesOf(ks, lines)| == |ks|
    ensures i < |ks| ==> SummariesOf(ks, lines)[i] == Summary(Group(KeyOf, ks[i], lines))
  {
    if ks != [] {
      SummaryAt(ks[..|ks| - 1], lines, i);
    }
  }

  /** A merged line keeps the key its parts were merged on. */
  lemma SummaryKeepsKey(k: string, lines: seq<OrderLine>)
    requires Group(KeyOf, k, lines) != []
    ensures KeyOf(Summary(Group(KeyOf, k, lines))) == k
  {
    GroupMembers(KeyOf, k, lines);
    assert Group(KeyOf, k, lines)[0] in Group(KeyOf, k, lines);
  }

  /** One line per product, in the order the products first appear, each summarising exactly its own lines. */
  lemma OneLinePerKey(lines: seq<OrderLine>)
    ensures var out, ks := Merged(lines), Keys(KeyOf, lines);
            |out| == |ks| && Distinct(ks) &&
            forall i :: 0 <= i < |ks| ==>
              KeyOf(out[i]) == ks[i] && Group(KeyOf, ks[i], lines) != [] && out[i] == Summary(Group(KeyOf, ks[i], lines))
  {
    GroupsAreInhabited(lines);
    KeysAreDistinct(KeyOf, lines);
    SummaryAt(Keys(KeyOf, lines), lines, 0);
    forall i | 0 <= i < |Keys(KeyOf, lines)|
      ensures KeyOf(Merged(lines)[i]) == Keys(KeyOf, lines)[i] && Merged(lines)[i] == Summary(Group(KeyOf, Keys(KeyOf, lines)[i], lines))
    {
      SummaryAt(Keys(KeyOf, lines), lines, i);
      SummaryKeepsKey(Keys(KeyOf, lines)[i], lines);
    }
  }

  lemma {:induction false} TotalAmountIsSum(parts: seq<OrderLine>)
    ensures TotalAmount(parts).GetOr(0.0) == SumOf(AmountOrZero, parts)
    ensures TotalAmount(parts).None? <==> forall p :: p in parts ==> p.lineTotal.None?
  {
    if parts != [] {
      TotalAmountIsSum(parts[..|parts| - 1]);
      assert parts == parts[..|parts| - 1] + [parts[|parts| - 1]];
    }
  }

  lemma {:induction false} SummariesSum(ks: seq<string>, lines: seq<OrderLine>)
    requires forall k :: k in ks ==> Group(KeyOf, k, lines) != []
    ensures SumOf(Quantity, SummariesOf(ks, lines)) == GroupSums(Quantity, KeyOf, ks, lines)
    ensures SumOf(AmountOrZero, SummariesOf(ks, lines)) == GroupSums(AmountOrZero, KeyOf, ks, lines)
  {
    if ks != [] {
      var init, k := ks[..|ks| - 1], ks[|ks| - 1];
      SummariesSum(init, lines);
      var parts := Group(KeyOf, k, lines);
      SumOfAppend(Quantity, SummariesOf(init, lines), Summary(parts));
      SumOfAppend(AmountOrZero, SummariesOf(init, lines), Summary(parts));
      TotalAmountIsSum(parts);
    }
  }

  /** No carton and no naira is lost or counted twice. */
  lemma MergingConserves(lines: seq<OrderLine>)
    ensures SumOf(Quantity, Merged(lines)) == SumOf(Quantity, lines)
    ensures SumOf(AmountOrZero, Merged(lines)) == SumOf(AmountOrZero, lines)
  {
    GroupsAreInhabited(lines);
    SummariesSum(Keys(KeyOf, lines), lines);
    SumOverGroups(Quantity, KeyOf, lines);
    SumOverGroups(AmountOrZero, KeyOf, lines);
  }

  lemma Round2Error(x: real)
    ensures -0.005 < Round2(x) - x <= 0.005
  {
    RoundingError(x * 100.0);
  }

  /** A price off by at most half a kobo is off by at most half a kobo a carton over the line. */
  lemma ErrorOfPrice(price: real, rate: real, q: real)
    requires q > 0.0 && 0.0 < price - rate + 0.005 && price - rate <= 0.005
    ensures 0.0 < Times(price, q) - Times(rate, q) + Times(0.005, q)
    ensures Times(price, q) - Times(rate, q) <= Times(0.005, q)
  {
    var e := price - rate;
    TimesDifference(price, rate, q);
    TimesDifference(e, -0.005, q);
    TimesDifference(0.005, e, q);
    TimesDifference(0.0, 0.005, q);
    TimesPositive(e - -0.005, q);
    TimesPositive(0.005 - e, q);
  }

  /** Multiplying the effective price back lands within half a kobo a carton of the amount. */
  lemma EffectivePriceError(amount: real, q: real)
    requires q > 0.0
    ensures 0.0 < Times(Round2(amount / q), q) - amount + Times(0.005, q)
    ensures Times(Round2(amount / q), q) - amount <= Times(0.005, q)
  {
    Round2Error(amount / q);
    assert Times(amount / q, q) == amount;
    ErrorOfPrice(Round2(amount / q), amount / q, q);
  }

  /**
   * A merged line's money: null only where every part's is; the common price
   * where the parts agree; otherwise an effective price that multiplies back to
   * the amount within half a kobo a carton.
   */
  lemma MergedMoney(parts: seq<OrderLine>)
    requires parts != []
    ensures var line := Summary(parts);
            (line.lineTotal.None? <==> forall p :: p in parts ==> p.lineTotal.None?) &&
            (PricesAgree(parts) ==> forall p :: p in parts ==> line.unitPrice == p.unitPrice) &&
            (!PricesAgree(parts) && line.unitPrice.Some? ==>
               line.quantity > 0.0 && line.lineTotal.Some? &&
               -Times(0.005, line.quantity) < Times(line.unitPrice.value, line.quantity) - line.lineTotal.value <= Times(0.005, line.quantity)) &&
            (!PricesAgree(parts) && line.unitPrice.None? ==> line.quantity <= 0.0 || line.lineTotal.None?)
  {
    TotalAmountIsSum(parts);
    var line := Summary(parts);
    if !PricesAgree(parts) && line.unitPrice.Some? {
      EffectivePriceError(line.lineTotal.value, line.quantity);
    }
  }

  lemma SummaryOfOne(line: OrderLine)
    ensures Summary([line]) == line
  {
    HoldsFirst(line);
  }

  /** Merging again changes nothing. */
  lemma MergingIsIdempotent(lines: seq<OrderLine>)
    ensures Merged(Merged(lines)) == Merged(lines)
  {
    var out := Merged(lines);
    OneLinePerKey(lines);
    assert KeysDiffer(KeyOf, out);
    OneKeyEach(KeyOf, out);
    OneLinePerKey(out);
    forall i | 0 <= i < |out|
      ensures Merged(out)[i] == out[i]
    {
      SingletonGroup(KeyOf, out, i);
      SummaryOfOne(out[i]);
    }
  }

  // ---------------------------------------------------------------- on the lines' columns

  /** A line that carries an item code. */
  predicate IsCoded(l: OrderLine) {
    l.itemCode != None && l.itemCode != Some("")
  }

  /** Two lines are one product exactly where they carry one code, or neither carries any and they have one name. */
  lemma SameProductIff(a: OrderLine, b: OrderLine)
    ensures KeyOf(a) == KeyOf(b) <==>
            (IsCoded(a) && IsCoded(b) && a.itemCode == b.itemCode) || (!IsCoded(a) && !IsCoded(b) && a.productName == b.productName)
  {
    forall x: string, y: string
      ensures "code:" + x != "name:" + y
      ensures "code:" + x == "code:" + y ==> x == y
      ensures "name:" + x == "name:" + y ==> x == y
    {
      assert ("code:" + x)[0] == 'c' && ("name:" + y)[0] == 'n';
      assert ("code:" + x)[5..] == x && ("code:" + y)[5..] == y && ("name:" + x)[5..] == x && ("name:" + y)[5..] == y;
    }
  }

  /** The merged line of these parts: the first one's identity, their cartons and stated money, and the agreed or effective price. */
  ghost predicate IsMerged(out: OrderLine, parts: seq<OrderLine>)
    requires parts != []
  {
    out.id == parts[0].id && out.productName == parts[0].productName && out.itemCode == parts[0].itemCode &&
    out.quantity == SumOf((l: OrderLine) => l.quantity, parts) &&
    (if forall p :: p in parts ==> p.lineTotal == None then out.lineTotal == None
     else out.lineTotal == Some(SumOf((l: OrderLine) => if l.lineTotal.Some? then l.lineTotal.value else 0.0, parts))) &&
    if forall p, q :: p in parts && q in parts ==> p.unitPrice == q.unitPrice then out.unitPrice == parts[0].unitPrice
    else if out.lineTotal.Some? && out.quantity > 0.0 then
      out.unitPrice == Some(((out.lineTotal.value / out.quantity * 100.0 + 0.5).Floor as real) / 100.0)
    else out.unitPrice == None
  }

  lemma EffectivePriceIs(quantity: real, amount: Option<real>)
    ensures EffectivePrice(quantity, amount) ==
            if amount.Some? && quantity > 0.0 then Some(((amount.value / quantity * 100.0 + 0.5).Floor as real) / 100.0) else None
  {
  }

  lemma SummaryIsMerged(parts: seq<OrderLine>)
    requires parts != []
    ensures IsMerged(Summary(parts), parts)
  {
    TotalAmountIsSum(parts);
    EffectivePriceIs(SumOf(Quantity, parts), TotalAmount(parts));
    SameSum(Quantity, (l: OrderLine) => l.quantity, parts);
    SameSum(AmountOrZero, (l: OrderLine) => if l.lineTotal.Some? then l.lineTotal.value else 0.0, parts);
  }

  /** Every line of the merged list merges the lines of its own product, all of them and no other, in their order. */
  lemma MergedOnColumns(lines: seq<OrderLine>, i: nat)
    requires i < |Merged(lines)|
    ensures var out := Merged(lines)[i];
            var parts := Group(KeyOf, KeyOf(out), lines);
            parts != [] && IsMerged(out, parts) && forall l :: l in parts <==> l in lines && KeyOf(l) == KeyOf(out)
  {
    OneLinePerKey(lines);
    var k := Keys(KeyOf, lines)[i];
    GroupMembers(KeyOf, k, lines);
    SummaryIsMerged(Group(KeyOf, k, lines));
  }
}
