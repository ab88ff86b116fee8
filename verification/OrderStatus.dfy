/** Order status rolled up from the lines of the ERP sales-order feed. */
module OrderStatus {
  import opened Option
  import opened Grouping
  import opened Lists

  /** Only the first four are reachable from the feed. */
  datatype Status = PENDING | PROCESSING | DELIVERED | CLOSED | LOADED | DISPATCHED | SHIPPED | CANCELLED

  /** One order line, with blank quantities already read as zero. */
  datatype Line = Line(
    isSalesOrder: bool, docNo: string, approveStatus: Option<string>, close: Option<string>,
    ordered: real, delivered: real, changedAt: Option<int>)

  /** The aggregates of one order: bool_and, sum and max over its lines. */
  datatype Rollup = Rollup(approved: bool, closed: bool, ordered: real, delivered: real, changedAt: Option<int>)

  predicate Approved(l: Line) {
    l.approveStatus == Some("Y")
  }

  predicate Closed(l: Line) {
    l.close == Some("2")
  }

  function Latest(a: Option<int>, b: Option<int>): Option<int> {
    if a.None? then b else if b.None? then a else if a.value < b.value then b else a
  }

  // ---------------------------------------------------------------- the rollup

  const NO_LINES := Rollup(true, true, 0.0, 0.0, None)

  function OfLine(l: Line): Rollup {
    Rollup(Approved(l), Closed(l), l.ordered, l.delivered, l.changedAt)
  }

  function Combine(a: Rollup, b: Rollup): Rollup {
    Rollup(a.approved && b.approved, a.closed && b.closed, a.ordered + b.ordered, a.delivered + b.delivered, Latest(a.changedAt, b.changedAt))
  }

  function RollupOf(lines: seq<Line>): Rollup {
    if lines == [] then NO_LINES else Combine(OfLine(lines[0]), RollupOf(lines[1..]))
  }

  /** The rules, in precedence order. */
  function StatusOf(a: Rollup): Status {
    if !a.approved then PENDING
    else if a.closed then CLOSED
    else if a.ordered > 0.0 && a.delivered >= a.ordered then DELIVERED
    else PROCESSING
  }

  /** The feed's lines for one order. */
  function LinesOf(lines: seq<Line>, docNo: string): seq<Line> {
    if lines == [] then []
    else (if lines[0].isSalesOrder && lines[0].docNo == docNo then [lines[0]] else []) + LinesOf(lines[1..], docNo)
  }

  /** GROUP BY DOC_NO over the orders held: an order with no line has no group. */
  function Grouped(lines: seq<Line>, held: set<string>): map<string, Rollup> {
    if lines == [] then map[]
    else
      var rest, l := Grouped(lines[1..], held), lines[0];
      if l.isSalesOrder && l.docNo in held then
        rest[l.docNo := Combine(OfLine(l), if l.docNo in rest then rest[l.docNo] else NO_LINES)]
      else rest
  }

  // ---------------------------------------------------------------- laws of the rollup

  lemma CombineIsMonoid(a: Rollup, b: Rollup, c: Rollup)
    ensures Combine(a, Combine(b, c)) == Combine(Combine(a, b), c)
    ensures Combine(a, b) == Combine(b, a)
    ensures Combine(NO_LINES, a) == a == Combine(a, NO_LINES)
  {
  }

  /** Rolling up two batches of lines and combining is rolling up all of them. */
  lemma {:induction false} RollupIsHomomorphism(xs: seq<Line>, ys: seq<Line>)
    ensures RollupOf(xs + ys) == Combine(RollupOf(xs), RollupOf(ys))
  {
    if xs == [] {
      assert xs + ys == ys;
    } else {
      assert (xs + ys)[1..] == xs[1..] + ys;
      RollupIsHomomorphism(xs[1..], ys);
      CombineIsMonoid(OfLine(xs[0]), RollupOf(xs[1..]), RollupOf(ys));
    }
  }

  lemma CombineSwaps(a: Rollup, l: Rollup, b: Rollup)
    ensures Combine(a, Combine(l, b)) == Combine(l, Combine(a, b))
  {
    CombineIsMonoid(a, l, b);
    CombineIsMonoid(l, a, b);
  }

  lemma RollupOfMiddle(before: seq<Line>, l: Line, after: seq<Line>)
    ensures RollupOf(before + ([l] + after)) == Combine(OfLine(l), RollupOf(before + after))
  {
    RollupIsHomomorphism(before, [l] + after);
    RollupIsHomomorphism(before, after);
    assert ([l] + after)[1..] == after;
    CombineSwaps(RollupOf(before), OfLine(l), RollupOf(after));
  }

  /** A line may be met anywhere in the order without changing its rollup. */
  lemma RollupWithout(lines: seq<Line>, k: nat)
    requires k < |lines|
    ensures RollupOf(lines) == Combine(OfLine(lines[k]), RollupOf(lines[..k] + lines[k + 1..]))
  {
    SplitAround(lines, k);
    RollupOfMiddle(lines[..k], lines[k], lines[k + 1..]);
  }

  lemma {:induction false} RollupIgnoresLineOrder(xs: seq<Line>, ys: seq<Line>)
    requires multiset(xs) == multiset(ys)
    ensures RollupOf(xs) == RollupOf(ys)
  {
    SameLength(xs, ys);
    if xs != [] {
      var k, rest := HeadElsewhere(xs, ys);
      RollupIgnoresLineOrder(xs[1..], rest);
      RollupWithout(ys, k);
    }
  }

  lemma {:induction false} RollupMeans(lines: seq<Line>)
    ensures RollupOf(lines).approved <==> forall l :: l in lines ==> Approved(l)
    ensures RollupOf(lines).closed <==> forall l :: l in lines ==> Closed(l)
  {
    if lines != [] {
      RollupMeans(lines[1..]);
      assert lines == [lines[0]] + lines[1..];
    }
  }

  function TotalOrdered(lines: seq<Line>): real {
    if lines == [] then 0.0 else lines[0].ordered + TotalOrdered(lines[1..])
  }

  function TotalDelivered(lines: seq<Line>): real {
    if lines == [] then 0.0 else lines[0].delivered + TotalDelivered(lines[1..])
  }

  lemma {:induction false} RollupTotals(lines: seq<Line>)
    ensures RollupOf(lines).ordered == TotalOrdered(lines) && RollupOf(lines).delivered == TotalDelivered(lines)
    ensures RollupOf(lines).changedAt.Some? ==>
              (exists l :: l in lines && l.changedAt == RollupOf(lines).changedAt) &&
              forall l :: l in lines && l.changedAt.Some? ==> l.changedAt.value <= RollupOf(lines).changedAt.value
    ensures RollupOf(lines).changedAt.None? ==> forall l :: l in lines ==> l.changedAt.None?
  {
    if lines != [] {
      RollupTotals(lines[1..]);
      assert lines == [lines[0]] + lines[1..];
      if RollupOf(lines).changedAt.Some? {
        if RollupOf(lines).changedAt == lines[0].changedAt {
          assert lines[0] in lines;
        } else {
          var l :| l in lines[1..] && l.changedAt == RollupOf(lines[1..]).changedAt;
          assert l in lines;
        }
      }
    }
  }

  /** The published rules, read off the lines themselves. */
  lemma StatusMeans(lines: seq<Line>)
    ensures var s := StatusOf(RollupOf(lines));
            (s == PENDING <==> exists l :: l in lines && !Approved(l)) &&
            (s == CLOSED <==> forall l :: l in lines ==> Approved(l) && Closed(l)) &&
            (s == DELIVERED <==>
               (forall l :: l in lines ==> Approved(l)) && (exists l :: l in lines && !Closed(l)) &&
               TotalOrdered(lines) > 0.0 && TotalDelivered(lines) >= TotalOrdered(lines)) &&
            (s == PENDING || s == CLOSED || s == DELIVERED || s == PROCESSING)
  {
    RollupMeans(lines);
    RollupTotals(lines);
  }

  /** Grouping the whole feed and filtering one order's lines give the same rollup. */
  lemma {:induction false} GroupedIsFiltered(lines: seq<Line>, held: set<string>, docNo: string)
    requires docNo in held
    ensures docNo in Grouped(lines, held) <==> LinesOf(lines, docNo) != []
    ensures docNo in Grouped(lines, held) ==> Grouped(lines, held)[docNo] == RollupOf(LinesOf(lines, docNo))
  {
    if lines != [] {
      GroupedIsFiltered(lines[1..], held, docNo);
      var mine := LinesOf(lines[1..], docNo);
      if lines[0].isSalesOrder && lines[0].docNo == docNo {
        assert ([lines[0]] + mine)[1..] == mine;
      } else {
        assert [] + mine == mine;
      }
    }
  }

  // ---------------------------------------------------------------- the reconcile

  datatype Purchase = Purchase(erpId: string, status: Status, statusUpdatedAt: Option<int>)

  /** An order as a pass should leave it. */
  function Settled(p: Purchase, lines: seq<Line>, now: int): Purchase {
    var mine := LinesOf(lines, p.erpId);
    if mine == [] || p.status == StatusOf(RollupOf(mine)) then p
    else p.(status := StatusOf(RollupOf(mine)), statusUpdatedAt := Some(RollupOf(mine).changedAt.GetOr(now)))
  }

  class PurchaseTable {
    var purchases: map<string, Purchase>

    constructor (purchases: map<string, Purchase>)
      ensures this.purchases == purchases
    {
      this.purchases := purchases;
    }

    /** UPDATE ... FROM the grouped feed WHERE the status IS DISTINCT FROM the derived one. */
    method Reconcile(lines: seq<Line>, now: int) returns (updated: nat)
      modifies this
      ensures purchases.Keys == old(purchases).Keys
      ensures forall id :: id in purchases ==> purchases[id] == Settled(old(purchases)[id], lines, now)
      ensures updated == |set id | id in old(purchases) && purchases[id].status != old(purchases)[id].status|
    {
      ghost var before := purchases;
      var held := set id | id in purchases :: purchases[id].erpId;
      var agg := Grouped(lines, held);
      forall id | id in before
        ensures before[id].erpId in agg <==> LinesOf(lines, before[id].erpId) != []
        ensures before[id].erpId in agg ==> agg[before[id].erpId] == RollupOf(LinesOf(lines, before[id].erpId))
      {
        GroupedIsFiltered(lines, held, before[id].erpId);
      }
      var left := purchases.Keys;
      ghost var moved: set<string> := {};
      updated := 0;
      while left != {}
        invariant left <= before.Keys == purchases.Keys
        invariant forall id :: id in before ==> purchases[id] == if id in left then before[id] else Settled(before[id], lines, now)
        invariant forall id :: id in moved <==> id in before && purchases[id].status != before[id].status
        invariant updated == |moved|
      {
        var id :| id in left;
        var p := purchases[id];
        if p.erpId in agg && p.status != StatusOf(agg[p.erpId]) {
          purchases := purchases[id := p.(status := StatusOf(agg[p.erpId]), statusUpdatedAt := Some(agg[p.erpId].changedAt.GetOr(now)))];
          updated := updated + 1;
          moved := moved + {id};
        }
        left := left - {id};
      }
      assert moved == set id | id in before && purchases[id].status != before[id].status;
    }
  }

  /**
   * What a pass does to an order: with feed lines, its status is the rule's and
   * the stamp moves only if the status did; without, nothing. Another pass over
   * the same feed, at any later time, does nothing more.
   */
  lemma SettledOnce(p: Purchase, lines: seq<Line>, now: int, later: int)
    ensures var q := Settled(p, lines, now);
            (LinesOf(lines, p.erpId) != [] ==> q.status == StatusOf(RollupOf(LinesOf(lines, p.erpId)))) &&
            (LinesOf(lines, p.erpId) == [] ==> q == p) &&
            (q.status == p.status ==> q == p) && q.erpId == p.erpId &&
            Settled(q, lines, later) == q
  {
  }

  lemma {:induction false} LinesOfAppend(xs: seq<Line>, ys: seq<Line>, docNo: string)
    ensures LinesOf(xs + ys, docNo) == LinesOf(xs, docNo) + LinesOf(ys, docNo)
  {
    if xs == [] {
      assert xs + ys == ys;
      assert [] + LinesOf(ys, docNo) == LinesOf(ys, docNo);
    } else {
      assert (xs + ys)[1..] == xs[1..] + ys;
      LinesOfAppend(xs[1..], ys, docNo);
    }
  }

  lemma LinesOfWithout(lines: seq<Line>, k: nat, docNo: string)
    requires k < |lines|
    ensures multiset(LinesOf(lines, docNo)) ==
            multiset(LinesOf([lines[k]], docNo)) + multiset(LinesOf(lines[..k] + lines[k + 1..], docNo))
  {
    assert lines == lines[..k] + ([lines[k]] + lines[k + 1..]);
    LinesOfAppend(lines[..k], [lines[k]] + lines[k + 1..], docNo);
    LinesOfAppend([lines[k]], lines[k + 1..], docNo);
    LinesOfAppend(lines[..k], lines[k + 1..], docNo);
  }

  lemma {:induction false} LinesOfPermutes(xs: seq<Line>, ys: seq<Line>, docNo: string)
    requires multiset(xs) == multiset(ys)
    ensures multiset(LinesOf(xs, docNo)) == multiset(LinesOf(ys, docNo))
  {
    SameLength(xs, ys);
    if xs != [] {
      var k, rest := HeadElsewhere(xs, ys);
      LinesOfPermutes(xs[1..], rest, docNo);
      LinesOfWithout(ys, k, docNo);
      LinesOfWithout(xs, 0, docNo);
      assert xs[..0] + xs[1..] == xs[1..];
    }
  }

  /** The feed's row order decides nothing about any order. */
  lemma FeedOrderDoesNotMatter(p: Purchase, xs: seq<Line>, ys: seq<Line>, now: int)
    requires multiset(xs) == multiset(ys)
    ensures Settled(p, xs, now) == Settled(p, ys, now)
  {
    LinesOfPermutes(xs, ys, p.erpId);
    RollupIgnoresLineOrder(LinesOf(xs, p.erpId), LinesOf(ys, p.erpId));
    SameLength(LinesOf(xs, p.erpId), LinesOf(ys, p.erpId));
  }

  // ---------------------------------------------------------------- the reconcile, on the feed's columns

  predicate IsLineOf(l: Line, docNo: string) {
    l.isSalesOrder && l.docNo == docNo
  }

  function OrderedOn(docNo: string): Line -> real {
    (l: Line) => if IsLineOf(l, docNo) then l.ordered else 0.0
  }

  function DeliveredOn(docNo: string): Line -> real {
    (l: Line) => if IsLineOf(l, docNo) then l.delivered else 0.0
  }

  lemma {:induction false} LinesOfMembers(lines: seq<Line>, docNo: string)
    ensures forall l :: l in LinesOf(lines, docNo) <==> l in lines && IsLineOf(l, docNo)
  {
    if lines != [] {
      LinesOfMembers(lines[1..], docNo);
      assert lines == [lines[0]] + lines[1..];
    }
  }

  lemma TotalsOfNext(l: Line, rest: seq<Line>)
    ensures TotalOrdered([l] + rest) == l.ordered + TotalOrdered(rest) && TotalDelivered([l] + rest) == l.delivered + TotalDelivered(rest)
  {
    assert ([l] + rest)[1..] == rest;
  }

  lemma {:induction false} TotalsOfLines(lines: seq<Line>, docNo: string)
    ensures TotalOrdered(LinesOf(lines, docNo)) == SumOf(OrderedOn(docNo), lines)
    ensures TotalDelivered(LinesOf(lines, docNo)) == SumOf(DeliveredOn(docNo), lines)
  {
    if lines != [] {
      var l, rest := lines[0], lines[1..];
      assert lines == [l] + rest;
      TotalsOfLines(rest, docNo);
      SumOfConcat(OrderedOn(docNo), [l], rest);
      SumOfConcat(DeliveredOn(docNo), [l], rest);
      assert [] + [l] == [l];
      SumOfAppend(OrderedOn(docNo), [], l);
      SumOfAppend(DeliveredOn(docNo), [], l);
      TotalsOfNext(l, LinesOf(rest, docNo));
      assert [] + LinesOf(rest, docNo) == LinesOf(rest, docNo);
    }
  }

  /** The status an order's lines give it: by approval first, then closing, then what has been delivered of what was ordered. */
  ghost predicate IsStatus(s: Status, lines: seq<Line>, docNo: string) {
    var approved := forall l :: l in lines && IsLineOf(l, docNo) ==> l.approveStatus == Some("Y");
    var closed := forall l :: l in lines && IsLineOf(l, docNo) ==> l.close == Some("2");
    var ordered, delivered := SumOf(OrderedOn(docNo), lines), SumOf(DeliveredOn(docNo), lines);
    (s == PENDING <==> !approved) && (s == CLOSED <==> approved && closed) &&
    (s == DELIVERED <==> approved && !closed && ordered > 0.0 && delivered >= ordered) &&
    (s == PROCESSING <==> approved && !closed && !(ordered > 0.0 && delivered >= ordered))
  }

  /** The latest change any of the order's lines states, or now. */
  ghost predicate IsStamp(stamp: Option<int>, lines: seq<Line>, docNo: string, now: int) {
    stamp.Some? &&
    if exists l :: l in lines && IsLineOf(l, docNo) && l.changedAt.Some? then
      (exists l :: l in lines && IsLineOf(l, docNo) && l.changedAt == stamp) &&
      forall l :: l in lines && IsLineOf(l, docNo) && l.changedAt.Some? ==> l.changedAt.value <= stamp.value
    else stamp == Some(now)
  }

  /** What a pass leaves in an order's row, on the feed's columns: untouched without a line, or where the status it should have is the one it has. */
  lemma SettledOnColumns(p: Purchase, lines: seq<Line>, now: int)
    ensures var q, docNo := Settled(p, lines, now), p.erpId;
            q.erpId == docNo &&
            if exists l :: l in lines && IsLineOf(l, docNo) then
              IsStatus(q.status, lines, docNo) && (if q.status == p.status then q == p else IsStamp(q.statusUpdatedAt, lines, docNo, now))
            else q == p
  {
    var mine := LinesOf(lines, p.erpId);
    LinesOfMembers(lines, p.erpId);
    TotalsOfLines(lines, p.erpId);
    StatusMeans(mine);
    RollupTotals(mine);
    if l :| l in lines && IsLineOf(l, p.erpId) {
      assert l in mine;
    }
  }
}
