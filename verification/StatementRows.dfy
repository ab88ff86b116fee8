/** What the account statement says of the purchases and payments themselves. */
module StatementRows {
  import opened Option
  import opened Grouping
  import opened Lists
  import opened Ordering
  import opened StatementLedger

  type Collate = (string, string) -> bool

  // ---------------------------------------------------------------- figures of the rows

  function Value(p: Purchase): real {
    p.totalValue
  }

  function Amount(q: Payment): real {
    q.amount
  }

  /** What a purchase is worth if it is dated in [lo, hi), either bound absent or not. */
  function ValueIn(lo: Option<int>, hi: Option<int>): Purchase -> real {
    (p: Purchase) =>
      if (lo.Some? ==> lo.value <= p.orderDate) && (hi.Some? ==> p.orderDate < hi.value) then p.totalValue else 0.0
  }

  function AmountIn(lo: Option<int>, hi: Option<int>): Payment -> real {
    (q: Payment) => if (lo.Some? ==> lo.value <= q.date) && (hi.Some? ==> q.date < hi.value) then q.amount else 0.0
  }

  // ---------------------------------------------------------------- figures of the movements

  function DebitIn(lo: Option<int>, hi: Option<int>): Movement -> real {
    (m: Movement) => if !Below(m.date, lo) && !AtOrAbove(m.date, hi) then m.debit else 0.0
  }

  function CreditIn(lo: Option<int>, hi: Option<int>): Movement -> real {
    (m: Movement) => if !Below(m.date, lo) && !AtOrAbove(m.date, hi) then m.credit else 0.0
  }

  lemma DebitsAppend(ms: seq<Movement>, m: Movement)
    ensures Debits(ms + [m]) == Debits(ms) + m.debit && Credits(ms + [m]) == Credits(ms) + m.credit
  {
    assert (ms + [m])[..|ms|] == ms;
  }

  /** One more movement, inside the range or outside it. */
  lemma DatedSumsNext(ms: seq<Movement>, m: Movement, lo: Option<int>, hi: Option<int>, debit: Movement -> real, credit: Movement -> real)
    requires Debits(Dated(ms, lo, hi)) == SumOf(debit, ms) && Credits(Dated(ms, lo, hi)) == SumOf(credit, ms)
    requires debit(m) == if !Below(m.date, lo) && !AtOrAbove(m.date, hi) then m.debit else 0.0
    requires credit(m) == if !Below(m.date, lo) && !AtOrAbove(m.date, hi) then m.credit else 0.0
    ensures Debits(Dated(ms + [m], lo, hi)) == SumOf(debit, ms + [m]) && Credits(Dated(ms + [m], lo, hi)) == SumOf(credit, ms + [m])
  {
    DatedAppend(ms, m, lo, hi);
    SumOfAppend(debit, ms, m);
    SumOfAppend(credit, ms, m);
    DebitsAppend(Dated(ms, lo, hi), m);
  }

  lemma {:induction false} DatedSums(ms: seq<Movement>, lo: Option<int>, hi: Option<int>)
    ensures Debits(Dated(ms, lo, hi)) == SumOf(DebitIn(lo, hi), ms) && Credits(Dated(ms, lo, hi)) == SumOf(CreditIn(lo, hi), ms)
  {
    if ms != [] {
      var init, m := ms[..|ms| - 1], ms[|ms| - 1];
      assert ms == init + [m];
      DatedSums(init, lo, hi);
      DatedSumsNext(init, m, lo, hi, DebitIn(lo, hi), CreditIn(lo, hi));
    }
  }

  /** The debits of the loaded history are the purchases' values, its credits the payments' amounts, over any range of dates. */
  lemma LoadedSums(collate: Collate, ps: seq<Purchase>, qs: seq<Payment>, lo: Option<int>, hi: Option<int>)
    ensures var dated := Dated(LoadMovements(collate, ps, qs), lo, hi);
            Debits(dated) == SumOf(ValueIn(lo, hi), ps) && Credits(dated) == SumOf(AmountIn(lo, hi), qs)
  {
    var raw, ms := Unsorted(ps, qs), LoadMovements(collate, ps, qs);
    DatedSums(ms, lo, hi);
    SortKeepsElements(raw, MovementOrder(collate));
    SumIgnoresOrder(DebitIn(lo, hi), ms, raw);
    SumIgnoresOrder(CreditIn(lo, hi), ms, raw);
    UnsortedSums(ps, qs, lo, hi);
  }

  lemma UnsortedSums(ps: seq<Purchase>, qs: seq<Payment>, lo: Option<int>, hi: Option<int>)
    ensures SumOf(DebitIn(lo, hi), Unsorted(ps, qs)) == SumOf(ValueIn(lo, hi), ps)
    ensures SumOf(CreditIn(lo, hi), Unsorted(ps, qs)) == SumOf(AmountIn(lo, hi), qs)
  {
    var us, vs := Map(MovementOfPurchase, ps), Map(MovementOfPayment, qs);
    SumOfConcat(DebitIn(lo, hi), us, vs);
    SumOfConcat(CreditIn(lo, hi), us, vs);
    SumOfMap(DebitIn(lo, hi), MovementOfPurchase, ValueIn(lo, hi), ps);
    SumOfMap(DebitIn(lo, hi), MovementOfPayment, (q: Payment) => 0.0, qs);
    SumOfMap(CreditIn(lo, hi), MovementOfPurchase, (p: Purchase) => 0.0, ps);
    SumOfMap(CreditIn(lo, hi), MovementOfPayment, AmountIn(lo, hi), qs);
    SumOfNothing((p: Purchase) => 0.0, ps);
    SumOfNothing((q: Payment) => 0.0, qs);
  }

  lemma {:induction false} SumOfNothing<A>(f: A -> real, xs: seq<A>)
    requires forall x :: x in xs ==> f(x) == 0.0
    ensures SumOf(f, xs) == 0.0
  {
    if xs != [] {
      SumOfNothing(f, xs[..|xs| - 1]);
    }
  }

  lemma {:induction false} AllDated(ms: seq<Movement>)
    ensures Dated(ms, None, None) == ms
  {
    if ms != [] {
      AllDated(ms[..|ms| - 1]);
    }
  }

  /** The account stands at what was paid less what was bought. */
  lemma HistoryBalance(collate: Collate, ps: seq<Purchase>, qs: seq<Payment>)
    ensures Balance(LoadMovements(collate, ps, qs)) == SumOf(Amount, qs) - SumOf(Value, ps)
  {
    var ms := LoadMovements(collate, ps, qs);
    LoadedSums(collate, ps, qs, None, None);
    AllDated(ms);
    BalanceIsCreditsLessDebits(ms);
    SameSum(ValueIn(None, None), Value, ps);
    SameSum(AmountIn(None, None), Amount, qs);
  }

  /**
   * A statement over any window, on the rows: it opens with everything paid less
   * everything bought before, debits the purchases dated in the window, credits
   * the payments dated in it, and closes at the difference.
   */
  lemma StatementOnRows(collate: Collate, ps: seq<Purchase>, qs: seq<Payment>, from: int, to: int)
    ensures var s := StatementOf(LoadMovements(collate, ps, qs), from, to);
            s.opening == SumOf(AmountIn(None, Some(from)), qs) - SumOf(ValueIn(None, Some(from)), ps) &&
            s.totalDebit == SumOf(ValueIn(Some(from), Some(to + 1)), ps) &&
            s.totalCredit == SumOf(AmountIn(Some(from), Some(to + 1)), qs) &&
            s.closing == s.opening + s.totalCredit - s.totalDebit
  {
    var ms := LoadMovements(collate, ps, qs);
    LoadedSums(collate, ps, qs, None, Some(from));
    LoadedSums(collate, ps, qs, Some(from), Some(to + 1));
    BalanceIsCreditsLessDebits(BeforeWindow(ms, from));
    BalanceIsCreditsLessDebits(InWindow(ms, from, to));
  }

  // ---------------------------------------------------------------- the lines

  /** The line of a purchase. */
  predicate IsInvoice(l: Line, p: Purchase) {
    l.date == p.orderDate && l.kind == INVOICE && l.reference == p.erpId && l.debit == p.totalValue && l.credit == 0.0
  }

  /** The line of a payment: an allowance where it settles a broadcast, and the first reference of four that is there. */
  predicate IsReceipt(l: Line, q: Payment) {
    l.date == q.date && l.credit == q.amount && l.debit == 0.0 &&
    (q.broadcastReference.Some? ==> l.kind == TRANSPORT_ALLOWANCE) && (q.broadcastReference.None? ==> l.kind == PAYMENT) &&
    (q.reference.Some? ==> l.reference == q.reference.value) &&
    (q.reference.None? && q.broadcastReference.Some? && q.broadcastReference.value.Some? ==> l.reference == q.broadcastReference.value.value) &&
    (q.reference.None? && (q.broadcastReference == None || q.broadcastReference == Some(None)) ==>
       (q.erpId.Some? ==> l.reference == q.erpId.value) && (q.erpId.None? ==> l.reference == q.id))
  }

  lemma {:induction false} DatedMembers(ms: seq<Movement>, lo: Option<int>, hi: Option<int>, m: Movement)
    ensures m in Dated(ms, lo, hi) <==> m in ms && !Below(m.date, lo) && !AtOrAbove(m.date, hi)
  {
    if ms != [] {
      DatedMembers(ms[..|ms| - 1], lo, hi, m);
      assert ms == ms[..|ms| - 1] + [ms[|ms| - 1]];
    }
  }

  lemma LoadedMembers(collate: Collate, ps: seq<Purchase>, qs: seq<Payment>, m: Movement)
    ensures m in LoadMovements(collate, ps, qs) <==>
            (exists p :: p in ps && MovementOfPurchase(p) == m) || (exists q :: q in qs && MovementOfPayment(q) == m)
  {
    SortKeepsElements(Unsorted(ps, qs), MovementOrder(collate));
    SameMembers(LoadMovements(collate, ps, qs), Unsorted(ps, qs));
    InMap(MovementOfPurchase, ps, m);
    InMap(MovementOfPayment, qs, m);
  }

  lemma LineIsMovement(opening: real, window: seq<Movement>, l: Line) returns (m: Movement)
    requires l in LinesFrom(opening, window)
    ensures m in window && l == LineOf(m, l.runningBalance)
  {
    LinesFromLength(opening, window);
    var k :| 0 <= k < |window| && LinesFrom(opening, window)[k] == l;
    LinesAt(opening, window, k);
    m := window[k];
  }

  lemma LineOfRow(l: Line, m: Movement)
    requires l == LineOf(m, l.runningBalance)
    ensures forall p :: MovementOfPurchase(p) == m ==> IsInvoice(l, p)
    ensures forall q :: MovementOfPayment(q) == m ==> IsReceipt(l, q)
  {
  }

  /** Every line of a statement is a purchase's or a payment's, dated in the window. */
  lemma EveryLineIsARow(collate: Collate, ps: seq<Purchase>, qs: seq<Payment>, from: int, to: int, l: Line)
    requires l in StatementOf(LoadMovements(collate, ps, qs), from, to).lines
    ensures from <= l.date <= to && ((exists p :: p in ps && IsInvoice(l, p)) || (exists q :: q in qs && IsReceipt(l, q)))
  {
    var ms := LoadMovements(collate, ps, qs);
    var m := LineIsMovement(Balance(BeforeWindow(ms, from)), InWindow(ms, from, to), l);
    DatedMembers(ms, Some(from), Some(to + 1), m);
    LoadedMembers(collate, ps, qs, m);
    LineOfRow(l, m);
  }

  lemma MovementHasLine(collate: Collate, ps: seq<Purchase>, qs: seq<Payment>, from: int, to: int, m: Movement) returns (l: Line)
    requires m in LoadMovements(collate, ps, qs) && from <= m.date <= to
    ensures l in StatementOf(LoadMovements(collate, ps, qs), from, to).lines && l == LineOf(m, l.runningBalance)
  {
    var ms := LoadMovements(collate, ps, qs);
    DatedMembers(ms, Some(from), Some(to + 1), m);
    l := WindowHasLine(Balance(BeforeWindow(ms, from)), InWindow(ms, from, to), m);
  }

  lemma WindowHasLine(opening: real, window: seq<Movement>, m: Movement) returns (l: Line)
    requires m in window
    ensures l in LinesFrom(opening, window) && l == LineOf(m, l.runningBalance)
  {
    var k :| 0 <= k < |window| && window[k] == m;
    LinesAt(opening, window, k);
    l := LinesFrom(opening, window)[k];
  }

  /** And every purchase and payment dated in the window has its line. */
  lemma EveryRowHasALine(collate: Collate, ps: seq<Purchase>, qs: seq<Payment>, from: int, to: int)
    ensures var lines := StatementOf(LoadMovements(collate, ps, qs), from, to).lines;
            (forall p :: p in ps && from <= p.orderDate <= to ==> exists l :: l in lines && IsInvoice(l, p)) &&
            (forall q :: q in qs && from <= q.date <= to ==> exists l :: l in lines && IsReceipt(l, q))
  {
    var lines := StatementOf(LoadMovements(collate, ps, qs), from, to).lines;
    forall p | p in ps && from <= p.orderDate <= to
      ensures exists l :: l in lines && IsInvoice(l, p)
    {
      LoadedMembers(collate, ps, qs, MovementOfPurchase(p));
      var l := MovementHasLine(collate, ps, qs, from, to, MovementOfPurchase(p));
      assert IsInvoice(l, p);
    }
    forall q | q in qs && from <= q.date <= to
      ensures exists l :: l in lines && IsReceipt(l, q)
    {
      LoadedMembers(collate, ps, qs, MovementOfPayment(q));
      var l := MovementHasLine(collate, ps, qs, from, to, MovementOfPayment(q));
      assert IsReceipt(l, q);
    }
  }

  // ---------------------------------------------------------------- the order of a day, and the order screen

  /** At one instant invoices come before payments, and payments before allowances. */
  lemma SameInstant(collate: Collate, ps: seq<Purchase>, qs: seq<Payment>, i: nat, j: nat)
    requires TotalOrder(collate)
    requires var ms := LoadMovements(collate, ps, qs); i < j < |ms| && ms[i].date == ms[j].date
    ensures var ms := LoadMovements(collate, ps, qs);
            (ms[j].kind == INVOICE ==> ms[i].kind == INVOICE) && (ms[j].kind == PAYMENT ==> ms[i].kind != TRANSPORT_ALLOWANCE)
  {
    OrderIsTotal(collate);
    SortSorts(Unsorted(ps, qs), MovementOrder(collate));
    var ms := LoadMovements(collate, ps, qs);
    assert NotAfter(collate, ms[i], ms[j]);
  }

  /** The purchases that count when this one is reached: those before it, and of its own instant those up to its key. */
  function ValueUpTo(collate: Collate, p: Purchase): Purchase -> real {
    (r: Purchase) =>
      if r.orderDate < p.orderDate || (r.orderDate == p.orderDate && collate(PURCHASE_KEY + r.id, PURCHASE_KEY + p.id))
      then r.totalValue else 0.0
  }

  /** What a movement adds to the balance of everything up to and including `m`. */
  function SignedUpTo(collate: Collate, m: Movement): Movement -> real {
    (x: Movement) => if NotAfter(collate, x, m) then x.credit - x.debit else 0.0
  }

  lemma {:induction false} PrefixSum(ms: seq<Movement>, n: nat, f: Movement -> real)
    requires n <= |ms|
    requires forall i :: 0 <= i < n ==> f(ms[i]) == ms[i].credit - ms[i].debit
    requires forall i :: n <= i < |ms| ==> f(ms[i]) == 0.0
    ensures Balance(ms[..n]) == SumOf(f, ms)
  {
    if ms != [] {
      var init := ms[..|ms| - 1];
      if n == |ms| {
        PrefixSum(init, n - 1, f);
        assert ms[..n] == ms && ms[..n][..n - 1] == init[..n - 1];
      } else {
        PrefixSum(init, n, f);
        assert ms[..n] == init[..n];
      }
    }
  }

  lemma UpToIsPrefix(collate: Collate, ms: seq<Movement>, k: nat)
    requires TotalOrder(collate) && Sorted(ms, MovementOrder(collate)) && DistinctKeys(ms) && k < |ms|
    ensures Balance(ms[..k + 1]) == SumOf(SignedUpTo(collate, ms[k]), ms)
  {
    forall i: nat | i < |ms|
      ensures NotAfter(collate, ms[i], ms[k]) <==> i <= k
    {
      PlaceIsOrder(collate, ms, k, i);
    }
    PrefixSum(ms, k + 1, SignedUpTo(collate, ms[k]));
  }

  /** In a sorted history without ties, up to a movement is before it or at it. */
  lemma PlaceIsOrder(collate: Collate, ms: seq<Movement>, k: nat, i: nat)
    requires TotalOrder(collate) && Sorted(ms, MovementOrder(collate)) && DistinctKeys(ms) && k < |ms| && i < |ms|
    ensures NotAfter(collate, ms[i], ms[k]) <==> i <= k
  {
    var le := MovementOrder(collate);
    assert i < k ==> le(ms[i], ms[k]);
    assert k < i ==> le(ms[k], ms[i]) && ms[i].sortKey != ms[k].sortKey;
    NoTwoWays(collate, ms[i], ms[k]);
  }

  lemma NoTwoWays(collate: Collate, a: Movement, b: Movement)
    requires TotalOrder(collate)
    ensures NotAfter(collate, a, b) && NotAfter(collate, b, a) ==> a.sortKey == b.sortKey
    ensures NotAfter(collate, a, a)
  {
    assert collate(a.sortKey, a.sortKey);
  }

  lemma SignedOfPurchase(collate: Collate, r: Purchase, p: Purchase)
    ensures SignedUpTo(collate, MovementOfPurchase(p))(MovementOfPurchase(r)) == 0.0 - ValueUpTo(collate, p)(r)
  {
  }

  lemma SignedOfPayment(collate: Collate, q: Payment, p: Purchase)
    ensures SignedUpTo(collate, MovementOfPurchase(p))(MovementOfPayment(q)) == AmountIn(None, Some(p.orderDate))(q)
  {
  }

  lemma SignedOfRows(collate: Collate, ps: seq<Purchase>, qs: seq<Payment>, p: Purchase)
    ensures SumOf(SignedUpTo(collate, MovementOfPurchase(p)), LoadMovements(collate, ps, qs)) ==
            SumOf(AmountIn(None, Some(p.orderDate)), qs) - SumOf(ValueUpTo(collate, p), ps)
  {
    var f := SignedUpTo(collate, MovementOfPurchase(p));
    var raw, us, vs := Unsorted(ps, qs), Map(MovementOfPurchase, ps), Map(MovementOfPayment, qs);
    SortKeepsElements(raw, MovementOrder(collate));
    SumIgnoresOrder(f, LoadMovements(collate, ps, qs), raw);
    SumOfConcat(f, us, vs);
    var minus := (r: Purchase) => 0.0 - ValueUpTo(collate, p)(r);
    forall r
      ensures f(MovementOfPurchase(r)) == minus(r)
    {
      SignedOfPurchase(collate, r, p);
    }
    SumOfMap(f, MovementOfPurchase, minus, ps);
    SumOfNegated(ValueUpTo(collate, p), minus, ps);
    forall q
      ensures f(MovementOfPayment(q)) == AmountIn(None, Some(p.orderDate))(q)
    {
      SignedOfPayment(collate, q, p);
    }
    SumOfMap(f, MovementOfPayment, AmountIn(None, Some(p.orderDate)), qs);
  }

  lemma {:induction false} SumOfNegated<A>(f: A -> real, g: A -> real, xs: seq<A>)
    requires forall x :: x in xs ==> g(x) == 0.0 - f(x)
    ensures SumOf(g, xs) == 0.0 - SumOf(f, xs)
  {
    if xs != [] {
      SumOfNegated(f, g, xs[..|xs| - 1]);
    }
  }

  /**
   * The balance the order screen shows for a purchase, on the rows: everything
   * paid strictly before it, less every purchase up to and including it.
   */
  lemma BalanceAtPurchase(collate: Collate, ps: seq<Purchase>, qs: seq<Payment>, p: Purchase)
    requires TotalOrder(collate) && DistinctIds(ps, qs) && p in ps
    ensures var balances := BalanceMap(LoadMovements(collate, ps, qs));
            p.id in balances && balances[p.id] == SumOf(AmountIn(None, Some(p.orderDate)), qs) - SumOf(ValueUpTo(collate, p), ps)
  {
    var ms := LoadMovements(collate, ps, qs);
    LoadedMembers(collate, ps, qs, MovementOfPurchase(p));
    var k :| 0 <= k < |ms| && ms[k] == MovementOfPurchase(p);
    LoadedIsChronological(collate, ps, qs);
    OrderIsTotal(collate);
    SortSorts(Unsorted(ps, qs), MovementOrder(collate));
    KeysApart(p.id, "");
    BalanceMapAt(ms, k);
    UpToIsPrefix(collate, ms, k);
    SignedOfRows(collate, ps, qs, p);
  }
}
