/** The account statement: movements in one fixed order, and running balances over a window of them. */
module StatementLedger {
  import opened Option
  import opened Lists
  import opened Ordering

  datatype LineType = INVOICE | PAYMENT | TRANSPORT_ALLOWANCE

  /** Dates are instants in milliseconds; amounts are exact. */
  datatype Purchase = Purchase(id: string, erpId: string, orderDate: int, totalValue: real)

  datatype Payment = Payment(
    id: string, date: int, amount: real, reference: Option<string>, erpId: Option<string>, broadcastReference: Option<Option<string>>)

  datatype Movement = Movement(date: int, kind: LineType, reference: string, debit: real, credit: real, sortKey: string)

  datatype Line = Line(date: int, kind: LineType, reference: string, debit: real, credit: real, runningBalance: real)

  datatype Statement = Statement(opening: real, closing: real, totalDebit: real, totalCredit: real, lines: seq<Line>)

  const PURCHASE_KEY := "purchase:"
  const PAYMENT_KEY := "payment:"

  // ---------------------------------------------------------------- loading movements

  function MovementOfPurchase(p: Purchase): Movement {
    Movement(p.orderDate, INVOICE, p.erpId, p.totalValue, 0.0, PURCHASE_KEY + p.id)
  }

  /** A payment linked to a broadcast is a transport allowance; the reference falls back from field to field. */
  function MovementOfPayment(p: Payment): Movement {
    var viaBroadcast := if p.broadcastReference.Some? then p.broadcastReference.value else None;
    var reference :=
      if p.reference.Some? then p.reference.value
      else if viaBroadcast.Some? then viaBroadcast.value
      else p.erpId.GetOr(p.id);
    Movement(p.date, if p.broadcastReference.Some? then TRANSPORT_ALLOWANCE else PAYMENT, reference, 0.0, p.amount, PAYMENT_KEY + p.id)
  }

  function TypeOrder(kind: LineType): int {
    match kind
    case INVOICE => 0
    case PAYMENT => 1
    case TRANSPORT_ALLOWANCE => 2
  }

  /** The comparator; `collate(s, t)` is `s.localeCompare(t) <= 0`. */
  predicate NotAfter(collate: (string, string) -> bool, a: Movement, b: Movement) {
    if a.date != b.date then a.date < b.date
    else if a.kind != b.kind then TypeOrder(a.kind) < TypeOrder(b.kind)
    else collate(a.sortKey, b.sortKey)
  }

  function MovementOrder(collate: (string, string) -> bool): (Movement, Movement) -> bool {
    (a, b) => NotAfter(collate, a, b)
  }

  /** The two tables' rows as movements, in whatever order they were read. */
  function Unsorted(purchases: seq<Purchase>, payments: seq<Payment>): seq<Movement> {
    Map(MovementOfPurchase, purchases) + Map(MovementOfPayment, payments)
  }

  /** The two tables as one history, under the comparator. */
  function LoadMovements(collate: (string, string) -> bool, purchases: seq<Purchase>, payments: seq<Payment>): seq<Movement> {
    Sort(Unsorted(purchases, payments), MovementOrder(collate))
  }

  // ---------------------------------------------------------------- specification

  function Balance(ms: seq<Movement>): real {
    if ms == [] then 0.0 else Balance(ms[..|ms| - 1]) + ms[|ms| - 1].credit - ms[|ms| - 1].debit
  }

  function Debits(ms: seq<Movement>): real {
    if ms == [] then 0.0 else Debits(ms[..|ms| - 1]) + ms[|ms| - 1].debit
  }

  function Credits(ms: seq<Movement>): real {
    if ms == [] then 0.0 else Credits(ms[..|ms| - 1]) + ms[|ms| - 1].credit
  }

  predicate Below(date: int, lo: Option<int>) {
    lo.Some? && date < lo.value
  }

  predicate AtOrAbove(date: int, hi: Option<int>) {
    hi.Some? && hi.value <= date
  }

  /** The movements dated in [lo, hi); either bound may be absent. */
  function Dated(ms: seq<Movement>, lo: Option<int>, hi: Option<int>): seq<Movement> {
    if ms == [] then []
    else
      var rest := Dated(ms[..|ms| - 1], lo, hi);
      var d := ms[|ms| - 1].date;
      if !Below(d, lo) && !AtOrAbove(d, hi) then rest + [ms[|ms| - 1]] else rest
  }

  function BeforeWindow(ms: seq<Movement>, from: int): seq<Movement> {
    Dated(ms, None, Some(from))
  }

  /** `to` is inclusive: dates are whole milliseconds. */
  function InWindow(ms: seq<Movement>, from: int, to: int): seq<Movement> {
    Dated(ms, Some(from), Some(to + 1))
  }

  function LineOf(m: Movement, balance: real): Line {
    Line(m.date, m.kind, m.reference, m.debit, m.credit, balance)
  }

  function LinesFrom(opening: real, ms: seq<Movement>): seq<Line> {
    if ms == [] then []
    else LinesFrom(opening, ms[..|ms| - 1]) + [LineOf(ms[|ms| - 1], opening + Balance(ms))]
  }

  function StatementOf(ms: seq<Movement>, from: int, to: int): Statement {
    var opening := Balance(BeforeWindow(ms, from));
    var window := InWindow(ms, from, to);
    Statement(opening, opening + Balance(window), Debits(window), Credits(window), LinesFrom(opening, window))
  }

  predicate IsPurchaseKey(key: string) {
    PURCHASE_KEY <= key
  }

  function PurchaseIdOf(key: string): string
    requires IsPurchaseKey(key)
  {
    key[|PURCHASE_KEY|..]
  }

  function BalanceMap(ms: seq<Movement>): map<string, real> {
    if ms == [] then map[]
    else
      var rest := BalanceMap(ms[..|ms| - 1]);
      var key := ms[|ms| - 1].sortKey;
      if IsPurchaseKey(key) then rest[PurchaseIdOf(key) := Balance(ms)] else rest
  }

  // ---------------------------------------------------------------- service

  /** The statement over a window, from the movements `loadMovements` returned. */
  method Build(movements: seq<Movement>, from: int, to: int) returns (s: Statement)
    ensures s == StatementOf(movements, from, to)
  {
    var opening := 0.0;
    var inWindow: seq<Movement> := [];
    for i := 0 to |movements|
      invariant opening == Balance(BeforeWindow(movements[..i], from))
      invariant inWindow == InWindow(movements[..i], from, to)
    {
      var m := movements[i];
      assert movements[..i + 1][..i] == movements[..i];
      ghost var before := BeforeWindow(movements[..i], from);
      assert (before + [m])[..|before|] == before;
      if m.date < from {
        opening := opening + m.credit - m.debit;
      }
      if from <= m.date <= to {
        inWindow := inWindow + [m];
      }
    }
    assert movements[..|movements|] == movements;
    var balance, totalDebit, totalCredit := opening, 0.0, 0.0;
    var lines: seq<Line> := [];
    for i := 0 to |inWindow|
      invariant balance == opening + Balance(inWindow[..i])
      invariant totalDebit == Debits(inWindow[..i]) && totalCredit == Credits(inWindow[..i])
      invariant lines == LinesFrom(opening, inWindow[..i])
    {
      var m := inWindow[i];
      assert inWindow[..i + 1][..i] == inWindow[..i];
      balance := balance + m.credit - m.debit;
      totalDebit := totalDebit + m.debit;
      totalCredit := totalCredit + m.credit;
      lines := lines + [Line(m.date, m.kind, m.reference, m.debit, m.credit, balance)];
    }
    assert inWindow[..|inWindow|] == inWindow;
    s := Statement(opening, balance, totalDebit, totalCredit, lines);
  }

  /** One pass over the history, noting the balance it has reached at every purchase. */
  method BalanceByPurchase(movements: seq<Movement>) returns (out: map<string, real>)
    ensures out == BalanceMap(movements)
  {
    out := map[];
    var balance := 0.0;
    for i := 0 to |movements|
      invariant balance == Balance(movements[..i])
      invariant out == BalanceMap(movements[..i])
    {
      var m := movements[i];
      assert movements[..i + 1][..i] == movements[..i];
      balance := balance + m.credit - m.debit;
      if PURCHASE_KEY <= m.sortKey {
        out := out[m.sortKey[|PURCHASE_KEY|..] := balance];
      }
    }
    assert movements[..|movements|] == movements;
  }

  // ---------------------------------------------------------------- the window is a slice of the history

  ghost predicate Chronological(ms: seq<Movement>) {
    forall i, j :: 0 <= i < j < |ms| ==> ms[i].date <= ms[j].date
  }

  function CountBefore(ms: seq<Movement>, date: int): (n: nat)
    ensures n <= |ms|
  {
    if ms == [] then 0 else CountBefore(ms[..|ms| - 1], date) + if ms[|ms| - 1].date < date then 1 else 0
  }

  /** A later bound counts more, by exactly the movements dated between the two. */
  lemma {:induction false} CountGrows(ms: seq<Movement>, lo: int, hi: int)
    requires lo <= hi
    ensures CountBefore(ms, lo) <= CountBefore(ms, hi)
    ensures (forall m :: m in ms ==> !(lo <= m.date < hi)) ==> CountBefore(ms, lo) == CountBefore(ms, hi)
  {
    if ms != [] {
      CountGrows(ms[..|ms| - 1], lo, hi);
    }
  }

  lemma {:induction false} CountSplits(ms: seq<Movement>, date: int)
    requires Chronological(ms)
    ensures forall i :: 0 <= i < CountBefore(ms, date) ==> ms[i].date < date
    ensures forall i :: CountBefore(ms, date) <= i < |ms| ==> date <= ms[i].date
  {
    if ms != [] {
      var init := ms[..|ms| - 1];
      CountSplits(init, date);
      if CountBefore(init, date) < |init| {
        assert date <= init[|init| - 1].date <= ms[|ms| - 1].date;
      }
    }
  }

  /** The dates fall below, inside and above the range, in that order, with the inside from `i` to `j`. */
  ghost predicate CutAt(ms: seq<Movement>, lo: Option<int>, hi: Option<int>, i: nat, j: nat) {
    i <= j <= |ms| &&
    (forall k :: 0 <= k < i ==> Below(ms[k].date, lo)) &&
    (forall k :: i <= k < j ==> !Below(ms[k].date, lo) && !AtOrAbove(ms[k].date, hi)) &&
    forall k :: j <= k < |ms| ==> AtOrAbove(ms[k].date, hi)
  }

  lemma CutWithoutLast(ms: seq<Movement>, m: Movement, lo: Option<int>, hi: Option<int>, i: nat, j: nat)
    requires CutAt(ms + [m], lo, hi, i, j)
    ensures if j <= |ms| then CutAt(ms, lo, hi, i, j) && AtOrAbove(m.date, hi)
            else if i <= |ms| then CutAt(ms, lo, hi, i, |ms|) && !Below(m.date, lo) && !AtOrAbove(m.date, hi)
            else CutAt(ms, lo, hi, |ms|, |ms|) && Below(m.date, lo)
  {
    var all := ms + [m];
    assert all[|ms|] == m;
    assert forall k :: 0 <= k < |ms| ==> all[k] == ms[k];
  }

  lemma DatedAppend(ms: seq<Movement>, m: Movement, lo: Option<int>, hi: Option<int>)
    ensures Dated(ms + [m], lo, hi) == if !Below(m.date, lo) && !AtOrAbove(m.date, hi) then Dated(ms, lo, hi) + [m] else Dated(ms, lo, hi)
  {
    assert (ms + [m])[..|ms|] == ms;
  }

  /** In a history cut so, the date range is a contiguous run. */
  lemma {:induction false} DatedIsSlice(ms: seq<Movement>, lo: Option<int>, hi: Option<int>, i: nat, j: nat)
    requires CutAt(ms, lo, hi, i, j)
    ensures Dated(ms, lo, hi) == ms[i..j]
  {
    if ms != [] {
      var init, m := ms[..|ms| - 1], ms[|ms| - 1];
      assert ms == init + [m];
      CutWithoutLast(init, m, lo, hi, i, j);
      DatedAppend(init, m, lo, hi);
      if j <= |init| {
        DatedIsSlice(init, lo, hi, i, j);
      } else if i <= |init| {
        DatedIsSlice(init, lo, hi, i, |init|);
      } else {
        DatedIsSlice(init, lo, hi, |init|, |init|);
      }
    }
  }

  /** Where the window sits in the history: it starts after `i` movements and ends after `j`. */
  lemma WindowIsSlice(ms: seq<Movement>, from: int, to: int) returns (i: nat, j: nat)
    requires Chronological(ms) && from <= to
    ensures i == CountBefore(ms, from) && j == CountBefore(ms, to + 1) && i <= j
    ensures BeforeWindow(ms, from) == ms[..i] && InWindow(ms, from, to) == ms[i..j]
  {
    i, j := CountBefore(ms, from), CountBefore(ms, to + 1);
    CountSplits(ms, from);
    CountSplits(ms, to + 1);
    CountGrows(ms, from, to + 1);
    DatedIsSlice(ms, None, Some(from), 0, i);
    DatedIsSlice(ms, Some(from), Some(to + 1), i, j);
  }

  lemma {:induction false} BalanceSplits(ms: seq<Movement>, i: nat, j: nat)
    requires i <= j <= |ms|
    ensures Balance(ms[..j]) == Balance(ms[..i]) + Balance(ms[i..j])
  {
    if i < j {
      BalanceSplits(ms, i, j - 1);
      assert ms[..j][..j - 1] == ms[..j - 1];
      assert ms[i..j][..j - 1 - i] == ms[i..j - 1];
    } else {
      assert ms[i..j] == [];
    }
  }

  lemma {:induction false} LinesFromLength(opening: real, ms: seq<Movement>)
    ensures |LinesFrom(opening, ms)| == |ms|
  {
    if ms != [] {
      LinesFromLength(opening, ms[..|ms| - 1]);
    }
  }

  lemma {:induction false} LinesAt(opening: real, ms: seq<Movement>, k: nat)
    requires k < |ms|
    ensures |LinesFrom(opening, ms)| == |ms|
    ensures LinesFrom(opening, ms)[k] == LineOf(ms[k], opening + Balance(ms[..k + 1]))
  {
    LinesFromLength(opening, ms);
    LinesFromLength(opening, ms[..|ms| - 1]);
    if k < |ms| - 1 {
      LinesAt(opening, ms[..|ms| - 1], k);
      assert ms[..|ms| - 1][..k + 1] == ms[..k + 1];
    } else {
      assert ms[..k + 1] == ms;
    }
  }

  /** These lines are the movements from the `i`th on, each with the balance of the whole history up to and including it. */
  ghost predicate CarryHistory(lines: seq<Line>, ms: seq<Movement>, i: nat) {
    i + |lines| <= |ms| && forall k :: 0 <= k < |lines| ==> lines[k] == LineOf(ms[i + k], Balance(ms[..i + k + 1]))
  }

  /**
   * Every line of a statement over any window carries the balance of the whole
   * history, and the lines are exactly the window's movements.
   */
  lemma LinesCarryHistoryBalances(ms: seq<Movement>, from: int, to: int)
    requires Chronological(ms) && from <= to
    ensures var lines := StatementOf(ms, from, to).lines;
            |lines| == CountBefore(ms, to + 1) - CountBefore(ms, from) && CarryHistory(lines, ms, CountBefore(ms, from))
  {
    var i, j := WindowIsSlice(ms, from, to);
    RunCarriesHistoryBalances(ms, i, j);
  }

  lemma RunCarriesHistoryBalances(ms: seq<Movement>, i: nat, j: nat)
    requires i <= j <= |ms|
    ensures |LinesFrom(Balance(ms[..i]), ms[i..j])| == j - i
    ensures CarryHistory(LinesFrom(Balance(ms[..i]), ms[i..j]), ms, i)
  {
    LinesFromLength(Balance(ms[..i]), ms[i..j]);
    forall k | 0 <= k < j - i
      ensures LinesFrom(Balance(ms[..i]), ms[i..j])[k] == LineOf(ms[i + k], Balance(ms[..i + k + 1]))
    {
      LineCarriesHistoryBalance(ms, i, j, k);
    }
  }

  lemma LineCarriesHistoryBalance(ms: seq<Movement>, i: nat, j: nat, k: nat)
    requires i + k < j <= |ms|
    ensures |LinesFrom(Balance(ms[..i]), ms[i..j])| == j - i
    ensures LinesFrom(Balance(ms[..i]), ms[i..j])[k] == LineOf(ms[i + k], Balance(ms[..i + k + 1]))
  {
    LinesAt(Balance(ms[..i]), ms[i..j], k);
    TakeOfSlice(ms, i, j, k + 1);
    BalanceSplits(ms, i, i + k + 1);
  }

  lemma {:induction false} BalanceIsCreditsLessDebits(ms: seq<Movement>)
    ensures Balance(ms) == Credits(ms) - Debits(ms)
  {
    if ms != [] {
      BalanceIsCreditsLessDebits(ms[..|ms| - 1]);
    }
  }

  /** The published balance convention, and the totals the statement prints beside it. */
  lemma ClosingIsOpeningPlusMovements(ms: seq<Movement>, from: int, to: int)
    requires Chronological(ms) && from <= to
    ensures var s := StatementOf(ms, from, to);
            s.closing == s.opening + s.totalCredit - s.totalDebit &&
            s.opening == Balance(ms[..CountBefore(ms, from)]) &&
            s.closing == Balance(ms[..CountBefore(ms, to + 1)])
  {
    var i, j := WindowIsSlice(ms, from, to);
    BalanceIsCreditsLessDebits(ms[i..j]);
    BalanceSplits(ms, i, j);
  }

  /** A later window with no movement dated between the two opens where the earlier one closed. */
  lemma WindowsChain(ms: seq<Movement>, from: int, to: int, from': int, to': int)
    requires Chronological(ms) && from <= to < from' <= to'
    requires forall m :: m in ms ==> !(to < m.date < from')
    ensures StatementOf(ms, from', to').opening == StatementOf(ms, from, to).closing
  {
    ClosingIsOpeningPlusMovements(ms, from, to);
    ClosingIsOpeningPlusMovements(ms, from', to');
    CountGrows(ms, to + 1, from');
  }

  // ---------------------------------------------------------------- statement and order screen agree

  ghost predicate DistinctKeys(ms: seq<Movement>) {
    forall i, j :: 0 <= i < j < |ms| ==> ms[i].sortKey != ms[j].sortKey
  }

  lemma SameIdSameKey(a: string, b: string)
    requires IsPurchaseKey(a) && IsPurchaseKey(b)
    ensures PurchaseIdOf(a) == PurchaseIdOf(b) ==> a == b
  {
    assert a == PURCHASE_KEY + PurchaseIdOf(a) && b == PURCHASE_KEY + PurchaseIdOf(b);
  }

  lemma {:induction false} BalanceMapAt(ms: seq<Movement>, k: nat)
    requires k < |ms| && IsPurchaseKey(ms[k].sortKey) && DistinctKeys(ms)
    ensures PurchaseIdOf(ms[k].sortKey) in BalanceMap(ms)
    ensures BalanceMap(ms)[PurchaseIdOf(ms[k].sortKey)] == Balance(ms[..k + 1])
  {
    if k < |ms| - 1 {
      BalanceMapAt(ms[..|ms| - 1], k);
      assert ms[..|ms| - 1][..k + 1] == ms[..k + 1];
      var last := ms[|ms| - 1].sortKey;
      if IsPurchaseKey(last) {
        SameIdSameKey(last, ms[k].sortKey);
      }
    } else {
      assert ms[..k + 1] == ms;
    }
  }

  lemma LineAgreesWithMap(lines: seq<Line>, ms: seq<Movement>, i: nat, k: nat)
    requires CarryHistory(lines, ms, i) && k < |lines| && DistinctKeys(ms) && IsPurchaseKey(ms[i + k].sortKey)
    ensures PurchaseIdOf(ms[i + k].sortKey) in BalanceMap(ms)
    ensures BalanceMap(ms)[PurchaseIdOf(ms[i + k].sortKey)] == lines[k].runningBalance
  {
    BalanceMapAt(ms, i + k);
  }

  /** The balance on an invoice line is the balance the order screen shows for that purchase. */
  lemma StatementAgreesWithOrderScreen(ms: seq<Movement>, from: int, to: int, k: nat)
    requires Chronological(ms) && DistinctKeys(ms) && from <= to
    requires k < |StatementOf(ms, from, to).lines|
    requires CountBefore(ms, from) + k < |ms| && IsPurchaseKey(ms[CountBefore(ms, from) + k].sortKey)
    ensures var id := PurchaseIdOf(ms[CountBefore(ms, from) + k].sortKey);
            id in BalanceMap(ms) && BalanceMap(ms)[id] == StatementOf(ms, from, to).lines[k].runningBalance
  {
    LinesCarryHistoryBalances(ms, from, to);
    LineAgreesWithMap(StatementOf(ms, from, to).lines, ms, CountBefore(ms, from), k);
  }

  // ---------------------------------------------------------------- row order does not matter

  lemma OrderIsTotal(collate: (string, string) -> bool)
    requires TotalOrder(collate)
    ensures TotalPreorder(MovementOrder(collate))
    ensures forall a, b :: MovementOrder(collate)(a, b) && MovementOrder(collate)(b, a) ==>
                             a.date == b.date && a.kind == b.kind && a.sortKey == b.sortKey
  {
  }

  /** `id` is the primary key of both tables. */
  ghost predicate DistinctIds(purchases: seq<Purchase>, payments: seq<Payment>) {
    (forall i, j :: 0 <= i < j < |purchases| ==> purchases[i].id != purchases[j].id) &&
    (forall i, j :: 0 <= i < j < |payments| ==> payments[i].id != payments[j].id)
  }

  lemma KeysApart(a: string, b: string)
    ensures PURCHASE_KEY + a != PAYMENT_KEY + b
    ensures PURCHASE_KEY + a == PURCHASE_KEY + b ==> a == b
    ensures PAYMENT_KEY + a == PAYMENT_KEY + b ==> a == b
    ensures IsPurchaseKey(PURCHASE_KEY + a) && PurchaseIdOf(PURCHASE_KEY + a) == a && !IsPurchaseKey(PAYMENT_KEY + b)
  {
    assert (PURCHASE_KEY + a)[1] == 'u' && (PAYMENT_KEY + b)[1] == 'a';
    assert (PURCHASE_KEY + a)[|PURCHASE_KEY|..] == a && (PURCHASE_KEY + b)[|PURCHASE_KEY|..] == b;
    assert (PAYMENT_KEY + a)[|PAYMENT_KEY|..] == a && (PAYMENT_KEY + b)[|PAYMENT_KEY|..] == b;
  }

  /** The sort keys of distinct rows are distinct, so the comparator never ties. */
  lemma LoadedKeysAreDistinct(purchases: seq<Purchase>, payments: seq<Payment>)
    requires DistinctIds(purchases, payments)
    ensures DistinctKeys(Unsorted(purchases, payments))
  {
    MapAt(MovementOfPurchase, purchases);
    MapAt(MovementOfPayment, payments);
    var ms := Unsorted(purchases, payments);
    var n := |purchases|;
    forall i, j | 0 <= i < j < |ms|
      ensures ms[i].sortKey != ms[j].sortKey
    {
      if j < n {
        KeysApart(purchases[i].id, purchases[j].id);
      } else if i < n {
        KeysApart(purchases[i].id, payments[j - n].id);
      } else {
        KeysApart(payments[i - n].id, payments[j - n].id);
      }
    }
  }

  lemma LoadedIsChronological(collate: (string, string) -> bool, purchases: seq<Purchase>, payments: seq<Payment>)
    requires TotalOrder(collate) && DistinctIds(purchases, payments)
    ensures Chronological(LoadMovements(collate, purchases, payments))
    ensures DistinctKeys(LoadMovements(collate, purchases, payments))
  {
    var raw := Unsorted(purchases, payments);
    OrderIsTotal(collate);
    SortSorts(raw, MovementOrder(collate));
    LoadedKeysAreDistinct(purchases, payments);
    PermutationKeepsDistinct(raw, Sort(raw, MovementOrder(collate)));
  }

  lemma PermutationKeepsDistinct(xs: seq<Movement>, ys: seq<Movement>)
    requires multiset(xs) == multiset(ys) && DistinctKeys(xs)
    ensures DistinctKeys(ys)
  {
    forall i, j | 0 <= i < j < |ys| && ys[i].sortKey == ys[j].sortKey
      ensures false
    {
      TwoPlaces(ys, i, j);
      assert ys[i] in multiset(xs) && ys[j] in multiset(xs);
      var a :| 0 <= a < |xs| && xs[a] == ys[i];
      var b :| 0 <= b < |xs| && xs[b] == ys[j];
      assert a == b;
      OnePlace(xs, a);
    }
  }

  lemma TwoPlaces(ys: seq<Movement>, i: nat, j: nat)
    requires i < j < |ys|
    ensures ys[i] == ys[j] ==> multiset(ys)[ys[i]] >= 2
  {
    assert ys == ys[..i] + [ys[i]] + ys[i + 1..j] + [ys[j]] + ys[j + 1..];
  }

  lemma OnePlace(xs: seq<Movement>, a: nat)
    requires a < |xs| && DistinctKeys(xs)
    ensures multiset(xs)[xs[a]] == 1
  {
    assert xs == xs[..a] + [xs[a]] + xs[a + 1..];
    assert xs[a] !in xs[..a] && xs[a] !in xs[a + 1..];
  }

  /**
   * The ledger is a function of the rows, not of the order they were read in:
   * the movements come out identical, and with them every statement and every
   * purchase balance.
   */
  lemma RowOrderDoesNotMatter(
    collate: (string, string) -> bool, ps: seq<Purchase>, ps': seq<Purchase>, qs: seq<Payment>, qs': seq<Payment>, from: int, to: int)
    requires TotalOrder(collate) && DistinctIds(ps, qs)
    requires multiset(ps) == multiset(ps') && multiset(qs) == multiset(qs')
    ensures LoadMovements(collate, ps, qs) == LoadMovements(collate, ps', qs')
    ensures StatementOf(LoadMovements(collate, ps, qs), from, to) == StatementOf(LoadMovements(collate, ps', qs'), from, to)
    ensures BalanceMap(LoadMovements(collate, ps, qs)) == BalanceMap(LoadMovements(collate, ps', qs'))
  {
    var le := MovementOrder(collate);
    var raw, raw' := Unsorted(ps, qs), Unsorted(ps', qs');
    MapPermutes(MovementOfPurchase, ps, ps');
    MapPermutes(MovementOfPayment, qs, qs');
    OrderIsTotal(collate);
    SortSorts(raw, le);
    SortSorts(raw', le);
    LoadedIsChronological(collate, ps, qs);
    SortedIsUnique(Sort(raw, le), Sort(raw', le), le);
  }

  /** The purchases named by the balance map are exactly the customer's purchases. */
  lemma {:induction false} BalanceMapKeys(ms: seq<Movement>)
    ensures forall id :: id in BalanceMap(ms) <==> exists k :: 0 <= k < |ms| && ms[k].sortKey == PURCHASE_KEY + id
  {
    if ms != [] {
      var init, last := ms[..|ms| - 1], ms[|ms| - 1];
      BalanceMapKeys(init);
      forall id
        ensures id in BalanceMap(ms) <==> exists k :: 0 <= k < |ms| && ms[k].sortKey == PURCHASE_KEY + id
      {
        KeysApart(id, "");
        if IsPurchaseKey(last.sortKey) {
          SameIdSameKey(last.sortKey, PURCHASE_KEY + id);
        }
        if id in BalanceMap(init) {
          var k :| 0 <= k < |init| && init[k].sortKey == PURCHASE_KEY + id;
          assert ms[k].sortKey == PURCHASE_KEY + id;
        }
        if k :| 0 <= k < |ms| && ms[k].sortKey == PURCHASE_KEY + id {
          if k < |init| {
            assert init[k].sortKey == PURCHASE_KEY + id;
          }
        }
      }
    }
  }
}
