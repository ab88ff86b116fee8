/** A customer's running balance, read off the credit feed by three queries. */
module AccountBalance {
  import opened Option
  import opened Grouping
  import opened Lists
  import opened Ordering

  type Code = string

  /** A date column of the feed: its place in text order, and the day it casts to where it is well formed. */
  datatype DateText = Null | Text(rank: int, day: Option<int>)

  /** One row of raw_customer_credit, with blank amounts already read as zero. */
  datatype Credit = Credit(
    id: int, isCustomerCredit: bool, code: Code, amt: real, amt1: real, pay: real,
    effective: DateText, ineffective: DateText, changedAt: Option<int>)

  // ---------------------------------------------------------------- the parts every form shares

  function BaseBalance(r: Credit): real {
    r.amt - r.pay
  }

  function DayOf(d: DateText): Option<int> {
    if d.Null? then None else d.day
  }

  /** Both dates well formed, and today between them, ends included. */
  predicate InForce(r: Credit, today: int) {
    DayOf(r.effective).Some? && DayOf(r.ineffective).Some? &&
    DayOf(r.effective).value <= today <= DayOf(r.ineffective).value
  }

  /** ORDER BY EFFECTIVE_DATE DESC NULLS LAST, id DESC. */
  predicate GovernsOver(a: Credit, b: Credit) {
    if a.effective.Null? != b.effective.Null? then b.effective.Null?
    else if a.effective.Text? && a.effective.rank != b.effective.rank then a.effective.rank > b.effective.rank
    else a.id >= b.id
  }

  function GoverningOrder(): (Credit, Credit) -> bool {
    (a, b) => GovernsOver(a, b)
  }

  /** WHERE object_type = 'CUSTOMER_CREDIT' AND CUSTOMER_CODE = code. */
  function OfCustomer(rows: seq<Credit>, code: Code): seq<Credit> {
    if rows == [] then []
    else (if rows[0].isCustomerCredit && rows[0].code == code then [rows[0]] else []) + OfCustomer(rows[1..], code)
  }

  function SumOfGrants(rows: seq<Credit>, today: int): real {
    if rows == [] then 0.0
    else (if InForce(rows[0], today) then rows[0].amt1 else 0.0) + SumOfGrants(rows[1..], today)
  }

  // ---------------------------------------------------------------- single-customer form

  function GoverningOf(rows: seq<Credit>, code: Code): Option<Credit> {
    var sorted := Sort(OfCustomer(rows, code), GoverningOrder());
    if sorted == [] then None else Some(sorted[0])
  }

  function TemporaryCredit(rows: seq<Credit>, code: Code, today: int): real {
    SumOfGrants(OfCustomer(rows, code), today)
  }

  function SingleBalance(rows: seq<Credit>, code: Code, today: int): Option<real> {
    match GoverningOf(rows, code)
    case None => None
    case Some(g) => Some(BaseBalance(g) + TemporaryCredit(rows, code, today))
  }

  // ---------------------------------------------------------------- batch form

  function OfCustomers(rows: seq<Credit>, codes: set<Code>): seq<Credit> {
    if rows == [] then []
    else (if rows[0].isCustomerCredit && rows[0].code in codes then [rows[0]] else []) + OfCustomers(rows[1..], codes)
  }

  /** ORDER BY CUSTOMER_CODE, EFFECTIVE_DATE DESC NULLS LAST, id DESC. */
  predicate Precedes(collate: (Code, Code) -> bool, a: Credit, b: Credit) {
    if a.code != b.code then collate(a.code, b.code) else GovernsOver(a, b)
  }

  function BatchOrder(collate: (Code, Code) -> bool): (Credit, Credit) -> bool {
    (a, b) => Precedes(collate, a, b)
  }

  /** DISTINCT ON (CUSTOMER_CODE): the first row of each code in the order given. */
  function DistinctOn(sorted: seq<Credit>): map<Code, Credit> {
    if sorted == [] then map[] else DistinctOn(sorted[1..])[sorted[0].code := sorted[0]]
  }

  /** SUM ... WHERE in force GROUP BY code: a code with no grant in force has no group. */
  function GroupedGrants(rows: seq<Credit>, today: int): map<Code, real> {
    if rows == [] then map[]
    else
      var rest := GroupedGrants(rows[1..], today);
      var r := rows[0];
      if InForce(r, today) then rest[r.code := r.amt1 + if r.code in rest then rest[r.code] else 0.0] else rest
  }

  function Governing(collate: (Code, Code) -> bool, rows: seq<Credit>, codes: set<Code>): map<Code, Credit> {
    DistinctOn(Sort(OfCustomers(rows, codes), BatchOrder(collate)))
  }

  function BatchBalances(collate: (Code, Code) -> bool, rows: seq<Credit>, codes: set<Code>, today: int): map<Code, real> {
    var governing := Governing(collate, rows, codes);
    var grants := GroupedGrants(OfCustomers(rows, codes), today);
    map c | c in governing :: BaseBalance(governing[c]) + if c in grants then grants[c] else 0.0
  }

  // ---------------------------------------------------------------- reconcile form

  function AllCodes(rows: seq<Credit>): set<Code> {
    set r | r in rows :: r.code
  }

  /** The rollup of the reconcile: governing records of the customers held, grants grouped over the whole feed. */
  function RollupBalances(collate: (Code, Code) -> bool, rows: seq<Credit>, held: set<Code>, today: int): map<Code, real> {
    var governing := Governing(collate, rows, held);
    var grants := GroupedGrants(OfCustomers(rows, AllCodes(rows)), today);
    map c | c in governing :: BaseBalance(governing[c]) + if c in grants then grants[c] else 0.0
  }

  datatype Customer = Customer(balance: real, updatedAt: int)

  /** The customers as a pass should leave them, by the single-customer query. */
  function Reconciled(customers: map<Code, Customer>, rows: seq<Credit>, today: int, now: int): map<Code, Customer> {
    map c | c in customers ::
      match SingleBalance(rows, c, today)
      case None => customers[c]
      case Some(b) =>
        if customers[c].balance == b then customers[c] else Customer(b, GoverningOf(rows, c).value.changedAt.GetOr(now))
  }

  class CustomerTable {
    /** Keyed by `erpId`, which is unique. */
    var customers: map<Code, Customer>

    constructor (customers: map<Code, Customer>)
      ensures this.customers == customers
    {
      this.customers := customers;
    }

    /** UPDATE ... FROM the batch rollup: only the rows whose balance differs are written. */
    method Reconcile(collate: (Code, Code) -> bool, rows: seq<Credit>, today: int, now: int) returns (updated: nat)
      requires TotalOrder(collate) && DistinctIds(rows)
      modifies this
      ensures customers == Reconciled(old(customers), rows, today, now)
      ensures updated == |set c | c in old(customers) && customers[c] != old(customers)[c]|
    {
      var governing := Governing(collate, rows, customers.Keys);
      var derived := RollupBalances(collate, rows, customers.Keys, today);
      RollupIsBatch(collate, rows, customers.Keys, today);
      TargetFromBatch(collate, customers, rows, today, now);
      BatchAnswersOnlyItsCodes(collate, rows, customers.Keys, today);
      ghost var target := Reconciled(customers, rows, today, now);
      updated := WriteWhereDifferent(derived, governing, now);
      assert customers == target;
    }

    /** SET ... WHERE the balance IS DISTINCT FROM the derived one. */
    method WriteWhereDifferent(derived: map<Code, real>, governing: map<Code, Credit>, now: int) returns (updated: nat)
      requires derived.Keys <= customers.Keys && derived.Keys <= governing.Keys
      modifies this
      ensures customers.Keys == old(customers).Keys
      ensures forall c :: c in old(customers) ==>
                customers[c] == if c in derived then Written(old(customers)[c], derived[c], governing[c], now) else old(customers)[c]
      ensures updated == |set c | c in old(customers) && customers[c] != old(customers)[c]|
    {
      ghost var before := customers;
      var left := derived.Keys;
      ghost var changed: set<Code> := {};
      updated := 0;
      while left != {}
        invariant left <= derived.Keys
        invariant customers.Keys == before.Keys
        invariant forall c :: c in before ==>
                    customers[c] == if c in derived && c !in left then Written(before[c], derived[c], governing[c], now) else before[c]
        invariant forall c :: c in changed <==> c in before && customers[c] != before[c]
        invariant updated == |changed|
      {
        var c :| c in left;
        if customers[c].balance != derived[c] {
          customers := customers[c := Customer(derived[c], governing[c].changedAt.GetOr(now))];
          updated := updated + 1;
          changed := changed + {c};
        }
        left := left - {c};
      }
      assert changed == set c | c in before && customers[c] != before[c];
    }
  }

  function Written(c: Customer, balance: real, governing: Credit, now: int): Customer {
    if c.balance == balance then c else Customer(balance, governing.changedAt.GetOr(now))
  }

  /** The batch rollup tells the reconcile exactly what the single query would. */
  lemma TargetFromBatch(collate: (Code, Code) -> bool, customers: map<Code, Customer>, rows: seq<Credit>, today: int, now: int)
    requires TotalOrder(collate) && DistinctIds(rows)
    ensures BatchBalances(collate, rows, customers.Keys, today).Keys <= Governing(collate, rows, customers.Keys).Keys
    ensures var governing := Governing(collate, rows, customers.Keys);
            var derived := BatchBalances(collate, rows, customers.Keys, today);
            forall c :: c in customers ==>
              Reconciled(customers, rows, today, now)[c] ==
              if c in derived then Written(customers[c], derived[c], governing[c], now) else customers[c]
  {
    forall c | c in customers
      ensures var governing := Governing(collate, rows, customers.Keys);
              var derived := BatchBalances(collate, rows, customers.Keys, today);
              Reconciled(customers, rows, today, now)[c] ==
              if c in derived then Written(customers[c], derived[c], governing[c], now) else customers[c]
    {
      BatchIsSingle(collate, rows, customers.Keys, today, c);
    }
  }

  // ---------------------------------------------------------------- all forms agree

  /** `id` is the feed table's primary key. */
  ghost predicate DistinctIds(rows: seq<Credit>) {
    forall i, j :: 0 <= i < j < |rows| ==> rows[i].id != rows[j].id
  }

  predicate IsOf(r: Credit, code: Code) {
    r.isCustomerCredit && r.code == code
  }

  /**
   * What "the governing record" means, on the columns: a record of the customer,
   * with none of theirs dated later, undated only if all of theirs are, and of
   * those with its date the one with the greatest id.
   */
  ghost predicate IsGoverning(rows: seq<Credit>, code: Code, g: Credit) {
    g in rows && IsOf(g, code) &&
    forall r :: r in rows && IsOf(r, code) ==>
      (g.effective.Null? ==> r.effective.Null?) &&
      (r.effective.Text? && g.effective.Text? ==> r.effective.rank <= g.effective.rank) &&
      (r.effective.Null? && g.effective.Null? ==> r.id <= g.id) &&
      (r.effective.Text? && g.effective.Text? && r.effective.rank == g.effective.rank ==> r.id <= g.id)
  }

  /** Outranking every record of the customer is being the governing one. */
  lemma FirstIsGoverning(rows: seq<Credit>, code: Code, g: Credit)
    requires g in rows && IsOf(g, code)
    requires forall r :: r in rows && IsOf(r, code) ==> GovernsOver(g, r)
    ensures IsGoverning(rows, code, g)
  {
  }

  lemma GoverningIsUnique(rows: seq<Credit>, code: Code, g: Credit, h: Credit)
    requires DistinctIds(rows) && IsGoverning(rows, code, g) && IsGoverning(rows, code, h)
    ensures g == h
  {
    assert IsOf(g, code) && IsOf(h, code);
    var i :| 0 <= i < |rows| && rows[i] == g;
    var j :| 0 <= j < |rows| && rows[j] == h;
  }

  lemma GoverningOrderIsTotal()
    ensures TotalPreorder(GoverningOrder())
  {
  }

  lemma BatchOrderIsTotal(collate: (Code, Code) -> bool)
    requires TotalOrder(collate)
    ensures TotalPreorder(BatchOrder(collate))
  {
  }

  lemma {:induction false} OfCustomerMembers(rows: seq<Credit>, code: Code)
    ensures forall r :: r in OfCustomer(rows, code) <==> r in rows && r.isCustomerCredit && r.code == code
  {
    if rows != [] {
      OfCustomerMembers(rows[1..], code);
      assert rows == [rows[0]] + rows[1..];
    }
  }

  lemma {:induction false} OfCustomersMembers(rows: seq<Credit>, codes: set<Code>)
    ensures forall r :: r in OfCustomers(rows, codes) <==> r in rows && r.isCustomerCredit && r.code in codes
  {
    if rows != [] {
      OfCustomersMembers(rows[1..], codes);
      assert rows == [rows[0]] + rows[1..];
    }
  }

  /** The single query's LIMIT 1 picks the governing record, and comes back empty exactly when there is no record. */
  lemma SinglePicksGoverning(rows: seq<Credit>, code: Code)
    ensures GoverningOf(rows, code).Some? ==> IsGoverning(rows, code, GoverningOf(rows, code).value)
    ensures GoverningOf(rows, code).None? <==> forall r :: r in rows ==> !(r.isCustomerCredit && r.code == code)
  {
    var mine := OfCustomer(rows, code);
    OfCustomerMembers(rows, code);
    GoverningOrderIsTotal();
    SortSorts(mine, GoverningOrder());
    HeadIsFirst(mine, GoverningOrder());
    if mine != [] {
      FirstIsGoverning(rows, code, Sort(mine, GoverningOrder())[0]);
    }
  }

  lemma HeadIsFirst(xs: seq<Credit>, le: (Credit, Credit) -> bool)
    requires TotalPreorder(le) && Sorted(Sort(xs, le), le) && multiset(Sort(xs, le)) == multiset(xs)
    ensures Sort(xs, le) == [] <==> xs == []
    ensures xs != [] ==> Sort(xs, le)[0] in xs && forall r :: r in xs ==> le(Sort(xs, le)[0], r)
  {
    var sorted := Sort(xs, le);
    SortKeepsElements(xs, le);
    if xs != [] {
      assert sorted[0] in multiset(xs);
      forall r | r in xs
        ensures le(sorted[0], r)
      {
        assert r in multiset(sorted);
        var k :| 0 <= k < |sorted| && sorted[k] == r;
      }
    }
  }

  /** DISTINCT ON keeps, for each code, the first of its rows. */
  lemma {:induction false} DistinctOnKeepsFirst(sorted: seq<Credit>, le: (Credit, Credit) -> bool, c: Code)
    requires TotalPreorder(le) && Sorted(sorted, le)
    ensures c in DistinctOn(sorted) <==> exists r :: r in sorted && r.code == c
    ensures c in DistinctOn(sorted) ==>
              var g := DistinctOn(sorted)[c];
              g in sorted && g.code == c && forall r :: r in sorted && r.code == c ==> le(g, r)
  {
    if sorted != [] {
      DistinctOnKeepsFirst(sorted[1..], le, c);
      assert sorted == [sorted[0]] + sorted[1..];
      if sorted[0].code == c {
        assert sorted[0] in sorted;
        forall r | r in sorted
          ensures le(sorted[0], r)
        {
          var k :| 0 <= k < |sorted| && sorted[k] == r;
        }
      }
    }
  }

  function GroupTotal(rows: seq<Credit>, today: int, c: Code): real {
    var grants := GroupedGrants(rows, today);
    if c in grants then grants[c] else 0.0
  }

  lemma GroupTotalStep(r: Credit, rest: seq<Credit>, today: int, c: Code)
    ensures GroupTotal([r] + rest, today, c) == GroupTotal(rest, today, c) + if r.code == c && InForce(r, today) then r.amt1 else 0.0
  {
    assert ([r] + rest)[1..] == rest;
  }

  /** Grouping the whole batch and filtering one customer's rows sum the same grants. */
  lemma {:induction false} GroupedIsFiltered(rows: seq<Credit>, codes: set<Code>, today: int, c: Code)
    requires c in codes
    ensures GroupTotal(OfCustomers(rows, codes), today, c) == SumOfGrants(OfCustomer(rows, c), today)
  {
    if rows != [] {
      GroupedIsFiltered(rows[1..], codes, today, c);
      SumSplits(rows, c, today);
      var r, rest := rows[0], OfCustomers(rows[1..], codes);
      if r.isCustomerCredit && r.code in codes {
        GroupTotalStep(r, rest, today, c);
      } else {
        assert [] + rest == rest;
      }
    }
  }

  lemma BatchPicksGoverning(collate: (Code, Code) -> bool, rows: seq<Credit>, codes: set<Code>, c: Code)
    requires TotalOrder(collate) && c in codes
    ensures c in Governing(collate, rows, codes) ==> IsGoverning(rows, c, Governing(collate, rows, codes)[c])
    ensures c !in Governing(collate, rows, codes) <==> forall r :: r in rows ==> !(r.isCustomerCredit && r.code == c)
  {
    var le := BatchOrder(collate);
    var mine := OfCustomers(rows, codes);
    OfCustomersMembers(rows, codes);
    BatchOrderIsTotal(collate);
    SortSorts(mine, le);
    SameMembers(Sort(mine, le), mine);
    DistinctOnKeepsFirst(Sort(mine, le), le, c);
    if c in Governing(collate, rows, codes) {
      var g := Governing(collate, rows, codes)[c];
      forall r | r in rows && IsOf(r, c)
        ensures GovernsOver(g, r)
      {
        assert le(g, r);
      }
      FirstIsGoverning(rows, c, g);
    }
  }

  /** The figure on a list row is the figure on the customer's own profile, and is absent exactly when that one is. */
  lemma BatchIsSingle(collate: (Code, Code) -> bool, rows: seq<Credit>, codes: set<Code>, today: int, c: Code)
    requires TotalOrder(collate) && DistinctIds(rows) && c in codes
    ensures c in BatchBalances(collate, rows, codes, today) <==> SingleBalance(rows, c, today).Some?
    ensures c in BatchBalances(collate, rows, codes, today) ==>
              SingleBalance(rows, c, today) == Some(BatchBalances(collate, rows, codes, today)[c]) &&
              GoverningOf(rows, c) == Some(Governing(collate, rows, codes)[c])
  {
    SinglePicksGoverning(rows, c);
    BatchPicksGoverning(collate, rows, codes, c);
    GroupedIsFiltered(rows, codes, today, c);
    if c in Governing(collate, rows, codes) {
      GoverningIsUnique(rows, c, GoverningOf(rows, c).value, Governing(collate, rows, codes)[c]);
    }
  }

  /** The batch answers for no code it was not asked about. */
  lemma BatchAnswersOnlyItsCodes(collate: (Code, Code) -> bool, rows: seq<Credit>, codes: set<Code>, today: int)
    requires TotalOrder(collate)
    ensures BatchBalances(collate, rows, codes, today).Keys <= codes
  {
    var le := BatchOrder(collate);
    OfCustomersMembers(rows, codes);
    BatchOrderIsTotal(collate);
    SortSorts(OfCustomers(rows, codes), le);
    SameMembers(Sort(OfCustomers(rows, codes), le), OfCustomers(rows, codes));
    forall c | c in BatchBalances(collate, rows, codes, today)
      ensures c in codes
    {
      DistinctOnKeepsFirst(Sort(OfCustomers(rows, codes), le), le, c);
    }
  }

  /** Grouping the grants of the whole feed, or only those of the customers held, makes no difference to a customer held. */
  lemma RollupIsBatch(collate: (Code, Code) -> bool, rows: seq<Credit>, held: set<Code>, today: int)
    requires TotalOrder(collate)
    ensures RollupBalances(collate, rows, held, today) == BatchBalances(collate, rows, held, today)
  {
    BatchAnswersOnlyItsCodes(collate, rows, held, today);
    forall c | c in Governing(collate, rows, held)
      ensures GroupTotal(OfCustomers(rows, AllCodes(rows)), today, c) == GroupTotal(OfCustomers(rows, held), today, c)
    {
      assert c in BatchBalances(collate, rows, held, today);
      BatchPicksGoverning(collate, rows, held, c);
      assert Governing(collate, rows, held)[c] in rows;
      GroupedIsFiltered(rows, AllCodes(rows), today, c);
      GroupedIsFiltered(rows, held, today, c);
    }
  }

  // ---------------------------------------------------------------- the balance, on the feed's columns

  /** The credit one record grants a customer today, by its own columns. */
  function Granted(code: Code, today: int): Credit -> real {
    (r: Credit) =>
      if IsOf(r, code) && r.effective.Text? && r.ineffective.Text? && r.effective.day.Some? && r.ineffective.day.Some? &&
         r.effective.day.value <= today && today <= r.ineffective.day.value then r.amt1 else 0.0
  }

  lemma {:induction false} GrantsAreGranted(rows: seq<Credit>, code: Code, today: int)
    ensures TemporaryCredit(rows, code, today) == SumOf(Granted(code, today), rows)
  {
    if rows != [] {
      var init, r := rows[..|rows| - 1], rows[|rows| - 1];
      GrantsAreGranted(init, code, today);
      OfCustomerPermutes(rows, code, today, |rows| - 1);
      assert init + rows[|rows|..] == init;
    }
  }

  /**
   * The balance in terms of the feed's columns: the governing record's amount less
   * its payments, and every grant whose dates hold today.
   */
  lemma BalanceOnColumns(rows: seq<Credit>, code: Code, today: int, g: Credit)
    requires DistinctIds(rows) && IsGoverning(rows, code, g)
    ensures GoverningOf(rows, code) == Some(g)
    ensures SingleBalance(rows, code, today) == Some(g.amt - g.pay + SumOf(Granted(code, today), rows))
  {
    SinglePicksGoverning(rows, code);
    assert IsOf(g, code);
    GoverningIsUnique(rows, code, GoverningOf(rows, code).value, g);
    GrantsAreGranted(rows, code, today);
  }

  /** The batch, the rollup and the reconcile give that balance too, and the stamp of a balance that moves is the record's own. */
  lemma EveryFormOnColumns(
    collate: (Code, Code) -> bool, rows: seq<Credit>, customers: map<Code, Customer>, code: Code, today: int, now: int, g: Credit)
    requires TotalOrder(collate) && DistinctIds(rows) && code in customers && IsGoverning(rows, code, g)
    ensures var balance, batch := g.amt - g.pay + SumOf(Granted(code, today), rows), BatchBalances(collate, rows, customers.Keys, today);
            code in batch && batch[code] == balance && RollupBalances(collate, rows, customers.Keys, today) == batch &&
            Reconciled(customers, rows, today, now)[code] ==
            if customers[code].balance == balance then customers[code] else Customer(balance, g.changedAt.GetOr(now))
  {
    BalanceOnColumns(rows, code, today, g);
    BatchIsSingle(collate, rows, customers.Keys, today, code);
    RollupIsBatch(collate, rows, customers.Keys, today);
  }

  // ---------------------------------------------------------------- what a pass keeps

  /** A second pass over the same feed on the same day writes nothing; the first leaves customers without a record alone. */
  lemma ReconcileIsIdempotent(customers: map<Code, Customer>, rows: seq<Credit>, today: int, now: int, later: int)
    ensures var once := Reconciled(customers, rows, today, now);
            Reconciled(once, rows, today, later) == once &&
            (forall c :: c in customers && SingleBalance(rows, c, today).None? ==> once[c] == customers[c]) &&
            (forall c :: c in customers && SingleBalance(rows, c, today).Some? ==> Some(once[c].balance) == SingleBalance(rows, c, today)) &&
            (forall c :: c in customers && once[c].balance == customers[c].balance ==> once[c].updatedAt == customers[c].updatedAt)
  {
  }

  lemma {:induction false} OfCustomerPermutes(rows: seq<Credit>, code: Code, today: int, k: nat)
    requires k < |rows|
    ensures var rest := rows[..k] + rows[k + 1..];
            SumOfGrants(OfCustomer(rows, code), today) ==
            SumOfGrants(OfCustomer(rest, code), today) +
            if rows[k].isCustomerCredit && rows[k].code == code && InForce(rows[k], today) then rows[k].amt1 else 0.0
  {
    var rest := rows[..k] + rows[k + 1..];
    SumSplits(rows, code, today);
    if k == 0 {
      assert rest == rows[1..];
    } else {
      OfCustomerPermutes(rows[1..], code, today, k - 1);
      assert rest[1..] == rows[1..][..k - 1] + rows[1..][k..];
      assert rest[0] == rows[0];
      SumSplits(rest, code, today);
    }
  }

  lemma SumSplits(rows: seq<Credit>, code: Code, today: int)
    requires rows != []
    ensures SumOfGrants(OfCustomer(rows, code), today) ==
            SumOfGrants(OfCustomer(rows[1..], code), today) +
            if rows[0].isCustomerCredit && rows[0].code == code && InForce(rows[0], today) then rows[0].amt1 else 0.0
  {
    var mine := OfCustomer(rows[1..], code);
    if rows[0].isCustomerCredit && rows[0].code == code {
      assert ([rows[0]] + mine)[1..] == mine;
    } else {
      assert [] + mine == mine;
    }
  }

  lemma {:induction false} GrantsIgnoreRowOrder(rows: seq<Credit>, others: seq<Credit>, code: Code, today: int)
    requires multiset(rows) == multiset(others)
    ensures SumOfGrants(OfCustomer(rows, code), today) == SumOfGrants(OfCustomer(others, code), today)
  {
    SameLength(rows, others);
    if rows != [] {
      var k, rest := HeadElsewhere(rows, others);
      GrantsIgnoreRowOrder(rows[1..], rest, code, today);
      OfCustomerPermutes(others, code, today, k);
      SumSplits(rows, code, today);
    }
  }

  /** The balance is a function of the feed's rows, not of the order they are read in. */
  lemma BalanceIgnoresRowOrder(rows: seq<Credit>, others: seq<Credit>, code: Code, today: int)
    requires DistinctIds(rows) && multiset(rows) == multiset(others)
    ensures SingleBalance(rows, code, today) == SingleBalance(others, code, today)
  {
    SameGoverning(rows, others, code);
    GrantsIgnoreRowOrder(rows, others, code, today);
  }

  lemma GoverningPermutes(rows: seq<Credit>, others: seq<Credit>, code: Code, g: Credit)
    requires (forall r :: r in rows <==> r in others) && IsGoverning(others, code, g)
    ensures IsGoverning(rows, code, g)
  {
  }

  lemma SameGoverning(rows: seq<Credit>, others: seq<Credit>, code: Code)
    requires DistinctIds(rows) && multiset(rows) == multiset(others)
    ensures GoverningOf(rows, code) == GoverningOf(others, code)
  {
    SinglePicksGoverning(rows, code);
    SinglePicksGoverning(others, code);
    SameMembers(rows, others);
    if GoverningOf(others, code).Some? {
      GoverningPermutes(rows, others, code, GoverningOf(others, code).value);
      GoverningIsUnique(rows, code, GoverningOf(rows, code).value, GoverningOf(others, code).value);
    }
  }

  // ---------------------------------------------------------------- the formula for a decoded payload

  /** A field value as the webhook holds it; None is missing, blank or not a number. */
  type CreditValue = Option<real>

  function Amount(v: CreditValue): real {
    v.GetOr(0.0)
  }

  function Sum(vs: seq<CreditValue>): real {
    if vs == [] then 0.0 else Amount(vs[0]) + Sum(vs[1..])
  }

  function RunningBalanceFromCredit(creditAmt: CreditValue, creditAmt1: seq<CreditValue>, creditPay: CreditValue): real {
    Amount(creditAmt) + Sum(creditAmt1) - Amount(creditPay)
  }

  function GrantsInForce(rows: seq<Credit>, today: int): seq<CreditValue> {
    if rows == [] then []
    else (if InForce(rows[0], today) then [Some(rows[0].amt1)] else []) + GrantsInForce(rows[1..], today)
  }

  lemma {:induction false} SumOfGrantsInForce(rows: seq<Credit>, today: int)
    ensures Sum(GrantsInForce(rows, today)) == SumOfGrants(rows, today)
  {
    if rows != [] {
      SumOfGrantsInForce(rows[1..], today);
      var rest := GrantsInForce(rows[1..], today);
      if InForce(rows[0], today) {
        assert ([Some(rows[0].amt1)] + rest)[1..] == rest;
      } else {
        assert [] + rest == rest;
      }
    }
  }

  /** The webhook's formula, fed the governing record and every grant in force, is the query's answer. */
  lemma FormulaIsQuery(rows: seq<Credit>, code: Code, today: int)
    requires GoverningOf(rows, code).Some?
    ensures var g := GoverningOf(rows, code).value;
            SingleBalance(rows, code, today) ==
            Some(RunningBalanceFromCredit(Some(g.amt), GrantsInForce(OfCustomer(rows, code), today), Some(g.pay)))
  {
    SumOfGrantsInForce(OfCustomer(rows, code), today);
  }
}
