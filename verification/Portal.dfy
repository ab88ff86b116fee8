/**
 * The four tables that the staff lifecycle, customer assignment and session
 * rules share, and the invariants that tie them together.
 */
module Portal {
  import opened Option
  import opened RefreshTokens

  type Id = string
  type Region = string

  datatype Role = ADMIN | OFFICER | REGIONAL_ADMIN | LOADING_OFFICER | WAREHOUSE_OFFICER

  /** Roles created and retired here; the other one is mirrored from the ERP. */
  predicate Managed(role: Role) {
    role != WAREHOUSE_OFFICER
  }

  predicate RegionalAdminManaged(role: Role) {
    role == OFFICER || role == LOADING_OFFICER
  }

  datatype Staff = Staff(role: Role, email: string, isActive: bool, region: Option<Region>, hasPassword: bool)

  /** `failures` counts wrong passwords since the last right one or the last lock. */
  datatype Customer = Customer(region: Region, officer: Option<Id>, failures: nat, lockedUntil: Option<int>)

  function NewCustomer(region: Region): Customer {
    Customer(region, None, 0, None)
  }

  /** A CustomerOfficer row; the table is unique on (customer, staff). */
  datatype Join = Join(isPrimary: bool, assignedAt: int)

  type StaffTable = map<Id, Staff>
  type CustomerTable = map<Id, Customer>
  type JoinTable = map<(Id, Id), Join>

  datatype State = State(staff: StaffTable, customers: CustomerTable, joins: JoinTable, tokens: Tokens)

  /** The database the services write to. */
  class Database {
    var staff: StaffTable
    var customers: CustomerTable
    var joins: JoinTable
    var tokens: Tokens

    constructor ()
      ensures Snapshot() == State(map[], map[], map[], map[])
    {
      staff, customers, joins, tokens := map[], map[], map[], map[];
    }

    function Snapshot(): State
      reads this
    {
      State(staff, customers, joins, tokens)
    }
  }

  // ---------------------------------------------------------------- readings

  function Portfolio(s: State, officer: Id): set<Id> {
    set c | c in s.customers && s.customers[c].officer == Some(officer)
  }

  function ActiveAdmins(s: State): set<Id> {
    set x | x in s.staff && s.staff[x].role == ADMIN && s.staff[x].isActive
  }

  predicate IsPrimary(js: JoinTable, c: Id, o: Id) {
    (c, o) in js && js[(c, o)].isPrimary
  }

  predicate ActiveOfficer(staff: StaffTable, o: Id) {
    o in staff && staff[o].role == OFFICER && staff[o].isActive
  }

  /** `email` is unique on Staff, so a lookup by it has at most one answer. */
  ghost predicate UniqueEmails(staff: StaffTable) {
    forall x, y :: x in staff && y in staff && staff[x].email == staff[y].email ==> x == y
  }

  ghost function ByEmail(staff: StaffTable, email: string): (r: Option<Id>)
    ensures r.Some? ==> r.value in staff && staff[r.value].email == email
    ensures r.None? ==> forall x :: x in staff ==> staff[x].email != email
  {
    if x :| x in staff && staff[x].email == email then Some(x) else None
  }

  // ---------------------------------------------------------------- assignment

  function Point(customers: CustomerTable, cs: set<Id>, to: Id): CustomerTable {
    map c | c in customers :: if c in cs then customers[c].(officer := Some(to)) else customers[c]
  }

  /** The primary row of the officer a reassigned customer is leaving. */
  predicate Outgoing(js: JoinTable, customers: CustomerTable, cs: set<Id>, to: Id, k: (Id, Id)) {
    k in js && js[k].isPrimary && k.0 in cs && k.1 != to && k.0 in customers && customers[k.0].officer == Some(k.1)
  }

  /**
   * The join rows once every customer in `cs` has moved to `to`: the row of the
   * officer each one leaves is gone, `to` holds a primary row, promoted where a
   * secondary one existed, and every other row is as it was.
   */
  function Repoint(js: JoinTable, customers: CustomerTable, cs: set<Id>, to: Id, now: int): JoinTable {
    map k | k in js.Keys + (set c | c in cs :: (c, to)) && !Outgoing(js, customers, cs, to, k) ::
      if k.0 in cs && k.1 == to then
        if k in js then js[k].(isPrimary := true) else Join(true, now)
      else js[k]
  }

  /** Both sides of an assignment, written together for a set of customers. */
  function Assign(s: State, cs: set<Id>, to: Id, now: int): State {
    s.(customers := Point(s.customers, cs, to), joins := Repoint(s.joins, s.customers, cs, to, now))
  }

  // ---------------------------------------------------------------- invariants

  /** The pointer and the join rows state one fact: the primary rows of a customer are exactly its pointer. */
  ghost predicate Agrees(s: State) {
    (forall c, o :: c in s.customers ==> (IsPrimary(s.joins, c, o) <==> s.customers[c].officer == Some(o))) &&
    (forall c, o :: (c, o) in s.joins ==> c in s.customers)
  }

  ghost predicate HeldByActiveOfficers(s: State) {
    forall c :: c in s.customers && s.customers[c].officer.Some? ==> ActiveOfficer(s.staff, s.customers[c].officer.value)
  }

  ghost predicate RetiredHoldNoSession(s: State) {
    forall t :: t in s.tokens && s.tokens[t].owner.StaffOwner? && s.tokens[t].Live() ==>
      var x := s.tokens[t].owner.id;
      x in s.staff && s.staff[x].isActive
  }

  ghost predicate Consistent(s: State) {
    UniqueEmails(s.staff) && Agrees(s) && HeldByActiveOfficers(s) && RetiredHoldNoSession(s) && WellLinked(s.tokens)
  }

  // ---------------------------------------------------------------- laws of Assign

  lemma AssignKeepsAgreement(s: State, cs: set<Id>, to: Id, now: int)
    requires Agrees(s) && cs <= s.customers.Keys
    ensures Agrees(Assign(s, cs, to, now))
  {
    var t := Assign(s, cs, to, now);
    forall c, o | c in t.customers
      ensures IsPrimary(t.joins, c, o) <==> t.customers[c].officer == Some(o)
    {
      assert IsPrimary(s.joins, c, o) <==> s.customers[c].officer == Some(o);
      if c in cs && o == to {
        assert (c, to) in (set c | c in cs :: (c, to));
      }
    }
  }

  lemma AssignKeepsConsistency(s: State, cs: set<Id>, to: Id, now: int)
    requires Consistent(s) && cs <= s.customers.Keys && ActiveOfficer(s.staff, to)
    ensures Consistent(Assign(s, cs, to, now))
  {
    AssignKeepsAgreement(s, cs, to, now);
  }

  /** Rows of customers outside `cs`, and rows of officers who are neither the old nor the new one, are untouched. */
  lemma AssignLeavesOthers(s: State, cs: set<Id>, to: Id, now: int, c: Id, o: Id)
    requires c in s.customers
    requires c !in cs || (o != to && s.customers[c].officer != Some(o))
    ensures (c, o) in Assign(s, cs, to, now).joins <==> (c, o) in s.joins
    ensures (c, o) in s.joins ==> Assign(s, cs, to, now).joins[(c, o)] == s.joins[(c, o)]
    ensures c !in cs ==> Assign(s, cs, to, now).customers[c] == s.customers[c]
  {
    RepointAt(s.joins, s.customers, cs, to, now, c, o);
  }

  /** Moving two disjoint groups one after the other is moving them together. */
  lemma AssignInTurn(s: State, a: set<Id>, b: set<Id>, to: Id, now: int)
    requires a !! b && a <= s.customers.Keys && b <= s.customers.Keys
    ensures Assign(Assign(s, a, to, now), b, to, now) == Assign(s, a + b, to, now)
  {
    var s1 := Assign(s, a, to, now);
    var t, u := Assign(s1, b, to, now), Assign(s, a + b, to, now);
    assert t.customers == u.customers;
    RepointInTurn(s.joins, s.customers, s1.customers, a, b, to, now);
  }

  /** The join-row half, which needs the old pointers of the second group only. */
  lemma RepointInTurn(js: JoinTable, customers: CustomerTable, later: CustomerTable, a: set<Id>, b: set<Id>, to: Id, now: int)
    requires a !! b && customers.Keys == later.Keys
    requires forall c :: c in b && c in customers ==> later[c].officer == customers[c].officer
    ensures Repoint(Repoint(js, customers, a, to, now), later, b, to, now) == Repoint(js, customers, a + b, to, now)
  {
    var js1 := Repoint(js, customers, a, to, now);
    var t, u := Repoint(js1, later, b, to, now), Repoint(js, customers, a + b, to, now);
    forall c, o
      ensures (c, o) in t <==> (c, o) in u
      ensures (c, o) in t ==> t[(c, o)] == u[(c, o)]
    {
      RepointAt(js, customers, a, to, now, c, o);
      RepointAt(js1, later, b, to, now, c, o);
      RepointAt(js, customers, a + b, to, now, c, o);
    }
    assert forall k :: k in t ==> k == (k.0, k.1);
    assert forall k :: k in u ==> k == (k.0, k.1);
    assert t.Keys == u.Keys;
  }

  lemma RepointAt(js: JoinTable, customers: CustomerTable, cs: set<Id>, to: Id, now: int, c: Id, o: Id)
    ensures (c, o) in Repoint(js, customers, cs, to, now) <==>
            ((c, o) in js || (c in cs && o == to)) && !Outgoing(js, customers, cs, to, (c, o))
    ensures (c, o) in Repoint(js, customers, cs, to, now) ==>
              Repoint(js, customers, cs, to, now)[(c, o)] ==
              (if c in cs && o == to then if (c, o) in js then js[(c, o)].(isPrimary := true) else Join(true, now)
               else js[(c, o)])
  {
    var added := set c | c in cs :: (c, to);
    assert (c, o) in added <==> c in cs && o == to;
  }

  lemma AssignNone(s: State, to: Id, now: int)
    ensures Assign(s, {}, to, now) == s
  {
    var t := Assign(s, {}, to, now);
    assert t.customers == s.customers;
    forall c, o
      ensures (c, o) in t.joins <==> (c, o) in s.joins
      ensures (c, o) in s.joins ==> t.joins[(c, o)] == s.joins[(c, o)]
    {
      RepointAt(s.joins, s.customers, {}, to, now, c, o);
    }
    assert forall k :: k in t.joins ==> k == (k.0, k.1);
    assert forall k :: k in s.joins ==> k == (k.0, k.1);
    assert t.joins.Keys == s.joins.Keys;
  }

  /** Nobody's portfolio but the old and new officers' changes, and none of it is lost. */
  lemma AssignConservesPortfolios(s: State, cs: set<Id>, to: Id, now: int, o: Id)
    requires cs <= s.customers.Keys
    ensures Portfolio(Assign(s, cs, to, now), o) == if o == to then Portfolio(s, o) + cs else Portfolio(s, o) - cs
  {
  }
}
