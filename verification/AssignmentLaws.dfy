/** What the assignment routes promise of one another. */
module AssignmentLaws {
  import opened Option
  import opened RefreshTokens
  import opened Portal
  import opened AdminService
  import opened DefaultOfficerService

  // ---------------------------------------------------------------- the bulk move

  /** A bulk move empties the source, adds exactly its portfolio to the target, and touches nobody else's. */
  lemma BulkMoveConserves(s: State, from: Id, to: Id, now: int)
    requires ReassignAllGuard(s, from, to).None?
    ensures var (t, r) := ReassignAllStep(s, from, to, now);
            Portfolio(t, from) == {} &&
            |Portfolio(t, to)| == |Portfolio(s, to)| + |Portfolio(s, from)| &&
            r == Ok(|Portfolio(s, from)|) &&
            forall o :: o != from && o != to ==> Portfolio(t, o) == Portfolio(s, o)
  {
    var moved := Portfolio(s, from);
    AssignConservesPortfolios(s, moved, to, now, to);
    assert Portfolio(s, to) !! moved;
    AssignConservesPortfolios(s, moved, to, now, from);
    forall o | o != from && o != to
      ensures Portfolio(Assign(s, moved, to, now), o) == Portfolio(s, o)
    {
      AssignConservesPortfolios(s, moved, to, now, o);
    }
  }

  /** The join rows of a bulk move: secondary rows of every other officer stay as they were, row for row. */
  lemma BulkMoveLeavesSecondaries(s: State, from: Id, to: Id, now: int, c: Id, o: Id)
    requires c in s.customers && o != from && o != to
    ensures var t := ReassignAllStep(s, from, to, now).0;
            ((c, o) in t.joins <==> (c, o) in s.joins) && ((c, o) in s.joins ==> t.joins[(c, o)] == s.joins[(c, o)])
  {
    if ReassignAllGuard(s, from, to).None? {
      AssignLeavesOthers(s, Portfolio(s, from), to, now, c, o);
    }
  }

  /**
   * An OFFICER's deactivation is refused for their customers exactly while they
   * hold some, and moving them all first is always enough: the account goes
   * inactive, its sessions end, and no assignment changes.
   */
  lemma MoveThenRetire(s: State, from: Id, to: Id, actor: Option<Id>, now: int, later: int)
    requires Consistent(s)
    requires ReassignAllGuard(s, from, to).None? && s.staff[from].role == OFFICER && actor != Some(from)
    ensures SetActiveGuard(s, from, false, actor, None) ==
            if Portfolio(s, from) == {} then None else Some(OfficerHasCustomers(|Portfolio(s, from)|))
    ensures var t := ReassignAllStep(s, from, to, now).0;
            var (u, r) := SetActiveStep(t, from, false, actor, None, later);
            r == Ok(s.staff[from].isActive) && !u.staff[from].isActive && u.customers == t.customers && u.joins == t.joins &&
            forall k :: k in u.tokens && u.tokens[k].owner == StaffOwner(from) ==> !u.tokens[k].Live()
  {
    BulkMoveConserves(s, from, to, now);
  }

  // ---------------------------------------------------------------- the bulk selection

  lemma {:induction false} ReportSplitsIds(s: State, ids: seq<Id>, to: Id, scope: Option<Region>, c: Id)
    ensures var r := ReportOn(s, ids, to, scope);
            (c in r.succeeded <==> c in ids && ItemSucceeds(s, c, to, scope)) &&
            (forall code :: (c, code) in r.failed <==> c in ids && !ItemSucceeds(s, c, to, scope) && ItemGuard(s, c, to, scope) == Some(code)) &&
            |r.succeeded| + |r.failed| == |ids|
  {
    if ids != [] {
      ReportSplitsIds(s, ids[..|ids| - 1], to, scope, c);
      assert ids == ids[..|ids| - 1] + [ids[|ids| - 1]];
    }
  }

  /** An item's verdict decides what the batch does to its customer. */
  lemma BulkOutcome(s: State, ids: seq<Id>, to: Id, scope: Option<Region>, now: int, c: Id)
    requires c in ids
    ensures var t := Assign(s, MovedBy(s, ids, to, scope), to, now);
            if ItemSucceeds(s, c, to, scope) then c in t.customers && t.customers[c].officer == Some(to)
            else (c in t.customers <==> c in s.customers) && (c in s.customers ==> t.customers[c] == s.customers[c])
  {
    assert c in MovedBy(s, ids, to, scope) <==> ItemGuard(s, c, to, scope).None?;
  }

  /** Each distinct id is reported once; the ones reported as successes hold the officer, the others are as they were. */
  lemma BulkReportIsTrue(s: State, ids: seq<Id>, to: Id, scope: Option<Region>, now: int, c: Id)
    requires BulkAllowed(s, to, scope) && c in ids
    ensures var (t, r) := BulkReassignStep(s, ids, to, scope, now);
            if c in r.value.succeeded then
              c in t.customers && t.customers[c].officer == Some(to) && forall code :: (c, code) !in r.value.failed
            else
              ItemGuard(s, c, to, scope).Some? && (c, ItemGuard(s, c, to, scope).value) in r.value.failed &&
              (c in t.customers <==> c in s.customers) && (c in s.customers ==> t.customers[c] == s.customers[c])
    ensures var r := BulkReassignStep(s, ids, to, scope, now).1;
            |r.value.succeeded| + |r.value.failed| == |Dedup(ids)|
  {
    ReportSplitsIds(s, Dedup(ids), to, scope, c);
    BulkOutcome(s, ids, to, scope, now, c);
  }

  lemma VerdictsAfterBulk(s: State, ids: seq<Id>, to: Id, scope: Option<Region>, now: int, c: Id)
    requires c in ids
    ensures var t := Assign(s, MovedBy(s, ids, to, scope), to, now);
            ItemGuard(t, c, to, scope) ==
            if ItemGuard(s, c, to, scope).None? then Some(AlreadyAssigned) else ItemGuard(s, c, to, scope)
  {
    var moved := MovedBy(s, ids, to, scope);
    if c in moved {
      MovedIsAssigned(s, moved, to, now, c, scope);
    } else {
      GuardsAreIndependent(s, moved, to, now, c, scope);
    }
  }

  lemma {:induction false} SameVerdictsSameReport(s: State, t: State, ids: seq<Id>, to: Id, scope: Option<Region>)
    requires forall c :: c in ids ==>
                           if ItemGuard(s, c, to, scope).None? then ItemGuard(t, c, to, scope) == Some(AlreadyAssigned)
                           else ItemGuard(t, c, to, scope) == ItemGuard(s, c, to, scope)
    ensures ReportOn(t, ids, to, scope) == ReportOn(s, ids, to, scope)
  {
    if ids != [] {
      SameVerdictsSameReport(s, t, ids[..|ids| - 1], to, scope);
    }
  }

  /** Running a batch again, at any later time, changes nothing and reports exactly the same. */
  lemma BulkRerunIsQuiet(s: State, ids: seq<Id>, to: Id, scope: Option<Region>, now: int, later: int)
    ensures var (t, r) := BulkReassignStep(s, ids, to, scope, now);
            BulkReassignStep(t, ids, to, scope, later) == (t, r)
  {
    if BulkAllowed(s, to, scope) {
      var t := BulkReassignStep(s, ids, to, scope, now).0;
      forall c | c in ids
        ensures ItemGuard(t, c, to, scope) ==
                if ItemGuard(s, c, to, scope).None? then Some(AlreadyAssigned) else ItemGuard(s, c, to, scope)
      {
        VerdictsAfterBulk(s, ids, to, scope, now, c);
      }
      SameVerdictsSameReport(s, t, Dedup(ids), to, scope);
      assert MovedBy(t, ids, to, scope) == {};
      AssignNone(t, to, later);
    }
  }

  // ---------------------------------------------------------------- the default officer

  /** A pass leaves every assigned customer, and every join row of theirs, exactly as an administrator left them. */
  lemma ReconcileNeverOverrides(s: State, email: string, region: Region, busy: bool, now: int, c: Id, o: Id)
    requires c in s.customers && s.customers[c].officer.Some?
    ensures var t := ReconcileStep(s, email, region, busy, now).0;
            t.customers[c] == s.customers[c] &&
            ((c, o) in t.joins <==> (c, o) in s.joins) && ((c, o) in s.joins ==> t.joins[(c, o)] == s.joins[(c, o)])
  {
    var officer := ResolveOfficer(s.staff, email);
    if officer.Some? {
      AssignLeavesOthers(s, Unassigned(s, region), officer.value, now, c, o);
    }
  }

  /** After a pass that ran, nobody in the region is unassigned, and another pass does nothing. */
  lemma ReconcileIsIdempotent(s: State, email: string, region: Region, now: int, later: int)
    requires ResolveOfficer(s.staff, email).Some?
    ensures var t := ReconcileStep(s, email, region, false, now).0;
            Unassigned(t, region) == {} && ReconcileStep(t, email, region, false, later) == (t, SyncResult(true, false, 0))
  {
    var t := ReconcileStep(s, email, region, false, now).0;
    assert Unassigned(t, region) == {};
    AssignNone(t, ResolveOfficer(s.staff, email).value, later);
  }

  ghost function AssignEach(s: State, email: string, region: Region, cs: seq<Id>, now: int): State {
    if cs == [] then s
    else AssignIfUnassignedStep(AssignEach(s, email, region, cs[..|cs| - 1], now), email, region, cs[|cs| - 1], now).0
  }

  function UnassignedAmong(s: State, region: Region, cs: seq<Id>): set<Id> {
    set c | c in cs && c in Unassigned(s, region)
  }

  lemma UnassignedAmongAppend(s: State, region: Region, cs: seq<Id>, c: Id)
    ensures UnassignedAmong(s, region, cs + [c]) == UnassignedAmong(s, region, cs) + if c in Unassigned(s, region) then {c} else {}
  {
  }

  lemma StillUnassigned(s: State, region: Region, moved: set<Id>, o: Id, now: int)
    ensures Unassigned(Assign(s, moved, o, now), region) == Unassigned(s, region) - moved
  {
  }

  lemma {:induction false} AssignEachIsAssign(s: State, email: string, region: Region, cs: seq<Id>, now: int)
    requires ResolveOfficer(s.staff, email).Some?
    ensures AssignEach(s, email, region, cs, now) ==
            Assign(s, UnassignedAmong(s, region, cs), ResolveOfficer(s.staff, email).value, now)
  {
    var o := ResolveOfficer(s.staff, email).value;
    if cs == [] {
      AssignNone(s, o, now);
      assert UnassignedAmong(s, region, cs) == {};
    } else {
      var init, last := cs[..|cs| - 1], cs[|cs| - 1];
      assert cs == init + [last];
      AssignEachIsAssign(s, email, region, init, now);
      UnassignedAmongAppend(s, region, init, last);
      AssignOneMore(s, region, UnassignedAmong(s, region, init), last, o, now);
    }
  }

  /** One more single assignment after a set of them. */
  lemma AssignOneMore(s: State, region: Region, done: set<Id>, c: Id, o: Id, now: int)
    requires done <= Unassigned(s, region)
    ensures var t := Assign(s, done, o, now);
            (if c in Unassigned(t, region) then Assign(t, {c}, o, now) else t) ==
            Assign(s, done + (if c in Unassigned(s, region) then {c} else {}), o, now)
  {
    StillUnassigned(s, region, done, o, now);
    if c in Unassigned(s, region) && c !in done {
      AssignInTurn(s, done, {c}, o, now);
    } else if c in done {
      assert done + {c} == done;
    } else {
      assert done + {} == done;
    }
  }

  /** The set-based statement is the create path's single assignment, run over every customer in any order. */
  lemma ReconcileIsAssignEach(s: State, email: string, region: Region, cs: seq<Id>, now: int)
    requires forall c :: c in Unassigned(s, region) ==> c in cs
    ensures AssignEach(s, email, region, cs, now) == ReconcileStep(s, email, region, false, now).0
  {
    if ResolveOfficer(s.staff, email).Some? {
      AssignEachIsAssign(s, email, region, cs, now);
      assert UnassignedAmong(s, region, cs) == Unassigned(s, region);
    } else {
      NoOfficerNoChange(s, email, region, cs, now);
    }
  }

  lemma {:induction false} NoOfficerNoChange(s: State, email: string, region: Region, cs: seq<Id>, now: int)
    requires ResolveOfficer(s.staff, email).None?
    ensures AssignEach(s, email, region, cs, now) == s
  {
    if cs != [] {
      NoOfficerNoChange(s, email, region, cs[..|cs| - 1], now);
    }
  }
}
