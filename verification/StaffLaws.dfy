/** When each call on staff and assignments goes through, and what it leaves behind, on the tables' columns. */
module StaffLaws {
  import opened Option
  import opened RefreshTokens
  import opened Portal
  import opened AdminService
  import opened DefaultOfficerService

  // ---------------------------------------------------------------- assignments

  /** An active OFFICER of this region, if one is named. */
  predicate Serves(s: State, o: Id, region: Option<Region>) {
    o in s.staff && s.staff[o].role == OFFICER && s.staff[o].isActive && (region.Some? ==> s.staff[o].region == region)
  }

  /**
   * `t` is `s` with these customers moved to `to`. Their pointers name it; its
   * join rows are primary, old ones with the date they had; the primary row of
   * the officer a customer leaves is gone; nothing else is different.
   */
  ghost predicate Moved(s: State, t: State, cs: set<Id>, to: Id, now: int)
    requires cs <= s.customers.Keys
  {
    t == s.(customers := t.customers, joins := t.joins) && t.customers.Keys == s.customers.Keys &&
    (forall c :: c in s.customers ==> t.customers[c] == if c in cs then s.customers[c].(officer := Some(to)) else s.customers[c]) &&
    (forall c :: c in cs ==>
       (c, to) in t.joins && t.joins[(c, to)] == Join(true, if (c, to) in s.joins then s.joins[(c, to)].assignedAt else now)) &&
    (forall c, o :: !(c in cs && o == to) ==>
       ((c, o) in t.joins <==> (c, o) in s.joins && !(c in cs && s.customers[c].officer == Some(o) && s.joins[(c, o)].isPrimary)) &&
       ((c, o) in t.joins ==> t.joins[(c, o)] == s.joins[(c, o)]))
  }

  lemma AssignMoves(s: State, cs: set<Id>, to: Id, now: int)
    requires cs <= s.customers.Keys
    ensures Moved(s, Assign(s, cs, to, now), cs, to, now)
  {
    forall c, o
      ensures var t := Assign(s, cs, to, now);
              if c in cs && o == to then
                (c, o) in t.joins && t.joins[(c, o)] == Join(true, if (c, o) in s.joins then s.joins[(c, o)].assignedAt else now)
              else
                ((c, o) in t.joins <==> (c, o) in s.joins && !(c in cs && s.customers[c].officer == Some(o) && s.joins[(c, o)].isPrimary)) &&
                ((c, o) in t.joins ==> t.joins[(c, o)] == s.joins[(c, o)])
    {
      RepointAt(s.joins, s.customers, cs, to, now, c, o);
    }
  }

  /** One customer: moved exactly when they exist, the officer serves their region, and they are not theirs already. */
  lemma ReassignedIff(s: State, c: Id, to: Id, now: int)
    ensures var (t, r) := ReassignStep(s, c, to, now);
            var known := c in s.customers;
            var serves := known && Serves(s, to, Some(s.customers[c].region));
            (r.Ok? <==> serves && s.customers[c].officer != Some(to)) &&
            (r == Refused(AlreadyAssigned) <==> serves && s.customers[c].officer == Some(to)) &&
            (r == Refused(CustomerNotFound) <==> !known) && (r == Refused(OfficerNotFound) <==> known && !serves) &&
            if r.Ok? then r == Ok(true) && Moved(s, t, {c}, to, now) else t == s
  {
    if c in s.customers {
      AssignMoves(s, {c}, to, now);
    }
  }

  /** A whole portfolio: moved exactly when source and target differ, the source exists, and the target serves its region, if it has one. */
  lemma PortfolioMovedIff(s: State, from: Id, to: Id, now: int)
    ensures var (t, r) := ReassignAllStep(s, from, to, now);
            var serves := from in s.staff && Serves(s, to, s.staff[from].region);
            (r.Ok? <==> from != to && serves) &&
            (r == Refused(SameOfficer) <==> from == to) && (r == Refused(NotFound) <==> from != to && from !in s.staff) &&
            (r == Refused(TargetNotEligible) <==> from != to && from in s.staff && !serves) &&
            var held := set c | c in s.customers && s.customers[c].officer == Some(from);
            if r.Ok? then r == Ok(|held|) && Moved(s, t, held, to, now) else t == s
  {
    AssignMoves(s, Portfolio(s, from), to, now);
  }

  /** A batch: a regional administrator's officer must be of their region, and each customer is judged alone, as at the start. */
  lemma BulkMovedIff(s: State, ids: seq<Id>, to: Id, scope: Option<Region>, now: int)
    ensures var (t, r) := BulkReassignStep(s, ids, to, scope, now);
            var mine := set c | c in ids && c in s.customers && (scope.Some? ==> s.customers[c].region == scope.value);
            (r.Refused? <==> scope.Some? && !(to in s.staff && s.staff[to].region == scope)) && (r.Refused? ==> r == Refused(RegionNotAllowed)) &&
            if r.Refused? then t == s
            else
              var moving := set c | c in mine && Serves(s, to, Some(s.customers[c].region)) && s.customers[c].officer != Some(to);
              Moved(s, t, moving, to, now)
  {
    var mine := set c | c in ids && c in s.customers && (scope.Some? ==> s.customers[c].region == scope.value);
    var moving := set c | c in mine && Serves(s, to, Some(s.customers[c].region)) && s.customers[c].officer != Some(to);
    assert MovedBy(s, ids, to, scope) == moving;
    AssignMoves(s, moving, to, now);
  }

  /** Why an item of a batch fails, and that one already there does not. */
  lemma BulkItemCode(s: State, c: Id, to: Id, scope: Option<Region>)
    ensures var mine := c in s.customers && (scope.Some? ==> s.customers[c].region == scope.value);
            var serves := mine && Serves(s, to, Some(s.customers[c].region));
            (ItemSucceeds(s, c, to, scope) <==> serves) &&
            var code := if scope.Some? && !mine then RegionNotAllowed else if !mine then CustomerNotFound else OfficerNotFound;
            (!serves ==> ItemGuard(s, c, to, scope) == Some(code))
  {
  }

  // ---------------------------------------------------------------- the default officer

  /** The configured email names an active OFFICER. */
  ghost predicate IsDefault(s: State, email: string, o: Id) {
    o in s.staff && s.staff[o].email == email && s.staff[o].role == OFFICER && s.staff[o].isActive
  }

  lemma DefaultIsResolved(s: State, email: string, o: Id)
    requires UniqueEmails(s.staff)
    ensures ResolveOfficer(s.staff, email) == Some(o) <==> IsDefault(s, email, o)
  {
  }

  /** A customer is claimed exactly when nobody holds them, they are of the configured region, and the configured officer serves. */
  lemma ClaimedIff(s: State, email: string, region: Region, c: Id, now: int)
    requires UniqueEmails(s.staff)
    ensures var (t, r) := AssignIfUnassignedStep(s, email, region, c, now);
            var free := c in s.customers && s.customers[c].officer == None && s.customers[c].region == region;
            (forall o :: r == Some(o) <==> free && IsDefault(s, email, o)) && if r.Some? then Moved(s, t, {c}, r.value, now) else t == s
  {
    var officer := ResolveOfficer(s.staff, email);
    forall o
      ensures officer == Some(o) <==> IsDefault(s, email, o)
    {
      DefaultIsResolved(s, email, o);
    }
    if c in s.customers && officer.Some? {
      AssignMoves(s, {c}, officer.value, now);
    }
  }

  /** A pass claims everyone so placed for the configured officer, and counts them; it is skipped only while another one runs. */
  lemma PassClaims(s: State, email: string, region: Region, busy: bool, now: int, o: Id)
    requires UniqueEmails(s.staff) && IsDefault(s, email, o)
    ensures var (t, r) := ReconcileStep(s, email, region, busy, now);
            var free := set c | c in s.customers && s.customers[c].officer == None && s.customers[c].region == region;
            if busy then t == s && r == SyncResult(true, true, 0) else Moved(s, t, free, o, now) && r == SyncResult(true, false, |free|)
  {
    var free := set c | c in s.customers && s.customers[c].officer == None && s.customers[c].region == region;
    DefaultIsResolved(s, email, o);
    assert Unassigned(s, region) == free;
    AssignMoves(s, free, o, now);
  }

  /** Where the configured email names nobody who may serve, it does nothing. */
  lemma NoDefaultNoPass(s: State, email: string, region: Region, busy: bool, now: int)
    requires UniqueEmails(s.staff) && forall o :: !IsDefault(s, email, o)
    ensures ReconcileStep(s, email, region, busy, now) == (s, SyncResult(false, false, 0))
  {
    if ResolveOfficer(s.staff, email).Some? {
      DefaultIsResolved(s, email, ResolveOfficer(s.staff, email).value);
    }
  }

  // ---------------------------------------------------------------- lifecycle

  /** An unrestricted administrator manages any row; a regional one the two field roles of their own region. */
  predicate InReach(row: Staff, scope: Option<Region>) {
    scope == None || ((row.role == OFFICER || row.role == LOADING_OFFICER) && row.region == scope)
  }

  lemma NoneHeld(s: State, x: Id)
    ensures |Portfolio(s, x)| == 0 <==> forall c :: c in s.customers ==> s.customers[c].officer != Some(x)
  {
    if forall c :: c in s.customers ==> s.customers[c].officer != Some(x) {
      assert Portfolio(s, x) == {};
    } else {
      var c :| c in s.customers && s.customers[c].officer == Some(x);
      assert c in Portfolio(s, x);
    }
  }

  lemma AnotherAdmin(s: State, x: Id)
    requires x in s.staff && s.staff[x].role == ADMIN && s.staff[x].isActive
    ensures |ActiveAdmins(s)| <= 1 <==> forall y :: y in s.staff && s.staff[y].role == ADMIN && s.staff[y].isActive ==> y == x
  {
    assert x in ActiveAdmins(s);
    assert |ActiveAdmins(s) - {x}| == |ActiveAdmins(s)| - 1;
    if y :| y in s.staff && s.staff[y].role == ADMIN && s.staff[y].isActive && y != x {
      assert y in ActiveAdmins(s) - {x};
    } else {
      assert ActiveAdmins(s) - {x} == {};
    }
  }

  /** What stands in the way of a deactivation: one's own account, the last administrator in service, or customers in hand. */
  ghost predicate MayRetire(s: State, x: Id, actor: Option<Id>)
    requires x in s.staff
  {
    actor != Some(x) &&
    (s.staff[x].role == ADMIN && s.staff[x].isActive ==>
       exists y :: y != x && y in s.staff && s.staff[y].role == ADMIN && s.staff[y].isActive) &&
    (s.staff[x].role == OFFICER ==> forall c :: c in s.customers ==> s.customers[c].officer != Some(x))
  }

  lemma StatusGuardIff(s: State, x: Id, isActive: bool, actor: Option<Id>, scope: Option<Region>)
    ensures SetActiveGuard(s, x, isActive, actor, scope).None? <==>
            x in s.staff && Managed(s.staff[x].role) && InReach(s.staff[x], scope) && (isActive || MayRetire(s, x, actor))
  {
    NoneHeld(s, x);
    if x in s.staff && s.staff[x].role == ADMIN && s.staff[x].isActive {
      AnotherAdmin(s, x);
    }
  }

  /**
   * A status change goes through exactly for an account managed here, within the
   * caller's reach, that may retire where it is to. It moves that one column, and
   * a retirement ends every live session of the account and no other.
   */
  lemma StatusChangedIff(s: State, x: Id, isActive: bool, actor: Option<Id>, scope: Option<Region>, now: int)
    ensures var (t, r) := SetActiveStep(s, x, isActive, actor, scope, now);
            (r.Ok? <==> x in s.staff && Managed(s.staff[x].role) && InReach(s.staff[x], scope) && (isActive || MayRetire(s, x, actor))) &&
            if r.Refused? then t == s
            else
              r == Ok(s.staff[x].isActive != isActive) && t.customers == s.customers && t.joins == s.joins &&
              t.staff == s.staff[x := s.staff[x].(isActive := isActive)] && t.tokens.Keys == s.tokens.Keys &&
              forall id :: id in s.tokens ==>
                var ends := s.staff[x].isActive && !isActive && s.tokens[id].owner == StaffOwner(x) && s.tokens[id].revokedAt == None;
                t.tokens[id] == if ends then s.tokens[id].(revokedAt := Some(now)) else s.tokens[id]
  {
    StatusGuardIff(s, x, isActive, actor, scope);
    if SetActiveGuard(s, x, isActive, actor, scope).None? {
      assert s.staff[x := s.staff[x].(isActive := s.staff[x].isActive)] == s.staff;
    }
  }

  /** The reasons a deactivation is refused for, each exactly when it holds and none before it does. */
  lemma RetirementCode(s: State, x: Id, actor: Option<Id>, now: int)
    requires x in s.staff && Managed(s.staff[x].role)
    ensures var r, row := SetActiveStep(s, x, false, actor, None, now).1, s.staff[x];
            (r == Refused(SelfDeactivation) <==> actor == Some(x)) &&
            (r == Refused(LastActiveAdmin) <==>
               actor != Some(x) && row.role == ADMIN && row.isActive &&
               forall y :: y in s.staff && s.staff[y].role == ADMIN && s.staff[y].isActive ==> y == x) &&
            (r.Refused? && r.code.OfficerHasCustomers? <==>
               actor != Some(x) && row.role == OFFICER && exists c :: c in s.customers && s.customers[c].officer == Some(x))
  {
    NoneHeld(s, x);
    if s.staff[x].role == ADMIN && s.staff[x].isActive {
      AnotherAdmin(s, x);
    }
  }

  /**
   * An account is created exactly under a managed role the caller may give, with a
   * region exactly where the role has one, and an unused email and phone.
   */
  lemma CreatedIff(s: State, x: Id, role: Role, email: string, phoneTaken: bool, region: Option<Region>, scope: Option<Region>)
    ensures var (t, r) := CreateOfficerStep(s, x, role, email, phoneTaken, region, scope);
            (r.Ok? <==>
               role != WAREHOUSE_OFFICER && (scope.Some? ==> role == OFFICER || role == LOADING_OFFICER) &&
               (role == ADMIN <==> region == None) && (forall y :: y in s.staff ==> s.staff[y].email != email) &&
               !phoneTaken && x !in s.staff) &&
            if r.Refused? then t == s
            else r == Ok(true) && t == s.(staff := s.staff[x := Staff(role, email, true, if scope.Some? then scope else region, true)])
  {
    var holder := ByEmail(s.staff, email);
    assert holder.None? <==> forall y :: y in s.staff ==> s.staff[y].email != email;
  }

  /**
   * A profile edit goes through exactly for an account managed here within the
   * caller's reach, a region only an unrestricted caller gives and no ADMIN has,
   * and a phone nobody else holds. It writes the region and the password, and
   * leaves email, role and status alone.
   */
  lemma EditedIff(s: State, x: Id, edit: Edit, scope: Option<Region>)
    ensures var (t, r) := EditProfileStep(s, x, edit, scope);
            (r.Ok? <==>
               x in s.staff && Managed(s.staff[x].role) && InReach(s.staff[x], scope) &&
               (edit.region.Some? ==> scope == None && s.staff[x].role != ADMIN) && !edit.phone.TakenPhone?) &&
            if r.Refused? then t == s
            else
              t == s.(staff := s.staff[x := s.staff[x].(
                region := if edit.region.Some? then edit.region else s.staff[x].region,
                hasPassword := edit.password || s.staff[x].hasPassword)]) &&
              r == Ok(edit.renamed || edit.phone.NewPhone? || edit.password || (edit.region.Some? && edit.region != s.staff[x].region))
  {
    if x in s.staff {
      assert s.staff[x := s.staff[x]] == s.staff;
    }
  }
}
