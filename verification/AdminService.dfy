/** Staff lifecycle and customer assignment as the administrators drive them. */
module AdminService {
  import opened Option
  import opened RefreshTokens
  import opened Portal

  /** The machine-readable reason a call is refused. */
  datatype Code =
    | NotFound
    | RegionNotAllowed
    | RegionRequired
    | RoleNotAllowed
    | RoleNotManaged
    | EmailInUse
    | PhoneInUse
    | KeyTaken
    | SelfDeactivation
    | LastActiveAdmin
    | OfficerHasCustomers(held: nat)
    | SameOfficer
    | TargetNotEligible
    | CustomerNotFound
    | OfficerNotFound
    | AlreadyAssigned

  datatype Result<+T> = Ok(value: T) | Refused(code: Code)

  /** What a bulk route answers: the ids that hold the outcome asked for, and the rest with their reason. */
  datatype BulkReport = BulkReport(succeeded: seq<Id>, failed: seq<(Id, Code)>)

  // ---------------------------------------------------------------- lifecycle specification

  /** The gate a regional admin passes before touching a staff row; None for an unrestricted ADMIN. */
  function ScopeGate(scope: Option<Region>, role: Role, region: Option<Region>): Option<Code> {
    if scope.None? then None
    else if !RegionalAdminManaged(role) then Some(RoleNotAllowed)
    else if region != scope then Some(RegionNotAllowed)
    else None
  }

  /** `phoneTaken` is whether another staff row holds the phone number, a unique column too. */
  ghost function CreateOfficerStep(
    s: State, x: Id, role: Role, email: string, phoneTaken: bool, region: Option<Region>, scope: Option<Region>): (State, Result<bool>)
  {
    if !Managed(role) then (s, Refused(RoleNotManaged))
    else if scope.Some? && !RegionalAdminManaged(role) then (s, Refused(RoleNotAllowed))
    else if role == ADMIN && region.Some? then (s, Refused(RegionNotAllowed))
    else if role != ADMIN && region.None? then (s, Refused(RegionRequired))
    else if ByEmail(s.staff, email).Some? then (s, Refused(EmailInUse))
    else if phoneTaken then (s, Refused(PhoneInUse))
    else if x in s.staff then (s, Refused(KeyTaken))
    else
      var home := if scope.Some? then scope else region;
      (s.(staff := s.staff[x := Staff(role, email, true, home, true)]), Ok(true))
  }

  /** What an edit does to the phone, a unique column that the model does not carry. */
  datatype PhoneEdit = KeptPhone | NewPhone | TakenPhone

  /** A profile edit: whether the name really differs, the phone, the region if one was sent, and whether a password was. */
  datatype Edit = Edit(renamed: bool, phone: PhoneEdit, region: Option<Region>, password: bool)

  /** `updateOfficerProfile`; the answer says whether anything was written. */
  function EditProfileStep(s: State, x: Id, edit: Edit, scope: Option<Region>): (State, Result<bool>) {
    if x !in s.staff then (s, Refused(NotFound))
    else
      var row := s.staff[x];
      var gate := ScopeGate(scope, row.role, row.region);
      var moves := edit.region.Some? && edit.region != row.region;
      if gate.Some? then (s, Refused(gate.value))
      else if scope.Some? && edit.region.Some? then (s, Refused(RegionNotAllowed))
      else if !Managed(row.role) then (s, Refused(RoleNotManaged))
      else if edit.region.Some? && row.role == ADMIN then (s, Refused(RegionNotAllowed))
      else if !edit.renamed && edit.phone.KeptPhone? && !moves && !edit.password then (s, Ok(false))
      else if edit.phone.TakenPhone? then (s, Refused(PhoneInUse))
      else
        (s.(staff := s.staff[x := row.(
          region := if edit.region.Some? then edit.region else row.region, hasPassword := row.hasPassword || edit.password)]),
         Ok(true))
  }

  /** Why a status change is refused; None when it goes through. */
  function SetActiveGuard(s: State, x: Id, isActive: bool, actor: Option<Id>, scope: Option<Region>): Option<Code> {
    if x !in s.staff then Some(NotFound)
    else
      var row := s.staff[x];
      var gate := ScopeGate(scope, row.role, row.region);
      if gate.Some? then gate
      else if !Managed(row.role) then Some(RoleNotManaged)
      else if isActive then None
      else if actor == Some(x) then Some(SelfDeactivation)
      else if row.role == ADMIN && row.isActive && |ActiveAdmins(s)| <= 1 then Some(LastActiveAdmin)
      else if row.role == OFFICER && |Portfolio(s, x)| > 0 then Some(OfficerHasCustomers(|Portfolio(s, x)|))
      else None
  }

  function SessionsOf(ts: Tokens, x: Id): set<TokenId> {
    set t | t in ts && ts[t].owner == StaffOwner(x)
  }

  function SetActiveStep(
    s: State, x: Id, isActive: bool, actor: Option<Id>, scope: Option<Region>, now: int): (State, Result<bool>)
  {
    var guard := SetActiveGuard(s, x, isActive, actor, scope);
    if guard.Some? then (s, Refused(guard.value))
    else if s.staff[x].isActive == isActive then (s, Ok(false))
    else
      (s.(staff := s.staff[x := s.staff[x].(isActive := isActive)],
          tokens := if isActive then s.tokens else Revoke(s.tokens, SessionsOf(s.tokens, x), now)),
       Ok(true))
  }

  // ---------------------------------------------------------------- assignment specification

  function ReassignGuard(s: State, c: Id, to: Id): Option<Code> {
    if c !in s.customers then Some(CustomerNotFound)
    else if !ActiveOfficer(s.staff, to) || s.staff[to].region != Some(s.customers[c].region) then Some(OfficerNotFound)
    else if s.customers[c].officer == Some(to) then Some(AlreadyAssigned)
    else None
  }

  function ReassignStep(s: State, c: Id, to: Id, now: int): (State, Result<bool>) {
    var guard := ReassignGuard(s, c, to);
    if guard.Some? then (s, Refused(guard.value)) else (Assign(s, {c}, to, now), Ok(true))
  }

  function ReassignAllGuard(s: State, from: Id, to: Id): Option<Code> {
    if from == to then Some(SameOfficer)
    else if from !in s.staff then Some(NotFound)
    else if !ActiveOfficer(s.staff, to) || (s.staff[from].region.Some? && s.staff[to].region != s.staff[from].region) then
      Some(TargetNotEligible)
    else None
  }

  function ReassignAllStep(s: State, from: Id, to: Id, now: int): (State, Result<nat>) {
    var guard := ReassignAllGuard(s, from, to);
    if guard.Some? then (s, Refused(guard.value))
    else (Assign(s, Portfolio(s, from), to, now), Ok(|Portfolio(s, from)|))
  }

  /** One item of the bulk route: the regional admin's own gate, then the single route's. */
  function ItemGuard(s: State, c: Id, to: Id, scope: Option<Region>): Option<Code> {
    if scope.Some? && (c !in s.customers || s.customers[c].region != scope.value) then Some(RegionNotAllowed)
    else ReassignGuard(s, c, to)
  }

  /** An item counts as a success when the customer ends up with the officer asked for. */
  predicate ItemSucceeds(s: State, c: Id, to: Id, scope: Option<Region>) {
    ItemGuard(s, c, to, scope).None? || ItemGuard(s, c, to, scope) == Some(AlreadyAssigned)
  }

  /** Ids in the order given, each at its first appearance. */
  function Dedup(ids: seq<Id>): (r: seq<Id>)
    ensures forall c :: c in r <==> c in ids
    ensures forall i, j :: 0 <= i < j < |r| ==> r[i] != r[j]
  {
    if ids == [] then []
    else
      var rest := Dedup(ids[..|ids| - 1]);
      if ids[|ids| - 1] in rest then rest else rest + [ids[|ids| - 1]]
  }

  function ReportOn(s: State, ids: seq<Id>, to: Id, scope: Option<Region>): BulkReport {
    if ids == [] then BulkReport([], [])
    else
      var rest := ReportOn(s, ids[..|ids| - 1], to, scope);
      var c := ids[|ids| - 1];
      if ItemSucceeds(s, c, to, scope) then rest.(succeeded := rest.succeeded + [c])
      else rest.(failed := rest.failed + [(c, ItemGuard(s, c, to, scope).value)])
  }

  function MovedBy(s: State, ids: seq<Id>, to: Id, scope: Option<Region>): set<Id> {
    set c | c in ids && ItemGuard(s, c, to, scope).None?
  }

  /** The officer's region is checked once, up front, for a regional admin. */
  predicate BulkAllowed(s: State, to: Id, scope: Option<Region>) {
    scope.None? || (to in s.staff && s.staff[to].region == scope)
  }

  function BulkReassignStep(
    s: State, ids: seq<Id>, to: Id, scope: Option<Region>, now: int): (State, Result<BulkReport>)
  {
    if !BulkAllowed(s, to, scope) then (s, Refused(RegionNotAllowed))
    else (Assign(s, MovedBy(s, ids, to, scope), to, now), Ok(ReportOn(s, Dedup(ids), to, scope)))
  }

  // ---------------------------------------------------------------- lemmas the loops use

  /** Moving some customers changes no other customer's verdict. */
  lemma GuardsAreIndependent(s: State, moved: set<Id>, to: Id, now: int, c: Id, scope: Option<Region>)
    requires moved <= s.customers.Keys && c !in moved
    ensures ItemGuard(Assign(s, moved, to, now), c, to, scope) == ItemGuard(s, c, to, scope)
  {
  }

  /** A moved customer's verdict turns from "go" into "already assigned". */
  lemma MovedIsAssigned(s: State, moved: set<Id>, to: Id, now: int, c: Id, scope: Option<Region>)
    requires moved <= s.customers.Keys && c in moved && ItemGuard(s, c, to, scope).None?
    ensures ItemGuard(Assign(s, moved, to, now), c, to, scope) == Some(AlreadyAssigned)
  {
  }

  lemma DedupPrefix(ids: seq<Id>, i: nat)
    requires i < |ids|
    ensures Dedup(ids[..i + 1]) == if ids[i] in ids[..i] then Dedup(ids[..i]) else Dedup(ids[..i]) + [ids[i]]
  {
    assert ids[..i + 1][..i] == ids[..i];
  }

  lemma ReportStep(s: State, done: seq<Id>, c: Id, to: Id, scope: Option<Region>)
    ensures ReportOn(s, done + [c], to, scope) ==
            if ItemSucceeds(s, c, to, scope) then
              ReportOn(s, done, to, scope).(succeeded := ReportOn(s, done, to, scope).succeeded + [c])
            else
              ReportOn(s, done, to, scope).(failed := ReportOn(s, done, to, scope).failed + [(c, ItemGuard(s, c, to, scope).value)])
  {
    assert (done + [c])[..|done|] == done;
  }

  /** One turn of the bulk loop, in terms of the state and the ids it started from. */
  lemma BulkNext(s: State, ids: seq<Id>, i: nat, to: Id, scope: Option<Region>, now: int)
    requires i < |ids|
    ensures var c, done := ids[i], ids[..i];
            var t := Assign(s, MovedBy(s, done, to, scope), to, now);
            if c in done then
              Dedup(ids[..i + 1]) == Dedup(done) && MovedBy(s, ids[..i + 1], to, scope) == MovedBy(s, done, to, scope)
            else
              Dedup(ids[..i + 1]) == Dedup(done) + [c] &&
              ItemGuard(t, c, to, scope) == ItemGuard(s, c, to, scope) &&
              Assign(s, MovedBy(s, ids[..i + 1], to, scope), to, now) ==
              if ItemGuard(s, c, to, scope).None? then Assign(t, {c}, to, now) else t
  {
    var c, done := ids[i], ids[..i];
    var moved := MovedBy(s, done, to, scope);
    DedupPrefix(ids, i);
    assert ids[..i + 1] == done + [c];
    if c in done {
      assert MovedBy(s, ids[..i + 1], to, scope) == moved;
    } else {
      GuardsAreIndependent(s, moved, to, now, c, scope);
      if ItemGuard(s, c, to, scope).None? {
        AssignInTurn(s, moved, {c}, to, now);
        assert MovedBy(s, ids[..i + 1], to, scope) == moved + {c};
      } else {
        assert MovedBy(s, ids[..i + 1], to, scope) == moved;
      }
    }
  }

  // ---------------------------------------------------------------- service

  class AdminService {
    const db: Database

    constructor (db: Database)
      ensures this.db == db
    {
      this.db := db;
    }

    method CreateOfficer(x: Id, role: Role, email: string, phoneTaken: bool, region: Option<Region>, scope: Option<Region>)
      returns (r: Result<bool>)
      modifies db
      ensures (db.Snapshot(), r) == CreateOfficerStep(old(db.Snapshot()), x, role, email, phoneTaken, region, scope)
    {
      if !Managed(role) {
        return Refused(RoleNotManaged);
      }
      if scope.Some? && !RegionalAdminManaged(role) {
        return Refused(RoleNotAllowed);
      }
      if role == ADMIN && region.Some? {
        return Refused(RegionNotAllowed);
      }
      if role != ADMIN && region.None? {
        return Refused(RegionRequired);
      }
      var home := if scope.Some? then scope else if role == ADMIN then None else region;
      if exists y :: y in db.staff && db.staff[y].email == email {
        return Refused(EmailInUse);
      }
      if phoneTaken {
        return Refused(PhoneInUse);
      }
      if x in db.staff {
        return Refused(KeyTaken);
      }
      db.staff := db.staff[x := Staff(role, email, true, home, true)];
      r := Ok(true);
    }

    method UpdateOfficerProfile(x: Id, edit: Edit, scope: Option<Region>) returns (r: Result<bool>)
      modifies db
      ensures (db.Snapshot(), r) == EditProfileStep(old(db.Snapshot()), x, edit, scope)
    {
      if x !in db.staff {
        return Refused(NotFound);
      }
      var officer := db.staff[x];
      var gate := ScopeGate(scope, officer.role, officer.region);
      if gate.Some? {
        return Refused(gate.value);
      }
      if scope.Some? && edit.region.Some? {
        return Refused(RegionNotAllowed);
      }
      if !Managed(officer.role) {
        return Refused(RoleNotManaged);
      }
      if edit.region.Some? && officer.role == ADMIN {
        return Refused(RegionNotAllowed);
      }
      var updated, changed := officer, edit.renamed || !edit.phone.KeptPhone?;
      if edit.region.Some? && edit.region != officer.region {
        updated, changed := updated.(region := edit.region), true;
      }
      if edit.password {
        updated, changed := updated.(hasPassword := true), true;
      }
      if !changed {
        return Ok(false);
      }
      if edit.phone.TakenPhone? {
        return Refused(PhoneInUse);
      }
      db.staff := db.staff[x := updated];
      r := Ok(true);
    }

    method SetOfficerActive(x: Id, isActive: bool, actor: Option<Id>, scope: Option<Region>, now: int) returns (r: Result<bool>)
      modifies db
      ensures (db.Snapshot(), r) == SetActiveStep(old(db.Snapshot()), x, isActive, actor, scope, now)
    {
      if x !in db.staff {
        return Refused(NotFound);
      }
      var officer := db.staff[x];
      var gate := ScopeGate(scope, officer.role, officer.region);
      if gate.Some? {
        return Refused(gate.value);
      }
      if !Managed(officer.role) {
        return Refused(RoleNotManaged);
      }
      if !isActive {
        if actor == Some(x) {
          return Refused(SelfDeactivation);
        }
        if officer.role == ADMIN && officer.isActive {
          var activeAdmins := |ActiveAdmins(db.Snapshot())|;
          if activeAdmins <= 1 {
            return Refused(LastActiveAdmin);
          }
        }
        if officer.role == OFFICER {
          var held := |Portfolio(db.Snapshot(), x)|;
          if held > 0 {
            return Refused(OfficerHasCustomers(held));
          }
        }
      }
      var changed := officer.isActive != isActive;
      if changed {
        db.staff := db.staff[x := officer.(isActive := isActive)];
        if !isActive {
          db.tokens := Revoke(db.tokens, SessionsOf(db.tokens, x), now);
        }
      }
      r := Ok(changed);
    }

    /** The join-row half of an assignment: one conditional delete, one upsert. */
    method MovePrimaryAssignment(c: Id, previous: Option<Id>, to: Id, now: int, ghost customers: CustomerTable)
      requires c in customers && customers[c].officer == previous
      modifies db`joins
      ensures db.joins == Repoint(old(db.joins), customers, {c}, to, now)
    {
      ghost var before := db.joins;
      if previous.Some? && previous.value != to {
        if (c, previous.value) in db.joins && db.joins[(c, previous.value)].isPrimary {
          db.joins := db.joins - {(c, previous.value)};
        }
      }
      if (c, to) in db.joins {
        db.joins := db.joins[(c, to) := db.joins[(c, to)].(isPrimary := true)];
      } else {
        db.joins := db.joins[(c, to) := Join(true, now)];
      }
      SameAsRepoint(before, db.joins, customers, c, previous, to, now);
    }

    lemma SameAsRepoint(before: JoinTable, after: JoinTable, customers: CustomerTable, c: Id, previous: Option<Id>, to: Id, now: int)
      requires c in customers && customers[c].officer == previous
      requires forall k :: k in after <==>
                             k == (c, to) ||
                             (k in before &&
                              !(previous.Some? && previous.value != to && k == (c, previous.value) && before[k].isPrimary))
      requires forall k :: k in after && k != (c, to) ==> after[k] == before[k]
      requires after[(c, to)] == if (c, to) in before then before[(c, to)].(isPrimary := true) else Join(true, now)
      ensures after == Repoint(before, customers, {c}, to, now)
    {
      var t := Repoint(before, customers, {c}, to, now);
      forall d, o
        ensures (d, o) in t <==> (d, o) in after
        ensures (d, o) in t ==> t[(d, o)] == after[(d, o)]
      {
        RepointAt(before, customers, {c}, to, now, d, o);
      }
      assert forall k :: k in t ==> k == (k.0, k.1);
      assert forall k :: k in after ==> k == (k.0, k.1);
      assert t.Keys == after.Keys;
    }

    method ReassignOfficer(c: Id, to: Id, now: int) returns (r: Result<bool>)
      modifies db
      ensures (db.Snapshot(), r) == ReassignStep(old(db.Snapshot()), c, to, now)
    {
      if c !in db.customers {
        return Refused(CustomerNotFound);
      }
      var customer := db.customers[c];
      if !ActiveOfficer(db.staff, to) || db.staff[to].region != Some(customer.region) {
        return Refused(OfficerNotFound);
      }
      if customer.officer == Some(to) {
        return Refused(AlreadyAssigned);
      }
      ghost var before := db.customers;
      db.customers := db.customers[c := customer.(officer := Some(to))];
      MovePrimaryAssignment(c, customer.officer, to, now, before);
      assert db.customers == Point(before, {c}, to);
      r := Ok(true);
    }

    /** Both sides move: every pointer in one statement, then each join row in whatever order the rows came back. */
    method ReassignAllCustomers(from: Id, to: Id, now: int) returns (r: Result<nat>)
      modifies db
      ensures (db.Snapshot(), r) == ReassignAllStep(old(db.Snapshot()), from, to, now)
    {
      if from == to {
        return Refused(SameOfficer);
      }
      if from !in db.staff {
        return Refused(NotFound);
      }
      if !ActiveOfficer(db.staff, to) || (db.staff[from].region.Some? && db.staff[to].region != db.staff[from].region) {
        return Refused(TargetNotEligible);
      }
      ghost var before := db.Snapshot();
      var moving := Portfolio(db.Snapshot(), from);
      var count := |moving|;
      db.customers := Point(db.customers, moving, to);
      var left := moving;
      assert db.joins == Repoint(before.joins, before.customers, {}, to, now) by {
        AssignNone(before, to, now);
      }
      while left != {}
        invariant left <= moving
        invariant db.joins == Repoint(before.joins, before.customers, moving - left, to, now)
        invariant db.staff == before.staff && db.tokens == before.tokens
        invariant db.customers == Point(before.customers, moving, to)
      {
        var c :| c in left;
        MovePrimaryAssignment(c, Some(from), to, now, before.customers);
        RepointInTurn(before.joins, before.customers, before.customers, moving - left, {c}, to, now);
        assert (moving - left) + {c} == moving - (left - {c});
        left := left - {c};
      }
      assert moving - left == moving;
      r := Ok(count);
    }

    /** The item the bulk route runs for each customer. */
    method ReassignItem(c: Id, to: Id, scope: Option<Region>, now: int) returns (r: Result<bool>)
      modifies db
      ensures r == if ItemGuard(old(db.Snapshot()), c, to, scope).Some?
                   then Refused(ItemGuard(old(db.Snapshot()), c, to, scope).value) else Ok(true)
      ensures db.Snapshot() == if r.Ok? then Assign(old(db.Snapshot()), {c}, to, now) else old(db.Snapshot())
    {
      if scope.Some? && (c !in db.customers || db.customers[c].region != scope.value) {
        return Refused(RegionNotAllowed);
      }
      r := ReassignOfficer(c, to, now);
    }

    /** `runBulk` over `reassignOfficer`: one item at a time, each outcome reported separately. */
    method BulkReassignCustomers(ids: seq<Id>, to: Id, scope: Option<Region>, now: int) returns (r: Result<BulkReport>)
      modifies db
      ensures (db.Snapshot(), r) == BulkReassignStep(old(db.Snapshot()), ids, to, scope, now)
    {
      if scope.Some? && !(to in db.staff && db.staff[to].region == scope) {
        return Refused(RegionNotAllowed);
      }
      ghost var before := db.Snapshot();
      var succeeded: seq<Id>, failed: seq<(Id, Code)>, seen: set<Id> := [], [], {};
      AssignNone(before, to, now);
      assert MovedBy(before, ids[..0], to, scope) == {};
      for i := 0 to |ids|
        invariant forall c :: c in seen <==> c in ids[..i]
        invariant BulkReport(succeeded, failed) == ReportOn(before, Dedup(ids[..i]), to, scope)
        invariant db.Snapshot() == Assign(before, MovedBy(before, ids[..i], to, scope), to, now)
      {
        var c := ids[i];
        BulkNext(before, ids, i, to, scope, now);
        if c !in seen {
          seen := seen + {c};
          ReportStep(before, Dedup(ids[..i]), c, to, scope);
          var outcome := ReassignItem(c, to, scope, now);
          if outcome.Ok? || outcome.code == AlreadyAssigned {
            succeeded := succeeded + [c];
          } else {
            failed := failed + [(c, outcome.code)];
          }
        }
      }
      assert ids[..|ids|] == ids;
      r := Ok(BulkReport(succeeded, failed));
    }
  }
}
