/** Runs of the whole portal: every interleaving of complete service calls. */
module PortalRuns {
  import opened Option
  import opened RefreshTokens
  import opened Portal
  import opened AuthService
  import opened AdminService
  import opened DefaultOfficerService

  /** What the deployment configures. */
  datatype Config = Config(officerEmail: string, officerRegion: Region, refreshTtl: int)

  datatype Op =
    | StaffLogin(found: Option<Id>, passwordOk: bool, jti: TokenId)
    | StaffWebLogin(local: Option<Id>, passwordOk: bool, erp: Option<ErpStaff>, newRow: Id, jti: TokenId)
    | CustomerLogin(customer: Id, password: Option<bool>, jti: TokenId)
    | Refresh(jwt: Jwt, jti: TokenId)
    | Logout(jwt: Jwt)
    | CreateOfficer(x: Id, role: Role, email: string, phoneTaken: bool, region: Option<Region>, scope: Option<Region>)
    | EditProfile(x: Id, edit: Edit, scope: Option<Region>)
    | SetActive(x: Id, isActive: bool, actor: Option<Id>, scope: Option<Region>)
    | Reassign(customer: Id, to: Id)
    | ReassignAll(from: Id, to: Id)
    | BulkReassign(customers: seq<Id>, to: Id, scope: Option<Region>)
    | InsertCustomer(customer: Id, home: Region)
    | AssignIfUnassigned(customer: Id)
    | Reconcile(busy: bool)

  /** A lookup finds a row of the table or nothing. */
  function InTable(staff: StaffTable, local: Option<Id>): (r: Option<Id>)
    ensures r.Some? ==> r.value in staff
  {
    if local.Some? && local.value in staff then local else None
  }

  /** One call, made at time `now`. */
  datatype Call = Call(op: Op, now: int)

  ghost function Step(cfg: Config, s: State, call: Call): State {
    var now := call.now;
    match call.op
    case StaffLogin(found, ok, jti) => StaffLoginStep(s, InTable(s.staff, found), ok, jti, now, cfg.refreshTtl).0
    case StaffWebLogin(local, ok, erp, row, jti) => WebLoginStep(s, InTable(s.staff, local), ok, erp, row, jti, now, cfg.refreshTtl).0
    case CustomerLogin(c, password, jti) => CustomerLoginStep(s, c, password, jti, now, cfg.refreshTtl).0
    case Refresh(jwt, jti) => RefreshStep(s, jwt, jti, now, cfg.refreshTtl).0
    case Logout(jwt) => LogoutStep(s, jwt, now)
    case CreateOfficer(x, role, email, taken, region, scope) => CreateOfficerStep(s, x, role, email, taken, region, scope).0
    case EditProfile(x, edit, scope) => EditProfileStep(s, x, edit, scope).0
    case SetActive(x, isActive, actor, scope) => SetActiveStep(s, x, isActive, actor, scope, now).0
    case Reassign(c, to) => ReassignStep(s, c, to, now).0
    case ReassignAll(from, to) => ReassignAllStep(s, from, to, now).0
    case BulkReassign(cs, to, scope) => BulkReassignStep(s, cs, to, scope, now).0
    // A customer row arrives from the projector or the create route, with no officer and no join rows.
    case InsertCustomer(c, home) => if c in s.customers then s else s.(customers := s.customers[c := NewCustomer(home)])
    case AssignIfUnassigned(c) => AssignIfUnassignedStep(s, cfg.officerEmail, cfg.officerRegion, c, now).0
    case Reconcile(busy) => ReconcileStep(s, cfg.officerEmail, cfg.officerRegion, busy, now).0
  }

  ghost function Run(cfg: Config, s: State, calls: seq<Call>): State
    decreases |calls|
  {
    if calls == [] then s else Run(cfg, Step(cfg, s, calls[0]), calls[1..])
  }

  const EMPTY := State(map[], map[], map[], map[])

  // ---------------------------------------------------------------- every state of every run

  lemma MintKeepsConsistency(s: State, owner: Owner, jti: TokenId, now: int, ttl: int)
    requires Consistent(s)
    requires owner.StaffOwner? ==> owner.id in s.staff && s.staff[owner.id].isActive
    ensures Consistent(MintStep(s, owner, jti, now, ttl).0)
  {
    if jti !in s.tokens {
      MintKeepsLinks(s.tokens, jti, owner, now + ttl);
    }
  }

  lemma RevokeKeepsConsistency(s: State, ids: set<TokenId>, now: int)
    requires Consistent(s)
    ensures Consistent(s.(tokens := Revoke(s.tokens, ids, now)))
  {
    RevokeKeepsLinks(s.tokens, ids, now);
  }

  lemma RotateKeepsConsistency(s: State, used: TokenId, jti: TokenId, expiresAt: int, now: int)
    requires Consistent(s) && used in s.tokens && s.tokens[used].Live() && jti !in s.tokens
    ensures Consistent(s.(tokens := Rotate(s.tokens, used, jti, expiresAt, now)))
  {
    RotateKeepsLinks(s.tokens, used, jti, expiresAt, now);
  }

  datatype TokenWrite = NoWrite | RevokeFrom(ids: set<TokenId>) | RotateLive(used: TokenId)

  /** A refresh writes nothing, revokes what the presented row reaches, or rotates it. */
  lemma RefreshWrites(s: State, jwt: Jwt, jti: TokenId, now: int, ttl: int) returns (w: TokenWrite)
    ensures match w
            case NoWrite => RefreshStep(s, jwt, jti, now, ttl).0 == s
            case RevokeFrom(ids) => RefreshStep(s, jwt, jti, now, ttl).0 == s.(tokens := Revoke(s.tokens, ids, now))
            case RotateLive(used) =>
              used in s.tokens && s.tokens[used].Live() && jti !in s.tokens &&
              RefreshStep(s, jwt, jti, now, ttl).0 == s.(tokens := Rotate(s.tokens, used, jti, now + ttl, now))
  {
    match RefreshStep(s, jwt, jti, now, ttl).1
    case TokenRevoked => w := RevokeFrom(Reachable(s.tokens, jwt.jti));
    case Deactivated => w := RevokeFrom(Reachable(s.tokens, jwt.jti));
    case Minted(_) => w := RotateLive(jwt.jti);
    case _ => w := NoWrite;
  }

  lemma RefreshKeepsConsistency(s: State, jwt: Jwt, jti: TokenId, now: int, ttl: int)
    requires Consistent(s)
    ensures Consistent(RefreshStep(s, jwt, jti, now, ttl).0)
  {
    var w := RefreshWrites(s, jwt, jti, now, ttl);
    match w
    case NoWrite =>
    case RevokeFrom(ids) => RevokeKeepsConsistency(s, ids, now);
    case RotateLive(used) => RotateKeepsConsistency(s, used, jti, now + ttl, now);
  }

  /** Writing one row under an email nobody else holds. */
  lemma RowKeepsEmails(staff: StaffTable, x: Id, row: Staff)
    requires UniqueEmails(staff)
    requires forall y :: y in staff && y != x ==> staff[y].email != row.email
    ensures UniqueEmails(staff[x := row])
  {
  }

  /** An account that holds no customer and no live session can go inactive. */
  lemma InactiveKeepsConsistency(s: State, x: Id)
    requires Consistent(s) && x in s.staff
    requires forall c :: c in s.customers ==> s.customers[c].officer != Some(x)
    requires forall k :: k in s.tokens && s.tokens[k].owner == StaffOwner(x) ==> !s.tokens[k].Live()
    ensures Consistent(s.(staff := s.staff[x := s.staff[x].(isActive := false)]))
  {
    RowKeepsEmails(s.staff, x, s.staff[x].(isActive := false));
  }

  lemma ActiveKeepsConsistency(s: State, x: Id)
    requires Consistent(s) && x in s.staff
    ensures Consistent(s.(staff := s.staff[x := s.staff[x].(isActive := true)]))
  {
    RowKeepsEmails(s.staff, x, s.staff[x].(isActive := true));
  }

  lemma SetActiveKeepsConsistency(s: State, x: Id, isActive: bool, actor: Option<Id>, scope: Option<Region>, now: int)
    requires Consistent(s)
    ensures Consistent(SetActiveStep(s, x, isActive, actor, scope, now).0)
  {
    if SetActiveGuard(s, x, isActive, actor, scope).None? {
      if isActive {
        ActiveKeepsConsistency(s, x);
      } else if s.staff[x].isActive {
        var t := s.(tokens := Revoke(s.tokens, SessionsOf(s.tokens, x), now));
        RevokeKeepsConsistency(s, SessionsOf(s.tokens, x), now);
        forall c | c in s.customers
          ensures s.customers[c].officer != Some(x)
        {
          assert c in Portfolio(s, x) <==> s.customers[c].officer == Some(x);
        }
        InactiveKeepsConsistency(t, x);
      }
    }
  }

  lemma CreateKeepsConsistency(s: State, x: Id, role: Role, email: string, phoneTaken: bool, region: Option<Region>, scope: Option<Region>)
    requires Consistent(s)
    ensures Consistent(CreateOfficerStep(s, x, role, email, phoneTaken, region, scope).0)
  {
    var t := CreateOfficerStep(s, x, role, email, phoneTaken, region, scope).0;
    if t != s {
      RowKeepsEmails(s.staff, x, t.staff[x]);
      StaffTableMayGrow(s, t.staff);
    }
  }

  lemma EditProfileKeepsConsistency(s: State, x: Id, edit: Edit, scope: Option<Region>)
    requires Consistent(s)
    ensures Consistent(EditProfileStep(s, x, edit, scope).0)
  {
    var t := EditProfileStep(s, x, edit, scope).0;
    if t != s {
      RowKeepsEmails(s.staff, x, t.staff[x]);
      StaffTableMayGrow(s, t.staff);
    }
  }

  lemma StaffTableMayGrow(s: State, staff: StaffTable)
    requires Consistent(s) && UniqueEmails(staff)
    requires forall x :: x in s.staff ==>
               x in staff && staff[x].isActive == s.staff[x].isActive && (s.staff[x].role == OFFICER ==> staff[x].role == OFFICER)
    ensures Consistent(s.(staff := staff))
  {
  }

  /** The row of a staff member first seen through the ERP. */
  lemma MirrorKeepsConsistency(s: State, x: Id, erp: ErpStaff)
    requires Consistent(s) && x !in s.staff && ByEmail(s.staff, erp.email).None?
    ensures Consistent(s.(staff := s.staff[x := Staff(erp.role, erp.email, true, erp.region, false)]))
  {
    var row := Staff(erp.role, erp.email, true, erp.region, false);
    RowKeepsEmails(s.staff, x, row);
    StaffTableMayGrow(s, s.staff[x := row]);
  }

  /** The ERP rewrites one mirrored row and can take no email from another. */
  lemma SyncKeepsConsistency(s: State, x: Id, erp: ErpStaff)
    requires Consistent(s) && x in s.staff && !Managed(s.staff[x].role)
    ensures Consistent(s.(staff := SyncFromErp(s.staff, x, erp)))
    ensures x in SyncFromErp(s.staff, x, erp) && SyncFromErp(s.staff, x, erp)[x].isActive == s.staff[x].isActive
  {
    RowKeepsEmails(s.staff, x, SyncFromErp(s.staff, x, erp)[x]);
    StaffTableMayGrow(s, SyncFromErp(s.staff, x, erp));
  }

  lemma SyncThenMintKeepsConsistency(s: State, x: Id, erp: ErpStaff, jti: TokenId, now: int, ttl: int)
    requires Consistent(s) && x in s.staff && !Managed(s.staff[x].role) && s.staff[x].isActive
    ensures Consistent(MintStep(s.(staff := SyncFromErp(s.staff, x, erp)), StaffOwner(x), jti, now, ttl).0)
  {
    SyncKeepsConsistency(s, x, erp);
    MintKeepsConsistency(s.(staff := SyncFromErp(s.staff, x, erp)), StaffOwner(x), jti, now, ttl);
  }

  lemma WebLoginKeepsConsistency(
    s: State, local: Option<Id>, ok: bool, erp: Option<ErpStaff>, newRow: Id, jti: TokenId, now: int, ttl: int)
    requires Consistent(s) && (local.Some? ==> local.value in s.staff)
    ensures Consistent(WebLoginStep(s, local, ok, erp, newRow, jti, now, ttl).0)
  {
    if local.Some? && Managed(s.staff[local.value].role) {
      if s.staff[local.value].isActive {
        MintKeepsConsistency(s, StaffOwner(local.value), jti, now, ttl);
      }
    } else if erp.Some? && !Managed(erp.value.role) {
      var found := if local.Some? then local else ByEmail(s.staff, erp.value.email);
      if found.Some? {
        var x := found.value;
        if !Managed(s.staff[x].role) && s.staff[x].isActive {
          SyncThenMintKeepsConsistency(s, x, erp.value, jti, now, ttl);
        }
      } else if newRow !in s.staff {
        MirrorKeepsConsistency(s, newRow, erp.value);
        SyncThenMintKeepsConsistency(
          s.(staff := s.staff[newRow := Staff(erp.value.role, erp.value.email, true, erp.value.region, false)]), newRow, erp.value, jti, now, ttl);
      }
    }
  }

  lemma StaffLoginKeepsConsistency(s: State, found: Option<Id>, ok: bool, jti: TokenId, now: int, ttl: int)
    requires Consistent(s) && (found.Some? ==> found.value in s.staff)
    ensures Consistent(StaffLoginStep(s, found, ok, jti, now, ttl).0)
  {
    if found.Some? && s.staff[found.value].isActive {
      MintKeepsConsistency(s, StaffOwner(found.value), jti, now, ttl);
    }
  }

  /** The login counters are no part of any invariant. */
  lemma CountersKeepConsistency(s: State, c: Id, row: Customer)
    requires Consistent(s) && c in s.customers && row.officer == s.customers[c].officer
    ensures Consistent(s.(customers := s.customers[c := row]))
  {
  }

  lemma CustomerLoginKeepsConsistency(s: State, c: Id, password: Option<bool>, jti: TokenId, now: int, ttl: int)
    requires Consistent(s)
    ensures Consistent(CustomerLoginStep(s, c, password, jti, now, ttl).0)
  {
    if c in s.customers && password.Some? {
      var row := s.customers[c];
      var cleared := row.(failures := 0, lockedUntil := None);
      CountersKeepConsistency(s, c, WrongPassword(row, now));
      CountersKeepConsistency(s, c, cleared);
      MintKeepsConsistency(s.(customers := s.customers[c := cleared]), CustomerOwner(c), jti, now, ttl);
    }
  }

  lemma ReassignmentsKeepConsistency(s: State, c: Id, from: Id, to: Id, cs: seq<Id>, scope: Option<Region>, now: int)
    requires Consistent(s)
    ensures Consistent(ReassignStep(s, c, to, now).0)
    ensures Consistent(ReassignAllStep(s, from, to, now).0)
    ensures Consistent(BulkReassignStep(s, cs, to, scope, now).0)
  {
    if ReassignGuard(s, c, to).None? {
      AssignKeepsConsistency(s, {c}, to, now);
    }
    if ReassignAllGuard(s, from, to).None? {
      AssignKeepsConsistency(s, Portfolio(s, from), to, now);
    }
    var moved := MovedBy(s, cs, to, scope);
    if moved == {} {
      AssignNone(s, to, now);
    } else {
      var m :| m in moved;
      AssignKeepsConsistency(s, moved, to, now);
    }
  }

  lemma DefaultOfficerKeepsConsistency(s: State, email: string, region: Region, c: Id, busy: bool, now: int)
    requires Consistent(s)
    ensures Consistent(AssignIfUnassignedStep(s, email, region, c, now).0)
    ensures Consistent(ReconcileStep(s, email, region, busy, now).0)
  {
    var officer := ResolveOfficer(s.staff, email);
    if officer.Some? {
      AssignKeepsConsistency(s, Unassigned(s, region), officer.value, now);
      if c in Unassigned(s, region) {
        AssignKeepsConsistency(s, {c}, officer.value, now);
      }
    }
  }

  lemma InsertKeepsConsistency(s: State, c: Id, home: Region)
    requires Consistent(s) && c !in s.customers
    ensures Consistent(s.(customers := s.customers[c := NewCustomer(home)]))
  {
  }

  predicate IsSessionOp(op: Op) {
    op.StaffLogin? || op.StaffWebLogin? || op.CustomerLogin? || op.Refresh? || op.Logout?
  }

  predicate IsStaffOp(op: Op) {
    op.CreateOfficer? || op.EditProfile? || op.SetActive?
  }

  lemma SessionOpKeepsConsistency(cfg: Config, s: State, call: Call)
    requires Consistent(s) && IsSessionOp(call.op)
    ensures Consistent(Step(cfg, s, call))
  {
    var now := call.now;
    match call.op
    case StaffLogin(found, ok, jti) => StaffLoginKeepsConsistency(s, InTable(s.staff, found), ok, jti, now, cfg.refreshTtl);
    case StaffWebLogin(local, ok, erp, row, jti) =>
      WebLoginKeepsConsistency(s, InTable(s.staff, local), ok, erp, row, jti, now, cfg.refreshTtl);
    case CustomerLogin(c, password, jti) => CustomerLoginKeepsConsistency(s, c, password, jti, now, cfg.refreshTtl);
    case Refresh(jwt, jti) => RefreshKeepsConsistency(s, jwt, jti, now, cfg.refreshTtl);
    case Logout(jwt) =>
      if jwt.RefreshJwt? {
        RevokeKeepsLinks(s.tokens, {jwt.jti}, now);
      }
  }

  lemma StaffOpKeepsConsistency(cfg: Config, s: State, call: Call)
    requires Consistent(s) && IsStaffOp(call.op)
    ensures Consistent(Step(cfg, s, call))
  {
    match call.op
    case CreateOfficer(x, role, email, taken, region, scope) => CreateKeepsConsistency(s, x, role, email, taken, region, scope);
    case EditProfile(x, edit, scope) => EditProfileKeepsConsistency(s, x, edit, scope);
    case SetActive(x, isActive, actor, scope) => SetActiveKeepsConsistency(s, x, isActive, actor, scope, call.now);
  }

  lemma AssignmentOpKeepsConsistency(cfg: Config, s: State, call: Call)
    requires Consistent(s) && !IsSessionOp(call.op) && !IsStaffOp(call.op)
    ensures Consistent(Step(cfg, s, call))
  {
    var now := call.now;
    match call.op
    case Reassign(c, to) => ReassignmentsKeepConsistency(s, c, "", to, [], None, now);
    case ReassignAll(from, to) => ReassignmentsKeepConsistency(s, "", from, to, [], None, now);
    case BulkReassign(cs, to, scope) => ReassignmentsKeepConsistency(s, "", "", to, cs, scope, now);
    case InsertCustomer(c, home) =>
      if c !in s.customers {
        InsertKeepsConsistency(s, c, home);
      }
    case AssignIfUnassigned(c) => DefaultOfficerKeepsConsistency(s, cfg.officerEmail, cfg.officerRegion, c, false, now);
    case Reconcile(busy) => DefaultOfficerKeepsConsistency(s, cfg.officerEmail, cfg.officerRegion, "", busy, now);
  }

  /** Every one of the fourteen calls keeps all five invariants, whatever its arguments. */
  lemma StepKeepsConsistency(cfg: Config, s: State, call: Call)
    requires Consistent(s)
    ensures Consistent(Step(cfg, s, call))
  {
    if IsSessionOp(call.op) {
      SessionOpKeepsConsistency(cfg, s, call);
    } else if IsStaffOp(call.op) {
      StaffOpKeepsConsistency(cfg, s, call);
    } else {
      AssignmentOpKeepsConsistency(cfg, s, call);
    }
  }

  lemma {:induction false} RunKeepsConsistency(cfg: Config, s: State, calls: seq<Call>)
    requires Consistent(s)
    ensures Consistent(Run(cfg, s, calls))
    decreases |calls|
  {
    if calls != [] {
      StepKeepsConsistency(cfg, s, calls[0]);
      RunKeepsConsistency(cfg, Step(cfg, s, calls[0]), calls[1..]);
    }
  }

  /**
   * The invariants at every state of every run of the portal, spelled out: the
   * pointer and the primary rows state one fact, every pointer names an active
   * OFFICER, a retired staff member owns no live session, and every token lies
   * on one login's chain.
   */
  lemma EveryReachableState(cfg: Config, calls: seq<Call>)
    ensures var s := Run(cfg, EMPTY, calls);
            (forall c, o :: c in s.customers ==> (IsPrimary(s.joins, c, o) <==> s.customers[c].officer == Some(o))) &&
            (forall c :: c in s.customers && s.customers[c].officer.Some? ==> ActiveOfficer(s.staff, s.customers[c].officer.value)) &&
            (forall t, x :: t in s.tokens && s.tokens[t].owner == StaffOwner(x) && x in s.staff && !s.staff[x].isActive ==> !s.tokens[t].Live()) &&
            (forall a, b, r | a in s.tokens && b in s.tokens && Reaches(s.tokens, r, a) && Reaches(s.tokens, r, b) ::
               s.tokens[a].Live() && s.tokens[b].Live() ==> a == b)
  {
    RunKeepsConsistency(cfg, EMPTY, calls);
    var s := Run(cfg, EMPTY, calls);
    forall a, b, r | a in s.tokens && b in s.tokens && Reaches(s.tokens, r, a) && Reaches(s.tokens, r, b)
                     && s.tokens[a].Live() && s.tokens[b].Live()
      ensures a == b
    {
      OneLivePerChain(s.tokens, r, a, b);
    }
  }

  // ---------------------------------------------------------------- administrators and roles

  /** No account's status and no managed account is different; managed accounts are the same ones as before. */
  ghost predicate SparesManaged(before: StaffTable, after: StaffTable) {
    (forall x :: x in before ==>
       x in after && after[x].isActive == before[x].isActive && (Managed(before[x].role) ==> after[x] == before[x])) &&
    (forall x :: x in after && Managed(after[x].role) ==> x in before && after[x] == before[x])
  }

  lemma SyncSparesManaged(staff: StaffTable, created: StaffTable, x: Id, erp: ErpStaff)
    requires SparesManaged(staff, created) && x in created && !Managed(created[x].role) && !Managed(erp.role)
    ensures SparesManaged(staff, SyncFromErp(created, x, erp))
  {
  }

  lemma NewMirrorSparesManaged(staff: StaffTable, x: Id, row: Staff)
    requires x !in staff && !Managed(row.role)
    ensures SparesManaged(staff, staff[x := row])
  {
  }

  /** Nothing the ERP reports at a web login reaches an internally managed account, or any account's status. */
  lemma ErpTouchesNoManagedAccount(
    s: State, local: Option<Id>, ok: bool, erp: Option<ErpStaff>, newRow: Id, jti: TokenId, now: int, ttl: int)
    requires local.Some? ==> local.value in s.staff
    ensures SparesManaged(s.staff, WebLoginStep(s, local, ok, erp, newRow, jti, now, ttl).0.staff)
  {
    var t := WebLoginStep(s, local, ok, erp, newRow, jti, now, ttl).0;
    if t.staff == s.staff {
    } else {
      var found := if local.Some? then local else ByEmail(s.staff, erp.value.email);
      if found.Some? {
        SyncSparesManaged(s.staff, s.staff, found.value, erp.value);
      } else {
        var row := Staff(erp.value.role, erp.value.email, true, erp.value.region, false);
        NewMirrorSparesManaged(s.staff, newRow, row);
        SyncSparesManaged(s.staff, s.staff[newRow := row], newRow, erp.value);
      }
    }
  }

  lemma StepKeepsRole(cfg: Config, s: State, call: Call, x: Id)
    requires x in s.staff
    ensures x in Step(cfg, s, call).staff
    ensures var t := Step(cfg, s, call);
            if Managed(s.staff[x].role) then t.staff[x].role == s.staff[x].role else !Managed(t.staff[x].role)
  {
    if call.op.StaffWebLogin? {
      var o := call.op;
      ErpTouchesNoManagedAccount(s, InTable(s.staff, o.local), o.passwordOk, o.erp, o.newRow, o.jti, call.now, cfg.refreshTtl);
    }
  }

  /** Only the administrators' own route moves an account's status. */
  lemma OnlySetActiveMovesStatus(cfg: Config, s: State, call: Call, x: Id)
    requires x in s.staff
    ensures x in Step(cfg, s, call).staff
    ensures Step(cfg, s, call).staff[x].isActive != s.staff[x].isActive ==> call.op.SetActive? && call.op.x == x
  {
    if call.op.StaffWebLogin? {
      var o := call.op;
      ErpTouchesNoManagedAccount(s, InTable(s.staff, o.local), o.passwordOk, o.erp, o.newRow, o.jti, call.now, cfg.refreshTtl);
    }
  }

  /** Over every run a managed role is kept for good, and a mirrored account never becomes a managed one. */
  lemma {:induction false} RolesAreStable(cfg: Config, s: State, calls: seq<Call>, x: Id)
    requires x in s.staff
    ensures x in Run(cfg, s, calls).staff
    ensures var t := Run(cfg, s, calls);
            if Managed(s.staff[x].role) then t.staff[x].role == s.staff[x].role else !Managed(t.staff[x].role)
    decreases |calls|
  {
    if calls != [] {
      StepKeepsRole(cfg, s, calls[0], x);
      RolesAreStable(cfg, Step(cfg, s, calls[0]), calls[1..], x);
    }
  }

  /** No call retires the last active administrator. */
  lemma StepKeepsAnAdmin(cfg: Config, s: State, call: Call)
    requires ActiveAdmins(s) != {}
    ensures ActiveAdmins(Step(cfg, s, call)) != {}
  {
    var t := Step(cfg, s, call);
    var a :| a in ActiveAdmins(s);
    StepKeepsRole(cfg, s, call, a);
    OnlySetActiveMovesStatus(cfg, s, call, a);
    if a !in ActiveAdmins(t) {
      SecondAdmin(s, a, call.op.actor, call.op.scope);
      var b :| b in ActiveAdmins(s) && b != a;
      StepKeepsRole(cfg, s, call, b);
      OnlySetActiveMovesStatus(cfg, s, call, b);
      assert b in ActiveAdmins(t);
    } else {
      assert a in ActiveAdmins(t);
    }
  }

  /** An administrator whose deactivation goes through is not the only active one. */
  lemma SecondAdmin(s: State, a: Id, actor: Option<Id>, scope: Option<Region>)
    requires a in ActiveAdmins(s) && SetActiveGuard(s, a, false, actor, scope).None?
    ensures exists b :: b in ActiveAdmins(s) && b != a
  {
    assert |ActiveAdmins(s) - {a}| == |ActiveAdmins(s)| - 1;
    var b :| b in ActiveAdmins(s) - {a};
  }

  lemma {:induction false} AnAdminRemains(cfg: Config, s: State, calls: seq<Call>)
    requires ActiveAdmins(s) != {}
    ensures ActiveAdmins(Run(cfg, s, calls)) != {}
    decreases |calls|
  {
    if calls != [] {
      StepKeepsAnAdmin(cfg, s, calls[0]);
      AnAdminRemains(cfg, Step(cfg, s, calls[0]), calls[1..]);
    }
  }

  // ---------------------------------------------------------------- sessions

  lemma RefreshIsTableStep(s: State, jwt: Jwt, jti: TokenId, now: int, ttl: int)
    ensures TableStep(s.tokens, RefreshStep(s, jwt, jti, now, ttl).0.tokens)
  {
    var w := RefreshWrites(s, jwt, jti, now, ttl);
    match w
    case NoWrite =>
    case RevokeFrom(ids) => RevokeIsTableStep(s.tokens, ids, now);
    case RotateLive(used) => RotateIsTableStep(s.tokens, used, jti, now + ttl, now);
  }

  lemma StaffLoginsAreTableSteps(s: State, found: Option<Id>, ok: bool, erp: Option<ErpStaff>, row: Id, jti: TokenId, now: int, ttl: int)
    requires found.Some? ==> found.value in s.staff
    ensures TableStep(s.tokens, StaffLoginStep(s, found, ok, jti, now, ttl).0.tokens)
    ensures TableStep(s.tokens, WebLoginStep(s, found, ok, erp, row, jti, now, ttl).0.tokens)
  {
    if jti !in s.tokens {
      var expiresAt := now + ttl;
      forall owner
        ensures TableStep(s.tokens, Mint(s.tokens, jti, owner, expiresAt))
      {
        MintIsTableStep(s.tokens, jti, owner, expiresAt);
      }
    }
  }

  lemma CustomerLoginIsTableStep(s: State, c: Id, password: Option<bool>, jti: TokenId, now: int, ttl: int)
    ensures TableStep(s.tokens, CustomerLoginStep(s, c, password, jti, now, ttl).0.tokens)
  {
    if jti !in s.tokens {
      MintIsTableStep(s.tokens, jti, CustomerOwner(c), now + ttl);
    }
  }

  /** All any call ever does to the token table. */
  lemma StepIsTableStep(cfg: Config, s: State, call: Call)
    ensures TableStep(s.tokens, Step(cfg, s, call).tokens)
  {
    var now := call.now;
    match call.op
    case StaffLogin(found, ok, jti) => StaffLoginsAreTableSteps(s, InTable(s.staff, found), ok, None, "", jti, now, cfg.refreshTtl);
    case StaffWebLogin(local, ok, erp, row, jti) =>
      StaffLoginsAreTableSteps(s, InTable(s.staff, local), ok, erp, row, jti, now, cfg.refreshTtl);
    case CustomerLogin(c, password, jti) => CustomerLoginIsTableStep(s, c, password, jti, now, cfg.refreshTtl);
    case Refresh(jwt, jti) => RefreshIsTableStep(s, jwt, jti, now, cfg.refreshTtl);
    case Logout(jwt) =>
      if jwt.RefreshJwt? {
        RevokeIsTableStep(s.tokens, {jwt.jti}, now);
      }
    case SetActive(x, isActive, actor, scope) => RevokeIsTableStep(s.tokens, SessionsOf(s.tokens, x), now);
    case _ => assert Step(cfg, s, call).tokens == s.tokens;
  }

  /** Whether this call exchanged `jti` for a new pair. */
  ghost predicate Exchanges(cfg: Config, s: State, call: Call, jti: TokenId) {
    call.op.Refresh? && call.op.jwt == RefreshJwt(jti) &&
    RefreshStep(s, call.op.jwt, call.op.jti, call.now, cfg.refreshTtl).1.Minted?
  }

  ghost function ExchangeCount(cfg: Config, s: State, calls: seq<Call>, jti: TokenId): nat
    decreases |calls|
  {
    if calls == [] then 0
    else (if Exchanges(cfg, s, calls[0], jti) then 1 else 0) + ExchangeCount(cfg, Step(cfg, s, calls[0]), calls[1..], jti)
  }

  lemma {:induction false} RevokedNeverExchanges(cfg: Config, s: State, calls: seq<Call>, jti: TokenId)
    requires jti in s.tokens && !s.tokens[jti].Live()
    ensures ExchangeCount(cfg, s, calls, jti) == 0
    ensures jti in Run(cfg, s, calls).tokens && Run(cfg, s, calls).tokens[jti].revokedAt == s.tokens[jti].revokedAt
    decreases |calls|
  {
    if calls != [] {
      StepIsTableStep(cfg, s, calls[0]);
      RevocationIsWriteOnce(s.tokens, Step(cfg, s, calls[0]).tokens, jti);
      RevokedNeverExchanges(cfg, Step(cfg, s, calls[0]), calls[1..], jti);
    }
  }

  /** Single use: over any run, from any state, a refresh token is exchanged at most once. */
  lemma {:induction false} ExchangedAtMostOnce(cfg: Config, s: State, calls: seq<Call>, jti: TokenId)
    ensures ExchangeCount(cfg, s, calls, jti) <= 1
    decreases |calls|
  {
    if calls != [] {
      var t := Step(cfg, s, calls[0]);
      if Exchanges(cfg, s, calls[0], jti) {
        RevokedNeverExchanges(cfg, t, calls[1..], jti);
      } else {
        ExchangedAtMostOnce(cfg, t, calls[1..], jti);
      }
    }
  }

  lemma {:induction false} DeadForTheRun(cfg: Config, s: State, calls: seq<Call>, id: TokenId)
    requires Consistent(s) && id in s.tokens && ChainDead(s.tokens, id)
    ensures id in Run(cfg, s, calls).tokens && ChainDead(Run(cfg, s, calls).tokens, id)
    decreases |calls|
  {
    if calls != [] {
      StepIsTableStep(cfg, s, calls[0]);
      DeadStaysDead(s.tokens, Step(cfg, s, calls[0]).tokens, id);
      StepKeepsConsistency(cfg, s, calls[0]);
      DeadForTheRun(cfg, Step(cfg, s, calls[0]), calls[1..], id);
    }
  }

  /**
   * Reuse: in any reachable state, presenting a revoked token ends its whole
   * chain, older rows and newer ones, for the rest of every run.
   */
  lemma ReuseEndsTheChain(cfg: Config, before: seq<Call>, used: TokenId, jti: TokenId, now: int, later: seq<Call>)
    requires used in Run(cfg, EMPTY, before).tokens && !Run(cfg, EMPTY, before).tokens[used].Live()
    ensures var t := Step(cfg, Run(cfg, EMPTY, before), Call(Refresh(RefreshJwt(used), jti), now));
            ChainDead(t.tokens, used) && ChainDead(Run(cfg, t, later).tokens, used)
  {
    var s := Run(cfg, EMPTY, before);
    RunKeepsConsistency(cfg, EMPTY, before);
    var call := Call(Refresh(RefreshJwt(used), jti), now);
    ForwardRevocationKillsChain(s.tokens, used, now);
    StepKeepsConsistency(cfg, s, call);
    DeadForTheRun(cfg, Step(cfg, s, call), later, used);
  }

  /** Logging out is final: the presented token is never exchanged, whatever runs follow. */
  lemma LoggedOutForGood(cfg: Config, s: State, jti: TokenId, now: int, later: seq<Call>)
    requires jti in s.tokens
    ensures ExchangeCount(cfg, Step(cfg, s, Call(Logout(RefreshJwt(jti)), now)), later, jti) == 0
  {
    RevokedNeverExchanges(cfg, Step(cfg, s, Call(Logout(RefreshJwt(jti)), now)), later, jti);
  }

  /** A call that puts this account back in service. */
  predicate Reactivates(call: Call, x: Id) {
    call.op.SetActive? && call.op.x == x && call.op.isActive
  }

  lemma StaysRetired(cfg: Config, s: State, call: Call, x: Id)
    requires x in s.staff && !s.staff[x].isActive && !Reactivates(call, x)
    ensures x in Step(cfg, s, call).staff && !Step(cfg, s, call).staff[x].isActive
  {
    OnlySetActiveMovesStatus(cfg, s, call, x);
  }

  /** A retired account stays retired and without a session until someone reactivates it. */
  lemma {:induction false} RetiredUntilReactivated(cfg: Config, s: State, calls: seq<Call>, x: Id)
    requires Consistent(s) && x in s.staff && !s.staff[x].isActive
    requires forall i :: 0 <= i < |calls| ==> !Reactivates(calls[i], x)
    ensures var t := Run(cfg, s, calls);
            x in t.staff && !t.staff[x].isActive && forall k :: k in t.tokens && t.tokens[k].owner == StaffOwner(x) ==> !t.tokens[k].Live()
    decreases |calls|
  {
    if calls != [] {
      StaysRetired(cfg, s, calls[0], x);
      StepKeepsConsistency(cfg, s, calls[0]);
      RetiredUntilReactivated(cfg, Step(cfg, s, calls[0]), calls[1..], x);
    }
  }

  // ---------------------------------------------------------------- regional administrators

  /** Calls that carry their caller's region. */
  function ScopeOf(op: Op): Option<Region> {
    match op
    case CreateOfficer(_, _, _, _, _, scope) => scope
    case EditProfile(_, _, scope) => scope
    case SetActive(_, _, _, scope) => scope
    case BulkReassign(_, _, scope) => scope
    case _ => None
  }

  predicate InScope(row: Staff, region: Region) {
    RegionalAdminManaged(row.role) && row.region == Some(region)
  }

  /**
   * A regional administrator's call writes only staff rows of the two roles they
   * manage, in their own region before and after, and moves only their own
   * region's customers, to officers of that region.
   */
  lemma ScopeIsRespected(cfg: Config, s: State, call: Call, region: Region)
    requires ScopeOf(call.op) == Some(region)
    ensures var t := Step(cfg, s, call);
            (forall x :: x in s.staff ==>
               x in t.staff && (t.staff[x] != s.staff[x] ==> InScope(s.staff[x], region) && InScope(t.staff[x], region))) &&
            (forall x :: x in t.staff && x !in s.staff ==> InScope(t.staff[x], region))
    ensures var t := Step(cfg, s, call);
            t.customers.Keys == s.customers.Keys &&
            forall c :: c in s.customers && t.customers[c] != s.customers[c] ==>
              s.customers[c].region == region && t.customers[c].region == region &&
              t.customers[c].officer.Some? && t.customers[c].officer.value in s.staff && InScope(s.staff[t.customers[c].officer.value], region)
  {
    if call.op.BulkReassign? {
      var o := call.op;
      var moved := MovedBy(s, o.customers, o.to, o.scope);
      forall c | c in moved
        ensures c in s.customers && s.customers[c].region == region && o.to in s.staff && InScope(s.staff[o.to], region)
      {
      }
    }
  }
}
