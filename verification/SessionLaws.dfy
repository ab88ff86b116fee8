/** When a session is opened or exchanged, on the tables' columns, and what that means over runs of the whole portal. */
module SessionLaws {
  import opened Option
  import opened RefreshTokens
  import opened Portal
  import opened AuthService
  import opened PortalRuns

  // ---------------------------------------------------------------- exchanging a token

  /** The owner of a session may use the portal: a customer's row is there, a staff row is there and in service. */
  predicate MayEnter(s: State, owner: Owner) {
    match owner
    case CustomerOwner(c) => c in s.customers
    case StaffOwner(x) => x in s.staff && s.staff[x].isActive
  }

  /** A token is exchanged exactly when its row is there, unrevoked, not past its expiry, its owner may enter and the new id is free. */
  lemma ExchangedIff(cfg: Config, s: State, call: Call, used: TokenId)
    ensures Exchanges(cfg, s, call, used) <==>
            call.op.Refresh? && call.op.jwt == RefreshJwt(used) && used in s.tokens && s.tokens[used].revokedAt == None &&
            call.now <= s.tokens[used].expiresAt && MayEnter(s, s.tokens[used].owner) && call.op.jti !in s.tokens
  {
  }

  /** What an exchange writes: the new row, the stamps of the old one, and nothing else in any table. */
  lemma ExchangeWrites(cfg: Config, s: State, call: Call, used: TokenId)
    requires Exchanges(cfg, s, call, used)
    ensures var t, minted := Step(cfg, s, call), call.op.jti;
            t == s.(tokens := t.tokens) && t.tokens.Keys == s.tokens.Keys + {minted} &&
            t.tokens[minted] == Token(s.tokens[used].owner, call.now + cfg.refreshTtl, None, None, None) &&
            t.tokens[used] == Token(s.tokens[used].owner, s.tokens[used].expiresAt, Some(call.now), Some(minted), Some(call.now)) &&
            forall id :: id in s.tokens && id != used ==> t.tokens[id] == s.tokens[id]
  {
  }

  /** What the presenter of a token that is not exchanged is told, and when anything is written. */
  lemma RefusedExchange(s: State, jwt: Jwt, jti: TokenId, now: int, ttl: int, used: TokenId)
    requires jwt == RefreshJwt(used) && used in s.tokens
    ensures var (t, r), row := RefreshStep(s, jwt, jti, now, ttl), s.tokens[used];
            (r == TokenRevoked <==> row.revokedAt.Some?) &&
            (r == TokenExpired <==> row.revokedAt.None? && row.expiresAt < now) &&
            (r == Deactivated <==>
               row.revokedAt.None? && now <= row.expiresAt && row.owner.StaffOwner? && row.owner.id in s.staff && !s.staff[row.owner.id].isActive) &&
            (!r.TokenRevoked? && !r.Deactivated? && !r.Minted? ==> t == s)
  {
  }

  // ---------------------------------------------------------------- expiry over runs

  /** Rows stay, with their owner and their expiry. */
  ghost predicate KeepsRows(ts: Tokens, us: Tokens) {
    forall id :: id in ts ==> id in us && us[id].owner == ts[id].owner && us[id].expiresAt == ts[id].expiresAt
  }

  lemma TableStepKeepsRows(ts: Tokens, us: Tokens)
    requires TableStep(ts, us)
    ensures KeepsRows(ts, us)
  {
  }

  lemma {:induction false} RunKeepsRows(cfg: Config, s: State, calls: seq<Call>)
    ensures KeepsRows(s.tokens, Run(cfg, s, calls).tokens)
    decreases |calls|
  {
    if calls != [] {
      StepIsTableStep(cfg, s, calls[0]);
      TableStepKeepsRows(s.tokens, Step(cfg, s, calls[0]).tokens);
      RunKeepsRows(cfg, Step(cfg, s, calls[0]), calls[1..]);
    }
  }

  /** A row this call added to the table. */
  ghost predicate Adds(cfg: Config, s: State, call: Call, id: TokenId) {
    id !in s.tokens && id in Step(cfg, s, call).tokens
  }

  /** Every row, a login's or an exchange's, is added live, unlinked, and with the configured life. */
  lemma AddedRow(cfg: Config, s: State, call: Call, id: TokenId)
    requires Adds(cfg, s, call, id)
    ensures var row := Step(cfg, s, call).tokens[id];
            row == Token(row.owner, call.now + cfg.refreshTtl, None, None, None)
    ensures call.op.StaffLogin? || call.op.StaffWebLogin? || call.op.CustomerLogin? || call.op.Refresh?
  {
    assert IsSessionOp(call.op) || call.op.SetActive? || Step(cfg, s, call).tokens == s.tokens;
  }

  /** No token outlives its life: whatever runs follow the call that added it, it is exchanged by then or never. */
  lemma NeverAfterExpiry(cfg: Config, s: State, call: Call, id: TokenId, later: seq<Call>, i: nat)
    requires Adds(cfg, s, call, id) && i < |later|
    requires Exchanges(cfg, Run(cfg, Step(cfg, s, call), later[..i]), later[i], id)
    ensures later[i].now <= call.now + cfg.refreshTtl
  {
    var t := Step(cfg, s, call);
    AddedRow(cfg, s, call, id);
    RunKeepsRows(cfg, t, later[..i]);
    ExchangedIff(cfg, Run(cfg, t, later[..i]), later[i], id);
  }

  /** And while it lasts, an unrevoked token whose owner may enter is exchanged for any free id. */
  lemma ExchangedWithinLife(cfg: Config, s: State, call: Call, id: TokenId, later: seq<Call>, jti: TokenId, now: int)
    requires Adds(cfg, s, call, id) && now <= call.now + cfg.refreshTtl
    requires var u := Run(cfg, Step(cfg, s, call), later);
             id in u.tokens && u.tokens[id].revokedAt == None && MayEnter(u, u.tokens[id].owner) && jti !in u.tokens
    ensures Exchanges(cfg, Run(cfg, Step(cfg, s, call), later), Call(Refresh(RefreshJwt(id), jti), now), id)
  {
    AddedRow(cfg, s, call, id);
    RunKeepsRows(cfg, Step(cfg, s, call), later);
    ExchangedIff(cfg, Run(cfg, Step(cfg, s, call), later), Call(Refresh(RefreshJwt(id), jti), now), id);
  }

  // ---------------------------------------------------------------- staff passwords

  function WithSession(s: State, owner: Owner, jti: TokenId, expiresAt: int): State {
    s.(tokens := s.tokens[jti := Token(owner, expiresAt, None, None, None)])
  }

  /** The app's login: a session for the right password of an account in service, and nothing written otherwise. */
  lemma StaffEntersIff(s: State, x: Id, ok: bool, jti: TokenId, now: int, ttl: int)
    requires x in s.staff
    ensures var (t, r), row := StaffLoginStep(s, Some(x), ok, jti, now, ttl), s.staff[x];
            (r == Minted(jti) <==> row.hasPassword && ok && row.isActive && jti !in s.tokens) &&
            (r == Deactivated <==> row.hasPassword && ok && !row.isActive) &&
            t == if r == Minted(jti) then WithSession(s, StaffOwner(x), jti, now + ttl) else s
    ensures !ok || !s.staff[x].hasPassword ==>
              StaffLoginStep(s, Some(x), ok, jti, now, ttl) == StaffLoginStep(s, None, ok, jti, now, ttl) == (s, BadCredentials)
  {
  }

  /** The web route, for an account managed here: the same, but an account without a password is told so. The ERP has no say. */
  lemma ManagedEntersIff(s: State, x: Id, ok: bool, erp: Option<ErpStaff>, newRow: Id, jti: TokenId, now: int, ttl: int)
    requires x in s.staff && Managed(s.staff[x].role)
    ensures var (t, r), row := WebLoginStep(s, Some(x), ok, erp, newRow, jti, now, ttl), s.staff[x];
            (r == Minted(jti) <==> row.hasPassword && ok && row.isActive && jti !in s.tokens) &&
            (r == PasswordNotSet <==> !row.hasPassword) &&
            (r == BadCredentials <==> row.hasPassword && !ok) &&
            (r == Deactivated <==> row.hasPassword && ok && !row.isActive) &&
            t == if r == Minted(jti) then WithSession(s, StaffOwner(x), jti, now + ttl) else s
  {
  }

  /** This row's email is some other row's, or will be refused as one. */
  ghost predicate EmailHeld(s: State, x: Id, erp: ErpStaff) {
    erp.taken || exists y :: y in s.staff && y != x && s.staff[y].email == erp.email
  }

  /**
   * The web route for a mirrored account, known here already: the ERP vouches for
   * it under a role it may hold, and the account is in service. The session comes
   * with the ERP's role and region, and its email where no other row holds it.
   */
  lemma MirrorEntersIff(s: State, x: Id, ok: bool, erp: ErpStaff, newRow: Id, jti: TokenId, now: int, ttl: int)
    requires UniqueEmails(s.staff) && x in s.staff && !Managed(s.staff[x].role)
    ensures var (t, r), row := WebLoginStep(s, Some(x), ok, Some(erp), newRow, jti, now, ttl), s.staff[x];
            (r == Minted(jti) <==> !Managed(erp.role) && row.isActive && jti !in s.tokens) &&
            (r == NotProvisioned <==> Managed(erp.role)) &&
            (r == Deactivated <==> !Managed(erp.role) && !row.isActive) &&
            t.customers == s.customers && t.joins == s.joins &&
            (Managed(erp.role) || !row.isActive ==> t == s) &&
            (!Managed(erp.role) && row.isActive ==>
               t.staff == s.staff[x := Staff(erp.role, if EmailHeld(s, x, erp) then row.email else erp.email, true, erp.region, row.hasPassword)]) &&
            t.tokens == if r == Minted(jti) then s.tokens[jti := Token(StaffOwner(x), now + ttl, None, None, None)] else s.tokens
  {
    var holder := ByEmail(s.staff, erp.email);
    assert EmailHeld(s, x, erp) <==> erp.taken || (holder.Some? && holder.value != x);
  }

  /** Without the ERP's word there is no session for an account that is not managed here. */
  lemma ErpMustVouch(s: State, local: Option<Id>, ok: bool, newRow: Id, jti: TokenId, now: int, ttl: int)
    requires local.Some? ==> local.value in s.staff && !Managed(s.staff[local.value].role)
    ensures WebLoginStep(s, local, ok, None, newRow, jti, now, ttl) == (s, BadCredentials)
  {
  }

  /** An account first seen: created in service, without a password, as the ERP reports it. */
  lemma FirstSeen(s: State, ok: bool, erp: ErpStaff, newRow: Id, jti: TokenId, now: int, ttl: int)
    requires forall y :: y in s.staff ==> s.staff[y].email != erp.email
    ensures var (t, r) := WebLoginStep(s, None, ok, Some(erp), newRow, jti, now, ttl);
            (r == Minted(jti) <==> !Managed(erp.role) && !erp.taken && newRow !in s.staff && jti !in s.tokens) &&
            (r == NotProvisioned <==> Managed(erp.role)) &&
            if Managed(erp.role) || erp.taken || newRow in s.staff then t == s
            else t.staff == s.staff[newRow := Staff(erp.role, erp.email, true, erp.region, false)] &&
                 t.tokens == if r == Minted(jti) then s.tokens[jti := Token(StaffOwner(newRow), now + ttl, None, None, None)] else s.tokens
  {
    if !Managed(erp.role) && !erp.taken && newRow !in s.staff {
      var created := s.staff[newRow := Staff(erp.role, erp.email, true, erp.region, false)];
      var holder := ByEmail(created, erp.email);
      assert created[newRow].email == erp.email;
      assert holder == Some(newRow);
      assert SyncFromErp(created, newRow, erp) == created;
    }
  }

  /** A call that submits the right password of this account. */
  predicate ShowsPassword(op: Op, x: Id) {
    (op.StaffLogin? && op.found == Some(x) && op.passwordOk) || (op.StaffWebLogin? && op.local == Some(x) && op.passwordOk)
  }

  ghost predicate NeverShown(calls: seq<Call>, x: Id) {
    forall i :: 0 <= i < |calls| ==> !ShowsPassword(calls[i].op, x)
  }

  /** Whose session each kind of call opens, and on what showing. */
  ghost predicate OpenedFor(s: State, t: State, op: Op, owner: Owner) {
    match op
    case StaffLogin(found, ok, _) =>
      found.Some? && found.value in s.staff && owner == StaffOwner(found.value) &&
      ok && s.staff[found.value].hasPassword && s.staff[found.value].isActive
    case StaffWebLogin(local, ok, _, _, _) =>
      owner.StaffOwner? && owner.id in t.staff &&
      if local.Some? && local.value in s.staff && Managed(s.staff[local.value].role) then
        owner.id == local.value && ok && s.staff[local.value].hasPassword && s.staff[local.value].isActive
      else !Managed(t.staff[owner.id].role)
    case CustomerLogin(c, password, _) => owner == CustomerOwner(c) && password == Some(true)
    case Refresh(jwt, _) => jwt.RefreshJwt? && jwt.jti in s.tokens && s.tokens[jwt.jti].owner == owner
    case _ => false
  }

  lemma WebLoginOpens(
    s: State, local: Option<Id>, ok: bool, erp: Option<ErpStaff>, newRow: Id, jti: TokenId, now: int, ttl: int, id: TokenId)
    requires local.Some? ==> local.value in s.staff
    requires id !in s.tokens && id in WebLoginStep(s, local, ok, erp, newRow, jti, now, ttl).0.tokens
    ensures var t := WebLoginStep(s, local, ok, erp, newRow, jti, now, ttl).0;
            OpenedFor(s, t, StaffWebLogin(local, ok, erp, newRow, jti), t.tokens[id].owner)
  {
  }

  lemma WhoseSession(cfg: Config, s: State, call: Call, id: TokenId)
    requires Adds(cfg, s, call, id)
    ensures OpenedFor(s, Step(cfg, s, call), call.op, Step(cfg, s, call).tokens[id].owner)
  {
    AddedRow(cfg, s, call, id);
    if call.op.StaffWebLogin? {
      var o := call.op;
      WebLoginOpens(s, InTable(s.staff, o.local), o.passwordOk, o.erp, o.newRow, o.jti, call.now, cfg.refreshTtl, id);
    }
  }

  /** A session of a managed account is opened by its right password or exchanged for an older one: there is no third way. */
  lemma SessionNeedsPassword(cfg: Config, s: State, call: Call, x: Id, id: TokenId)
    requires x in s.staff && Managed(s.staff[x].role)
    requires Adds(cfg, s, call, id) && Step(cfg, s, call).tokens[id].owner == StaffOwner(x)
    ensures if call.op.Refresh? then exists used :: used in s.tokens && s.tokens[used].owner == StaffOwner(x)
            else ShowsPassword(call.op, x) && s.staff[x].hasPassword && s.staff[x].isActive
  {
    WhoseSession(cfg, s, call, id);
    StepKeepsRole(cfg, s, call, x);
  }

  ghost predicate Sessionless(s: State, owner: Owner) {
    forall id :: id in s.tokens ==> s.tokens[id].owner != owner
  }

  /** Mirrored from the ERP, or without a session in any state. */
  ghost predicate MirroredOrSessionless(s: State, x: Id) {
    (x in s.staff && !Managed(s.staff[x].role)) || Sessionless(s, StaffOwner(x))
  }

  lemma StepKeepsSessionless(cfg: Config, s: State, call: Call, x: Id)
    requires MirroredOrSessionless(s, x) && !ShowsPassword(call.op, x)
    ensures MirroredOrSessionless(Step(cfg, s, call), x)
  {
    var t := Step(cfg, s, call);
    if x in s.staff && !Managed(s.staff[x].role) {
      StepKeepsRole(cfg, s, call, x);
    } else {
      StepIsTableStep(cfg, s, call);
      TableStepKeepsRows(s.tokens, t.tokens);
      forall id | id in t.tokens && t.tokens[id].owner == StaffOwner(x)
        ensures x in t.staff && !Managed(t.staff[x].role)
      {
        assert Adds(cfg, s, call, id);
        NewSessionOfStranger(cfg, s, call, x, id);
      }
    }
  }

  /** A first session without the password is a mirrored account's, created by this very call. */
  lemma NewSessionOfStranger(cfg: Config, s: State, call: Call, x: Id, id: TokenId)
    requires !(x in s.staff && !Managed(s.staff[x].role)) && Sessionless(s, StaffOwner(x)) && !ShowsPassword(call.op, x)
    requires Adds(cfg, s, call, id) && Step(cfg, s, call).tokens[id].owner == StaffOwner(x)
    ensures x in Step(cfg, s, call).staff && !Managed(Step(cfg, s, call).staff[x].role)
  {
    WhoseSession(cfg, s, call, id);
    if x in s.staff {
      SessionNeedsPassword(cfg, s, call, x, id);
    }
  }

  lemma {:induction false} RunKeepsSessionless(cfg: Config, s: State, calls: seq<Call>, x: Id)
    requires MirroredOrSessionless(s, x) && NeverShown(calls, x)
    ensures MirroredOrSessionless(Run(cfg, s, calls), x)
    decreases |calls|
  {
    if calls != [] {
      StepKeepsSessionless(cfg, s, calls[0], x);
      RunKeepsSessionless(cfg, Step(cfg, s, calls[0]), calls[1..], x);
    }
  }

  /** Over every run in which the right password of a managed account is never submitted, it has not had one session. */
  lemma NoPasswordNoSession(cfg: Config, calls: seq<Call>, x: Id)
    requires NeverShown(calls, x)
    requires var s := Run(cfg, EMPTY, calls); x in s.staff && Managed(s.staff[x].role)
    ensures Sessionless(Run(cfg, EMPTY, calls), StaffOwner(x))
  {
    RunKeepsSessionless(cfg, EMPTY, calls, x);
  }

  // ---------------------------------------------------------------- customers' passwords

  /** A customer's login: the right password, unless locked. It clears the counters, and no other row of theirs or anyone's moves. */
  lemma CustomerEntersIff(s: State, c: Id, password: Option<bool>, jti: TokenId, now: int, ttl: int)
    ensures var (t, r) := CustomerLoginStep(s, c, password, jti, now, ttl);
            var locked := c in s.customers && s.customers[c].lockedUntil.Some? && now < s.customers[c].lockedUntil.value;
            (r == Minted(jti) <==> c in s.customers && password == Some(true) && !locked && jti !in s.tokens) &&
            (c !in s.customers || password == None || locked ==> t == s) &&
            t.staff == s.staff && t.joins == s.joins && t.customers.Keys == s.customers.Keys &&
            (forall d :: d in s.customers && d != c ==> t.customers[d] == s.customers[d]) &&
            (c in s.customers ==> t.customers[c].officer == s.customers[c].officer && t.customers[c].region == s.customers[c].region) &&
            (c in s.customers && password == Some(true) && !locked ==> t.customers[c].failures == 0 && t.customers[c].lockedUntil == None) &&
            t.tokens == if r == Minted(jti) then s.tokens[jti := Token(CustomerOwner(c), now + ttl, None, None, None)] else s.tokens
  {
  }

  /** What a refused customer is told: locked, while locked and at the failure that locks; the same words in every other case. */
  lemma CustomerRefusal(s: State, c: Id, password: Option<bool>, jti: TokenId, now: int, ttl: int)
    requires password != Some(true)
    ensures CustomerLoginStep(s, c, password, jti, now, ttl).1 ==
            if c in s.customers && password.Some? &&
               ((s.customers[c].lockedUntil.Some? && now < s.customers[c].lockedUntil.value) || s.customers[c].failures >= 4)
            then AccountLocked else BadCredentials
  {
  }

  ghost predicate NeverEntered(calls: seq<Call>, c: Id) {
    forall i :: 0 <= i < |calls| ==> !(calls[i].op.CustomerLogin? && calls[i].op.customer == c && calls[i].op.password == Some(true))
  }

  lemma StepKeepsCustomerOut(cfg: Config, s: State, call: Call, c: Id)
    requires Sessionless(s, CustomerOwner(c))
    requires !(call.op.CustomerLogin? && call.op.customer == c && call.op.password == Some(true))
    ensures Sessionless(Step(cfg, s, call), CustomerOwner(c))
  {
    var t := Step(cfg, s, call);
    StepIsTableStep(cfg, s, call);
    TableStepKeepsRows(s.tokens, t.tokens);
    forall id | id in t.tokens
      ensures t.tokens[id].owner != CustomerOwner(c)
    {
      if id !in s.tokens {
        WhoseSession(cfg, s, call, id);
      }
    }
  }

  /** Over every run in which a customer's right password is never submitted, they have had no session. */
  lemma {:induction false} NoPasswordNoCustomerSession(cfg: Config, s: State, calls: seq<Call>, c: Id)
    requires Sessionless(s, CustomerOwner(c)) && NeverEntered(calls, c)
    ensures Sessionless(Run(cfg, s, calls), CustomerOwner(c))
    decreases |calls|
  {
    if calls != [] {
      StepKeepsCustomerOut(cfg, s, calls[0], c);
      NoPasswordNoCustomerSession(cfg, Step(cfg, s, calls[0]), calls[1..], c);
    }
  }
}
