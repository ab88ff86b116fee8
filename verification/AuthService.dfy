/** Logins, refresh-token rotation, chain revocation and logout. */
module AuthService {
  import opened Option
  import opened RefreshTokens
  import opened Portal

  /** What verifying a presented token yields: nothing, some other kind of token, or a refresh token's row id. */
  datatype Jwt = BadSignature | OtherKind | RefreshJwt(jti: TokenId)

  datatype AuthResult =
    | Minted(jti: TokenId)
    | InvalidToken
    | NotRefreshToken
    | Unrecognised
    | TokenRevoked
    | TokenExpired
    | NoSuchUser
    | Deactivated
    | BadCredentials
    | AccountLocked
    | PasswordNotSet
    | NotProvisioned
    | KeyTaken

  /**
   * A staff record as the ERP's credential check reports it. `taken` is whether
   * its username or phone, unique columns both, is already held by another row.
   */
  datatype ErpStaff = ErpStaff(email: string, role: Role, region: Option<Region>, taken: bool)

  // ---------------------------------------------------------------- specification

  /** `generateToken`: one new row; the table's primary key refuses an id that is taken. */
  function MintStep(s: State, owner: Owner, jti: TokenId, now: int, ttl: int): (State, AuthResult) {
    if jti in s.tokens then (s, KeyTaken)
    else (s.(tokens := Mint(s.tokens, jti, owner, now + ttl)), Minted(jti))
  }

  predicate UserExists(s: State, owner: Owner) {
    match owner
    case CustomerOwner(c) => c in s.customers
    case StaffOwner(x) => x in s.staff
  }

  predicate UserRetired(s: State, owner: Owner) {
    owner.StaffOwner? && owner.id in s.staff && !s.staff[owner.id].isActive
  }

  ghost function RefreshStep(s: State, jwt: Jwt, jti: TokenId, now: int, ttl: int): (State, AuthResult) {
    match jwt
    case BadSignature => (s, InvalidToken)
    case OtherKind => (s, NotRefreshToken)
    case RefreshJwt(used) =>
      if used !in s.tokens then (s, Unrecognised)
      else if !s.tokens[used].Live() then
        (s.(tokens := Revoke(s.tokens, Reachable(s.tokens, used), now)), TokenRevoked)
      else if s.tokens[used].expiresAt < now then (s, TokenExpired)
      else if !UserExists(s, s.tokens[used].owner) then (s, NoSuchUser)
      else if UserRetired(s, s.tokens[used].owner) then
        (s.(tokens := Revoke(s.tokens, Reachable(s.tokens, used), now)), Deactivated)
      else if jti in s.tokens then (s, KeyTaken)
      else (s.(tokens := Rotate(s.tokens, used, jti, now + ttl, now)), Minted(jti))
  }

  function LogoutStep(s: State, jwt: Jwt, now: int): State {
    if jwt.RefreshJwt? then s.(tokens := Revoke(s.tokens, {jwt.jti}, now)) else s
  }

  /** Password, status, session: the order every local staff login looks at them in. */
  function StaffSessionStep(s: State, x: Id, passwordOk: bool, jti: TokenId, now: int, ttl: int, unset: AuthResult): (State, AuthResult)
    requires x in s.staff
  {
    if !s.staff[x].hasPassword then (s, unset)
    else if !passwordOk then (s, BadCredentials)
    else if !s.staff[x].isActive then (s, Deactivated)
    else MintStep(s, StaffOwner(x), jti, now, ttl)
  }

  /** A lookup by email up to letter case: the row found carries the email, and none is missed. */
  ghost predicate FoundByEmail(staff: StaffTable, fold: string -> string, email: string, found: Option<Id>) {
    if found.Some? then found.value in staff && fold(staff[found.value].email) == fold(email)
    else forall x :: x in staff ==> fold(staff[x].email) != fold(email)
  }

  /** `found` is the row the submitted email names, if it names one. */
  function StaffLoginStep(s: State, found: Option<Id>, passwordOk: bool, jti: TokenId, now: int, ttl: int): (State, AuthResult)
    requires found.Some? ==> found.value in s.staff
  {
    if found.None? then (s, BadCredentials) else StaffSessionStep(s, found.value, passwordOk, jti, now, ttl, BadCredentials)
  }

  const PASSWORD_MAX_ATTEMPTS := 5
  const PASSWORD_LOCK_MS := 30 * 60_000

  predicate LockedOut(c: Customer, now: int) {
    c.lockedUntil.Some? && c.lockedUntil.value > now
  }

  /** A wrong password: one more failure, or the lock and a fresh count. */
  function WrongPassword(c: Customer, now: int): Customer {
    if c.failures + 1 >= PASSWORD_MAX_ATTEMPTS then c.(failures := 0, lockedUntil := Some(now + PASSWORD_LOCK_MS))
    else c.(failures := c.failures + 1, lockedUntil := None)
  }

  /** `password` is whether the one submitted is right; None where the customer has never set one. */
  function CustomerLoginStep(s: State, customer: Id, password: Option<bool>, jti: TokenId, now: int, ttl: int): (State, AuthResult) {
    if customer !in s.customers || password.None? then (s, BadCredentials)
    else
      var row := s.customers[customer];
      if LockedOut(row, now) then (s, AccountLocked)
      else if !password.value then
        (s.(customers := s.customers[customer := WrongPassword(row, now)]),
         if WrongPassword(row, now).lockedUntil.Some? then AccountLocked else BadCredentials)
      else MintStep(s.(customers := s.customers[customer := row.(failures := 0, lockedUntil := None)]), CustomerOwner(customer), jti, now, ttl)
  }

  /** Mirrors the ERP's columns onto a row, leaving the identity columns alone where another row holds one of them. */
  ghost function SyncFromErp(staff: StaffTable, x: Id, erp: ErpStaff): StaffTable
    requires x in staff
  {
    var holder := ByEmail(staff, erp.email);
    var email := if erp.taken || (holder.Some? && holder.value != x) then staff[x].email else erp.email;
    staff[x := staff[x].(role := erp.role, region := erp.region, email := email)]
  }

  /** `local` is the row the submitted username or email names, if it names one. */
  ghost function WebLoginStep(
    s: State, local: Option<Id>, passwordOk: bool, erp: Option<ErpStaff>, newRow: Id, jti: TokenId, now: int, ttl: int): (State, AuthResult)
    requires local.Some? ==> local.value in s.staff
  {
    if local.Some? && Managed(s.staff[local.value].role) then
      StaffSessionStep(s, local.value, passwordOk, jti, now, ttl, PasswordNotSet)
    else if erp.None? then (s, BadCredentials)
    else if Managed(erp.value.role) then (s, NotProvisioned)
    else
      var found := if local.Some? then local else ByEmail(s.staff, erp.value.email);
      if found.None? && (erp.value.taken || newRow in s.staff) then (s, KeyTaken)
      else
        var x := found.GetOr(newRow);
        var created :=
          if found.Some? then s.staff
          else s.staff[newRow := Staff(erp.value.role, erp.value.email, true, erp.value.region, false)];
        if Managed(created[x].role) then (s, NotProvisioned)
        else if !created[x].isActive then (s, Deactivated)
        else MintStep(s.(staff := SyncFromErp(created, x, erp.value)), StaffOwner(x), jti, now, ttl)
  }

  // ---------------------------------------------------------------- service

  class AuthService {
    const db: Database
    const ttl: int
    /** Letter-case folding, as the database compares emails at login. */
    const fold: string -> string

    constructor (db: Database, ttl: int, fold: string -> string)
      ensures this.db == db && this.ttl == ttl && this.fold == fold
    {
      this.db, this.ttl, this.fold := db, ttl, fold;
    }

    method GenerateToken(owner: Owner, jti: TokenId, now: int) returns (r: AuthResult)
      modifies db
      ensures (db.Snapshot(), r) == MintStep(old(db.Snapshot()), owner, jti, now, ttl)
    {
      if jti in db.tokens {
        return KeyTaken;
      }
      db.tokens := db.tokens[jti := Token(owner, now + ttl, None, None, None)];
      r := Minted(jti);
    }

    /**
     * Revokes exactly the live rows a forward walk can reach, on any store:
     * `seen` grows by a row each time round, so a cycle cannot hold the loop.
     */
    method RevokeChain(rootId: TokenId, now: int)
      modifies db`tokens
      ensures db.tokens == Revoke(old(db.tokens), Reachable(old(db.tokens), rootId), now)
    {
      ghost var before := db.tokens;
      var current := Some(rootId);
      var seen: set<TokenId> := {};
      ghost var n: nat := 0;
      while current.Some? && current.value !in seen
        invariant current == Hop(before, rootId, n)
        invariant Walked(before, rootId, n, seen)
        invariant db.tokens == Revoke(before, seen, now)
        decreases before.Keys - seen
      {
        if current.value !in db.tokens {
          // A dangling link: the walk ends on an id that is no row.
          break;
        }
        WalkStep(before, rootId, n, seen, current.value);
        seen := seen + {current.value};
        var row := db.tokens[current.value];
        if row.Live() {
          db.tokens := db.tokens[current.value := row.(revokedAt := Some(now))];
        }
        current := row.replacedBy;
        n := n + 1;
      }
      WalkedEverything(before, rootId, n, seen);
    }

    method Refresh(jwt: Jwt, jti: TokenId, now: int) returns (r: AuthResult)
      modifies db
      ensures (db.Snapshot(), r) == RefreshStep(old(db.Snapshot()), jwt, jti, now, ttl)
    {
      if jwt.BadSignature? {
        return InvalidToken;
      }
      if !jwt.RefreshJwt? {
        return NotRefreshToken;
      }
      if jwt.jti !in db.tokens {
        return Unrecognised;
      }
      var row := db.tokens[jwt.jti];
      if !row.Live() {
        RevokeChain(jwt.jti, now);
        return TokenRevoked;
      }
      if row.expiresAt < now {
        return TokenExpired;
      }
      var active := true;
      match row.owner {
        case CustomerOwner(c) =>
          if c !in db.customers {
            return NoSuchUser;
          }
        case StaffOwner(x) =>
          if x !in db.staff {
            return NoSuchUser;
          }
          active := db.staff[x].isActive;
      }
      if !active {
        RevokeChain(jwt.jti, now);
        return Deactivated;
      }
      r := GenerateToken(row.owner, jti, now);
      if r.Minted? {
        db.tokens := db.tokens[jwt.jti := db.tokens[jwt.jti].(revokedAt := Some(now), lastUsedAt := Some(now))];
        db.tokens := db.tokens[jwt.jti := db.tokens[jwt.jti].(replacedBy := Some(r.jti))];
        assert db.tokens == Rotate(old(db.tokens), jwt.jti, r.jti, now + ttl, now);
      }
    }

    method Logout(jwt: Jwt, now: int)
      modifies db
      ensures db.Snapshot() == LogoutStep(old(db.Snapshot()), jwt, now)
    {
      if jwt.RefreshJwt? {
        if jwt.jti in db.tokens && db.tokens[jwt.jti].Live() {
          db.tokens := db.tokens[jwt.jti := db.tokens[jwt.jti].(revokedAt := Some(now))];
        }
      }
      assert jwt.RefreshJwt? ==> db.tokens == Revoke(old(db.tokens), {jwt.jti}, now);
    }

    method FindByEmail(email: string) returns (r: Option<Id>)
      requires UniqueEmails(db.staff)
      ensures r == ByEmail(db.staff, email)
    {
      if x :| x in db.staff && db.staff[x].email == email {
        r := Some(x);
      } else {
        r := None;
      }
    }

    method FindByFoldedEmail(email: string) returns (r: Option<Id>)
      ensures FoundByEmail(db.staff, fold, email, r)
    {
      if x :| x in db.staff && fold(db.staff[x].email) == fold(email) {
        r := Some(x);
      } else {
        r := None;
      }
    }

    method StaffLogin(email: string, passwordOk: bool, jti: TokenId, now: int) returns (r: AuthResult)
      modifies db
      ensures exists found ::
                FoundByEmail(old(db.staff), fold, email, found) &&
                (db.Snapshot(), r) == StaffLoginStep(old(db.Snapshot()), found, passwordOk, jti, now, ttl)
    {
      var found := FindByFoldedEmail(email);
      if found.None? || !db.staff[found.value].hasPassword || !passwordOk {
        return BadCredentials;
      }
      if !db.staff[found.value].isActive {
        return Deactivated;
      }
      r := GenerateToken(StaffOwner(found.value), jti, now);
    }

    method CustomerLogin(customer: Id, password: Option<bool>, jti: TokenId, now: int) returns (r: AuthResult)
      modifies db
      ensures (db.Snapshot(), r) == CustomerLoginStep(old(db.Snapshot()), customer, password, jti, now, ttl)
    {
      if customer !in db.customers || password.None? {
        return BadCredentials;
      }
      var row := db.customers[customer];
      if row.lockedUntil.Some? && row.lockedUntil.value > now {
        return AccountLocked;
      }
      if !password.value {
        var nextAttempts := row.failures + 1;
        var willLock := nextAttempts >= PASSWORD_MAX_ATTEMPTS;
        db.customers := db.customers[customer := row.(
          failures := if willLock then 0 else nextAttempts, lockedUntil := if willLock then Some(now + PASSWORD_LOCK_MS) else None)];
        return if willLock then AccountLocked else BadCredentials;
      }
      if row.failures > 0 || row.lockedUntil.Some? {
        db.customers := db.customers[customer := row.(failures := 0, lockedUntil := None)];
      }
      assert db.customers == old(db.customers)[customer := row.(failures := 0, lockedUntil := None)];
      r := GenerateToken(CustomerOwner(customer), jti, now);
    }

    method ManagedStaffLogin(x: Id, passwordOk: bool, jti: TokenId, now: int) returns (r: AuthResult)
      requires x in db.staff
      modifies db
      ensures (db.Snapshot(), r) == StaffSessionStep(old(db.Snapshot()), x, passwordOk, jti, now, ttl, PasswordNotSet)
    {
      if !db.staff[x].hasPassword {
        return PasswordNotSet;
      }
      if !passwordOk {
        return BadCredentials;
      }
      if !db.staff[x].isActive {
        return Deactivated;
      }
      r := GenerateToken(StaffOwner(x), jti, now);
    }

    method StaffWebLogin(local: Option<Id>, passwordOk: bool, erp: Option<ErpStaff>, newRow: Id, jti: TokenId, now: int)
      returns (r: AuthResult)
      requires UniqueEmails(db.staff) && (local.Some? ==> local.value in db.staff)
      modifies db
      ensures (db.Snapshot(), r) == WebLoginStep(old(db.Snapshot()), local, passwordOk, erp, newRow, jti, now, ttl)
    {
      if local.Some? && Managed(db.staff[local.value].role) {
        r := ManagedStaffLogin(local.value, passwordOk, jti, now);
        return;
      }
      if erp.None? {
        return BadCredentials;
      }
      if Managed(erp.value.role) {
        return NotProvisioned;
      }
      var found := local;
      if found.None? {
        found := FindByEmail(erp.value.email);
      }
      if found.None? {
        if erp.value.taken || newRow in db.staff {
          return KeyTaken;
        }
        db.staff := db.staff[newRow := Staff(erp.value.role, erp.value.email, true, erp.value.region, false)];
        found := Some(newRow);
      } else if Managed(db.staff[found.value].role) {
        return NotProvisioned;
      }
      var x := found.value;
      if !db.staff[x].isActive {
        return Deactivated;
      }
      var holder := FindByEmail(erp.value.email);
      var email := if erp.value.taken || (holder.Some? && holder.value != x) then db.staff[x].email else erp.value.email;
      db.staff := db.staff[x := db.staff[x].(role := erp.value.role, region := erp.value.region, email := email)];
      r := GenerateToken(StaffOwner(x), jti, now);
    }
  }
}
