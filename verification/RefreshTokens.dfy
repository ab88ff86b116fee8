/** The RefreshToken table: rows linked by `replacedById`, walked by `revokeChain`. */
module RefreshTokens {
  import opened Option

  type TokenId = string

  /** Exactly one of `customerId` and `staffId` is set on a row. */
  datatype Owner = CustomerOwner(id: string) | StaffOwner(id: string)

  datatype Token = Token(
    owner: Owner,
    expiresAt: int,
    revokedAt: Option<int>,
    replacedBy: Option<TokenId>,
    lastUsedAt: Option<int>)
  {
    predicate Live() {
      revokedAt.None?
    }
  }

  type Tokens = map<TokenId, Token>

  // ---------------------------------------------------------------- chains

  /** The id `n` links after `id`; None once the links have run out. */
  function Hop(ts: Tokens, id: TokenId, n: nat): Option<TokenId>
    decreases n
  {
    if n == 0 then Some(id)
    else
      match Hop(ts, id, n - 1)
      case Some(x) => if x in ts then ts[x].replacedBy else None
      case None => None
  }

  ghost predicate Reaches(ts: Tokens, a: TokenId, b: TokenId) {
    exists n: nat :: Hop(ts, a, n) == Some(b)
  }

  /** Rows that a forward walk from `id` can visit, on any store, cyclic or not. */
  ghost function Reachable(ts: Tokens, id: TokenId): set<TokenId> {
    set x | x in ts && Reaches(ts, id, x)
  }

  ghost predicate SameChain(ts: Tokens, a: TokenId, b: TokenId) {
    Reaches(ts, a, b) || Reaches(ts, b, a)
  }

  /** A row no other row was rotated into: the one a login minted. */
  ghost predicate IsRoot(ts: Tokens, r: TokenId) {
    r in ts && forall p :: p in ts ==> ts[p].replacedBy != Some(r)
  }

  ghost predicate Acyclic(ts: Tokens) {
    forall a, n: nat :: a in ts && n > 0 ==> Hop(ts, a, n) != Some(a)
  }

  ghost predicate LinksClosed(ts: Tokens) {
    forall a :: a in ts && ts[a].replacedBy.Some? ==>
      var b := ts[a].replacedBy.value;
      b in ts && ts[b].owner == ts[a].owner && !ts[a].Live()
  }

  ghost predicate LinksInjective(ts: Tokens) {
    forall a, b :: a in ts && b in ts && ts[a].replacedBy.Some? && ts[a].replacedBy == ts[b].replacedBy ==> a == b
  }

  /** The table is a disjoint union of finite paths in which only a last row may be live. */
  ghost predicate WellLinked(ts: Tokens) {
    LinksClosed(ts) && LinksInjective(ts) && Acyclic(ts)
  }

  /** Every row of the chain that `id` lies on is revoked. */
  ghost predicate ChainDead(ts: Tokens, id: TokenId) {
    forall x :: x in ts && SameChain(ts, id, x) ==> !ts[x].Live()
  }

  // ---------------------------------------------------------------- writes

  /** `updateMany({ id in ids, revokedAt: null }, { revokedAt: now })`. */
  function Revoke(ts: Tokens, ids: set<TokenId>, now: int): Tokens {
    map id | id in ts :: if id in ids && ts[id].Live() then ts[id].(revokedAt := Some(now)) else ts[id]
  }

  function Mint(ts: Tokens, minted: TokenId, owner: Owner, expiresAt: int): Tokens {
    ts[minted := Token(owner, expiresAt, None, None, None)]
  }

  function Rotate(ts: Tokens, used: TokenId, minted: TokenId, expiresAt: int, now: int): Tokens
    requires used in ts
  {
    var rows := Mint(ts, minted, ts[used].owner, expiresAt);
    rows[used := rows[used].(revokedAt := Some(now), lastUsedAt := Some(now), replacedBy := Some(minted))]
  }

  // ---------------------------------------------------------------- walking

  /** Revoking changes no link, so it changes no walk. */
  lemma {:induction false} SameLinksSameHops(ts: Tokens, us: Tokens, id: TokenId, n: nat)
    requires ts.Keys == us.Keys && forall x :: x in ts ==> ts[x].replacedBy == us[x].replacedBy
    ensures Hop(ts, id, n) == Hop(us, id, n)
  {
    if n > 0 {
      SameLinksSameHops(ts, us, id, n - 1);
    }
  }

  /** Walking `m` links and then `n` more is walking `m + n`. */
  lemma {:induction false} HopsCompose(ts: Tokens, a: TokenId, m: nat, n: nat)
    requires Hop(ts, a, m).Some?
    ensures Hop(ts, a, m + n) == Hop(ts, Hop(ts, a, m).value, n)
  {
    if n > 0 {
      HopsCompose(ts, a, m, n - 1);
    }
  }

  /** A walk that has stopped stays stopped. */
  lemma {:induction false} StoppedStays(ts: Tokens, a: TokenId, m: nat, n: nat)
    requires Hop(ts, a, m).None? && m <= n
    ensures Hop(ts, a, n).None?
    decreases n
  {
    if m < n {
      StoppedStays(ts, a, m, n - 1);
    }
  }

  /** The first `n` steps from `a` land on rows, and `seen` is exactly those rows. */
  ghost predicate Walked(ts: Tokens, a: TokenId, n: nat, seen: set<TokenId>) {
    (forall k: nat :: k < n ==> Hop(ts, a, k).Some? && Hop(ts, a, k).value in ts && Hop(ts, a, k).value in seen) &&
    (forall x :: x in seen ==> exists k: nat :: k < n && Hop(ts, a, k) == Some(x))
  }

  /**
   * What the walk of `revokeChain` relies on at its exit: once the first `n` ids
   * are all rows and the next id is absent, unknown or already seen, no later
   * step reaches a row that is not among them.
   */
  lemma {:induction false} WalkIsComplete(ts: Tokens, a: TokenId, n: nat, seen: set<TokenId>, m: nat)
    requires Walked(ts, a, n, seen)
    requires Hop(ts, a, n).None? || Hop(ts, a, n).value !in ts || Hop(ts, a, n).value in seen
    ensures Hop(ts, a, m).Some? && Hop(ts, a, m).value in ts ==> Hop(ts, a, m).value in seen
    decreases m
  {
    if n < m {
      WalkIsComplete(ts, a, n, seen, m - 1);
      if Hop(ts, a, m).Some? && Hop(ts, a, m).value in ts {
        var x := Hop(ts, a, m - 1).value;
        var k: nat :| k < n && Hop(ts, a, k) == Some(x);
        assert Hop(ts, a, k + 1) == Hop(ts, a, m);
      }
    }
  }

  /** One more step of the walk, onto a row. */
  lemma WalkStep(ts: Tokens, a: TokenId, n: nat, seen: set<TokenId>, x: TokenId)
    requires Walked(ts, a, n, seen) && Hop(ts, a, n) == Some(x) && x in ts
    ensures Walked(ts, a, n + 1, seen + {x})
  {
    forall k: nat | k < n + 1
      ensures Hop(ts, a, k).Some? && Hop(ts, a, k).value in ts && Hop(ts, a, k).value in seen + {x}
    {
      if k == n {
        assert Hop(ts, a, k) == Some(x);
      }
    }
    forall y | y in seen + {x}
      ensures exists k: nat :: k < n + 1 && Hop(ts, a, k) == Some(y)
    {
      if y in seen {
        var k: nat :| k < n && Hop(ts, a, k) == Some(y);
        assert Hop(ts, a, k) == Some(y) && k < n + 1;
      } else {
        assert Hop(ts, a, n) == Some(y);
      }
    }
  }

  /** A walk that can only return to where it has been has seen every reachable row. */
  lemma WalkedEverything(ts: Tokens, a: TokenId, n: nat, seen: set<TokenId>)
    requires Walked(ts, a, n, seen)
    requires Hop(ts, a, n).None? || Hop(ts, a, n).value !in ts || Hop(ts, a, n).value in seen
    ensures seen == Reachable(ts, a)
  {
    forall x | x in Reachable(ts, a)
      ensures x in seen
    {
      var m: nat :| Hop(ts, a, m) == Some(x);
      WalkIsComplete(ts, a, n, seen, m);
    }
    forall x | x in seen
      ensures x in Reachable(ts, a)
    {
      var k: nat :| k < n && Hop(ts, a, k) == Some(x);
    }
  }

  // ---------------------------------------------------------------- rotation

  /** Rotation lengthens exactly the walks that ended at the rotated row. */
  lemma {:induction false} RotateHops(ts: Tokens, used: TokenId, minted: TokenId, expiresAt: int, now: int, x: TokenId, n: nat)
    requires WellLinked(ts) && used in ts && ts[used].Live() && minted !in ts && x in ts
    ensures Hop(Rotate(ts, used, minted, expiresAt, now), x, n) ==
            if Hop(ts, x, n).Some? then Hop(ts, x, n)
            else if n > 0 && Hop(ts, x, n - 1) == Some(used) then Some(minted)
            else None
    ensures Hop(ts, x, n).Some? ==> Hop(ts, x, n).value in ts
  {
    if n > 0 {
      RotateHops(ts, used, minted, expiresAt, now, x, n - 1);
    }
  }

  lemma RotateKeepsLinks(ts: Tokens, used: TokenId, minted: TokenId, expiresAt: int, now: int)
    requires WellLinked(ts) && used in ts && ts[used].Live() && minted !in ts
    ensures WellLinked(Rotate(ts, used, minted, expiresAt, now))
  {
    var us := Rotate(ts, used, minted, expiresAt, now);
    forall a, n: nat | a in us && n > 0
      ensures Hop(us, a, n) != Some(a)
    {
      if a == minted {
        assert Hop(us, minted, 0) == Some(minted);
        assert Hop(us, minted, 1).None?;
        StoppedStays(us, minted, 1, n);
      } else {
        RotateHops(ts, used, minted, expiresAt, now, a, n);
      }
    }
  }

  lemma MintKeepsLinks(ts: Tokens, minted: TokenId, owner: Owner, expiresAt: int)
    requires WellLinked(ts) && minted !in ts
    ensures WellLinked(Mint(ts, minted, owner, expiresAt))
  {
    var us := Mint(ts, minted, owner, expiresAt);
    forall a, n: nat | a in us && n > 0
      ensures Hop(us, a, n) != Some(a)
    {
      if a == minted {
        assert Hop(us, minted, 0) == Some(minted);
        assert Hop(us, minted, 1).None?;
        StoppedStays(us, minted, 1, n);
      } else {
        MintHops(ts, minted, owner, expiresAt, a, n);
      }
    }
  }

  lemma {:induction false} MintHops(ts: Tokens, minted: TokenId, owner: Owner, expiresAt: int, a: TokenId, n: nat)
    requires WellLinked(ts) && minted !in ts && a in ts
    ensures Hop(Mint(ts, minted, owner, expiresAt), a, n) == Hop(ts, a, n)
    ensures Hop(ts, a, n).Some? ==> Hop(ts, a, n).value in ts
  {
    if n > 0 {
      MintHops(ts, minted, owner, expiresAt, a, n - 1);
    }
  }

  lemma RevokeKeepsLinks(ts: Tokens, ids: set<TokenId>, now: int)
    requires WellLinked(ts)
    ensures WellLinked(Revoke(ts, ids, now))
    ensures forall a, b :: Reaches(ts, a, b) <==> Reaches(Revoke(ts, ids, now), a, b)
  {
    var us := Revoke(ts, ids, now);
    forall a, n: nat
      ensures Hop(us, a, n) == Hop(ts, a, n)
    {
      SameLinksSameHops(ts, us, a, n);
    }
  }

  // ---------------------------------------------------------------- the shape of the table

  /** Every row descends from a root. */
  lemma {:induction false} RootExists(ts: Tokens, a: TokenId, below: set<TokenId>) returns (r: TokenId, k: nat)
    requires WellLinked(ts) && a in ts
    requires a in below && below <= ts.Keys && forall s :: s in below ==> Reaches(ts, a, s)
    ensures IsRoot(ts, r) && Hop(ts, r, k) == Some(a)
    decreases |ts.Keys - below|
  {
    if p :| p in ts && ts[p].replacedBy == Some(a) {
      assert Hop(ts, p, 0) == Some(p);
      assert Hop(ts, p, 1) == Some(a);
      forall s | s in below + {p}
        ensures Reaches(ts, p, s)
      {
        if s in below {
          var n: nat :| Hop(ts, a, n) == Some(s);
          HopsCompose(ts, p, 1, n);
          assert s != p;
        }
      }
      assert p !in below by {
        if p in below {
          var n: nat :| Hop(ts, a, n) == Some(p);
          HopsCompose(ts, p, 1, n);
        }
      }
      assert ts.Keys - (below + {p}) < ts.Keys - below by {
        assert p in ts.Keys - below;
      }
      SmallerSet(ts.Keys - (below + {p}), ts.Keys - below);
      var k': nat;
      r, k' := RootExists(ts, p, below + {p});
      k := k' + 1;
    } else {
      r, k := a, 0;
    }
  }

  lemma {:induction false} SmallerSet(s: set<TokenId>, t: set<TokenId>)
    requires s < t
    ensures |s| < |t|
  {
    var x :| x in t && x !in s;
    if s != {} {
      var y :| y in s;
      SmallerSet(s - {y}, t - {y});
    }
  }

  /** Two roots never lead to the same row. */
  lemma {:induction false} RootUnique(ts: Tokens, r: TokenId, k: nat, q: TokenId, m: nat)
    requires WellLinked(ts) && IsRoot(ts, r) && IsRoot(ts, q)
    requires Hop(ts, r, k).Some? && Hop(ts, r, k) == Hop(ts, q, m)
    ensures r == q && k == m
  {
    if k > 0 && m > 0 {
      RootUnique(ts, r, k - 1, q, m - 1);
    }
  }

  /** The chains of the roots partition the table: each row is on exactly one of them. */
  lemma ChainsPartition(ts: Tokens, a: TokenId)
    requires WellLinked(ts) && a in ts
    ensures exists r :: IsRoot(ts, r) && Reaches(ts, r, a)
    ensures forall r, q :: IsRoot(ts, r) && IsRoot(ts, q) && Reaches(ts, r, a) && Reaches(ts, q, a) ==> r == q
  {
    assert Hop(ts, a, 0) == Some(a);
    var r, k := RootExists(ts, a, {a});
    forall r, q | IsRoot(ts, r) && IsRoot(ts, q) && Reaches(ts, r, a) && Reaches(ts, q, a)
      ensures r == q
    {
      var k: nat :| Hop(ts, r, k) == Some(a);
      var m: nat :| Hop(ts, q, m) == Some(a);
      RootUnique(ts, r, k, q, m);
    }
  }

  /** A row that leads anywhere else has been rotated, hence is revoked. */
  lemma LeadsOnIsRevoked(ts: Tokens, a: TokenId, b: TokenId)
    requires WellLinked(ts) && a in ts && Reaches(ts, a, b) && a != b
    ensures !ts[a].Live()
  {
    var n: nat :| Hop(ts, a, n) == Some(b);
    assert Hop(ts, a, 0) == Some(a);
    if ts[a].replacedBy.None? {
      assert Hop(ts, a, 1).None?;
      StoppedStays(ts, a, 1, n);
    }
  }

  /** Of all the rows one login leads to, at most one is live, and it is the last. */
  lemma OneLivePerChain(ts: Tokens, r: TokenId, a: TokenId, b: TokenId)
    requires WellLinked(ts) && a in ts && b in ts
    requires Reaches(ts, r, a) && Reaches(ts, r, b) && ts[a].Live()
    ensures Reaches(ts, b, a)
    ensures ts[b].Live() ==> a == b
  {
    var m: nat :| Hop(ts, r, m) == Some(a);
    var n: nat :| Hop(ts, r, n) == Some(b);
    if m <= n {
      HopsCompose(ts, r, m, n - m);
      assert Reaches(ts, a, b);
      if a != b {
        LeadsOnIsRevoked(ts, a, b);
      }
      assert Hop(ts, b, 0) == Some(b);
    } else {
      HopsCompose(ts, r, n, m - n);
      assert Reaches(ts, b, a);
      if a != b {
        LeadsOnIsRevoked(ts, b, a);
      }
    }
  }

  /**
   * `revokeChain` walks forward only. On a well-linked table that is enough to
   * kill the chain in both directions.
   */
  lemma ForwardRevocationKillsChain(ts: Tokens, id: TokenId, now: int)
    requires WellLinked(ts) && id in ts
    ensures WellLinked(Revoke(ts, Reachable(ts, id), now))
    ensures ChainDead(Revoke(ts, Reachable(ts, id), now), id)
  {
    var us := Revoke(ts, Reachable(ts, id), now);
    RevokeKeepsLinks(ts, Reachable(ts, id), now);
    forall x | x in us && SameChain(us, id, x)
      ensures !us[x].Live()
    {
      if !Reaches(ts, id, x) {
        assert Reaches(ts, x, id);
        assert Hop(ts, id, 0) == Some(id);
        LeadsOnIsRevoked(ts, x, id);
      }
    }
  }

  // ---------------------------------------------------------------- one step of the table

  /** Everything any call does to the table: nothing, a revocation, a login's row, or a rotation. */
  ghost predicate TableStep(ts: Tokens, us: Tokens) {
    us == ts ||
    (exists ids, now :: us == Revoke(ts, ids, now)) ||
    (exists minted, owner, expiresAt :: minted !in ts && us == Mint(ts, minted, owner, expiresAt)) ||
    (exists used, minted, expiresAt, now ::
       used in ts && ts[used].Live() && minted !in ts && us == Rotate(ts, used, minted, expiresAt, now))
  }

  lemma RevokeIsTableStep(ts: Tokens, ids: set<TokenId>, now: int)
    ensures TableStep(ts, Revoke(ts, ids, now))
  {
  }

  lemma MintIsTableStep(ts: Tokens, minted: TokenId, owner: Owner, expiresAt: int)
    requires minted !in ts
    ensures TableStep(ts, Mint(ts, minted, owner, expiresAt))
  {
  }

  lemma RotateIsTableStep(ts: Tokens, used: TokenId, minted: TokenId, expiresAt: int, now: int)
    requires used in ts && ts[used].Live() && minted !in ts
    ensures TableStep(ts, Rotate(ts, used, minted, expiresAt, now))
  {
  }

  /** A row is never deleted, and once stamped revoked keeps that very stamp. */
  lemma RevocationIsWriteOnce(ts: Tokens, us: Tokens, id: TokenId)
    requires TableStep(ts, us) && id in ts && !ts[id].Live()
    ensures id in us && us[id].revokedAt == ts[id].revokedAt && us[id].replacedBy == ts[id].replacedBy
  {
  }

  lemma DeadSurvivesRevoke(ts: Tokens, ids: set<TokenId>, now: int, id: TokenId)
    requires WellLinked(ts) && id in ts && ChainDead(ts, id)
    ensures ChainDead(Revoke(ts, ids, now), id)
  {
    RevokeKeepsLinks(ts, ids, now);
  }

  lemma DeadSurvivesMint(ts: Tokens, minted: TokenId, owner: Owner, expiresAt: int, id: TokenId)
    requires WellLinked(ts) && id in ts && ChainDead(ts, id) && minted !in ts
    ensures ChainDead(Mint(ts, minted, owner, expiresAt), id)
  {
    var us := Mint(ts, minted, owner, expiresAt);
    forall x | x in us && SameChain(us, id, x)
      ensures !us[x].Live()
    {
      if n: nat :| Hop(us, id, n) == Some(x) {
        MintHops(ts, minted, owner, expiresAt, id, n);
        assert Reaches(ts, id, x);
      } else {
        var n: nat :| Hop(us, x, n) == Some(id);
        assert Hop(us, minted, 0) == Some(minted);
        assert Hop(us, minted, 1).None?;
        if x == minted {
          if n > 0 {
            StoppedStays(us, minted, 1, n);
          }
        } else {
          MintHops(ts, minted, owner, expiresAt, x, n);
          assert Reaches(ts, x, id);
        }
      }
    }
  }

  /** Rotating a live row touches no walk from or to a row of a dead chain. */
  lemma DeadSurvivesRotate(ts: Tokens, used: TokenId, minted: TokenId, expiresAt: int, now: int, id: TokenId)
    requires WellLinked(ts) && id in ts && ChainDead(ts, id)
    requires used in ts && ts[used].Live() && minted !in ts
    ensures ChainDead(Rotate(ts, used, minted, expiresAt, now), id)
  {
    var us := Rotate(ts, used, minted, expiresAt, now);
    assert !SameChain(ts, id, used);
    forall x | x in us && SameChain(us, id, x)
      ensures !us[x].Live()
    {
      if n: nat :| Hop(us, id, n) == Some(x) {
        RotateHops(ts, used, minted, expiresAt, now, id, n);
        assert Hop(ts, id, n) == Some(x);
      } else {
        var n: nat :| Hop(us, x, n) == Some(id);
        assert Hop(us, minted, 0) == Some(minted);
        assert Hop(us, minted, 1).None?;
        if x == minted {
          if n > 0 {
            StoppedStays(us, minted, 1, n);
          }
        } else {
          RotateHops(ts, used, minted, expiresAt, now, x, n);
          assert Hop(ts, x, n) == Some(id);
        }
      }
    }
  }

  /** A dead chain can neither come back to life nor grow a live row. */
  lemma DeadStaysDead(ts: Tokens, us: Tokens, id: TokenId)
    requires WellLinked(ts) && TableStep(ts, us) && id in ts && ChainDead(ts, id)
    ensures id in us && ChainDead(us, id)
  {
    if us != ts {
      if ids, now :| us == Revoke(ts, ids, now) {
        DeadSurvivesRevoke(ts, ids, now, id);
      } else if minted, owner, expiresAt :| minted !in ts && us == Mint(ts, minted, owner, expiresAt) {
        DeadSurvivesMint(ts, minted, owner, expiresAt, id);
      } else {
        var used, minted, expiresAt, now :|
          used in ts && ts[used].Live() && minted !in ts && us == Rotate(ts, used, minted, expiresAt, now);
        DeadSurvivesRotate(ts, used, minted, expiresAt, now, id);
      }
    }
  }
}
