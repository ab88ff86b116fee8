/**
 * One-time codes: the local provider's `send` and `verify`, and the password
 * reset steps that read and write the same table. A reset request inserts the
 * same row a `send` does.
 */
module Otp {
  import opened Clock
  import opened Option

  const OTP_TTL_MS := 10 * 60 * 1000
  const MAX_ATTEMPTS := 3
  const LOCK_MS := 30 * 60 * 1000

  datatype Row = Row(id: string, phone: string, code: string, createdAt: int, expiresAt: int, attempts: nat, lockedUntil: Option<int>)

  /** The table in order of creation, and every id ever issued: a uuid is never issued twice. */
  datatype State = State(rows: seq<Row>, issued: set<string>)

  datatype Outcome = Sent | KeyTaken | Verified | NoCode | Locked | Expired | Wrong | NoAccount | Refused

  // ---------------------------------------------------------------- specification

  /** The newest row of a number, by position: the last one created. */
  function Newest(rows: seq<Row>, phone: string): Option<nat> {
    if rows == [] then None
    else if rows[|rows| - 1].phone == phone then Some(|rows| - 1)
    else Newest(rows[..|rows| - 1], phone)
  }

  lemma {:induction false} NewestIsThere(rows: seq<Row>, phone: string)
    ensures Newest(rows, phone).Some? ==>
              Newest(rows, phone).value < |rows| && rows[Newest(rows, phone).value].phone == phone &&
              forall j :: Newest(rows, phone).value < j < |rows| ==> rows[j].phone != phone
    ensures Newest(rows, phone).None? ==> forall j :: 0 <= j < |rows| ==> rows[j].phone != phone
  {
    if rows != [] {
      NewestIsThere(rows[..|rows| - 1], phone);
    }
  }

  /** `deleteMany({ phone })`. */
  function Without(rows: seq<Row>, phone: string): seq<Row> {
    if rows == [] then []
    else
      var rest := Without(rows[..|rows| - 1], phone);
      if rows[|rows| - 1].phone == phone then rest else rest + [rows[|rows| - 1]]
  }

  predicate IsLocked(r: Row, now: int) {
    r.lockedUntil.Some? && r.lockedUntil.value > now
  }

  predicate IsExpired(r: Row, now: int) {
    r.expiresAt < now
  }

  /** A failed comparison: one more attempt, and the lock at the third. */
  function Failed(r: Row, now: int): Row {
    r.(attempts := r.attempts + 1, lockedUntil := if r.attempts + 1 >= MAX_ATTEMPTS then Some(now + LOCK_MS) else None)
  }

  function SendStep(s: State, id: string, phone: string, code: string, now: int): (State, Outcome) {
    if id in s.issued then (s, KeyTaken)
    else (State(s.rows + [Row(id, phone, code, now, now + OTP_TTL_MS, 0, None)], s.issued + {id}), Sent)
  }

  /** The row a call would compare the code with, if it gets that far. */
  function Candidate(s: State, phone: string, now: int): Option<nat> {
    NewestIsThere(s.rows, phone);
    var k := Newest(s.rows, phone);
    if k.None? || IsLocked(s.rows[k.value], now) || IsExpired(s.rows[k.value], now) then None else k
  }

  /** Why there is nothing to compare with; `verify` looks at the lock first, the reset steps at the expiry. */
  function Refusal(s: State, phone: string, now: int, lockFirst: bool): Outcome {
    NewestIsThere(s.rows, phone);
    var k := Newest(s.rows, phone);
    if k.None? then NoCode
    else if IsLocked(s.rows[k.value], now) && (lockFirst || !IsExpired(s.rows[k.value], now)) then Locked
    else Expired
  }

  lemma CandidateIsThere(s: State, phone: string, now: int)
    ensures Candidate(s, phone, now).Some? ==> Candidate(s, phone, now).value < |s.rows|
  {
    NewestIsThere(s.rows, phone);
  }

  function VerifyStep(s: State, phone: string, code: string, now: int): (State, Outcome) {
    CandidateIsThere(s, phone, now);
    var k := Candidate(s, phone, now);
    if k.None? then (s, Refusal(s, phone, now, true))
    else if s.rows[k.value].code != code then (s.(rows := s.rows[k.value := Failed(s.rows[k.value], now)]), Wrong)
    else (s.(rows := Without(s.rows, phone)), Verified)
  }

  /** The one-step reset: as `verify`, but the account is looked up between the comparison and the deletion. */
  function ConfirmResetStep(s: State, phone: string, code: string, known: bool, now: int): (State, Outcome) {
    CandidateIsThere(s, phone, now);
    var k := Candidate(s, phone, now);
    if k.None? then (s, Refusal(s, phone, now, false))
    else if s.rows[k.value].code != code then (s.(rows := s.rows[k.value := Failed(s.rows[k.value], now)]), Wrong)
    else if !known then (s, NoAccount)
    else (s.(rows := Without(s.rows, phone)), Verified)
  }

  /** Step 2 of the three-step reset: the row stays, with its attempts cleared. */
  function CheckResetStep(s: State, phone: string, code: string, known: bool, now: int): (State, Outcome) {
    CandidateIsThere(s, phone, now);
    var k := Candidate(s, phone, now);
    if k.None? then (s, Refusal(s, phone, now, false))
    else if s.rows[k.value].code != code then (s.(rows := s.rows[k.value := Failed(s.rows[k.value], now)]), Wrong)
    else if !known then (s, NoAccount)
    else (s.(rows := s.rows[k.value := s.rows[k.value].(attempts := 0)]), Verified)
  }

  /** Step 3: a reset token that verifies, for an account that exists, wipes the number's rows. */
  function FinishResetStep(s: State, phone: string, accepted: bool): (State, Outcome) {
    if accepted then (s.(rows := Without(s.rows, phone)), Verified) else (s, Refused)
  }

  // ---------------------------------------------------------------- service

  class OtpTable {
    var rows: seq<Row>
    ghost var issued: set<string>

    constructor ()
      ensures rows == [] && issued == {}
    {
      rows, issued := [], {};
    }

    method Send(id: string, phone: string, code: string, now: int)
      requires id !in issued
      modifies this
      ensures State(rows, issued) == SendStep(State(old(rows), old(issued)), id, phone, code, now).0
    {
      rows := rows + [Row(id, phone, code, now, now + OTP_TTL_MS, 0, None)];
      issued := issued + {id};
    }

    /** findFirst({ where: { phone }, orderBy: { createdAt: 'desc' } }). */
    method FindNewest(phone: string) returns (k: Option<nat>)
      ensures k == Newest(rows, phone)
      ensures k.Some? ==> k.value < |rows|
    {
      NewestIsThere(rows, phone);
      var i := |rows|;
      assert rows[..i] == rows;
      while i > 0
        invariant 0 <= i <= |rows|
        invariant Newest(rows, phone) == Newest(rows[..i], phone)
      {
        i := i - 1;
        assert rows[..i + 1][..i] == rows[..i];
        if rows[i].phone == phone {
          return Some(i);
        }
      }
      k := None;
    }

    method Verify(phone: string, code: string, now: int) returns (outcome: Outcome)
      modifies this
      ensures issued == old(issued)
      ensures (State(rows, issued), outcome) == VerifyStep(State(old(rows), old(issued)), phone, code, now)
    {
      var k := FindNewest(phone);
      if k.None? {
        return NoCode;
      }
      var otp := rows[k.value];
      if otp.lockedUntil.Some? && otp.lockedUntil.value > now {
        return Locked;
      }
      if otp.expiresAt < now {
        return Expired;
      }
      if otp.code != code {
        var attempts := otp.attempts + 1;
        rows := rows[k.value := otp.(attempts := attempts, lockedUntil := if attempts >= MAX_ATTEMPTS then Some(now + LOCK_MS) else None)];
        return Wrong;
      }
      rows := Without(rows, phone);
      outcome := Verified;
    }

    /** `confirmStaffPasswordReset`; `known` is whether the identifier names an account. */
    method ConfirmReset(phone: string, code: string, known: bool, now: int) returns (outcome: Outcome)
      modifies this
      ensures issued == old(issued)
      ensures (State(rows, issued), outcome) == ConfirmResetStep(State(old(rows), old(issued)), phone, code, known, now)
    {
      var k := FindNewest(phone);
      if k.None? {
        return NoCode;
      }
      var otp := rows[k.value];
      if otp.expiresAt < now {
        return Expired;
      }
      if otp.lockedUntil.Some? && otp.lockedUntil.value > now {
        return Locked;
      }
      if otp.code != code {
        rows := rows[k.value := Failed(otp, now)];
        return Wrong;
      }
      if !known {
        return NoAccount;
      }
      rows := Without(rows, phone);
      outcome := Verified;
    }

    /** `verifyStaffPasswordResetOtp`. */
    method CheckReset(phone: string, code: string, known: bool, now: int) returns (outcome: Outcome)
      modifies this
      ensures issued == old(issued)
      ensures (State(rows, issued), outcome) == CheckResetStep(State(old(rows), old(issued)), phone, code, known, now)
    {
      var k := FindNewest(phone);
      if k.None? {
        return NoCode;
      }
      var otp := rows[k.value];
      if otp.expiresAt < now {
        return Expired;
      }
      if otp.lockedUntil.Some? && otp.lockedUntil.value > now {
        return Locked;
      }
      if otp.code != code {
        rows := rows[k.value := Failed(otp, now)];
        return Wrong;
      }
      if !known {
        return NoAccount;
      }
      rows := rows[k.value := otp.(attempts := 0)];
      outcome := Verified;
    }

    /** `resetStaffPasswordWithToken`; `accepted` is whether the token verifies and names an account. */
    method FinishReset(phone: string, accepted: bool) returns (outcome: Outcome)
      modifies this
      ensures issued == old(issued)
      ensures (State(rows, issued), outcome) == FinishResetStep(State(old(rows), old(issued)), phone, accepted)
    {
      if !accepted {
        return Refused;
      }
      rows := Without(rows, phone);
      outcome := Verified;
    }
  }

  // ---------------------------------------------------------------- runs

  datatype Op =
    | Send(id: string, phone: string, code: string)
    | Verify(phone: string, code: string)
    | ConfirmReset(phone: string, code: string, known: bool)
    | CheckReset(phone: string, code: string, known: bool)
    | FinishReset(phone: string, accepted: bool)

  datatype Call = Call(op: Op, now: int)

  const EMPTY := State([], {})

  function Step(s: State, c: Call): (State, Outcome) {
    match c.op
    case Send(id, phone, code) => SendStep(s, id, phone, code, c.now)
    case Verify(phone, code) => VerifyStep(s, phone, code, c.now)
    case ConfirmReset(phone, code, known) => ConfirmResetStep(s, phone, code, known, c.now)
    case CheckReset(phone, code, known) => CheckResetStep(s, phone, code, known, c.now)
    case FinishReset(phone, accepted) => FinishResetStep(s, phone, accepted)
  }

  function Run(s: State, calls: seq<Call>): State
    decreases |calls|
  {
    if calls == [] then s else Run(Step(s, calls[0]).0, calls[1..])
  }

  function At(c: Call): int {
    c.now
  }

  /** The row whose code this call compares, if it compares one. */
  function Compared(s: State, c: Call): Option<string> {
    if c.op.Send? || c.op.FinishReset? then None
    else
      CandidateIsThere(s, c.op.phone, c.now);
      var k := Candidate(s, c.op.phone, c.now);
      if k.None? then None else Some(s.rows[k.value].id)
  }

  predicate FailsOn(s: State, c: Call, id: string) {
    Compared(s, c) == Some(id) && Step(s, c).1 == Wrong
  }

  predicate ClearsOn(s: State, c: Call, id: string) {
    c.op.CheckReset? && Compared(s, c) == Some(id) && Step(s, c).1 == Verified
  }

  function Fails(s: State, calls: seq<Call>, id: string): nat
    decreases |calls|
  {
    if calls == [] then 0 else (if FailsOn(s, calls[0], id) then 1 else 0) + Fails(Step(s, calls[0]).0, calls[1..], id)
  }

  /** How often step 2 of the reset cleared this row's attempts. */
  function Clears(s: State, calls: seq<Call>, id: string): nat
    decreases |calls|
  {
    if calls == [] then 0 else (if ClearsOn(s, calls[0], id) then 1 else 0) + Clears(Step(s, calls[0]).0, calls[1..], id)
  }

  datatype Write = Untouched | Added(row: Row) | Rewritten(k: nat, row: Row) | Wiped

  /** The four things a call can do to the table. */
  lemma StepWrites(s: State, c: Call) returns (w: Write)
    ensures var (t, outcome) := Step(s, c);
            match w
            case Untouched => t == s && outcome != Wrong && outcome != Sent && !(c.op.CheckReset? && outcome == Verified)
            case Added(r) =>
              c.op.Send? && c.op.id !in s.issued && r.id == c.op.id && t == State(s.rows + [r], s.issued + {r.id}) &&
              r.phone == c.op.phone && r.attempts == 0 && r.lockedUntil.None? &&
              r.createdAt == c.now && r.expiresAt == c.now + OTP_TTL_MS && outcome == Sent
            case Rewritten(k, r) =>
              !c.op.Send? && k < |s.rows| && t == s.(rows := s.rows[k := r]) &&
              r.id == s.rows[k].id && r.phone == s.rows[k].phone == c.op.phone && Compared(s, c) == Some(r.id) &&
              !IsLocked(s.rows[k], c.now) && !IsExpired(s.rows[k], c.now) &&
              if outcome == Wrong then r == Failed(s.rows[k], c.now)
              else c.op.CheckReset? && outcome == Verified && r == s.rows[k].(attempts := 0)
            case Wiped => !c.op.Send? && !c.op.CheckReset? && outcome == Verified && t == s.(rows := Without(s.rows, c.op.phone))
  {
    NewestIsThere(s.rows, c.op.phone);
    var k := Candidate(s, c.op.phone, c.now);
    match Step(s, c).1
    case Sent => w := Added(Row(c.op.id, c.op.phone, c.op.code, c.now, c.now + OTP_TTL_MS, 0, None));
    case Wrong => w := Rewritten(k.value, Failed(s.rows[k.value], c.now));
    case Verified => w := if c.op.CheckReset? then Rewritten(k.value, s.rows[k.value].(attempts := 0)) else Wiped;
    case _ => w := Untouched;
  }

  // ---------------------------------------------------------------- invariant

  /** Locked exactly from the third failure on, and then for longer than the code can still live. */
  predicate RowOk(r: Row, now: int) {
    r.createdAt <= now && r.expiresAt == r.createdAt + OTP_TTL_MS &&
    (if r.attempts >= MAX_ATTEMPTS then r.lockedUntil.Some? && r.lockedUntil.value > r.expiresAt else r.lockedUntil.None?)
  }

  ghost predicate DistinctIds(rows: seq<Row>) {
    forall i, j :: 0 <= i < j < |rows| ==> rows[i].id != rows[j].id
  }

  ghost predicate Ok(s: State, now: int) {
    (forall i :: 0 <= i < |s.rows| ==> RowOk(s.rows[i], now) && s.rows[i].id in s.issued) && DistinctIds(s.rows)
  }

  lemma {:induction false} WithoutIsFilter(rows: seq<Row>, phone: string)
    ensures forall r :: r in Without(rows, phone) <==> r in rows && r.phone != phone
  {
    if rows != [] {
      WithoutIsFilter(rows[..|rows| - 1], phone);
      assert rows == rows[..|rows| - 1] + [rows[|rows| - 1]];
    }
  }

  lemma {:induction false} WithoutKeepsDistinct(rows: seq<Row>, phone: string)
    requires DistinctIds(rows)
    ensures DistinctIds(Without(rows, phone))
  {
    if rows != [] {
      var init, last := rows[..|rows| - 1], rows[|rows| - 1];
      WithoutKeepsDistinct(init, phone);
      WithoutIsFilter(init, phone);
      forall r | r in Without(init, phone)
        ensures r.id != last.id
      {
        assert r in init;
      }
    }
  }

  lemma WithoutKeepsOk(s: State, phone: string, now: int)
    requires Ok(s, now)
    ensures Ok(s.(rows := Without(s.rows, phone)), now)
  {
    WithoutIsFilter(s.rows, phone);
    WithoutKeepsDistinct(s.rows, phone);
    var rows := Without(s.rows, phone);
    forall i | 0 <= i < |rows|
      ensures RowOk(rows[i], now) && rows[i].id in s.issued
    {
      assert rows[i] in s.rows;
    }
  }

  /** The third failure locks for thirty minutes a code with at most ten left to live. */
  lemma FailureKeepsOk(r: Row, now: int)
    requires RowOk(r, now) && !IsLocked(r, now) && !IsExpired(r, now)
    ensures r.attempts < MAX_ATTEMPTS && RowOk(Failed(r, now), now)
  {
  }

  lemma AddedKeepsOk(s: State, r: Row, now: int)
    requires Ok(s, now) && r.id !in s.issued && RowOk(r, now)
    ensures Ok(State(s.rows + [r], s.issued + {r.id}), now)
  {
  }

  lemma RewrittenKeepsOk(s: State, k: nat, r: Row, now: int)
    requires Ok(s, now) && k < |s.rows| && r.id == s.rows[k].id && RowOk(r, now)
    ensures Ok(s.(rows := s.rows[k := r]), now)
  {
  }

  lemma StepKeepsOk(s: State, c: Call, before: int)
    requires Ok(s, before) && before <= c.now
    ensures Ok(Step(s, c).0, c.now)
  {
    assert Ok(s, c.now);
    var w := StepWrites(s, c);
    match w
    case Untouched =>
    case Added(r) => AddedKeepsOk(s, r, c.now);
    case Rewritten(k, r) =>
      FailureKeepsOk(s.rows[k], c.now);
      RewrittenKeepsOk(s, k, r, c.now);
    case Wiped => WithoutKeepsOk(s, c.op.phone, c.now);
  }

  lemma {:induction false} RunKeepsOk(s: State, calls: seq<Call>, start: int) returns (end: int)
    requires Ok(s, start) && Clocked(At, start, calls)
    ensures Ok(Run(s, calls), end) && start <= end && end == if calls == [] then start else calls[|calls| - 1].now
    decreases |calls|
  {
    if calls == [] {
      end := start;
    } else {
      StepKeepsOk(s, calls[0], start);
      end := RunKeepsOk(Step(s, calls[0]).0, calls[1..], calls[0].now);
    }
  }

  // ---------------------------------------------------------------- what a code is worth

  /**
   * In every state of every run: a number verifies exactly with its newest code,
   * within ten minutes of its creation and before a third failure. The lock
   * never decides anything the attempts do not.
   */
  lemma VerifiesIff(s: State, phone: string, code: string, before: int, now: int)
    requires Ok(s, before) && before <= now
    ensures VerifyStep(s, phone, code, now).1 == Verified <==>
            exists k :: 0 <= k < |s.rows| && Newest(s.rows, phone) == Some(k) && s.rows[k].code == code &&
                        now <= s.rows[k].createdAt + OTP_TTL_MS && s.rows[k].attempts < MAX_ATTEMPTS
  {
    NewestIsThere(s.rows, phone);
    if Newest(s.rows, phone).Some? {
      var k := Newest(s.rows, phone).value;
      assert RowOk(s.rows[k], before);
    }
  }

  /** Sending then verifying the code that was sent works, whatever happened to the number before. */
  lemma SentCodeVerifies(s: State, id: string, phone: string, code: string, sent: int, now: int)
    requires id !in s.issued && sent <= now <= sent + OTP_TTL_MS
    ensures VerifyStep(SendStep(s, id, phone, code, sent).0, phone, code, now).1 == Verified
  {
    var t := SendStep(s, id, phone, code, sent).0;
    assert t.rows[|t.rows| - 1].phone == phone;
  }

  /** A success removes every row of the number and leaves every other number's rows alone. */
  lemma SuccessClearsNumber(s: State, phone: string, code: string, now: int, r: Row)
    requires VerifyStep(s, phone, code, now).1 == Verified
    ensures r in VerifyStep(s, phone, code, now).0.rows <==> r in s.rows && r.phone != phone
  {
    WithoutIsFilter(s.rows, phone);
    CandidateIsThere(s, phone, now);
  }

  // ---------------------------------------------------------------- how often a code can be tried

  function AttemptsOf(rows: seq<Row>, id: string): Option<nat> {
    if rows == [] then None
    else if rows[|rows| - 1].id == id then Some(rows[|rows| - 1].attempts)
    else AttemptsOf(rows[..|rows| - 1], id)
  }

  lemma {:induction false} AttemptsAt(rows: seq<Row>, id: string)
    requires DistinctIds(rows)
    ensures forall i :: 0 <= i < |rows| && rows[i].id == id ==> AttemptsOf(rows, id) == Some(rows[i].attempts)
    ensures (forall i :: 0 <= i < |rows| ==> rows[i].id != id) ==> AttemptsOf(rows, id) == None
  {
    if rows != [] {
      AttemptsAt(rows[..|rows| - 1], id);
    }
  }

  lemma {:induction false} AttemptsWithout(rows: seq<Row>, phone: string, id: string)
    requires DistinctIds(rows)
    ensures AttemptsOf(Without(rows, phone), id) == None || AttemptsOf(Without(rows, phone), id) == AttemptsOf(rows, id)
  {
    WithoutIsFilter(rows, phone);
    WithoutKeepsDistinct(rows, phone);
    var rest := Without(rows, phone);
    AttemptsAt(rest, id);
    AttemptsAt(rows, id);
    if i :| 0 <= i < |rest| && rest[i].id == id {
      assert rest[i] in rows;
    }
  }

  /** How many more failures a row can undergo before it is dead. */
  function Allowance(s: State, id: string): nat {
    var a := AttemptsOf(s.rows, id);
    if a.None? then if id in s.issued then 0 else MAX_ATTEMPTS
    else if a.value >= MAX_ATTEMPTS then 0 else MAX_ATTEMPTS - a.value
  }

  lemma AllowanceAfter(s: State, k: nat, r: Row, id: string)
    requires k < |s.rows| && r.id == s.rows[k].id && DistinctIds(s.rows)
    ensures AttemptsOf(s.rows[k := r], id) == if id == r.id then Some(r.attempts) else AttemptsOf(s.rows, id)
    ensures AttemptsOf(s.rows, r.id) == Some(s.rows[k].attempts)
  {
    var rows := s.rows[k := r];
    AttemptsAt(rows, id);
    AttemptsAt(s.rows, id);
    AttemptsAt(s.rows, r.id);
    if i :| 0 <= i < |s.rows| && s.rows[i].id == id {
      assert rows[i].id == id;
    } else {
      assert forall i :: 0 <= i < |rows| ==> rows[i].id != id;
    }
  }

  lemma SendAttempts(s: State, id': string, phone: string, code: string, now: int, id: string)
    requires id' !in s.issued
    ensures AttemptsOf(SendStep(s, id', phone, code, now).0.rows, id) == if id == id' then Some(0) else AttemptsOf(s.rows, id)
  {
    var t := SendStep(s, id', phone, code, now).0;
    assert t.rows[..|t.rows| - 1] == s.rows;
  }

  /** What a call that is no send does to one row's attempts. */
  lemma TryAttempts(s: State, c: Call, before: int, id: string)
    requires Ok(s, before) && before <= c.now && !c.op.Send?
    ensures var was, now := AttemptsOf(s.rows, id), AttemptsOf(Step(s, c).0.rows, id);
            (FailsOn(s, c, id) ==> was.Some? && was.value < MAX_ATTEMPTS && now == Some(was.value + 1)) &&
            (ClearsOn(s, c, id) ==> was.Some? && was.value < MAX_ATTEMPTS && now == Some(0)) &&
            (!FailsOn(s, c, id) && !ClearsOn(s, c, id) ==> now == was || now.None?)
    ensures Step(s, c).0.issued == s.issued
  {
    var w := StepWrites(s, c);
    match w
    case Untouched =>
    case Added(_) =>
    case Rewritten(k, r) =>
      assert RowOk(s.rows[k], before);
      AllowanceAfter(s, k, r, id);
    case Wiped => AttemptsWithout(s.rows, c.op.phone, id);
  }

  /** A row that can still fail has been issued. */
  lemma AttemptsMeansIssued(s: State, now: int, id: string)
    requires Ok(s, now)
    ensures AttemptsOf(s.rows, id).Some? ==> id in s.issued
  {
    AttemptsAt(s.rows, id);
  }

  /** The row is in the table, or its id has not been issued yet. */
  predicate StillCounted(s: State, id: string) {
    AttemptsOf(s.rows, id).Some? || id !in s.issued
  }

  /** What a call gives back of a row's allowance: the failures it clears. */
  function GivenBack(s: State, c: Call, id: string): nat {
    if ClearsOn(s, c, id) then AttemptsOf(s.rows, id).GetOr(0) else 0
  }

  /**
   * Each failure uses up one unit of the row's allowance and a clearing gives
   * back the failures it clears, at most two; nothing else moves the allowance
   * of a row that is still there or yet to come, and a deleted one never returns.
   */
  lemma StepSpendsAllowance(s: State, c: Call, before: int, id: string)
    requires Ok(s, before) && before <= c.now
    ensures var spent := Allowance(Step(s, c).0, id) + if FailsOn(s, c, id) then 1 else 0;
            spent <= Allowance(s, id) + GivenBack(s, c, id) &&
            (StillCounted(Step(s, c).0, id) ==> StillCounted(s, id) && spent == Allowance(s, id) + GivenBack(s, c, id))
    ensures GivenBack(s, c, id) <= if ClearsOn(s, c, id) then 2 else 0
  {
    AttemptsMeansIssued(s, before, id);
    if c.op.Send? {
      if c.op.id !in s.issued {
        SendAttempts(s, c.op.id, c.op.phone, c.op.code, c.now, id);
      }
    } else {
      TryAttempts(s, c, before, id);
    }
  }

  /** All that a run's clearings give back to one row. */
  function AllGivenBack(s: State, calls: seq<Call>, id: string): nat
    decreases |calls|
  {
    if calls == [] then 0 else GivenBack(s, calls[0], id) + AllGivenBack(Step(s, calls[0]).0, calls[1..], id)
  }

  /**
   * Over every run of all five calls, the failed comparisons of one code number
   * at most three plus the failures that step 2 of the reset cleared, hence at
   * most three plus two for each clearing.
   */
  lemma {:induction false} FailuresAreBounded(s: State, calls: seq<Call>, start: int, id: string)
    requires Ok(s, start) && Clocked(At, start, calls)
    ensures Fails(s, calls, id) <= Allowance(s, id) + AllGivenBack(s, calls, id)
    ensures AllGivenBack(s, calls, id) <= 2 * Clears(s, calls, id)
    decreases |calls|
  {
    if calls != [] {
      StepSpendsAllowance(s, calls[0], start, id);
      StepKeepsOk(s, calls[0], start);
      FailuresAreBounded(Step(s, calls[0]).0, calls[1..], calls[0].now, id);
    }
  }

  /**
   * The account of one row, over every run that has not deleted it: what failed
   * and what can still fail is three and what was cleared.
   */
  lemma {:induction false} FailuresBalance(s: State, calls: seq<Call>, start: int, id: string)
    requires Ok(s, start) && Clocked(At, start, calls) && StillCounted(Run(s, calls), id)
    ensures StillCounted(s, id)
    ensures Fails(s, calls, id) + Allowance(Run(s, calls), id) == Allowance(s, id) + AllGivenBack(s, calls, id)
    decreases |calls|
  {
    if calls != [] {
      StepKeepsOk(s, calls[0], start);
      FailuresBalance(Step(s, calls[0]).0, calls[1..], calls[0].now, id);
      StepSpendsAllowance(s, calls[0], start, id);
    }
  }

  lemma {:induction false} RunAppend(s: State, xs: seq<Call>, ys: seq<Call>, id: string)
    ensures Run(s, xs + ys) == Run(Run(s, xs), ys)
    ensures Fails(s, xs + ys, id) == Fails(s, xs, id) + Fails(Run(s, xs), ys, id)
    ensures AllGivenBack(s, xs + ys, id) == AllGivenBack(s, xs, id) + AllGivenBack(Run(s, xs), ys, id)
    decreases |xs|
  {
    if xs == [] {
      assert xs + ys == ys;
    } else {
      assert (xs + ys)[0] == xs[0] && (xs + ys)[1..] == xs[1..] + ys;
      RunAppend(Step(s, xs[0]).0, xs[1..], ys, id);
    }
  }

  /** A run gives nothing back exactly when each of its clearings of the row found it without failures. */
  lemma {:induction false} NothingGivenBack(s: State, calls: seq<Call>, id: string)
    ensures AllGivenBack(s, calls, id) == 0 <==> forall i :: 0 <= i < |calls| ==> GivenBack(Run(s, calls[..i]), calls[i], id) == 0
    decreases |calls|
  {
    if calls != [] {
      var init, c := calls[..|calls| - 1], calls[|calls| - 1];
      assert calls == init + [c];
      RunAppend(s, init, [c], id);
      NothingGivenBack(s, init, id);
      assert forall i :: 0 <= i < |init| ==> calls[..i] == init[..i] && calls[i] == init[i];
      assert calls[..|init|] == init;
      assert AllGivenBack(Run(s, init), [c], id) == GivenBack(Run(s, init), c, id);
    }
  }

  /** A run without step 2 of the reset. */
  ghost predicate NoChecks(calls: seq<Call>) {
    forall i :: 0 <= i < |calls| ==> !calls[i].op.CheckReset?
  }

  lemma {:induction false} NoClears(s: State, calls: seq<Call>, id: string)
    requires NoChecks(calls)
    ensures Clears(s, calls, id) == 0
    decreases |calls|
  {
    if calls != [] {
      NoClears(Step(s, calls[0]).0, calls[1..], id);
    }
  }

  /** Without that step, as on the distributor's side: three failures a code, ever. */
  lemma AtMostThreeFailures(calls: seq<Call>, start: int, id: string)
    requires Clocked(At, start, calls) && NoChecks(calls)
    ensures Fails(EMPTY, calls, id) <= 3
  {
    FailuresAreBounded(EMPTY, calls, start, id);
    NoClears(EMPTY, calls, id);
  }

  /** A code failed three times is never compared again, by any call of any later run: its lock outlasts it. */
  lemma {:induction false} BurntIsNeverCompared(s: State, calls: seq<Call>, start: int, id: string)
    requires Ok(s, start) && Clocked(At, start, calls) && id in s.issued
    requires AttemptsOf(s.rows, id).None? || AttemptsOf(s.rows, id).value >= MAX_ATTEMPTS
    ensures forall i :: 0 <= i < |calls| ==> Compared(Run(s, calls[..i]), calls[i]) != Some(id)
    decreases |calls|
  {
    if calls != [] {
      var c := calls[0];
      BurntNow(s, c, start, id);
      StepKeepsOk(s, c, start);
      StepKeepsIssued(s, c, id);
      var t, rest := Step(s, c).0, calls[1..];
      BurntIsNeverCompared(t, rest, c.now, id);
      forall i | 0 <= i < |calls|
        ensures Compared(Run(s, calls[..i]), calls[i]) != Some(id)
      {
        if i > 0 {
          assert calls[..i][1..] == rest[..i - 1];
          assert Compared(Run(t, rest[..i - 1]), rest[i - 1]) != Some(id);
        }
      }
    }
  }

  lemma StepKeepsIssued(s: State, c: Call, id: string)
    requires id in s.issued
    ensures id in Step(s, c).0.issued
  {
  }

  lemma BurntNow(s: State, c: Call, before: int, id: string)
    requires Ok(s, before) && before <= c.now && id in s.issued
    requires AttemptsOf(s.rows, id).None? || AttemptsOf(s.rows, id).value >= MAX_ATTEMPTS
    ensures Compared(s, c) != Some(id)
    ensures AttemptsOf(Step(s, c).0.rows, id).None? || AttemptsOf(Step(s, c).0.rows, id).value >= MAX_ATTEMPTS
  {
    AttemptsAt(s.rows, id);
    if c.op.Send? {
      if c.op.id !in s.issued {
        SendAttempts(s, c.op.id, c.op.phone, c.op.code, c.now, id);
      }
    } else {
      TryAttempts(s, c, before, id);
      NewestIsThere(s.rows, c.op.phone);
      var k := Candidate(s, c.op.phone, c.now);
      if k.Some? {
        assert RowOk(s.rows[k.value], before);
      }
    }
  }

  // ---------------------------------------------------------------- the bound is met, and when three holds

  function WrongCall(phone: string, wrong: string, now: int): Call {
    Call(Verify(phone, wrong), now)
  }

  /** The number's newest row, live, unlocked and with this many failures. */
  predicate Trying(s: State, k: nat, phone: string, now: int, attempts: nat) {
    Candidate(s, phone, now) == Some(k) && k < |s.rows| && s.rows[k].phone == phone &&
    s.rows[k].attempts == attempts && s.rows[k].lockedUntil.None?
  }

  function WithAttempts(s: State, k: nat, attempts: nat): State
    requires k < |s.rows|
  {
    s.(rows := s.rows[k := s.rows[k].(attempts := attempts)])
  }

  /** Rewriting a row under its own number moves no newest row. */
  lemma {:induction false} NewestIgnoresAttempts(rows: seq<Row>, k: nat, r: Row, phone: string)
    requires k < |rows| && r.phone == rows[k].phone
    ensures Newest(rows[k := r], phone) == Newest(rows, phone)
  {
    var init := rows[..|rows| - 1];
    if k < |init| {
      assert rows[k := r][..|rows| - 1] == init[k := r];
      NewestIgnoresAttempts(init, k, r, phone);
    } else {
      assert rows[k := r][..|rows| - 1] == init;
    }
  }

  lemma TryingAgain(s: State, k: nat, phone: string, now: int, attempts: nat, next: nat)
    requires Trying(s, k, phone, now, attempts)
    ensures Trying(WithAttempts(s, k, next), k, phone, now, next)
    ensures WithAttempts(WithAttempts(s, k, next), k, attempts) == s
  {
    NewestIsThere(s.rows, phone);
    NewestIgnoresAttempts(s.rows, k, s.rows[k].(attempts := next), phone);
  }

  /** A wrong try short of the third: one more failure, and the row can be tried again. */
  lemma WrongTry(s: State, k: nat, phone: string, wrong: string, now: int, attempts: nat)
    requires Trying(s, k, phone, now, attempts) && attempts < 2 && s.rows[k].code != wrong
    ensures var c := WrongCall(phone, wrong, now);
            Step(s, c).0 == WithAttempts(s, k, attempts + 1) && FailsOn(s, c, s.rows[k].id) && !ClearsOn(s, c, s.rows[k].id)
  {
  }

  lemma LastWrongTry(s: State, k: nat, phone: string, wrong: string, now: int, attempts: nat)
    requires Trying(s, k, phone, now, attempts) && s.rows[k].code != wrong
    ensures var c := WrongCall(phone, wrong, now);
            FailsOn(s, c, s.rows[k].id) && !ClearsOn(s, c, s.rows[k].id)
  {
  }

  lemma RightCheck(s: State, k: nat, phone: string, now: int, attempts: nat)
    requires Trying(s, k, phone, now, attempts)
    ensures var c := Call(CheckReset(phone, s.rows[k].code, true), now);
            Step(s, c).0 == WithAttempts(s, k, 0) && !FailsOn(s, c, s.rows[k].id) && ClearsOn(s, c, s.rows[k].id)
  {
  }

  lemma Prepend(s: State, c: Call, rest: seq<Call>, id: string)
    requires Clocked(At, c.now, rest)
    ensures Clocked(At, c.now, [c] + rest)
    ensures !c.op.CheckReset? && NoChecks(rest) ==> NoChecks([c] + rest)
    ensures Fails(s, [c] + rest, id) == (if FailsOn(s, c, id) then 1 else 0) + Fails(Step(s, c).0, rest, id)
    ensures Clears(s, [c] + rest, id) == (if ClearsOn(s, c, id) then 1 else 0) + Clears(Step(s, c).0, rest, id)
  {
    var calls := [c] + rest;
    assert calls[1..] == rest;
    assert forall i :: 0 <= i < |rest| ==> calls[i + 1] == rest[i];
  }

  /** A row that can be tried can fail as often as three leaves, all at once. */
  lemma {:induction false} WrongTries(s: State, k: nat, phone: string, wrong: string, now: int, attempts: nat) returns (calls: seq<Call>)
    requires Trying(s, k, phone, now, attempts) && attempts < 3 && s.rows[k].code != wrong
    ensures Clocked(At, now, calls) && NoChecks(calls)
    ensures Fails(s, calls, s.rows[k].id) == 3 - attempts && Clears(s, calls, s.rows[k].id) == 0
    decreases 3 - attempts
  {
    var c, rest: seq<Call> := WrongCall(phone, wrong, now), [];
    if attempts < 2 {
      WrongTry(s, k, phone, wrong, now, attempts);
      TryingAgain(s, k, phone, now, attempts, attempts + 1);
      rest := WrongTries(WithAttempts(s, k, attempts + 1), k, phone, wrong, now, attempts + 1);
    } else {
      LastWrongTry(s, k, phone, wrong, now, attempts);
    }
    Prepend(s, c, rest, s.rows[k].id);
    calls := [c] + rest;
  }

  /** Two failures and a clearing bring a row back to where it was. */
  lemma TwoWrongThenCleared(s: State, k: nat, phone: string, wrong: string, now: int, rest: seq<Call>) returns (calls: seq<Call>)
    requires Trying(s, k, phone, now, 0) && s.rows[k].code != wrong && Clocked(At, now, rest)
    ensures Clocked(At, now, calls)
    ensures Fails(s, calls, s.rows[k].id) == 2 + Fails(s, rest, s.rows[k].id)
    ensures Clears(s, calls, s.rows[k].id) == 1 + Clears(s, rest, s.rows[k].id)
  {
    var c, check, id := WrongCall(phone, wrong, now), Call(CheckReset(phone, s.rows[k].code, true), now), s.rows[k].id;
    var s1, s2 := WithAttempts(s, k, 1), WithAttempts(s, k, 2);
    WrongTry(s, k, phone, wrong, now, 0);
    TryingAgain(s, k, phone, now, 0, 1);
    WrongTry(s1, k, phone, wrong, now, 1);
    TryingAgain(s, k, phone, now, 0, 2);
    assert WithAttempts(s1, k, 2) == s2;
    RightCheck(s2, k, phone, now, 2);
    Prepend(s2, check, rest, id);
    Prepend(s1, c, [check] + rest, id);
    Prepend(s, c, [c] + ([check] + rest), id);
    calls := [c] + ([c] + ([check] + rest));
  }

  lemma {:induction false} ManyFailures(s: State, k: nat, phone: string, wrong: string, now: int, n: nat) returns (calls: seq<Call>)
    requires Trying(s, k, phone, now, 0) && s.rows[k].code != wrong
    ensures Clocked(At, now, calls)
    ensures Fails(s, calls, s.rows[k].id) == 3 + 2 * n && Clears(s, calls, s.rows[k].id) == n
    decreases n
  {
    if n == 0 {
      calls := WrongTries(s, k, phone, wrong, now, 0);
    } else {
      var rest := ManyFailures(s, k, phone, wrong, now, n - 1);
      calls := TwoWrongThenCleared(s, k, phone, wrong, now, rest);
    }
  }

  /** The bound is met: for every number of clearings, a run from the empty table with three failures and two more for each. */
  lemma BoundIsMet(id: string, phone: string, code: string, wrong: string, now: int, n: nat)
    requires code != wrong
    ensures exists calls ::
              Clocked(At, now, calls) && Clears(EMPTY, calls, id) == n && Fails(EMPTY, calls, id) == 3 + 2 * n
  {
    var send, s := Call(Send(id, phone, code), now), State([Row(id, phone, code, now, now + OTP_TTL_MS, 0, None)], {id});
    assert Step(EMPTY, send).0 == s;
    var rest := ManyFailures(s, 0, phone, wrong, now, n);
    Prepend(EMPTY, send, rest, id);
    assert Clocked(At, now, [send] + rest);
  }

  /**
   * At any moment of any run at which a code can still be tried, whatever was
   * cleared before: its failures so far and all that later calls without step 2
   * can add come to three and what was cleared, and not less.
   */
  lemma FailuresToCome(calls: seq<Call>, start: int, phone: string, now: int, k: nat)
    requires Clocked(At, start, calls) && start <= now && (forall i :: 0 <= i < |calls| ==> calls[i].now <= now)
    requires Candidate(Run(EMPTY, calls), phone, now) == Some(k)
    ensures k < |Run(EMPTY, calls).rows|
    ensures var id := Run(EMPTY, calls).rows[k].id;
            forall later :: Clocked(At, now, later) && NoChecks(later) ==> Fails(EMPTY, calls + later, id) <= 3 + AllGivenBack(EMPTY, calls, id)
    ensures var id := Run(EMPTY, calls).rows[k].id;
            exists later :: Clocked(At, now, later) && NoChecks(later) && Fails(EMPTY, calls + later, id) == 3 + AllGivenBack(EMPTY, calls, id)
  {
    var t := Run(EMPTY, calls);
    NewestIsThere(t.rows, phone);
    var id := t.rows[k].id;
    var end := RunKeepsOk(EMPTY, calls, start);
    assert RowOk(t.rows[k], end) && Ok(t, now);
    AttemptsAt(t.rows, id);
    FailuresBalance(EMPTY, calls, start, id);
    forall later | Clocked(At, now, later) && NoChecks(later)
      ensures Fails(EMPTY, calls + later, id) <= 3 + AllGivenBack(EMPTY, calls, id)
    {
      RunAppend(EMPTY, calls, later, id);
      FailuresAreBounded(t, later, now, id);
      NoClears(t, later, id);
    }
    var later := WrongTries(t, k, phone, t.rows[k].code + "x", now, t.rows[k].attempts);
    RunAppend(EMPTY, calls, later, id);
  }

  /**
   * So "three wrong tries a code" holds for the run and all it can still become
   * without step 2 exactly when every clearing of the code so far found it
   * without failures: a condition on the row's attempts before each of those calls.
   */
  lemma ThreeHoldsIff(calls: seq<Call>, start: int, phone: string, now: int, k: nat)
    requires Clocked(At, start, calls) && start <= now && (forall i :: 0 <= i < |calls| ==> calls[i].now <= now)
    requires Candidate(Run(EMPTY, calls), phone, now) == Some(k) && k < |Run(EMPTY, calls).rows|
    ensures var id := Run(EMPTY, calls).rows[k].id;
            (forall later :: Clocked(At, now, later) && NoChecks(later) ==> Fails(EMPTY, calls + later, id) <= 3) <==>
            forall i :: 0 <= i < |calls| ==> GivenBack(Run(EMPTY, calls[..i]), calls[i], id) == 0
  {
    FailuresToCome(calls, start, phone, now, k);
    NothingGivenBack(EMPTY, calls, Run(EMPTY, calls).rows[k].id);
  }

  lemma Appended(calls: seq<Call>, c: Call)
    ensures forall i :: 0 <= i < |calls| ==> calls[i] == (calls + [c])[i]
    ensures (calls + [c])[|calls|] == c
  {
  }

  /** Right after a clearing the failures so far are exactly what has been cleared, this clearing's included. */
  lemma AfterClearing(calls: seq<Call>, c: Call, start: int, id: string)
    requires Clocked(At, start, calls + [c]) && ClearsOn(Run(EMPTY, calls), c, id)
    ensures Fails(EMPTY, calls + [c], id) == AllGivenBack(EMPTY, calls + [c], id)
  {
    var s := Run(EMPTY, calls);
    Appended(calls, c);
    var before := RunKeepsOk(EMPTY, calls, start);
    TryAttempts(s, c, before, id);
    RunAppend(EMPTY, calls, [c], id);
    assert Run(s, [c]) == Step(s, c).0;
    FailuresBalance(EMPTY, calls + [c], start, id);
  }

  /**
   * The same at the clearing itself, judged by the whole run behind it: all that
   * can follow without another stays within three exactly when neither this
   * clearing nor an earlier one gave failures back.
   */
  lemma ThreeAfterClearing(calls: seq<Call>, c: Call, start: int, id: string)
    requires Clocked(At, start, calls + [c]) && ClearsOn(Run(EMPTY, calls), c, id)
    ensures (forall later :: Clocked(At, c.now, later) && NoChecks(later) ==> Fails(EMPTY, calls + [c] + later, id) <= 3) <==>
            AllGivenBack(EMPTY, calls + [c], id) == 0
  {
    var s := Run(EMPTY, calls);
    var k := Candidate(s, c.op.phone, c.now).value;
    NewestIsThere(s.rows, c.op.phone);
    Appended(calls, c);
    var before := RunKeepsOk(EMPTY, calls, start);
    assert RowOk(s.rows[k], before);
    TryingAgain(s, k, c.op.phone, c.now, s.rows[k].attempts, 0);
    RunAppend(EMPTY, calls, [c], id);
    assert Run(EMPTY, calls + [c]) == WithAttempts(s, k, 0);
    FailuresToCome(calls + [c], start, c.op.phone, c.now, k);
  }

  /**
   * What one clearing costs: the code's failures since its last clearing and all
   * it can still undergo stay within three exactly when it cleared none.
   */
  lemma ClearingCosts(s: State, c: Call, before: int, k: nat)
    requires Ok(s, before) && before <= c.now && c.op.CheckReset? && Step(s, c).1 == Verified
    requires Candidate(s, c.op.phone, c.now) == Some(k)
    ensures k < |s.rows|
    ensures s.rows[k].attempts == 0 <==>
            forall later :: Clocked(At, c.now, later) && NoChecks(later) ==>
              s.rows[k].attempts + Fails(Step(s, c).0, later, s.rows[k].id) <= 3
  {
    NewestIsThere(s.rows, c.op.phone);
    var t, id := Step(s, c).0, s.rows[k].id;
    assert RowOk(s.rows[k], before);
    TryingAgain(s, k, c.op.phone, c.now, s.rows[k].attempts, 0);
    assert t == WithAttempts(s, k, 0);
    if s.rows[k].attempts == 0 {
      StepKeepsOk(s, c, before);
      forall later | Clocked(At, c.now, later) && NoChecks(later)
        ensures Fails(t, later, id) <= 3
      {
        FailuresAreBounded(t, later, c.now, id);
        NoClears(t, later, id);
      }
    } else {
      var later := WrongTries(t, k, c.op.phone, s.rows[k].code + "x", c.now, 0);
      assert s.rows[k].attempts + Fails(t, later, id) > 3;
    }
  }

  // ---------------------------------------------------------------- one number

  /** How often a row may still fail. */
  function Units(r: Row): nat {
    if r.attempts >= MAX_ATTEMPTS then 0 else MAX_ATTEMPTS - r.attempts
  }

  /** What all the rows of a number leave. */
  function UnitsLeft(rows: seq<Row>, phone: string): nat {
    if rows == [] then 0
    else UnitsLeft(rows[..|rows| - 1], phone) + if rows[|rows| - 1].phone == phone then Units(rows[|rows| - 1]) else 0
  }

  lemma UnitsAppend(rows: seq<Row>, r: Row, phone: string)
    ensures UnitsLeft(rows + [r], phone) == UnitsLeft(rows, phone) + if r.phone == phone then Units(r) else 0
  {
    assert (rows + [r])[..|rows|] == rows;
  }

  lemma {:induction false} UnitsUpdate(rows: seq<Row>, k: nat, r: Row, phone: string)
    requires k < |rows| && r.phone == rows[k].phone
    ensures UnitsLeft(rows[k := r], phone) + (if r.phone == phone then Units(rows[k]) else 0) ==
            UnitsLeft(rows, phone) + if r.phone == phone then Units(r) else 0
  {
    var init, last := rows[..|rows| - 1], rows[|rows| - 1];
    assert rows == init + [last];
    UnitsAppend(init, last, phone);
    if k < |init| {
      assert rows[k := r] == init[k := r] + [last];
      UnitsAppend(init[k := r], last, phone);
      UnitsUpdate(init, k, r, phone);
    } else {
      assert rows[k := r] == init + [r];
      UnitsAppend(init, r, phone);
    }
  }

  lemma {:induction false} UnitsWithout(rows: seq<Row>, gone: string, phone: string)
    ensures UnitsLeft(Without(rows, gone), phone) == if gone == phone then 0 else UnitsLeft(rows, phone)
  {
    if rows != [] {
      var init, last := rows[..|rows| - 1], rows[|rows| - 1];
      UnitsWithout(init, gone, phone);
      if last.phone != gone {
        UnitsAppend(Without(init, gone), last, phone);
      }
    }
  }

  predicate SendsTo(s: State, c: Call, phone: string) {
    c.op.Send? && c.op.phone == phone && Step(s, c).1 == Sent
  }

  predicate FailsFor(s: State, c: Call, phone: string) {
    !c.op.Send? && c.op.phone == phone && Step(s, c).1 == Wrong
  }

  predicate ClearsFor(s: State, c: Call, phone: string) {
    c.op.CheckReset? && c.op.phone == phone && Step(s, c).1 == Verified
  }

  /** A wrong comparison for a number spends one of its units; a new code brings three, a clearing at most two. */
  lemma StepSpendsUnits(s: State, c: Call, before: int, phone: string)
    requires Ok(s, before) && before <= c.now
    ensures UnitsLeft(Step(s, c).0.rows, phone) + (if FailsFor(s, c, phone) then 1 else 0) <=
            UnitsLeft(s.rows, phone) + (if SendsTo(s, c, phone) then 3 else 0) + if ClearsFor(s, c, phone) then 2 else 0
  {
    var w := StepWrites(s, c);
    match w
    case Untouched =>
    case Added(r) => UnitsAppend(s.rows, r, phone);
    case Rewritten(k, r) =>
      assert RowOk(s.rows[k], before);
      UnitsUpdate(s.rows, k, r, phone);
    case Wiped => UnitsWithout(s.rows, c.op.phone, phone);
  }

  function SentTo(s: State, calls: seq<Call>, phone: string): nat
    decreases |calls|
  {
    if calls == [] then 0 else (if SendsTo(s, calls[0], phone) then 1 else 0) + SentTo(Step(s, calls[0]).0, calls[1..], phone)
  }

  function FailedFor(s: State, calls: seq<Call>, phone: string): nat
    decreases |calls|
  {
    if calls == [] then 0 else (if FailsFor(s, calls[0], phone) then 1 else 0) + FailedFor(Step(s, calls[0]).0, calls[1..], phone)
  }

  function ClearedFor(s: State, calls: seq<Call>, phone: string): nat
    decreases |calls|
  {
    if calls == [] then 0 else (if ClearsFor(s, calls[0], phone) then 1 else 0) + ClearedFor(Step(s, calls[0]).0, calls[1..], phone)
  }

  /**
   * A new code escapes an old lock, but only with an allowance of its own: over
   * every run, the wrong comparisons for one number are at most three for each
   * code sent to it and two for each clearing.
   */
  lemma {:induction false} NumberIsBounded(s: State, calls: seq<Call>, start: int, phone: string)
    requires Ok(s, start) && Clocked(At, start, calls)
    ensures FailedFor(s, calls, phone) <= UnitsLeft(s.rows, phone) + 3 * SentTo(s, calls, phone) + 2 * ClearedFor(s, calls, phone)
    decreases |calls|
  {
    if calls != [] {
      StepSpendsUnits(s, calls[0], start, phone);
      StepKeepsOk(s, calls[0], start);
      NumberIsBounded(Step(s, calls[0]).0, calls[1..], calls[0].now, phone);
    }
  }

  lemma {:induction false} NothingClearedFor(s: State, calls: seq<Call>, phone: string)
    requires NoChecks(calls)
    ensures ClearedFor(s, calls, phone) == 0
    decreases |calls|
  {
    if calls != [] {
      NothingClearedFor(Step(s, calls[0]).0, calls[1..], phone);
    }
  }

  /** Without step 2: three wrong tries for each code sent to the number, and no more. */
  lemma ThreePerCodeSent(calls: seq<Call>, start: int, phone: string)
    requires Clocked(At, start, calls) && NoChecks(calls)
    ensures FailedFor(EMPTY, calls, phone) <= 3 * SentTo(EMPTY, calls, phone)
  {
    NumberIsBounded(EMPTY, calls, start, phone);
    NothingClearedFor(EMPTY, calls, phone);
  }
}
