/** Which code each one-time-code call accepts, what it answers otherwise, and what it writes, on the table's columns. */
module OtpAnswers {
  import opened Clock
  import opened Option
  import opened Otp

  /** The number's newest row: it is the number's, and no later row is. */
  ghost predicate IsNewest(s: State, phone: string, k: nat) {
    k < |s.rows| && s.rows[k].phone == phone && forall j :: k < j < |s.rows| ==> s.rows[j].phone != phone
  }

  lemma NewestOf(s: State, phone: string, k: nat)
    requires IsNewest(s, phone, k)
    ensures Newest(s.rows, phone) == Some(k)
  {
    NewestIsThere(s.rows, phone);
    if Newest(s.rows, phone).Some? {
      assert !(k < Newest(s.rows, phone).value) && !(Newest(s.rows, phone).value < k);
    }
  }

  predicate Outlived(r: Row, now: int) {
    r.createdAt + 10 * 60 * 1000 < now
  }

  predicate Burnt(r: Row) {
    r.attempts >= 3
  }

  /** `verify`: a burnt code is locked for as long as its lock lasts, and then expired; any other lives ten minutes. */
  lemma VerifyAnswers(s: State, phone: string, code: string, before: int, now: int, k: nat)
    requires Ok(s, before) && before <= now && IsNewest(s, phone, k)
    ensures var row := s.rows[k];
            VerifyStep(s, phone, code, now).1 ==
            if Burnt(row) && row.lockedUntil.Some? && now < row.lockedUntil.value then Locked
            else if Outlived(row, now) then Expired
            else if row.code == code then Verified
            else Wrong
  {
    NewestOf(s, phone, k);
    assert RowOk(s.rows[k], before);
  }

  /** Both reset steps: expired after ten minutes, locked until then once burnt, and an account asked for only after the right code. */
  lemma ResetAnswers(s: State, phone: string, code: string, known: bool, before: int, now: int, k: nat)
    requires Ok(s, before) && before <= now && IsNewest(s, phone, k)
    ensures var row := s.rows[k];
            CheckResetStep(s, phone, code, known, now).1 == ConfirmResetStep(s, phone, code, known, now).1 ==
            if Outlived(row, now) then Expired
            else if Burnt(row) then Locked
            else if row.code != code then Wrong
            else if known then Verified
            else NoAccount
  {
    NewestOf(s, phone, k);
    assert RowOk(s.rows[k], before);
  }

  /** A number without a code has nothing to try. */
  lemma NothingToTry(s: State, phone: string, code: string, known: bool, now: int)
    requires forall j :: 0 <= j < |s.rows| ==> s.rows[j].phone != phone
    ensures VerifyStep(s, phone, code, now) == ConfirmResetStep(s, phone, code, known, now) == CheckResetStep(s, phone, code, known, now)
    ensures VerifyStep(s, phone, code, now) == (s, NoCode)
  {
    NewestIsThere(s.rows, phone);
  }

  /** Which code each reset step accepts: the number's newest, within ten minutes, before a third failure, for an account that exists. */
  lemma ResetsIff(s: State, phone: string, code: string, known: bool, before: int, now: int)
    requires Ok(s, before) && before <= now
    ensures var accepts := known && exists k: nat ::
              IsNewest(s, phone, k) && s.rows[k].code == code && !Outlived(s.rows[k], now) && !Burnt(s.rows[k]);
            (ConfirmResetStep(s, phone, code, known, now).1 == Verified <==> accepts) &&
            (CheckResetStep(s, phone, code, known, now).1 == Verified <==> accepts)
  {
    NewestIsThere(s.rows, phone);
    if Newest(s.rows, phone).Some? {
      var k := Newest(s.rows, phone).value;
      assert IsNewest(s, phone, k);
      ResetAnswers(s, phone, code, known, before, now, k);
      forall j: nat | IsNewest(s, phone, j)
        ensures j == k
      {
        NewestOf(s, phone, j);
      }
    } else {
      NothingToTry(s, phone, code, known, now);
    }
  }

  /** A wrong code costs its row one attempt, and the third locks it for half an hour; all three calls write the same. */
  lemma WrongWrites(s: State, phone: string, code: string, known: bool, now: int, k: nat)
    requires IsNewest(s, phone, k) && s.rows[k].code != code && s.rows[k].lockedUntil == None && !IsExpired(s.rows[k], now)
    ensures var row := s.rows[k];
            var failed := row.(attempts := row.attempts + 1, lockedUntil := if row.attempts >= 2 then Some(now + 30 * 60 * 1000) else None);
            VerifyStep(s, phone, code, now) == (s.(rows := s.rows[k := failed]), Wrong) &&
            ConfirmResetStep(s, phone, code, known, now) == CheckResetStep(s, phone, code, known, now) == VerifyStep(s, phone, code, now)
  {
    NewestOf(s, phone, k);
  }

  /** A right one wipes the number's rows, or in step 2 clears the row's attempts and nothing else. */
  lemma RightWrites(s: State, phone: string, code: string, now: int, k: nat, r: Row)
    requires IsNewest(s, phone, k) && s.rows[k].code == code && s.rows[k].lockedUntil == None && !IsExpired(s.rows[k], now)
    ensures r in VerifyStep(s, phone, code, now).0.rows <==> r in s.rows && r.phone != phone
    ensures ConfirmResetStep(s, phone, code, true, now) == VerifyStep(s, phone, code, now)
    ensures FinishResetStep(s, phone, true) == VerifyStep(s, phone, code, now) && FinishResetStep(s, phone, false) == (s, Refused)
    ensures CheckResetStep(s, phone, code, true, now).0 == s.(rows := s.rows[k := s.rows[k].(attempts := 0)])
  {
    NewestOf(s, phone, k);
    WithoutIsFilter(s.rows, phone);
  }

  /** Every other answer leaves the table as it was. */
  lemma OthersWriteNothing(s: State, c: Call)
    requires !c.op.Send? && Step(s, c).1 != Wrong && Step(s, c).1 != Verified
    ensures Step(s, c).0 == s
  {
  }

  /** The third wrong try locks the number to `verify` for half an hour to the millisecond, whatever code is then submitted. */
  lemma LockedForHalfAnHour(s: State, phone: string, wrong: string, before: int, now: int, k: nat, code: string, later: int)
    requires Ok(s, before) && before <= now <= later && IsNewest(s, phone, k)
    requires s.rows[k].code != wrong && s.rows[k].attempts == 2 && !Outlived(s.rows[k], now)
    ensures VerifyStep(VerifyStep(s, phone, wrong, now).0, phone, code, later).1 == if later < now + 30 * 60 * 1000 then Locked else Expired
  {
    assert RowOk(s.rows[k], before);
    var c := Call(Verify(phone, wrong), now);
    WrongWrites(s, phone, wrong, true, now, k);
    StepKeepsOk(s, c, before);
    var t := Step(s, c).0;
    assert IsNewest(t, phone, k);
    VerifyAnswers(t, phone, code, now, later, k);
  }

  // ---------------------------------------------------------------- a number's bound is met

  lemma PrependFor(s: State, c: Call, rest: seq<Call>, phone: string)
    requires Clocked(At, c.now, rest) && NoChecks(rest) && !c.op.CheckReset?
    ensures Clocked(At, c.now, [c] + rest) && NoChecks([c] + rest)
    ensures FailedFor(s, [c] + rest, phone) == (if FailsFor(s, c, phone) then 1 else 0) + FailedFor(Step(s, c).0, rest, phone)
    ensures SentTo(s, [c] + rest, phone) == (if SendsTo(s, c, phone) then 1 else 0) + SentTo(Step(s, c).0, rest, phone)
  {
    var calls := [c] + rest;
    assert calls[1..] == rest;
    assert forall i :: 0 <= i < |rest| ==> calls[i + 1] == rest[i];
  }

  /** The row after this many wrong tries, all at once. */
  function Tried(s: State, k: nat, n: nat, now: int): State
    requires k < |s.rows|
  {
    s.(rows := s.rows[k := s.rows[k].(attempts := n, lockedUntil := if n >= 3 then Some(now + LOCK_MS) else None)])
  }

  lemma OneTry(s: State, k: nat, phone: string, wrong: string, now: int, n: nat)
    requires IsNewest(s, phone, k) && s.rows[k].code != wrong && s.rows[k].expiresAt >= now && n < 3
    ensures var c := WrongCall(phone, wrong, now);
            FailsFor(Tried(s, k, n, now), c, phone) && !SendsTo(Tried(s, k, n, now), c, phone) &&
            Step(Tried(s, k, n, now), c).0 == Tried(s, k, n + 1, now)
  {
    var t := Tried(s, k, n, now);
    assert IsNewest(t, phone, k);
    WrongWrites(t, phone, wrong, true, now, k);
    assert t.rows[k := Tried(s, k, n + 1, now).rows[k]] == Tried(s, k, n + 1, now).rows;
  }

  lemma {:induction false} ThreeTries(s: State, k: nat, phone: string, wrong: string, now: int, n: nat, rest: seq<Call>) returns (calls: seq<Call>)
    requires IsNewest(s, phone, k) && s.rows[k].code != wrong && s.rows[k].expiresAt >= now && n <= 3
    requires Clocked(At, now, rest) && NoChecks(rest)
    ensures Clocked(At, now, calls) && NoChecks(calls)
    ensures FailedFor(Tried(s, k, n, now), calls, phone) == 3 - n + FailedFor(Tried(s, k, 3, now), rest, phone)
    ensures SentTo(Tried(s, k, n, now), calls, phone) == SentTo(Tried(s, k, 3, now), rest, phone)
    decreases 3 - n
  {
    if n == 3 {
      calls := rest;
    } else {
      var more := ThreeTries(s, k, phone, wrong, now, n + 1, rest);
      OneTry(s, k, phone, wrong, now, n);
      PrependFor(Tried(s, k, n, now), WrongCall(phone, wrong, now), more, phone);
      calls := [WrongCall(phone, wrong, now)] + more;
    }
  }

  ghost predicate Unissued(ids: seq<string>, issued: set<string>) {
    (forall i :: 0 <= i < |ids| ==> ids[i] !in issued) && forall i, j :: 0 <= i < j < |ids| ==> ids[i] != ids[j]
  }

  /** Each new code brings three more wrong tries, whatever the number has been through. */
  lemma {:induction false} CodeByCode(s: State, ids: seq<string>, phone: string, now: int) returns (calls: seq<Call>)
    requires Unissued(ids, s.issued)
    ensures Clocked(At, now, calls) && NoChecks(calls)
    ensures SentTo(s, calls, phone) == |ids| && FailedFor(s, calls, phone) == 3 * |ids|
    decreases |ids|
  {
    if ids == [] {
      calls := [];
    } else {
      var send, k := Call(Send(ids[0], phone, "1"), now), |s.rows|;
      var t := Step(s, send).0;
      assert t == Tried(t, k, 0, now);
      var burnt := Tried(t, k, 3, now);
      assert Unissued(ids[1..], burnt.issued);
      var rest := CodeByCode(burnt, ids[1..], phone, now);
      var tries := ThreeTries(t, k, phone, "2", now, 0, rest);
      PrependFor(s, send, tries, phone);
      calls := [send] + tries;
    }
  }

  /** The bound of three wrong tries for each code sent cannot be lowered, for any number of codes. */
  lemma NumberBoundIsMet(ids: seq<string>, phone: string, now: int)
    requires forall i, j :: 0 <= i < j < |ids| ==> ids[i] != ids[j]
    ensures exists calls ::
              Clocked(At, now, calls) && NoChecks(calls) && SentTo(EMPTY, calls, phone) == |ids| && FailedFor(EMPTY, calls, phone) == 3 * |ids|
  {
    var calls := CodeByCode(EMPTY, ids, phone, now);
    assert Clocked(At, now, calls);
  }
}
