/** The loading officer's queue: a status machine whose stamps track its history. */
module LoadingLifecycle {
  import opened Option

  datatype Status = PENDING_ASSIGNMENT | ASSIGNED | LOADING_IN_PROGRESS | COMPLETED | CANCELLED

  datatype Request = Request(
    status: Status, assignedOfficerId: Option<string>,
    loadingStartedAt: Option<int>, completedAt: Option<int>,
    cancelledAt: Option<int>, cancelledById: Option<string>, cancelReason: Option<string>,
    description: Option<string>, descriptionUpdatedAt: Option<int>,
    truckPlateNumber: string, driverName: string, quantityCartons: Option<real>, documentUrl: Option<string>)

  datatype Waybill = Waybill(truckPlateNumber: string, driverName: string, quantityCartons: real, attachmentUrl: Option<string>)

  datatype Outcome = Accepted | NotFound | Forbidden | InvalidTransition

  // ---------------------------------------------------------------- transitions

  function AllowedFrom(from: Status): set<Status> {
    match from
    case PENDING_ASSIGNMENT => {CANCELLED}
    case ASSIGNED => {LOADING_IN_PROGRESS, COMPLETED, CANCELLED}
    case LOADING_IN_PROGRESS => {COMPLETED}
    case COMPLETED => {}
    case CANCELLED => {}
  }

  /** `assertLoadingTransition`: staying put is always legal. */
  predicate MayMove(from: Status, to: Status) {
    from == to || to in AllowedFrom(from)
  }

  function Filled(text: Option<string>): Option<string> {
    if text == Some("") then None else text
  }

  // ---------------------------------------------------------------- the three writes

  /** `reason` is already trimmed; a blank one is not stored. */
  function WithStatus(r: Request, to: Status, officer: string, reason: Option<string>, now: int): Request {
    var moved := r.(
      status := to,
      loadingStartedAt := if to == LOADING_IN_PROGRESS then Some(r.loadingStartedAt.GetOr(now)) else r.loadingStartedAt,
      completedAt := if to == COMPLETED then Some(now) else r.completedAt);
    if to == CANCELLED then
      moved.(cancelledAt := Some(now), cancelledById := Some(officer),
             cancelReason := if Filled(reason).Some? then reason else r.cancelReason)
    else moved
  }

  function WithWaybill(r: Request, w: Waybill, now: int): Request {
    r.(truckPlateNumber := w.truckPlateNumber, driverName := w.driverName, quantityCartons := Some(w.quantityCartons),
       documentUrl := if Filled(w.attachmentUrl).Some? then w.attachmentUrl else r.documentUrl,
       status := COMPLETED, completedAt := Some(now), loadingStartedAt := Some(r.loadingStartedAt.GetOr(now)))
  }

  /** `text` is already trimmed; an empty one clears the note and its stamp. */
  function WithDescription(r: Request, text: string, now: int): Request {
    if text == "" then r.(description := None, descriptionUpdatedAt := None)
    else r.(description := Some(text), descriptionUpdatedAt := Some(now))
  }

  datatype Call =
    | UpdateStatus(target: Option<Status>, reason: Option<string>)
    | RecordWaybill(waybill: Waybill)
    | UpdateDescription(text: string)

  /** What a call by `officer` does to a stored request. A target of None is a status the client misspelt. */
  function Apply(r: Request, officer: string, call: Call, now: int): (Request, Outcome) {
    if r.assignedOfficerId != Some(officer) then (r, Forbidden)
    else
      match call
      case UpdateStatus(target, reason) =>
        if target.None? || !MayMove(r.status, target.value) then (r, InvalidTransition)
        else (WithStatus(r, target.value, officer, reason, now), Accepted)
      case RecordWaybill(w) => if MayMove(r.status, COMPLETED) then (WithWaybill(r, w, now), Accepted) else (r, InvalidTransition)
      case UpdateDescription(text) => (WithDescription(r, text, now), Accepted)
  }

  class LoadingService {
    var requests: map<string, Request>

    constructor (requests: map<string, Request>)
      ensures this.requests == requests
    {
      this.requests := requests;
    }

    ghost predicate Served(was: map<string, Request>, officer: string, id: string, call: Call, now: int, outcome: Outcome)
      reads this
    {
      if id !in was then requests == was && outcome == NotFound
      else requests == was[id := Apply(was[id], officer, call, now).0] && outcome == Apply(was[id], officer, call, now).1
    }

    method EnsureOwnAssignment(officer: string, id: string) returns (outcome: Outcome)
      ensures outcome == if id !in requests then NotFound
                         else if requests[id].assignedOfficerId != Some(officer) then Forbidden else Accepted
    {
      if id !in requests {
        return NotFound;
      }
      if requests[id].assignedOfficerId != Some(officer) {
        return Forbidden;
      }
      return Accepted;
    }

    method UpdateStatus(officer: string, id: string, target: Option<Status>, reason: Option<string>, now: int) returns (outcome: Outcome)
      modifies this
      ensures Served(old(requests), officer, id, Call.UpdateStatus(target, reason), now, outcome)
    {
      outcome := EnsureOwnAssignment(officer, id);
      if outcome != Accepted {
        assert id in requests ==> requests == requests[id := requests[id]];
        return;
      }
      var request := requests[id];
      if target.None? || !MayMove(request.status, target.value) {
        assert requests == requests[id := request];
        return InvalidTransition;
      }
      var to := target.value;
      var updated := request.(status := to);
      if to == LOADING_IN_PROGRESS && request.loadingStartedAt.None? {
        updated := updated.(loadingStartedAt := Some(now));
      }
      if to == COMPLETED {
        updated := updated.(completedAt := Some(now));
      }
      if to == CANCELLED {
        updated := updated.(cancelledAt := Some(now), cancelledById := Some(officer));
        if reason.Some? && reason.value != "" {
          updated := updated.(cancelReason := reason);
        }
      }
      requests := requests[id := updated];
    }

    method RecordWaybill(officer: string, id: string, w: Waybill, now: int) returns (outcome: Outcome)
      modifies this
      ensures Served(old(requests), officer, id, Call.RecordWaybill(w), now, outcome)
    {
      outcome := EnsureOwnAssignment(officer, id);
      if outcome != Accepted {
        assert id in requests ==> requests == requests[id := requests[id]];
        return;
      }
      var request := requests[id];
      if !MayMove(request.status, COMPLETED) {
        assert requests == requests[id := request];
        return InvalidTransition;
      }
      var updated := request.(truckPlateNumber := w.truckPlateNumber, driverName := w.driverName,
                              quantityCartons := Some(w.quantityCartons), status := COMPLETED, completedAt := Some(now));
      if w.attachmentUrl.Some? && w.attachmentUrl.value != "" {
        updated := updated.(documentUrl := w.attachmentUrl);
      }
      if request.loadingStartedAt.None? {
        updated := updated.(loadingStartedAt := Some(now));
      }
      requests := requests[id := updated];
    }

    method UpdateDescription(officer: string, id: string, text: string, now: int) returns (outcome: Outcome)
      modifies this
      ensures Served(old(requests), officer, id, Call.UpdateDescription(text), now, outcome)
    {
      outcome := EnsureOwnAssignment(officer, id);
      if outcome != Accepted {
        assert id in requests ==> requests == requests[id := requests[id]];
        return;
      }
      var cleared := text == "";
      requests := requests[id := requests[id].(description := if cleared then None else Some(text),
                                               descriptionUpdatedAt := if cleared then None else Some(now))];
    }
  }

  // ---------------------------------------------------------------- runs of one request

  /** A call by any officer, at its time. */
  datatype Event = Event(officer: string, call: Call, now: int)

  function Run(r: Request, es: seq<Event>): Request {
    if es == [] then r
    else
      var before, e := Run(r, es[..|es| - 1]), es[|es| - 1];
      Apply(before, e.officer, e.call, e.now).0
  }

  /** The statuses the request has had, in order, a call that left it alone adding none. */
  function History(r: Request, es: seq<Event>): (h: seq<Status>)
    ensures h != [] && h[0] == r.status && h[|h| - 1] == Run(r, es).status
  {
    if es == [] then [r.status]
    else
      var before := History(r, es[..|es| - 1]);
      if Run(r, es).status == Run(r, es[..|es| - 1]).status then before else before + [Run(r, es).status]
  }

  /** As the regional admin hands it over: assigned, and nothing else has happened. */
  predicate NewlyAssigned(r: Request) {
    r.status == ASSIGNED && r.assignedOfficerId.Some? && r.loadingStartedAt.None? && r.completedAt.None? && r.cancelledAt.None?
  }

  /** How many more real moves a status leaves room for. */
  function Rank(s: Status): nat {
    match s
    case PENDING_ASSIGNMENT => 1
    case ASSIGNED => 2
    case LOADING_IN_PROGRESS => 1
    case COMPLETED => 0
    case CANCELLED => 0
  }

  predicate StampsMatch(r: Request) {
    (r.completedAt.Some? <==> r.status == COMPLETED) &&
    (r.cancelledAt.Some? <==> r.status == CANCELLED) &&
    (r.status == LOADING_IN_PROGRESS ==> r.loadingStartedAt.Some?) &&
    ((r.status == ASSIGNED || r.status == CANCELLED) ==> r.loadingStartedAt.None?) &&
    r.status != PENDING_ASSIGNMENT
  }

  /** Every accepted move is legal, strictly uses up rank, and keeps the stamps true. */
  lemma ApplyKeepsStamps(r: Request, officer: string, call: Call, now: int)
    requires StampsMatch(r)
    ensures var t := Apply(r, officer, call, now).0;
            StampsMatch(t) && t.assignedOfficerId == r.assignedOfficerId &&
            (t.status != r.status ==> t.status in AllowedFrom(r.status) && Rank(t.status) < Rank(r.status)) &&
            (r.loadingStartedAt.Some? ==> t.loadingStartedAt == r.loadingStartedAt)
  {
  }

  lemma {:induction false} EveryRunKeepsStamps(r: Request, es: seq<Event>)
    requires NewlyAssigned(r)
    ensures StampsMatch(Run(r, es))
  {
    if es != [] {
      EveryRunKeepsStamps(r, es[..|es| - 1]);
      var e := es[|es| - 1];
      ApplyKeepsStamps(Run(r, es[..|es| - 1]), e.officer, e.call, e.now);
    }
  }

  ghost predicate LegalPath(h: seq<Status>) {
    forall i :: 0 <= i < |h| - 1 ==> h[i + 1] in AllowedFrom(h[i])
  }

  /** The history of a load is a legal path with at most two real moves, ending at its present status. */
  lemma {:induction false} HistoryIsLegal(r: Request, es: seq<Event>)
    requires NewlyAssigned(r)
    ensures var h := History(r, es);
            LegalPath(h) && h[0] == ASSIGNED && |h| - 1 + Rank(Run(r, es).status) <= 2
  {
    if es != [] {
      var init, e := es[..|es| - 1], es[|es| - 1];
      HistoryIsLegal(r, init);
      EveryRunKeepsStamps(r, init);
      ApplyKeepsStamps(Run(r, init), e.officer, e.call, e.now);
    }
  }

  lemma RunAppend(r: Request, es: seq<Event>, e: Event)
    ensures Run(r, es + [e]) == Apply(Run(r, es), e.officer, e.call, e.now).0
  {
    assert (es + [e])[..|es|] == es;
  }

  /** Completed and cancelled loads are never left, and a loading start once stamped is never moved, however the run goes on. */
  lemma {:induction false} TerminalForGood(r: Request, es: seq<Event>, later: seq<Event>)
    requires NewlyAssigned(r)
    ensures var s, t := Run(r, es), Run(r, es + later);
            (s.status == COMPLETED || s.status == CANCELLED ==> t.status == s.status) &&
            (s.loadingStartedAt.Some? ==> t.loadingStartedAt == s.loadingStartedAt)
    decreases |later|
  {
    if later == [] {
      assert es + later == es;
    } else {
      var init, e := later[..|later| - 1], later[|later| - 1];
      TerminalForGood(r, es, init);
      assert es + later == (es + init) + [e];
      RunAppend(r, es + init, e);
      EveryRunKeepsStamps(r, es + init);
      ApplyKeepsStamps(Run(r, es + init), e.officer, e.call, e.now);
    }
  }

  /** A call that started the load: an accepted move to in-progress, or an accepted waybill. */
  predicate Starts(r: Request, e: Event) {
    Apply(r, e.officer, e.call, e.now).1 == Accepted &&
    (e.call.RecordWaybill? || (e.call.UpdateStatus? && e.call.target == Some(LOADING_IN_PROGRESS)))
  }

  ghost predicate SomeStart(r: Request, es: seq<Event>) {
    exists i :: 0 <= i < |es| && Starts(Run(r, es[..i]), es[i])
  }

  lemma ApplyStarts(r: Request, e: Event)
    ensures Apply(r, e.officer, e.call, e.now).0.loadingStartedAt.Some? <==> r.loadingStartedAt.Some? || Starts(r, e)
  {
  }

  lemma SomeStartAppend(r: Request, init: seq<Event>, e: Event)
    ensures SomeStart(r, init + [e]) <==> SomeStart(r, init) || Starts(Run(r, init), e)
  {
    var es := init + [e];
    assert es[..|init|] == init;
    if i :| 0 <= i < |init| && Starts(Run(r, init[..i]), init[i]) {
      assert es[..i] == init[..i] && es[i] == init[i];
    }
    if i :| 0 <= i < |es| && Starts(Run(r, es[..i]), es[i]) {
      if i < |init| {
        assert es[..i] == init[..i] && es[i] == init[i];
      }
    }
    if Starts(Run(r, init), e) {
      assert es[|init|] == e;
    }
  }

  /**
   * A load carries a start stamp exactly when some call started it. A load moved
   * straight from assigned to completed has none.
   */
  lemma {:induction false} StampedIffStarted(r: Request, es: seq<Event>)
    requires NewlyAssigned(r)
    ensures Run(r, es).loadingStartedAt.Some? <==> SomeStart(r, es)
  {
    if es != [] {
      var init, e := es[..|es| - 1], es[|es| - 1];
      assert es == init + [e];
      StampedIffStarted(r, init);
      ApplyStarts(Run(r, init), e);
      SomeStartAppend(r, init, e);
    }
  }

  /**
   * A load moved to completed by its status keeps the start stamp it had: it has
   * one exactly where it was in progress, and none where it was only assigned.
   */
  lemma CompletedWithStamp(r: Request, e: Event)
    requires StampsMatch(r) && r.status != COMPLETED && e.call.UpdateStatus? && e.call.target == Some(COMPLETED)
    ensures var (t, outcome) := Apply(r, e.officer, e.call, e.now);
            outcome == Accepted ==> (t.loadingStartedAt.Some? <==> r.status == LOADING_IN_PROGRESS)
  {
  }

  /** An accepted call that records the load as completed, for the first time or again. */
  predicate Completes(r: Request, e: Event) {
    Apply(r, e.officer, e.call, e.now).1 == Accepted &&
    (e.call.RecordWaybill? || (e.call.UpdateStatus? && e.call.target == Some(COMPLETED)))
  }

  /** When the run last recorded the load as completed. */
  function LastCompletion(r: Request, es: seq<Event>): Option<int> {
    if es == [] then None
    else
      var init, e := es[..|es| - 1], es[|es| - 1];
      if Completes(Run(r, init), e) then Some(e.now) else LastCompletion(r, init)
  }

  /** The completion stamp is the time of the latest completing call: a repeated one moves it. */
  lemma {:induction false} CompletedAtLastCompletion(r: Request, es: seq<Event>)
    requires NewlyAssigned(r)
    ensures Run(r, es).completedAt == LastCompletion(r, es)
  {
    if es != [] {
      CompletedAtLastCompletion(r, es[..|es| - 1]);
    }
  }

  /**
   * On a completed load every waybill its own officer records, and every repeated
   * COMPLETED, is accepted and moves the stamp; nothing else does.
   */
  lemma RestampedIff(r: Request, e: Event)
    requires r.status == COMPLETED && r.assignedOfficerId.Some?
    ensures var t := Apply(r, e.officer, e.call, e.now).0;
            t.completedAt ==
            if r.assignedOfficerId == Some(e.officer) && (e.call.RecordWaybill? || (e.call.UpdateStatus? && e.call.target == Some(COMPLETED)))
            then Some(e.now) else r.completedAt
  {
  }

  /** The service's own comments rule these out, and the code accepts them: a load completed without being started, and a waybill re-recorded. */
  lemma CommentsOverstate(r: Request, officer: string, w: Waybill, first: int, second: int)
    requires NewlyAssigned(r) && r.assignedOfficerId == Some(officer)
    ensures var (done, outcome) := Apply(r, officer, Call.UpdateStatus(Some(COMPLETED), None), first);
            outcome == Accepted && done.status == COMPLETED && done.loadingStartedAt.None? &&
            var (again, outcome') := Apply(done, officer, Call.RecordWaybill(w), second);
            outcome' == Accepted && again.completedAt == Some(second) && again.loadingStartedAt == Some(second)
  {
  }

  /** The note and the load's progress are written apart: neither kind of call touches the other's columns. */
  lemma NoteIsIndependent(r: Request, officer: string, call: Call, now: int)
    ensures var t := Apply(r, officer, call, now).0;
            if call.UpdateDescription? then t == r.(description := t.description, descriptionUpdatedAt := t.descriptionUpdatedAt)
            else t.description == r.description && t.descriptionUpdatedAt == r.descriptionUpdatedAt
  {
  }
}
