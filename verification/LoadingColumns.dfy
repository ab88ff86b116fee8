/** When a call on a load is accepted, and which call every column of a load's row was written by, over its whole history. */
module LoadingColumns {
  import opened Option
  import opened LoadingLifecycle

  /** A call goes through exactly for the assigned officer, and a status or waybill only from the statuses listed here. */
  lemma AcceptedIff(r: Request, e: Event)
    ensures var (t, outcome) := Apply(r, e.officer, e.call, e.now);
            (outcome == Forbidden <==> r.assignedOfficerId != Some(e.officer)) && (outcome != Accepted ==> t == r) &&
            (outcome == Accepted <==>
               r.assignedOfficerId == Some(e.officer) &&
               match e.call
               case UpdateStatus(None, _) => false
               case UpdateStatus(Some(to), _) =>
                 to == r.status || (r.status == ASSIGNED && to != PENDING_ASSIGNMENT) ||
                 (r.status == LOADING_IN_PROGRESS && to == COMPLETED) || (r.status == PENDING_ASSIGNMENT && to == CANCELLED)
               case RecordWaybill(_) => r.status == ASSIGNED || r.status == LOADING_IN_PROGRESS || r.status == COMPLETED
               case UpdateDescription(_) => true)
  {
  }

  /** What the last accepted call with something to say of a column said. */
  function Last<T>(r: Request, es: seq<Event>, says: Event -> Option<T>): Option<T> {
    if es == [] then None
    else
      var init, e := es[..|es| - 1], es[|es| - 1];
      if Apply(Run(r, init), e.officer, e.call, e.now).1 == Accepted && says(e).Some? then says(e) else Last(r, init, says)
  }

  // ---------------------------------------------------------------- what a call says of each column

  function StatusIn(e: Event): Option<Status> {
    match e.call
    case UpdateStatus(target, _) => target
    case RecordWaybill(_) => Some(COMPLETED)
    case UpdateDescription(_) => None
  }

  function WaybillIn(e: Event): Option<Waybill> {
    if e.call.RecordWaybill? then Some(e.call.waybill) else None
  }

  /** An attachment is replaced only by another one. */
  function AttachmentIn(e: Event): Option<string> {
    if e.call.RecordWaybill? && e.call.waybill.attachmentUrl != Some("") then e.call.waybill.attachmentUrl else None
  }

  function NoteIn(e: Event): Option<(string, int)> {
    if e.call.UpdateDescription? then Some((e.call.text, e.now)) else None
  }

  function CancellationIn(e: Event): Option<(string, int)> {
    if e.call.UpdateStatus? && e.call.target == Some(CANCELLED) then Some((e.officer, e.now)) else None
  }

  /** A reason is stored only where one is given. */
  function ReasonIn(e: Event): Option<string> {
    if e.call.UpdateStatus? && e.call.target == Some(CANCELLED) && e.call.reason != Some("") then e.call.reason else None
  }

  // ---------------------------------------------------------------- histories

  /** The load stands where the last accepted move put it. */
  lemma {:induction false} StatusIsTheLast(r: Request, es: seq<Event>)
    ensures Run(r, es).status == Last(r, es, StatusIn).GetOr(r.status)
    ensures Run(r, es).assignedOfficerId == r.assignedOfficerId
  {
    if es != [] {
      StatusIsTheLast(r, es[..|es| - 1]);
    }
  }

  /** Truck, driver and quantity are the last accepted waybill's, and the document the last one attached. */
  lemma {:induction false} WaybillIsTheLast(r: Request, es: seq<Event>)
    ensures var t, last := Run(r, es), Last(r, es, WaybillIn);
            t.documentUrl == (if Last(r, es, AttachmentIn).Some? then Last(r, es, AttachmentIn) else r.documentUrl) &&
            if last.Some? then
              t.truckPlateNumber == last.value.truckPlateNumber && t.driverName == last.value.driverName &&
              t.quantityCartons == Some(last.value.quantityCartons)
            else t.truckPlateNumber == r.truckPlateNumber && t.driverName == r.driverName && t.quantityCartons == r.quantityCartons
  {
    if es != [] {
      WaybillIsTheLast(r, es[..|es| - 1]);
    }
  }

  /** The note and its stamp are the last accepted one's, and both are gone where that one was empty. */
  lemma {:induction false} NoteIsTheLast(r: Request, es: seq<Event>)
    ensures var t, last := Run(r, es), Last(r, es, NoteIn);
            if last.None? then t.description == r.description && t.descriptionUpdatedAt == r.descriptionUpdatedAt
            else if last.value.0 == "" then t.description == None && t.descriptionUpdatedAt == None
            else t.description == Some(last.value.0) && t.descriptionUpdatedAt == Some(last.value.1)
  {
    if es != [] {
      NoteIsTheLast(r, es[..|es| - 1]);
    }
  }

  /** Who cancelled and when are the last accepted cancellation's, and the reason the last one given. */
  lemma {:induction false} CancellationIsTheLast(r: Request, es: seq<Event>)
    ensures var t, last := Run(r, es), Last(r, es, CancellationIn);
            t.cancelReason == (if Last(r, es, ReasonIn).Some? then Last(r, es, ReasonIn) else r.cancelReason) &&
            if last.None? then t.cancelledById == r.cancelledById && t.cancelledAt == r.cancelledAt
            else t.cancelledById == Some(last.value.0) && t.cancelledAt == Some(last.value.1)
  {
    if es != [] {
      CancellationIsTheLast(r, es[..|es| - 1]);
    }
  }

  /** When the load was first started: by a move to in-progress, or by a waybill on a load nobody had started. */
  function FirstStart(r: Request, es: seq<Event>): Option<int> {
    if es == [] then None
    else
      var init, e := es[..|es| - 1], es[|es| - 1];
      var starts := e.call.RecordWaybill? || (e.call.UpdateStatus? && e.call.target == Some(LOADING_IN_PROGRESS));
      if FirstStart(r, init).Some? then FirstStart(r, init)
      else if Apply(Run(r, init), e.officer, e.call, e.now).1 == Accepted && starts then Some(e.now)
      else None
  }

  /** The start stamp is the first start's, whatever follows. */
  lemma {:induction false} StartedAtFirstStart(r: Request, es: seq<Event>)
    requires NewlyAssigned(r)
    ensures Run(r, es).loadingStartedAt == FirstStart(r, es)
  {
    if es != [] {
      StartedAtFirstStart(r, es[..|es| - 1]);
    }
  }
}
