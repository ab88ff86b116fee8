/** The configured officer who takes whoever in one region is left unassigned. */
module DefaultOfficerService {
  import opened Option
  import opened Portal

  datatype SyncResult = SyncResult(available: bool, skipped: bool, parked: nat)

  // ---------------------------------------------------------------- specification

  /** The configured officer, provided it is an active OFFICER. */
  ghost function ResolveOfficer(staff: StaffTable, email: string): Option<Id> {
    var found := ByEmail(staff, email);
    if found.Some? && ActiveOfficer(staff, found.value) then found else None
  }

  function Unassigned(s: State, region: Region): set<Id> {
    set c | c in s.customers && s.customers[c].officer.None? && s.customers[c].region == region
  }

  ghost function AssignIfUnassignedStep(s: State, email: string, region: Region, c: Id, now: int): (State, Option<Id>) {
    var officer := ResolveOfficer(s.staff, email);
    if officer.None? || c !in Unassigned(s, region) then (s, None)
    else (Assign(s, {c}, officer.value, now), officer)
  }

  ghost function ReconcileStep(s: State, email: string, region: Region, busy: bool, now: int): (State, SyncResult) {
    var officer := ResolveOfficer(s.staff, email);
    if officer.None? then (s, SyncResult(false, false, 0))
    else if busy then (s, SyncResult(true, true, 0))
    else (Assign(s, Unassigned(s, region), officer.value, now), SyncResult(true, false, |Unassigned(s, region)|))
  }

  // ---------------------------------------------------------------- service

  class DefaultOfficerService {
    const db: Database
    const email: string
    const region: Region
    var running: bool

    constructor (db: Database, email: string, region: Region)
      ensures this.db == db && this.email == email && this.region == region && !running
    {
      this.db, this.email, this.region, running := db, email, region, false;
    }

    method ResolveOfficerId() returns (r: Option<Id>)
      requires UniqueEmails(db.staff)
      ensures r == ResolveOfficer(db.staff, email)
    {
      if x :| x in db.staff && db.staff[x].email == email && db.staff[x].role == OFFICER && db.staff[x].isActive {
        r := Some(x);
      } else {
        r := None;
      }
    }

    /** `lockTaken` is whether another instance holds the advisory lock. */
    method Reconcile(lockTaken: bool, now: int) returns (r: SyncResult)
      requires UniqueEmails(db.staff)
      modifies db, this`running
      ensures running == old(running)
      ensures (db.Snapshot(), r) == ReconcileStep(old(db.Snapshot()), email, region, old(running) || lockTaken, now)
    {
      var officer := ResolveOfficerId();
      if officer.None? {
        return SyncResult(false, false, 0);
      }
      if running {
        return SyncResult(true, true, 0);
      }
      running := true;
      if lockTaken {
        running := false;
        return SyncResult(true, true, 0);
      }
      // One statement: the UPDATE claims the rows, the INSERT upserts a join row for each.
      var claimed := Unassigned(db.Snapshot(), region);
      db.customers, db.joins :=
        Point(db.customers, claimed, officer.value), UpsertAll(db.joins, claimed, officer.value, now);
      NobodyLeaves(old(db.joins), old(db.customers), claimed, officer.value, now);
      running := false;
      r := SyncResult(true, false, |claimed|);
    }

    method AssignIfUnassigned(c: Id, now: int) returns (r: Option<Id>)
      requires UniqueEmails(db.staff)
      modifies db
      ensures (db.Snapshot(), r) == AssignIfUnassignedStep(old(db.Snapshot()), email, region, c, now)
    {
      var officer := ResolveOfficerId();
      if officer.None? {
        return None;
      }
      if !(c in db.customers && db.customers[c].officer.None? && db.customers[c].region == region) {
        return None;
      }
      db.customers := db.customers[c := db.customers[c].(officer := officer)];
      if (c, officer.value) in db.joins {
        db.joins := db.joins[(c, officer.value) := db.joins[(c, officer.value)].(isPrimary := true)];
      } else {
        db.joins := db.joins[(c, officer.value) := Join(true, now)];
      }
      assert db.customers == Point(old(db.customers), {c}, officer.value);
      assert db.joins == UpsertAll(old(db.joins), {c}, officer.value, now);
      NobodyLeaves(old(db.joins), old(db.customers), {c}, officer.value, now);
      r := officer;
    }
  }

  /** `INSERT ... ON CONFLICT (customer, staff) DO UPDATE SET isPrimary = true`, for a set of customers. */
  function UpsertAll(js: JoinTable, cs: set<Id>, to: Id, now: int): JoinTable {
    map k | k in js.Keys + (set c | c in cs :: (c, to)) ::
      if k.0 in cs && k.1 == to then if k in js then js[k].(isPrimary := true) else Join(true, now) else js[k]
  }

  /** An upsert alone is a full repointing when the customers claimed had no officer to leave. */
  lemma NobodyLeaves(js: JoinTable, customers: CustomerTable, cs: set<Id>, to: Id, now: int)
    requires forall c :: c in cs && c in customers ==> customers[c].officer.None?
    ensures UpsertAll(js, cs, to, now) == Repoint(js, customers, cs, to, now)
  {
  }
}
