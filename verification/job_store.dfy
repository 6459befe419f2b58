/**
 * The five Convex handlers over the `jobApplication` table
 * (convex/jobApplications.ts): list, get, create, update and delete.
 *
 * The table is a map from document id to record, updated in place; ids are
 * handed out by a counter, so a larger id means a later insertion, which is
 * the order Convex's `.order("desc")` follows. The caller's identity
 * (`ctx.auth.getUserIdentity()`, as its token identifier) and the clock
 * (`Date.now()`) are parameters.
 */
module JobStore {
  import opened Wrappers
  import opened JobRecord

  type Id = nat

  /** A stored document: its id and its fields. */
  datatype Doc = Doc(id: Id, record: JobApplication)

  /**
   * The errors the handlers raise. `InvalidArgument` is raised by Convex's
   * argument validators before a handler runs.
   */
  datatype StoreError = InvalidArgument(field: string) | Unauthenticated | NotFoundOrDenied

  /** The arguments of `createJobApplication`. */
  datatype NewJob = NewJob(
    url: string,
    title: Option<string>,
    company: Option<string>,
    location: Option<string>,
    appliedDate: Option<string>,
    status: string)

  /** The arguments of `updateJobApplication`, with all six fields supplied. */
  datatype JobPatch = JobPatch(
    url: string,
    title: string,
    company: string,
    location: string,
    appliedDate: string,
    status: string)

  /** Ids strictly decreasing along the listing: newest first. */
  ghost predicate NewestFirst(docs: seq<Doc>)
  {
    forall i, j :: 0 <= i < j < |docs| ==> docs[i].id > docs[j].id
  }

  /** The caller's documents among ids below `below`, newest first. */
  function Listing(rows: map<Id, JobApplication>, owner: string, below: nat): (r: seq<Doc>)
    ensures forall d :: d in r <==>
      d.id < below && d.id in rows && rows[d.id] == d.record && d.record.userId == owner
    ensures NewestFirst(r)
  {
    if below == 0 then []
    else
      var id := below - 1;
      var rest := Listing(rows, owner, id);
      if id in rows && rows[id].userId == owner then [Doc(id, rows[id])] + rest else rest
  }

  /**
   * The record a successful update leaves: the owner and creation time are
   * kept, and the six editable fields take the patch's values.
   */
  function Patched(rec: JobApplication, p: JobPatch, s: Status): (r: JobApplication)
    ensures r.userId == rec.userId && r.createdAt == rec.createdAt
    ensures r.url == p.url && r.title == Some(p.title) && r.company == Some(p.company)
    ensures r.location == Some(p.location) && r.appliedDate == Some(p.appliedDate)
    ensures r.status == s
  {
    rec.(url := p.url, title := Some(p.title), company := Some(p.company),
          location := Some(p.location), appliedDate := Some(p.appliedDate), status := s)
  }

  /**
   * Nothing of the old editable values survives a patch: two records with
   * the same owner and creation time are patched alike.
   */
  lemma PatchedForgetsOldFields(a: JobApplication, b: JobApplication, p: JobPatch, s: Status)
    requires a.userId == b.userId && a.createdAt == b.createdAt
    ensures Patched(a, p, s) == Patched(b, p, s)
  {
  }

  /** Patching twice with the same values is patching once. */
  lemma PatchedIdempotent(rec: JobApplication, p: JobPatch, s: Status)
    ensures Patched(Patched(rec, p, s), p, s) == Patched(rec, p, s)
  {
  }

  class JobTable {
    var rows: map<Id, JobApplication>
    var nextId: Id

    /** Every stored id was handed out by the counter. */
    ghost predicate Valid()
      reads this
    {
      forall id :: id in rows ==> id < nextId
    }

    constructor ()
      ensures Valid() && rows == map[] && nextId == 0
    {
      rows := map[];
      nextId := 0;
    }

    /** `getJobApplicationsForUser`: the caller's records, newest first. */
    method List(caller: Option<string>) returns (r: Result<seq<Doc>, StoreError>)
      requires Valid()
      ensures caller.None? ==> r == Failure(Unauthenticated)
      ensures caller.Some? ==> r.Success?
      ensures caller.Some? ==> forall d :: d in r.value <==>
        d.id in rows && rows[d.id] == d.record && d.record.userId == caller.value
      ensures r.Success? ==> NewestFirst(r.value)
    {
      if caller.None? {
        return Failure(Unauthenticated);
      }
      r := Success(Listing(rows, caller.value, nextId));
    }

    /** `getJobApplication`: the record, when it exists and the caller owns it. */
    method Get(caller: Option<string>, id: Id) returns (r: Result<JobApplication, StoreError>)
      ensures caller.None? ==> r == Failure(Unauthenticated)
      ensures caller.Some? && (id !in rows || rows[id].userId != caller.value) ==>
        r == Failure(NotFoundOrDenied)
      ensures caller.Some? && id in rows && rows[id].userId == caller.value ==>
        r == Success(rows[id])
    {
      if caller.None? {
        return Failure(Unauthenticated);
      }
      if id !in rows || rows[id].userId != caller.value {
        return Failure(NotFoundOrDenied);
      }
      r := Success(rows[id]);
    }

    /** `createJobApplication`: inserts one record owned by the caller. */
    method Create(caller: Option<string>, args: NewJob, now: int) returns (r: Result<Id, StoreError>)
      requires Valid()
      modifies this
      ensures Valid()
      ensures ParseStatus(args.status).None? ==>
        r == Failure(InvalidArgument("status")) && rows == old(rows) && nextId == old(nextId)
      ensures ParseStatus(args.status).Some? && caller.None? ==>
        r == Failure(Unauthenticated) && rows == old(rows) && nextId == old(nextId)
      ensures ParseStatus(args.status).Some? && caller.Some? ==>
        && r == Success(old(nextId))
        && old(nextId) !in old(rows)
        && nextId == old(nextId) + 1
        && rows == old(rows)[old(nextId) := JobApplication(
             caller.value, args.url, args.title, args.company, args.location,
             args.appliedDate, ParseStatus(args.status).value, now)]
      ensures r.Success? ==> StatusName(rows[r.value].status) == args.status
    {
      var status := ParseStatus(args.status);
      if status.None? {
        return Failure(InvalidArgument("status"));
      }
      if caller.None? {
        return Failure(Unauthenticated);
      }
      var id := nextId;
      rows := rows[id := JobApplication(
        caller.value, args.url, args.title, args.company, args.location,
        args.appliedDate, status.value, now)];
      nextId := nextId + 1;
      r := Success(id);
    }

    /** `updateJobApplication`: patches the six editable fields of an owned record. */
    method Update(caller: Option<string>, id: Id, patch: JobPatch) returns (r: Result<(), StoreError>)
      requires Valid()
      modifies this
      ensures Valid() && nextId == old(nextId)
      ensures ParseStatus(patch.status).None? ==>
        r == Failure(InvalidArgument("status")) && rows == old(rows)
      ensures ParseStatus(patch.status).Some? && caller.None? ==>
        r == Failure(Unauthenticated) && rows == old(rows)
      ensures (ParseStatus(patch.status).Some? && caller.Some? &&
               (id !in old(rows) || old(rows)[id].userId != caller.value)) ==>
        r == Failure(NotFoundOrDenied) && rows == old(rows)
      ensures (ParseStatus(patch.status).Some? && caller.Some? &&
               id in old(rows) && old(rows)[id].userId == caller.value) ==>
        && r == Success(())
        && rows == old(rows)[id := Patched(old(rows)[id], patch, ParseStatus(patch.status).value)]
      ensures r.Success? ==>
        && rows[id].userId == old(rows)[id].userId
        && rows[id].createdAt == old(rows)[id].createdAt
        && StatusName(rows[id].status) == patch.status
    {
      var status := ParseStatus(patch.status);
      if status.None? {
        return Failure(InvalidArgument("status"));
      }
      if caller.None? {
        return Failure(Unauthenticated);
      }
      if id !in rows || rows[id].userId != caller.value {
        return Failure(NotFoundOrDenied);
      }
      rows := rows[id := Patched(rows[id], patch, status.value)];
      r := Success(());
    }

    /** `deleteJobApplication`: removes an owned record and reports success. */
    method Delete(caller: Option<string>, id: Id) returns (r: Result<bool, StoreError>)
      requires Valid()
      modifies this
      ensures Valid() && nextId == old(nextId)
      ensures caller.None? ==> r == Failure(Unauthenticated) && rows == old(rows)
      ensures caller.Some? && (id !in old(rows) || old(rows)[id].userId != caller.value) ==>
        r == Failure(NotFoundOrDenied) && rows == old(rows)
      ensures caller.Some? && id in old(rows) && old(rows)[id].userId == caller.value ==>
        r == Success(true) && rows == old(rows) - {id}
    {
      if caller.None? {
        return Failure(Unauthenticated);
      }
      if id !in rows || rows[id].userId != caller.value {
        return Failure(NotFoundOrDenied);
      }
      rows := rows - {id};
      r := Success(true);
    }
  }

  /**
   * Two owners share the table: the second cannot read or delete the
   * first one's record, and the record survives the attempt; the owner's
   * listing shows the later of two records first.
   */
  method OwnerIsolationScenario(a: string, b: string, now: int)
    requires a != b
  {
    var table := new JobTable();
    var first := table.Create(Some(a), NewJob("https://jobs/1", None, None, None, Some("2025-05-01"), "waiting"), now);
    var second := table.Create(Some(a), NewJob("https://jobs/2", None, None, None, Some("2025-05-03"), "waiting"), now + 1);
    assert first == Success(0) && second == Success(1);

    var peek := table.Get(Some(b), 0);
    assert peek == Failure(NotFoundOrDenied);
    var gone := table.Delete(Some(b), 0);
    assert gone == Failure(NotFoundOrDenied);
    var mine := table.Get(Some(a), 0);
    assert mine.Success? && mine.value.appliedDate == Some("2025-05-01");

    var listing := table.List(Some(a));
    assert Doc(1, table.rows[1]) in listing.value && Doc(0, table.rows[0]) in listing.value;
    assert table.rows.Keys == {0, 1};
    assert listing.value[0] in listing.value;
    assert listing.value[0].id == 1;
  }
}
