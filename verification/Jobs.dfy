/** The job tables of chirp_job.c and the client transactions on them. */
module Jobs {
  import opened Common

  datatype Status = Created | Committed | Started | Finished | Errored | Killed

  /** The `terminal` column of the JobStatus table. */
  predicate Terminal(s: Status) { s == Finished || s == Errored || s == Killed }

  datatype Job = Job(status: Status, subject: string, priority: int, timeCommit: int)

  datatype LocalJob = LocalJob(pid: int, waited: bool)

  /** Jobs, JobReaped (with the time of reaping) and LocalJobs, all keyed by job id. */
  datatype Db = Db(jobs: map<int, Job>, reaped: map<int, int>, local: map<int, LocalJob>)

  /** A JSON argument: the operations on several jobs expect an array of integers. */
  datatype Json = JInt(n: int) | JArray(items: seq<Json>) | JOther

  datatype Rc = Ok | EPerm | EInval | ESrch | SqlError

  predicate IdList(j: Json) { j.JArray? && forall i :: 0 <= i < |j.items| ==> j.items[i].JInt? }

  function Ids(j: Json): seq<int>
    requires IdList(j)
  {
    seq(|j.items|, i requires 0 <= i < |j.items| => j.items[i].n)
  }

  predicate Distinct(ids: seq<int>) { forall i, j :: 0 <= i < j < |ids| ==> ids[i] != ids[j] }

  // ---------------------------------------------------------------------- the state machine

  /** The status changes a single transaction may make. */
  predicate Moves(a: Status, b: Status)
  {
    || a == b
    || (a == Created && b == Committed)
    || (a == Committed && b == Started)
    || (a == Started && b == Finished)
    || ((a == Committed || a == Started) && b == Errored)
    || (!Terminal(a) && b == Killed)
  }

  function Stage(s: Status): nat
  {
    match s case Created => 0 case Committed => 1 case Started => 2 case _ => 3
  }

  /** What a whole run may make of a status: nothing, or a later stage, and a terminal status is final. */
  predicate Later(a: Status, b: Status)
  {
    a == b || (!Terminal(a) && Stage(a) < Stage(b))
  }

  /** One transaction: no job disappears or changes hands, statuses move forward, a terminal row
      is frozen, a reaping time is never changed and only terminal jobs are reaped. */
  ghost predicate Forward(a: Db, b: Db)
  {
    && (forall id :: id in a.jobs ==>
          && id in b.jobs && b.jobs[id].subject == a.jobs[id].subject
          && Moves(a.jobs[id].status, b.jobs[id].status)
          && (Terminal(a.jobs[id].status) ==> b.jobs[id] == a.jobs[id]))
    && (forall id :: id in b.jobs && id !in a.jobs ==> b.jobs[id].status == Created)
    && (forall id :: id in a.reaped ==> id in b.reaped && b.reaped[id] == a.reaped[id])
    && (forall id :: id in b.reaped && id !in a.reaped ==> id in b.jobs && Terminal(b.jobs[id].status))
  }

  /** The same over any number of transactions. */
  ghost predicate Progressed(a: Db, b: Db)
  {
    && (forall id :: id in a.jobs ==>
          && id in b.jobs && b.jobs[id].subject == a.jobs[id].subject
          && Later(a.jobs[id].status, b.jobs[id].status)
          && (Terminal(a.jobs[id].status) ==> b.jobs[id] == a.jobs[id]))
    && (forall id :: id in a.reaped ==> id in b.reaped && b.reaped[id] == a.reaped[id])
    && (forall id :: id in b.reaped && id !in a.reaped ==> id in b.jobs && Terminal(b.jobs[id].status))
  }

  lemma ProgressedStep(a: Db, b: Db, c: Db)
    requires Progressed(a, b) && Forward(b, c)
    ensures Progressed(a, c)
  {
    forall id | id in a.jobs
      ensures && id in c.jobs && c.jobs[id].subject == a.jobs[id].subject
              && Later(a.jobs[id].status, c.jobs[id].status)
              && (Terminal(a.jobs[id].status) ==> c.jobs[id] == a.jobs[id])
    {
      assert id in b.jobs;
    }
    forall id | id in c.reaped && id !in a.reaped
      ensures id in c.jobs && Terminal(c.jobs[id].status)
    {
      if id in b.reaped { assert id in b.jobs && b.jobs[id] == c.jobs[id]; }
    }
  }

  // ---------------------------------------------------------------------- commit and kill

  predicate MayTouch(job: Job, subject: string, superuser: bool) { superuser || job.subject == subject }

  /** Jobs that a commit (to Committed) or a kill (to Killed) may change. */
  predicate Eligible(jobs: map<int, Job>, id: int, subject: string, superuser: bool, to: Status)
  {
    && id in jobs && MayTouch(jobs[id], subject, superuser)
    && if to == Killed then !Terminal(jobs[id].status) else jobs[id].status == Created
  }

  function Stamp(job: Job, to: Status, now: int): Job
  {
    if to == Committed then job.(status := to, timeCommit := now) else job.(status := to)
  }

  /** All jobs in `ids` moved at once. */
  function Moved(jobs: map<int, Job>, ids: seq<int>, to: Status, now: int): map<int, Job>
  {
    map id | id in jobs :: if id in ids then Stamp(jobs[id], to, now) else jobs[id]
  }

  predicate AllEligible(jobs: map<int, Job>, ids: seq<int>, subject: string, superuser: bool, to: Status)
  {
    Distinct(ids) && forall i :: 0 <= i < |ids| ==> Eligible(jobs, ids[i], subject, superuser, to)
  }

  /** What a commit or kill of `ids` makes of the tables, row by row. */
  ghost predicate Changed(db: Db, after: Db, ids: seq<int>, to: Status, now: int)
  {
    && after.reaped == db.reaped && after.local == db.local && after.jobs.Keys == db.jobs.Keys
    && (forall id :: id in db.jobs && id in ids ==>
          && after.jobs[id].status == to
          && after.jobs[id].subject == db.jobs[id].subject && after.jobs[id].priority == db.jobs[id].priority
          && after.jobs[id].timeCommit == if to == Committed then now else db.jobs[id].timeCommit)
    && (forall id :: id in db.jobs && id !in ids ==> after.jobs[id] == db.jobs[id])
  }

  /** The caller may commit the listed jobs (they exist, are CREATED, and are its own unless it is the superuser) or
      kill them (likewise, and none has ended), and no job is listed twice. */
  ghost predicate AllAllowed(db: Db, ids: seq<int>, subject: string, superuser: bool, to: Status)
  {
    && (forall i, j :: 0 <= i < j < |ids| ==> ids[i] != ids[j])
    && (forall id :: id in ids ==>
          && id in db.jobs && (superuser || db.jobs[id].subject == subject)
          && (to == Committed ==> db.jobs[id].status == Created)
          && (to == Killed ==>
               db.jobs[id].status != Finished && db.jobs[id].status != Errored && db.jobs[id].status != Killed))
  }

  lemma AllowedIs(db: Db, ids: seq<int>, subject: string, superuser: bool, to: Status)
    requires to == Committed || to == Killed
    ensures AllEligible(db.jobs, ids, subject, superuser, to) <==> AllAllowed(db, ids, subject, superuser, to)
  {
    if AllAllowed(db, ids, subject, superuser, to) {
      forall i | 0 <= i < |ids| ensures Eligible(db.jobs, ids[i], subject, superuser, to) {
        assert ids[i] in ids;
      }
    }
  }

  lemma MovedForward(db: Db, ids: seq<int>, subject: string, superuser: bool, to: Status, now: int)
    requires to == Committed || to == Killed
    requires AllEligible(db.jobs, ids, subject, superuser, to)
    ensures Forward(db, db.(jobs := Moved(db.jobs, ids, to, now)))
  {
  }

  /** The update loop that chirp_job_commit and chirp_job_kill share: one guarded UPDATE per id,
      and anything but one changed row rolls everything back. `failAt` is the statement at which
      SQLite reports an error (BEGIN is statement 0, END comes last). */
  method UpdateAll(db: Db, j: Json, subject: string, superuser: bool, to: Status, now: int, failAt: nat)
    returns (rc: Rc, after: Db)
    requires to == Committed || to == Killed
    ensures rc == Ok <==> IdList(j) && AllAllowed(db, Ids(j), subject, superuser, to) && failAt > |j.items| + 1
    ensures IdList(j) && failAt > |j.items| + 1 && rc != Ok ==> rc == EPerm
    ensures !j.JArray? || rc == EInval ==> rc == EInval && !IdList(j)
    ensures rc == SqlError ==> failAt <= |j.items| + 1
    ensures rc == Ok ==> Changed(db, after, Ids(j), to, now) && Forward(db, after)
    ensures rc != Ok ==> after == db
  {
    if IdList(j) { AllowedIs(db, Ids(j), subject, superuser, to); }
    if !j.JArray? { return EInval, db; }
    if failAt == 0 { return SqlError, db; }
    var jobs := db.jobs;
    ghost var done: seq<int> := [];
    for i := 0 to |j.items|
      invariant failAt > i
      invariant forall k :: 0 <= k < i ==> j.items[k].JInt?
      invariant |done| == i && forall k :: 0 <= k < i ==> done[k] == j.items[k].n
      invariant AllEligible(db.jobs, done, subject, superuser, to)
      invariant jobs == Moved(db.jobs, done, to, now)
    {
      if !j.items[i].JInt? { return EInval, db; }
      var id := j.items[i].n;
      if failAt == i + 1 { return SqlError, db; }
      if !Eligible(jobs, id, subject, superuser, to) {
        Refused(db.jobs, jobs, done, id, subject, superuser, to, now);
        if IdList(j) { assert Ids(j)[i] == id && Ids(j)[..i] == done; }
        return EPerm, db;
      }
      Accepted(db.jobs, jobs, done, id, subject, superuser, to, now);
      jobs := jobs[id := Stamp(jobs[id], to, now)];
      done := done + [id];
    }
    assert IdList(j) && Ids(j) == done;
    if failAt == |j.items| + 1 { return SqlError, db; }
    MovedForward(db, done, subject, superuser, to, now);
    return Ok, db.(jobs := jobs);
  }

  lemma Accepted(before: map<int, Job>, jobs: map<int, Job>, done: seq<int>, id: int, subject: string, superuser: bool,
      to: Status, now: int)
    requires to == Committed || to == Killed
    requires AllEligible(before, done, subject, superuser, to) && jobs == Moved(before, done, to, now)
    requires Eligible(jobs, id, subject, superuser, to)
    ensures AllEligible(before, done + [id], subject, superuser, to)
    ensures jobs[id := Stamp(jobs[id], to, now)] == Moved(before, done + [id], to, now)
  {
    assert id !in done;
  }

  /** An id that changes no row is missing, foreign, in the wrong state, or was already listed. */
  lemma Refused(before: map<int, Job>, jobs: map<int, Job>, done: seq<int>, id: int, subject: string, superuser: bool,
      to: Status, now: int)
    requires to == Committed || to == Killed
    requires AllEligible(before, done, subject, superuser, to) && jobs == Moved(before, done, to, now)
    requires !Eligible(jobs, id, subject, superuser, to)
    ensures forall all: seq<int> :: |all| > |done| && all[..|done|] == done && all[|done|] == id ==>
              !AllEligible(before, all, subject, superuser, to)
  {
    forall all: seq<int> | |all| > |done| && all[..|done|] == done && all[|done|] == id
      ensures !AllEligible(before, all, subject, superuser, to)
    {
      if id in done {
        var k :| 0 <= k < |done| && done[k] == id;
        assert all[k] == all[..|done|][k];
      }
    }
  }

  // ---------------------------------------------------------------------- reap and wait

  predicate Reapable(db: Db, id: int, subject: string, superuser: bool)
  {
    id in db.jobs && MayTouch(db.jobs[id], subject, superuser) && Terminal(db.jobs[id].status) && id !in db.reaped
  }

  function Reaped(db: Db, ids: set<int>, subject: string, superuser: bool, now: int): Db
  {
    db.(reaped := db.reaped + map id | id in ids && Reapable(db, id, subject, superuser) :: now)
  }

  lemma ReapedForward(db: Db, ids: set<int>, subject: string, superuser: bool, now: int)
    ensures Forward(db, Reaped(db, ids, subject, superuser, now))
  {
  }

  /** What reaping `ids` makes of the tables, row by row: a listed job of the caller (of anyone, for the superuser)
      that is FINISHED, ERRORED or KILLED gets a row with the time, unless it has one. */
  ghost predicate NewlyReaped(db: Db, after: Db, ids: seq<int>, subject: string, superuser: bool, now: int)
  {
    && after.jobs == db.jobs && after.local == db.local
    && (forall id :: id in after.reaped <==>
          || id in db.reaped
          || (id in ids && id in db.jobs && (superuser || db.jobs[id].subject == subject)
              && (db.jobs[id].status == Finished || db.jobs[id].status == Errored || db.jobs[id].status == Killed)))
    && (forall id :: id in after.reaped ==> after.reaped[id] == if id in db.reaped then db.reaped[id] else now)
  }

  lemma ReapedIs(db: Db, ids: seq<int>, subject: string, superuser: bool, now: int)
    ensures NewlyReaped(db, Reaped(db, ToSet(ids), subject, superuser, now), ids, subject, superuser, now)
  {
  }

  /** Reaping again, at any later time and by the same subject, changes nothing. */
  lemma ReapIdempotent(db: Db, ids: set<int>, subject: string, superuser: bool, now: int, later: int)
    ensures Reaped(Reaped(db, ids, subject, superuser, now), ids, subject, superuser, later)
         == Reaped(db, ids, subject, superuser, now)
  {
    var once := Reaped(db, ids, subject, superuser, now);
    assert once.reaped + (map id | id in ids && Reapable(once, id, subject, superuser) :: later) == once.reaped;
  }

  lemma ReapOne(db: Db, ids: set<int>, id: int, subject: string, superuser: bool, now: int)
    ensures var current := Reaped(db, ids, subject, superuser, now);
            var next := Reaped(db, ids + {id}, subject, superuser, now);
            if Reapable(current, id, subject, superuser)
                then next == current.(reaped := current.reaped[id := now]) else next == current
  {
    var current := Reaped(db, ids, subject, superuser, now);
    var next := Reaped(db, ids + {id}, subject, superuser, now);
    var target := if Reapable(current, id, subject, superuser) then current.reaped[id := now] else current.reaped;
    assert next.reaped.Keys == target.Keys;
    assert next.reaped == target;
  }

  function ToSet(ids: seq<int>): set<int> { set id | id in ids }

  /** The loop of chirp_job_reap. The result depends only on which ids are listed, not on their
      order or number. */
  method Reap(db: Db, j: Json, subject: string, superuser: bool, now: int, failAt: nat) returns (rc: Rc, after: Db)
    ensures rc == Ok <==> IdList(j) && failAt > |j.items| + 1
    ensures !j.JArray? || (failAt > |j.items| + 1 && rc != Ok) ==> rc == EInval
    ensures rc == Ok || rc == EInval || rc == SqlError
    ensures rc == Ok ==> after == Reaped(db, ToSet(Ids(j)), subject, superuser, now)
    ensures rc == Ok ==> NewlyReaped(db, after, Ids(j), subject, superuser, now)
    ensures rc != Ok ==> after == db
  {
    if !j.JArray? { return EInval, db; }
    if failAt == 0 { return SqlError, db; }
    var current := db;
    ghost var done: seq<int> := [];
    for i := 0 to |j.items|
      invariant failAt > i
      invariant forall k :: 0 <= k < i ==> j.items[k].JInt?
      invariant |done| == i && forall k :: 0 <= k < i ==> done[k] == j.items[k].n
      invariant current == Reaped(db, ToSet(done), subject, superuser, now)
    {
      if !j.items[i].JInt? { return EInval, db; }
      if failAt == i + 1 { return SqlError, db; }
      var id := j.items[i].n;
      assert ToSet(done + [id]) == ToSet(done) + {id};
      ReapOne(db, ToSet(done), id, subject, superuser, now);
      if Reapable(current, id, subject, superuser) {
        current := current.(reaped := current.reaped[id := now]);
      }
      done := done + [id];
    }
    assert IdList(j) && Ids(j) == done;
    if failAt == |j.items| + 1 { return SqlError, db; }
    ReapedIs(db, done, subject, superuser, now);
    return Ok, current;
  }

  predicate Selects(selector: int, id: int)
  {
    selector == 0 || id == selector || (selector < 0 && -id <= selector)
  }

  /** The selector of chirp_job_wait: zero takes any job, a positive number that job, and a
      negative one every job whose id is at least its absolute value. */
  lemma SelectorMeaning(selector: int, id: int)
    requires id > 0
    ensures selector == 0 ==> Selects(selector, id)
    ensures selector > 0 ==> (Selects(selector, id) <==> id == selector)
    ensures selector < 0 ==> (Selects(selector, id) <==> id >= -selector)
  {
  }

  predicate Collectable(db: Db, id: int, subject: string, superuser: bool, selector: int)
  {
    Reapable(db, id, subject, superuser) && Selects(selector, id)
  }

  const WAIT_LIMIT := 1024

  /** A job of the caller (of anyone, for the superuser) that has ended and was not reaped. */
  ghost predicate Ended(db: Db, id: int, subject: string, superuser: bool)
  {
    && id in db.jobs && (superuser || db.jobs[id].subject == subject) && id !in db.reaped
    && (db.jobs[id].status == Finished || db.jobs[id].status == Errored || db.jobs[id].status == Killed)
  }

  /** One poll of chirp_job_wait over the rows of Jobs in table order. */
  method WaitPoll(db: Db, order: seq<int>, subject: string, superuser: bool, selector: int) returns (rc: Rc,
      found: seq<int>)
    requires Distinct(order) && ToSet(order) == db.jobs.Keys
    ensures rc == ESrch <==>
              forall id :: id in db.jobs && (superuser || db.jobs[id].subject == subject) ==> id in db.reaped
    ensures rc == Ok || (rc == ESrch && found == [])
    ensures Distinct(found) && |found| <= 1024
    ensures forall id :: id in found ==> Ended(db, id, subject, superuser) && Selects(selector, id)
    ensures rc == Ok && |found| < 1024 ==>
             forall id :: Ended(db, id, subject, superuser) && Selects(selector, id) ==> id in found
  {
    var pending := 0;
    found := [];
    for i := 0 to |order|
      invariant pending >= 0
      invariant pending == 0 <==> forall k :: 0 <= k < i && MayTouch(db.jobs[order[k]], subject, superuser) ==>
                  order[k] in db.reaped
    {
      assert order[i] in ToSet(order);
      if MayTouch(db.jobs[order[i]], subject, superuser) && order[i] !in db.reaped { pending := pending + 1; }
    }
    if pending == 0 {
      forall id | id in db.jobs && MayTouch(db.jobs[id], subject, superuser) ensures id in db.reaped {
        assert id in ToSet(order);
      }
      return ESrch, [];
    }
    for i := 0 to |order|
      invariant Distinct(found) && |found| <= WAIT_LIMIT
      invariant forall id :: id in found ==> Collectable(db, id, subject, superuser, selector) && id in order[..i]
      invariant |found| < WAIT_LIMIT ==>
               forall id :: id in order[..i] && Collectable(db, id, subject, superuser, selector) ==> id in found
    {
      assert order[..i + 1] == order[..i] + [order[i]];
      if |found| < WAIT_LIMIT && Collectable(db, order[i], subject, superuser, selector) {
        found := found + [order[i]];
      }
    }
    assert order[..|order|] == order;
    forall id | Collectable(db, id, subject, superuser, selector) ensures id in order {
      assert id in ToSet(order);
    }
    rc := Ok;
  }
}
