/** The job scheduler of chirp_fs_local_scheduler.c, sharing its database with any number of
    client transactions. */
module Scheduler {
  import opened Common
  import opened Jobs
  import opened Finite

  /** The processes this scheduler forked. Forks are numbered, because the system reuses process
      ids: `alive` maps the uncollected ones to their process ids. `strays` are children of starts
      that failed after the fork; they are killed and never waited for. `childOf` is the fork behind
      a row of LocalJobs, `owner` the job behind a fork. */
  datatype Os = Os(alive: map<nat, int>, strays: set<nat>, next: nat, childOf: map<int, nat>, owner: map<nat, int>)

  /** The uncollected children of started jobs. */
  function Children(os: Os): set<nat> { os.alive.Keys - os.strays }

  /** How far the scheduler's count exceeds the number of children it stands for. */
  function Spare(os: Os, count: int): int { count - |Children(os)| }

  predicate PidInUse(os: Os, p: int) { exists k :: k in os.alive && os.alive[k] == p }

  /** Rows that job_wait or job_kill may still visit. */
  predicate LiveRow(db: Db, id: int)
  {
    id in db.local && id in db.jobs && (db.jobs[id].status == Started || db.jobs[id].status == Killed)
  }

  predicate LivePid(db: Db, p: int) { exists id :: id in db.local && LiveRow(db, id) && db.local[id].pid == p }

  ghost predicate Processes(os: Os)
  {
    && os.strays <= os.alive.Keys
    && (forall k :: k in os.alive ==> k < os.next)
    && (forall k, m :: k in os.alive && m in os.alive && os.alive[k] == os.alive[m] ==> k == m)
    && (forall id :: id in os.childOf ==> os.childOf[id] < os.next)
  }

  ghost predicate RowTold(db: Db, os: Os, id: int)
  {
    id in db.local ==>
      && id in db.jobs && db.jobs[id].status != Created && db.jobs[id].status != Committed
      && (id in os.childOf && os.childOf[id] in os.alive ==> os.alive[os.childOf[id]] == db.local[id].pid)
  }

  ghost predicate ChildTold(db: Db, os: Os, k: nat)
    requires k in os.alive
  {
    && k in os.owner && LiveRow(db, os.owner[k]) && db.local[os.owner[k]].pid == os.alive[k]
    && os.owner[k] in os.childOf && os.childOf[os.owner[k]] == k
  }

  /** A row names the process id of its own child as long as that child is uncollected, and every counted
      child has a live row of its own. */
  ghost predicate Recorded(db: Db, os: Os)
    requires Processes(os)
  {
    && (forall id {:trigger RowTold(db, os, id)} {:trigger id in db.local} :: RowTold(db, os, id))
    && (forall k {:trigger ChildTold(db, os, k)} {:trigger k in Children(os)} :: k in Children(os) ==>
         ChildTold(db, os, k))
  }

  /** No row that may still be visited names the process id of a stray. */
  ghost predicate Unnamed(db: Db, os: Os)
  {
    forall id, k :: LiveRow(db, id) && k in os.strays && k in os.alive ==> os.alive[k] != db.local[id].pid
  }

  ghost predicate Sound(db: Db, os: Os) { Processes(os) && Recorded(db, os) }

  // ---------------------------------------------------------------------- processes

  function Collected(os: Os, k: nat): Os { os.(alive := os.alive - {k}, strays := os.strays - {k}) }

  /** The process that waitpid finds. */
  function ForkOf(os: Os, p: int): (k: nat)
    requires Processes(os) && PidInUse(os, p)
    ensures k in os.alive && os.alive[k] == p
  {
    var k :| k in os.alive && os.alive[k] == p; k
  }

  /** Collecting a process keeps every database sound, also one that is rolled back to later. */
  lemma CollectKeeps(db: Db, os: Os, k: nat)
    requires Sound(db, os) && k in os.alive
    ensures Sound(db, Collected(os, k))
  {
    var after := Collected(os, k);
    forall m | m in Children(after) ensures ChildTold(db, after, m) {
      assert m in Children(os);
    }
    forall id ensures RowTold(db, after, id) {
      assert RowTold(db, os, id);
    }
  }

  lemma CollectChildren(os: Os, k: nat)
    requires k in os.alive
    ensures Children(Collected(os, k)) == Children(os) - {k}
  {
  }

  lemma CollectFrees(os: Os, k: nat)
    requires Processes(os) && k in os.alive
    ensures Processes(Collected(os, k)) && !PidInUse(Collected(os, k), os.alive[k])
  {
  }

  lemma CollectSpare(os: Os, k: nat, count: int)
    requires k in os.alive
    ensures Spare(Collected(os, k), count) == Spare(os, count) + if k in os.strays then 0 else 1
  {
    CollectChildren(os, k);
    OneLess(Children(os), Children(Collected(os, k)), k);
  }

  // ---------------------------------------------------------------------- rows

  /** Rows are only dropped once their child is collected. */
  ghost predicate DropsCollected(before: Db, after: Db, os: Os)
  {
    forall id :: id in before.local && id !in after.local && id in os.childOf ==> os.childOf[id] !in os.alive
  }

  /** `jfinished`: the status changes only if it is STARTED; the row goes in any case. */
  function FinishedDb(db: Db, id: int): Db
    requires id in db.jobs
  {
    db.(jobs := if db.jobs[id].status == Started then db.jobs[id := db.jobs[id].(status := Finished)] else db.jobs,
        local := db.local - {id})
  }

  /** `jerrored`: the trigger refuses a terminal job. */
  function ErroredDb(db: Db, id: int): Db
    requires id in db.jobs
  {
    if Terminal(db.jobs[id].status) then db else db.(jobs := db.jobs[id := db.jobs[id].(status := Errored)])
  }

  ghost predicate OrphanRow(db: Db, os: Os, id: int)
  {
    id in db.local && id in db.jobs && !PidInUse(os, db.local[id].pid)
  }

  lemma OrphanOwnsNothing(db: Db, os: Os, id: int)
    requires Sound(db, os) && OrphanRow(db, os, id)
    ensures id in os.childOf ==> os.childOf[id] !in os.alive
    ensures forall k :: k in Children(os) ==> os.owner[k] != id
  {
    assert RowTold(db, os, id);
    forall k | k in Children(os) ensures os.owner[k] != id {
      assert ChildTold(db, os, k);
    }
  }

  lemma FinishKeeps(db: Db, os: Os, id: int)
    requires Sound(db, os) && OrphanRow(db, os, id)
    ensures Sound(FinishedDb(db, id), os)
  {
    var after := FinishedDb(db, id);
    OrphanOwnsNothing(db, os, id);
    forall k | k in Children(os) ensures ChildTold(after, os, k) {
      assert ChildTold(db, os, k);
    }
    forall i ensures RowTold(after, os, i) {
      assert RowTold(db, os, i);
    }
  }

  lemma ErrorKeeps(db: Db, os: Os, id: int)
    requires Sound(db, os) && id in db.jobs && (id in db.local ==> OrphanRow(db, os, id))
    ensures Sound(ErroredDb(db, id), os)
  {
    var after := ErroredDb(db, id);
    if id in db.local { OrphanOwnsNothing(db, os, id); }
    forall k | k in Children(os) ensures ChildTold(after, os, k) {
      assert ChildTold(db, os, k);
    }
    forall i ensures RowTold(after, os, i) {
      assert RowTold(db, os, i);
    }
  }

  /** A client transaction leaves LocalJobs alone and cannot revive a row. */
  lemma ClientKeeps(db: Db, after: Db, os: Os)
    requires Sound(db, os) && Forward(db, after) && after.local == db.local
    requires forall id :: id in db.jobs && after.jobs[id].status != db.jobs[id].status ==>
               after.jobs[id].status == Committed || after.jobs[id].status == Killed
    ensures Sound(after, os)
  {
    forall id ensures RowTold(after, os, id) {
      assert RowTold(db, os, id);
    }
    forall k | k in Children(os) ensures ChildTold(after, os, k) {
      assert ChildTold(db, os, k);
    }
  }

  /** `jwaited`. */
  function WaitedDb(db: Db, id: int): Db
    requires id in db.local
  {
    db.(local := db.local[id := db.local[id].(waited := true)])
  }

  lemma WaitedKeeps(db: Db, os: Os, id: int)
    requires Sound(db, os) && id in db.local
    ensures Sound(WaitedDb(db, id), os)
  {
    var after := WaitedDb(db, id);
    forall i ensures RowTold(after, os, i) {
      assert RowTold(db, os, i);
    }
    forall k | k in Children(os) ensures ChildTold(after, os, k) {
      assert ChildTold(db, os, k);
    }
  }

  /** The DELETE of job_kill. */
  function SweptDb(db: Db): Db
  {
    db.(local := map id | id in db.local && !(db.local[id].waited && id in db.jobs
        && db.jobs[id].status == Killed) :: db.local[id])
  }

  lemma SweepKeeps(db: Db, os: Os)
    requires Sound(db, os)
    requires forall id :: id in db.local && db.local[id].waited ==> OrphanRow(db, os, id)
    ensures Sound(SweptDb(db), os) && DropsCollected(db, SweptDb(db), os)
  {
    var after := SweptDb(db);
    forall i ensures RowTold(after, os, i) {
      assert RowTold(db, os, i);
    }
    forall k | k in Children(os) ensures ChildTold(after, os, k) {
      assert ChildTold(db, os, k);
      var id := os.owner[k];
      if db.local[id].waited { OrphanOwnsNothing(db, os, id); }
    }
    forall id | id in db.local && id !in after.local && id in os.childOf ensures os.childOf[id] !in os.alive {
      OrphanOwnsNothing(db, os, id);
    }
  }

  // ---------------------------------------------------------------------- starting

  /** How the transaction of job_start may end. */
  datatype StartOutcome =
    | Busy                      // BEGIN EXCLUSIVE failed
    | SetupFailed(told: bool)   // something before the fork; `told`: the ERRORED update was stored
    | NotStarted(told: bool)    // jstarted failed after the fork and rolled back
    | NotEnded(told: bool)      // jstarted worked, END did not; `told`: ERRORED and the second END were stored
    | HalfStarted               // jstarted worked, END and jerrored did not, the second END did
    | Running

  function StartedDb(db: Db, id: int, p: int, status: Status): Db
    requires id in db.jobs
  {
    db.(jobs := db.jobs[id := db.jobs[id].(status := status)], local := db.local[id := LocalJob(p, false)])
  }

  /** A child that runs for a job, or a stray. */
  function Forked(os: Os, id: int, p: int, stray: bool): Os
  {
    if stray then os.(alive := os.alive[os.next := p], strays := os.strays + {os.next}, next := os.next + 1)
    else Os(os.alive[os.next := p], os.strays, os.next + 1, os.childOf[id := os.next], os.owner[os.next := id])
  }

  function StartResult(db: Db, id: int, p: int, outcome: StartOutcome): Db
    requires id in db.jobs
  {
    match outcome
    case Busy => db
    case SetupFailed(told) => if told then ErroredDb(db, id) else db
    case NotStarted(told) => if told then ErroredDb(db, id) else db
    case NotEnded(told) => if told then StartedDb(db, id, p, Errored) else db
    case HalfStarted => StartedDb(db, id, p, Started)
    case Running => StartedDb(db, id, p, Started)
  }

  function StartProcess(os: Os, id: int, p: int, outcome: StartOutcome): Os
  {
    match outcome
    case Busy => os
    case SetupFailed(_) => os
    case NotStarted(_) => Forked(os, id, p, true)
    case NotEnded(told) => if told then Dropped(Forked(os, id, p, true), id) else Forked(os, id, p, true)
    case HalfStarted => Dropped(Forked(os, id, p, true), id)
    case Running => Forked(os, id, p, false)
  }

  function Dropped(os: Os, id: int): Os { os.(childOf := os.childOf - {id}) }

  /** The trigger on Jobs makes jstarted fail for a terminal job. */
  predicate Possible(status: Status, outcome: StartOutcome)
  {
    || status == Committed
    || (Terminal(status) && !outcome.NotEnded? && !outcome.HalfStarted? && !outcome.Running?)
  }

  lemma StartKeeps(db: Db, os: Os, id: int, p: int)
    requires Sound(db, os) && id in db.jobs && db.jobs[id].status == Committed && !PidInUse(os, p)
    ensures Sound(StartedDb(db, id, p, Started), Forked(os, id, p, false))
  {
    var after, os' := StartedDb(db, id, p, Started), Forked(os, id, p, false);
    StartProcesses(os, id, p, false);
    StartCounts(os, id, p);
    forall i ensures RowTold(after, os', i) {
      StartRow(db, os, id, p, i);
    }
    forall k | k in Children(os') ensures ChildTold(after, os', k) {
      StartChild(db, os, id, p, k);
    }
  }

  lemma StartProcesses(os: Os, id: int, p: int, stray: bool)
    requires Processes(os) && !PidInUse(os, p)
    ensures Processes(Forked(os, id, p, stray))
  {
  }

  lemma StartCounts(os: Os, id: int, p: int)
    requires os.next !in os.alive && os.strays <= os.alive.Keys
    ensures Children(Forked(os, id, p, false)) == Children(os) + {os.next}
  {
  }

  lemma StartRow(db: Db, os: Os, id: int, p: int, i: int)
    requires Sound(db, os) && id in db.jobs && db.jobs[id].status == Committed
    ensures RowTold(StartedDb(db, id, p, Started), Forked(os, id, p, false), i)
  {
    assert RowTold(db, os, i);
  }

  lemma StartChild(db: Db, os: Os, id: int, p: int, k: nat)
    requires Sound(db, os) && id in db.jobs && db.jobs[id].status == Committed
    requires k in Children(os) || k == os.next
    ensures ChildTold(StartedDb(db, id, p, Started), Forked(os, id, p, false), k)
  {
    if k in Children(os) {
      assert ChildTold(db, os, k);
    }
  }

  /** A failed start leaves a stray. */
  lemma StrayKeeps(db: Db, os: Os, id: int, p: int)
    requires Sound(db, os) && !PidInUse(os, p)
    ensures Sound(db, Forked(os, id, p, true))
  {
    var os' := Forked(os, id, p, true);
    StartProcesses(os, id, p, true);
    forall i ensures RowTold(db, os', i) {
      assert RowTold(db, os, i);
    }
    forall k | k in Children(os') ensures ChildTold(db, os', k) {
      assert ChildTold(db, os, k);
    }
  }

  /** The row of a half-finished start belongs to no counted child. */
  lemma StrayRowKeeps(db: Db, os: Os, id: int, p: int, status: Status)
    requires Sound(db, os) && id in db.jobs && db.jobs[id].status == Committed
    requires (status == Errored || status == Started)
    ensures Sound(StartedDb(db, id, p, status), Dropped(os, id))
  {
    var after, os' := StartedDb(db, id, p, status), Dropped(os, id);
    assert RowTold(db, os, id);
    forall i ensures RowTold(after, os', i) {
      assert RowTold(db, os, i);
    }
    forall k | k in Children(os') ensures ChildTold(after, os', k) {
      assert ChildTold(db, os, k);
    }
  }

  lemma UnstartedErrorKeeps(db: Db, os: Os, id: int)
    requires Sound(db, os) && id in db.jobs && (Terminal(db.jobs[id].status) || db.jobs[id].status == Committed)
    ensures Sound(ErroredDb(db, id), os)
  {
    assert RowTold(db, os, id);
    if !Terminal(db.jobs[id].status) { ErrorKeeps(db, os, id); }
  }

  /** Every way job_start can end keeps rows and children in agreement. */
  lemma StartSound(db: Db, os: Os, id: int, p: int, outcome: StartOutcome)
    requires Sound(db, os) && id in db.jobs && Possible(db.jobs[id].status, outcome) && !PidInUse(os, p)
    ensures Sound(StartResult(db, id, p, outcome), StartProcess(os, id, p, outcome))
  {
    match outcome
    case Busy =>
    case SetupFailed(told) => UnstartedErrorKeeps(db, os, id);
    case NotStarted(told) =>
      StrayKeeps(db, os, id, p);
      UnstartedErrorKeeps(db, Forked(os, id, p, true), id);
    case NotEnded(told) =>
      StrayKeeps(db, os, id, p);
      StrayRowKeeps(db, Forked(os, id, p, true), id, p, Errored);
    case HalfStarted =>
      StrayKeeps(db, os, id, p);
      StrayRowKeeps(db, Forked(os, id, p, true), id, p, Started);
    case Running => StartKeeps(db, os, id, p);
  }

  lemma StartChildren(os: Os, id: int, p: int, outcome: StartOutcome)
    requires os.next !in os.alive && os.strays <= os.alive.Keys
    ensures Children(StartProcess(os, id, p, outcome)) == if outcome.Running? then Children(os) + {os.next}
              else Children(os)
  {
  }

  lemma StartSpare(os: Os, id: int, p: int, outcome: StartOutcome, count: int)
    requires os.next !in os.alive && os.strays <= os.alive.Keys
    ensures Spare(StartProcess(os, id, p, outcome), count + if outcome.Running? then 1 else 0) == Spare(os, count)
  {
    var after := StartProcess(os, id, p, outcome);
    StartChildren(os, id, p, outcome);
    if outcome.Running? { OneMore(Children(os), Children(after), os.next); }
  }

  lemma StartForward(db: Db, id: int, p: int, outcome: StartOutcome)
    requires id in db.jobs && Possible(db.jobs[id].status, outcome)
    ensures Forward(db, StartResult(db, id, p, outcome))
    ensures Terminal(db.jobs[id].status) ==> StartResult(db, id, p, outcome) == db
  {
  }

  /** The tables after job_start, by status and row. A stored failure makes a committed job ERRORED; its row is left
      if the failure came after jstarted. A running job is STARTED and its row names the child. Nothing else changes,
      and nothing at all if the failure could not be stored or the job is terminal. */
  ghost predicate StartTells(db: Db, after: Db, id: int, p: int, outcome: StartOutcome)
    requires id in db.jobs
  {
    var told := !outcome.Busy? && (outcome.Running? || outcome.HalfStarted? || outcome.told);
    var rowed := told && (outcome.Running? || outcome.HalfStarted? || outcome.NotEnded?);
    && after.jobs.Keys == db.jobs.Keys && after.reaped == db.reaped
    && (!told || Terminal(db.jobs[id].status) ==> after == db)
    && (told && !Terminal(db.jobs[id].status) ==>
         var to := if outcome.Running? || outcome.HalfStarted? then Started else Errored;
         after.jobs[id] == db.jobs[id].(status := to))
    && (forall i :: i in db.jobs && i != id ==> after.jobs[i] == db.jobs[i])
    && (if rowed then id in after.local && after.local[id] == LocalJob(p, false)
        else id in after.local <==> id in db.local)
    && (forall i :: i != id || !rowed ==>
         (i in after.local <==> i in db.local) && (i in db.local ==> after.local[i] == db.local[i]))
  }

  lemma StartStatus(db: Db, id: int, p: int, outcome: StartOutcome)
    requires id in db.jobs && Possible(db.jobs[id].status, outcome)
    ensures StartTells(db, StartResult(db, id, p, outcome), id, p, outcome)
  {
  }

  /** The processes after job_start: a start that got as far as the fork leaves one more, with the process id of the
      fork; it counts as the child of the job exactly if the job runs. */
  ghost predicate StartForks(os: Os, after: Os, id: int, p: int, outcome: StartOutcome)
  {
    if outcome.Busy? || outcome.SetupFailed? then after == os
    else
      && after.alive == os.alive[os.next := p] && os.next !in os.alive
      && (os.next in Children(after) <==> outcome.Running?)
      && (forall k :: k in os.alive ==> (k in Children(after) <==> k in Children(os)))
      && (outcome.Running? ==> os.next in after.owner && after.owner[os.next] == id)
  }

  lemma StartProcessForks(os: Os, id: int, p: int, outcome: StartOutcome)
    requires Processes(os)
    ensures StartForks(os, StartProcess(os, id, p, outcome), id, p, outcome)
  {
  }

  lemma StartRows(db: Db, os: Os, id: int, p: int, outcome: StartOutcome)
    requires id in db.jobs && forall i :: i in db.local ==> !db.local[i].waited
    ensures var after := StartResult(db, id, p, outcome);
            && (forall i :: i in after.local ==> !after.local[i].waited)
            && db.local.Keys <= after.local.Keys
            && (outcome.Running? ==> id in after.jobs && after.jobs[id].status == Started)
  {
  }

  lemma KeepsRows(db: Db, after: Db, os: Os)
    requires db.local.Keys <= after.local.Keys
    ensures DropsCollected(db, after, os)
  {
  }

  // ---------------------------------------------------------------------- strays

  /** A start that leaves a stray whose process id a live row names. */
  predicate Clashes(db: Db, p: int, outcome: StartOutcome)
  {
    outcome.HalfStarted? || ((outcome.NotStarted? || outcome.NotEnded?) && LivePid(db, p))
  }

  /** Rows that may be visited were so before, with the same process id. */
  ghost predicate LiveWithin(before: Db, after: Db)
  {
    forall i :: LiveRow(after, i) ==> LiveRow(before, i) && after.local[i].pid == before.local[i].pid
  }

  lemma UnnamedStays(db: Db, os: Os, after: Db, os': Os)
    requires Unnamed(db, os) && LiveWithin(db, after)
    requires os'.strays <= os.strays && forall k :: k in os'.alive ==> k in os.alive && os'.alive[k] == os.alive[k]
    ensures Unnamed(after, os')
  {
  }

  /** After a start no live row names a stray, exactly if none did before and the start does not clash. */
  lemma ClashExactly(db: Db, os: Os, id: int, p: int, outcome: StartOutcome)
    requires Sound(db, os) && Unnamed(db, os) && id in db.jobs && Possible(db.jobs[id].status, outcome)
    requires !PidInUse(os, p)
    ensures Unnamed(StartResult(db, id, p, outcome), StartProcess(os, id, p, outcome)) <==> !Clashes(db, p, outcome)
  {
    var after, os' := StartResult(db, id, p, outcome), StartProcess(os, id, p, outcome);
    assert RowTold(db, os, id);
    if Clashes(db, p, outcome) {
      var i :| LiveRow(after, i) && after.local[i].pid == p by { ClashRow(db, os, id, p, outcome); }
      assert os.next in os'.strays && os'.alive[os.next] == p;
    } else {
      forall i, k | LiveRow(after, i) && k in os'.strays && k in os'.alive ensures os'.alive[k] != after.local[i].pid {
        NoClashRow(db, os, id, p, outcome, i, k);
      }
    }
  }

  lemma ClashRow(db: Db, os: Os, id: int, p: int, outcome: StartOutcome)
    requires Sound(db, os) && id in db.jobs && Possible(db.jobs[id].status, outcome) && Clashes(db, p, outcome)
    ensures exists i :: LiveRow(StartResult(db, id, p, outcome), i) && StartResult(db, id, p, outcome).local[i].pid == p
  {
    var after := StartResult(db, id, p, outcome);
    assert RowTold(db, os, id);
    if outcome.HalfStarted? {
      assert LiveRow(after, id);
    } else {
      var i :| i in db.local && LiveRow(db, i) && db.local[i].pid == p;
      assert LiveRow(after, i);
    }
  }

  lemma NoClashRow(db: Db, os: Os, id: int, p: int, outcome: StartOutcome, i: int, k: nat)
    requires Sound(db, os) && Unnamed(db, os) && id in db.jobs && !PidInUse(os, p) && !Clashes(db, p, outcome)
    requires LiveRow(StartResult(db, id, p, outcome), i)
    requires k in StartProcess(os, id, p, outcome).strays && k in StartProcess(os, id, p, outcome).alive
    ensures StartProcess(os, id, p, outcome).alive[k] != StartResult(db, id, p, outcome).local[i].pid
  {
    if i != id || !outcome.Running? {
      assert LiveRow(db, i);
      if k == os.next { assert i in db.local; }
    }
  }

  // ---------------------------------------------------------------------- collecting one row

  /** The row names a stray. */
  predicate NamesStray(db: Db, os: Os, id: int)
    requires id in db.local
  {
    exists k :: k in os.strays && k in os.alive && os.alive[k] == db.local[id].pid
  }

  datatype Server = Server(db: Db, os: Os, count: int)

  /** The strays that a visit takes for the child of its row. */
  function Takes(s: Server, id: int, counts: bool): nat
    requires id in s.db.local
  {
    if counts && NamesStray(s.db, s.os, id) then 1 else 0
  }

  /** The body of the job_wait loop. `quiet`: the child has not ended, is stopped, or the wait was interrupted;
      `stored`: the statements worked. Nothing is asked of the tables but that the row exists. */
  function WaitStep(s: Server, id: int, quiet: bool, stored: bool): Server
    requires Processes(s.os) && id in s.db.local && id in s.db.jobs
  {
    var pid := s.db.local[id].pid;
    if quiet then s
    else if PidInUse(s.os, pid) then
      Server(if stored then FinishedDb(s.db, id) else s.db, Collected(s.os, ForkOf(s.os, pid)), s.count - 1)
    else s.(db := if stored then ErroredDb(s.db, id) else s.db)
  }

  /** The body of the job_kill loop; the count is lowered only after the mark is stored. */
  function KillStep(s: Server, id: int, quiet: bool, stored: bool): Server
    requires Processes(s.os) && id in s.db.local && id in s.db.jobs
  {
    var pid := s.db.local[id].pid;
    var db := if stored then WaitedDb(s.db, id) else s.db;
    if quiet then s
    else if PidInUse(s.os, pid) then
      Server(db, Collected(s.os, ForkOf(s.os, pid)), if stored then s.count - 1 else s.count)
    else s.(db := db)
  }

  predicate Collects(s: Server, id: int, quiet: bool)
    requires id in s.db.local
  {
    !quiet && PidInUse(s.os, s.db.local[id].pid)
  }

  lemma ForkIsStray(s: Server, id: int)
    requires Processes(s.os) && id in s.db.local && PidInUse(s.os, s.db.local[id].pid)
    ensures ForkOf(s.os, s.db.local[id].pid) in s.os.strays <==> NamesStray(s.db, s.os, id)
  {
  }

  /** What a visit does to the difference between count and children, in any state. */
  lemma WaitStepSpare(s: Server, id: int, quiet: bool, stored: bool)
    requires Processes(s.os) && id in s.db.local && id in s.db.jobs
    ensures var t := WaitStep(s, id, quiet, stored);
            Spare(t.os, t.count) == Spare(s.os, s.count) - Takes(s, id, !quiet)
  {
    var pid := s.db.local[id].pid;
    if Collects(s, id, quiet) {
      ForkIsStray(s, id);
      CollectSpare(s.os, ForkOf(s.os, pid), s.count);
    }
  }

  lemma KillStepSpare(s: Server, id: int, quiet: bool, stored: bool)
    requires Processes(s.os) && id in s.db.local && id in s.db.jobs
    ensures var t := KillStep(s, id, quiet, stored);
            && t.count <= s.count
            && Spare(t.os, t.count) == Spare(s.os, s.count)
                 + (if Loses(s, id, quiet, stored) then 1 else 0) - Takes(s, id, !quiet && stored)
  {
    var pid := s.db.local[id].pid;
    if Collects(s, id, quiet) {
      ForkIsStray(s, id);
      CollectSpare(s.os, ForkOf(s.os, pid), s.count);
    }
  }

  /** A counted child is collected and the mark is not stored. */
  predicate Loses(s: Server, id: int, quiet: bool, stored: bool)
    requires id in s.db.local
  {
    Collects(s, id, quiet) && !stored && !NamesStray(s.db, s.os, id)
  }

  /** A visit of job_wait leaves the count at least the number of children exactly if it does not take a stray
      for the child of its row, or there was a slot to spare. */
  lemma WaitKeepsCountExactly(s: Server, id: int, quiet: bool, stored: bool)
    requires Processes(s.os) && id in s.db.local && id in s.db.jobs && s.count >= |Children(s.os)|
    ensures var t := WaitStep(s, id, quiet, stored);
            t.count >= |Children(t.os)| <==> quiet || !NamesStray(s.db, s.os, id) || s.count > |Children(s.os)|
  {
    WaitStepSpare(s, id, quiet, stored);
  }

  /** A run in which that happens. A predecessor left a row for job `a` with process id `p`; the start of job `b`
      gets the same process id from the system and fails after the fork; then job_wait visits the row. */
  lemma FailedStartBreaksCount(db: Db, a: int, b: int, p: int, told: bool)
    requires a in db.local && a in db.jobs && db.jobs[a].status == Started && db.local[a].pid == p
    requires b in db.jobs && db.jobs[b].status == Committed && Sound(db, Empty())
    ensures var s := Server(StartResult(db, b, p, NotStarted(told)), StartProcess(Empty(), b, p, NotStarted(told)), 0);
            && Sound(s.db, s.os) && a in s.db.local && a in s.db.jobs && s.count == |Children(s.os)|
            && WaitStep(s, a, false, true).count < |Children(WaitStep(s, a, false, true).os)|
  {
    var s := Server(StartResult(db, b, p, NotStarted(told)), StartProcess(Empty(), b, p, NotStarted(told)), 0);
    StartSound(db, Empty(), b, p, NotStarted(told));
    StartChildren(Empty(), b, p, NotStarted(told));
    assert Children(Empty()) == {};
    assert 0 in s.os.strays && s.os.alive[0] == p;
    assert NamesStray(s.db, s.os, a);
    WaitStepSpare(s, a, false, true);
  }

  /** No second row is needed if both the first END and jerrored fail. */
  lemma HalfStartBreaksCount(db: Db, b: int, p: int)
    requires b in db.jobs && db.jobs[b].status == Committed && Sound(db, Empty())
    ensures var s := Server(StartResult(db, b, p, HalfStarted), StartProcess(Empty(), b, p, HalfStarted), 0);
            && Sound(s.db, s.os) && b in s.db.local && b in s.db.jobs && s.count == |Children(s.os)|
            && WaitStep(s, b, false, true).count < |Children(WaitStep(s, b, false, true).os)|
  {
    var s := Server(StartResult(db, b, p, HalfStarted), StartProcess(Empty(), b, p, HalfStarted), 0);
    StartSound(db, Empty(), b, p, HalfStarted);
    StartChildren(Empty(), b, p, HalfStarted);
    assert Children(Empty()) == {};
    assert 0 in s.os.strays && s.os.alive[0] == p;
    assert NamesStray(s.db, s.os, b);
    WaitStepSpare(s, b, false, true);
  }

  function Empty(): Os { Os(map[], {}, 0, map[], map[]) }

  // ---------------------------------------------------------------------- job_wait

  /** What holds inside the exclusive transaction that began at `saved`: whatever happens to the database,
      rolling back to `saved` leaves things sound too. */
  ghost predicate InTransaction(saved: Db, db: Db, os: Os)
  {
    && Sound(db, os) && Sound(saved, os)
    && Forward(saved, db) && DropsCollected(saved, db, os) && LiveWithin(saved, db)
  }

  ghost predicate WaitableRow(saved: Db, db: Db, id: int)
  {
    && id in db.local && id in saved.jobs && id in db.jobs && db.jobs[id] == saved.jobs[id]
    && db.jobs[id].status == Started
  }

  lemma FinishInTransaction(saved: Db, db: Db, os: Os, id: int)
    requires InTransaction(saved, db, os) && OrphanRow(db, os, id) && WaitableRow(saved, db, id)
    ensures InTransaction(saved, FinishedDb(db, id), os)
  {
    FinishKeeps(db, os, id);
    OrphanOwnsNothing(db, os, id);
    FinishForward(saved, db, id);
    FinishLive(saved, db, id);
  }

  lemma FinishForward(saved: Db, db: Db, id: int)
    requires Forward(saved, db) && WaitableRow(saved, db, id)
    ensures Forward(saved, FinishedDb(db, id))
  {
  }

  lemma FinishLive(saved: Db, db: Db, id: int)
    requires LiveWithin(saved, db) && id in db.jobs
    ensures LiveWithin(saved, FinishedDb(db, id)) && LiveWithin(saved, ErroredDb(db, id))
  {
    forall i | LiveRow(FinishedDb(db, id), i) ensures LiveRow(db, i) {
    }
    forall i | LiveRow(ErroredDb(db, id), i) ensures LiveRow(db, i) {
    }
  }

  lemma ErrorInTransaction(saved: Db, db: Db, os: Os, id: int)
    requires InTransaction(saved, db, os) && OrphanRow(db, os, id) && WaitableRow(saved, db, id)
    ensures InTransaction(saved, ErroredDb(db, id), os)
  {
    ErrorKeeps(db, os, id);
    ErrorForward(saved, db, id);
    FinishLive(saved, db, id);
  }

  lemma ErrorForward(saved: Db, db: Db, id: int)
    requires Forward(saved, db) && WaitableRow(saved, db, id)
    ensures Forward(saved, ErroredDb(db, id))
  {
  }

  lemma Begins(saved: Db, os: Os)
    requires Sound(saved, os)
    ensures InTransaction(saved, saved, os)
  {
  }

  /** Fewer processes, none of them new. */
  ghost predicate Fewer(before: Os, after: Os)
  {
    && after.strays <= before.strays
    && forall k :: k in after.alive ==> k in before.alive && after.alive[k] == before.alive[k]
  }

  lemma FewerStill(a: Os, b: Os, c: Os)
    requires Fewer(a, b) && Fewer(b, c)
    ensures Fewer(a, c)
  {
  }

  lemma CollectInTransaction(saved: Db, db: Db, os: Os, pid: int)
    requires InTransaction(saved, db, os) && PidInUse(os, pid)
    ensures InTransaction(saved, db, Collected(os, ForkOf(os, pid))) && !PidInUse(Collected(os, ForkOf(os, pid)), pid)
    ensures Fewer(os, Collected(os, ForkOf(os, pid)))
  {
    var k := ForkOf(os, pid);
    CollectKeeps(db, os, k);
    CollectKeeps(saved, os, k);
    CollectFrees(os, k);
  }

  /** A visit of job_wait keeps the transaction, and the one it may be rolled back to. */
  lemma WaitStepKeeps(saved: Db, s: Server, id: int, quiet: bool, stored: bool)
    requires InTransaction(saved, s.db, s.os) && WaitableRow(saved, s.db, id)
    ensures var t := WaitStep(s, id, quiet, stored); InTransaction(saved, t.db, t.os) && Fewer(s.os, t.os)
  {
    var pid := s.db.local[id].pid;
    if Collects(s, id, quiet) {
      CollectInTransaction(saved, s.db, s.os, pid);
      if stored { FinishInTransaction(saved, s.db, Collected(s.os, ForkOf(s.os, pid)), id); }
    } else if !quiet && stored {
      ErrorInTransaction(saved, s.db, s.os, id);
    }
  }

  /** As long as no live row names a stray, no visit takes one. */
  lemma UnnamedTakesNone(saved: Db, db: Db, os: Os, id: int)
    requires InTransaction(saved, db, os) && LiveRow(db, id) && Unnamed(saved, os)
    ensures !NamesStray(db, os, id)
  {
    assert LiveRow(saved, id);
  }

  lemma VisitUnnamed(saved: Db, db: Db, os: Os, id: int, os': Os)
    requires InTransaction(saved, db, os) && LiveRow(db, id) && Fewer(os, os')
    ensures Unnamed(saved, os) ==> Unnamed(saved, os') && !NamesStray(db, os, id)
  {
    if Unnamed(saved, os) {
      UnnamedTakesNone(saved, db, os, id);
      UnnamedStays(saved, os, saved, os');
    }
  }

  /** A row that the query of job_wait (for STARTED) or job_kill (for KILLED) selects. */
  predicate Visits(db: Db, id: int, status: Status) { id in db.local && id in db.jobs && db.jobs[id].status == status }

  /** What a visit of job_wait makes of a STARTED job: FINISHED if its process was there to collect, and the row
      goes; ERRORED if there was none, and the row stays. Nothing else changes in either case. */
  lemma WaitStepStatus(s: Server, id: int, quiet: bool, stored: bool)
    requires Processes(s.os) && Visits(s.db, id, Started)
    ensures var t, pid := WaitStep(s, id, quiet, stored), s.db.local[id].pid;
            && (quiet ==> t == s)
            && (!quiet && !stored ==> t.db == s.db)
            && (!quiet ==> !PidInUse(t.os, pid))
            && (forall k :: k in t.os.alive <==> k in s.os.alive && (quiet || s.os.alive[k] != pid))
            && t.count == s.count - (if !quiet && PidInUse(s.os, pid) then 1 else 0)
            && (!quiet && stored ==>
                 var to := if PidInUse(s.os, pid) then Finished else Errored;
                 && t.db.jobs.Keys == s.db.jobs.Keys && t.db.jobs[id] == s.db.jobs[id].(status := to)
                 && t.db.local.Keys == (if to == Finished then s.db.local.Keys - {id} else s.db.local.Keys))
            && (forall i :: i in s.db.jobs && i != id ==> i in t.db.jobs && t.db.jobs[i] == s.db.jobs[i])
            && (forall i :: i in t.db.local ==> i in s.db.local && t.db.local[i] == s.db.local[i])
            && t.db.reaped == s.db.reaped
  {
    var pid := s.db.local[id].pid;
    if Collects(s, id, quiet) { CollectFrees(s.os, ForkOf(s.os, pid)); }
  }

  /** The row of `id` was visited, named process `p`, and its job is FINISHED now. */
  ghost predicate FinishedFor(saved: Db, db: Db, id: int, p: int)
  {
    && Visits(saved, id, Started) && saved.local[id].pid == p
    && id in db.jobs && db.jobs[id].status == Finished
  }

  /** What becomes of a STARTED job with a row, told by statuses, rows and processes alone. If several rows name
      one process, it is collected for one of them and the others are ERRORED. */
  ghost predicate WaitedOut(saved: Db, os0: Os, db: Db, os: Os, id: int, quiet: bool)
    requires Visits(saved, id, Started)
  {
    var job, row := saved.jobs[id], saved.local[id];
    id in db.jobs &&
    if quiet then db.jobs[id] == job && id in db.local && db.local[id] == row
    else
      && !PidInUse(os, row.pid)
      && if db.jobs[id].status == Finished then
           && db.jobs[id] == job.(status := Finished) && id !in db.local && PidInUse(os0, row.pid)
           && forall other :: FinishedFor(saved, db, other, row.pid) ==> other == id
         else
           && db.jobs[id] == job.(status := Errored) && id in db.local && db.local[id] == row
           && (PidInUse(os0, row.pid) ==> exists other :: FinishedFor(saved, db, other, row.pid))
  }

  /** A job that job_wait has not visited. */
  ghost predicate Untouched(saved: Db, db: Db, id: int)
  {
    && (id in db.jobs <==> id in saved.jobs) && (id in db.jobs ==> db.jobs[id] == saved.jobs[id])
    && (id in db.local <==> id in saved.local) && (id in db.local ==> db.local[id] == saved.local[id])
  }

  /** The tables and processes while the rows of `todo` are still to be visited. */
  ghost predicate WaitedBut(saved: Db, os0: Os, s: Server, todo: set<int>, quiet: set<int>)
  {
    && s.db.reaped == saved.reaped
    && (forall id {:trigger Visits(saved, id, Started)} :: Visits(saved, id, Started) && id !in todo ==>
          WaitedOut(saved, os0, s.db, s.os, id, id in quiet))
    && (forall id {:trigger Untouched(saved, s.db, id)} ::
          id in todo || !Visits(saved, id, Started) ==> Untouched(saved, s.db, id))
    && (forall k :: k in os0.alive && k !in s.os.alive ==>
          exists id :: FinishedFor(saved, s.db, id, os0.alive[k]))
  }

  /** No statement of the transaction fails. */
  ghost predicate Commits(saved: Db, status: Status, quiet: set<int>, stored: set<int>, ended: bool)
  {
    ended && StoredBut(saved, status, {}, quiet, stored)
  }

  /** What the visits outside `todo` had to store, they stored. */
  ghost predicate StoredBut(saved: Db, status: Status, todo: set<int>, quiet: set<int>, stored: set<int>)
  {
    forall id :: Visits(saved, id, status) && id !in todo ==> id in quiet || id in stored
  }

  lemma StoredButStep(saved: Db, status: Status, todo: set<int>, id: int, quiet: set<int>, stored: set<int>)
    requires StoredBut(saved, status, todo, quiet, stored) && id in todo && Visits(saved, id, status)
    ensures StoredBut(saved, status, todo - {id}, quiet, stored) <==> id in quiet || id in stored
    ensures id !in quiet && id !in stored ==> !StoredBut(saved, status, {}, quiet, stored)
  {
  }

  /** job_wait in terms of statuses: rolled back, or every visited job as `WaitedOut` says and all others as they
      were. A process is gone exactly if the row of a job that is FINISHED now names it. */
  ghost predicate Waited(saved: Db, os0: Os, db: Db, os: Os, quiet: set<int>, stored: set<int>, ended: bool)
  {
    if Commits(saved, Started, quiet, stored, ended) then
      WaitedBut(saved, os0, Server(db, os, 0), {}, quiet)
    else db == saved
  }

  lemma WaitedButStarts(saved: Db, os: Os, count: int, todo: set<int>, quiet: set<int>)
    requires forall id :: id in todo <==> Visits(saved, id, Started)
    ensures WaitedBut(saved, os, Server(saved, os, count), todo, quiet)
  {
    forall id | id in todo || !Visits(saved, id, Started) ensures Untouched(saved, saved, id) {
    }
  }

  /** One more visit. */
  lemma WaitedButStep(saved: Db, os0: Os, s: Server, todo: set<int>, id: int, quiet: set<int>)
    requires Processes(s.os) && Processes(os0) && Fewer(os0, s.os) && WaitedBut(saved, os0, s, todo, quiet)
    requires id in todo && Visits(saved, id, Started)
    ensures Visits(s.db, id, Started)
    ensures WaitedBut(saved, os0, WaitStep(s, id, id in quiet, true), todo - {id}, quiet)
  {
    assert Untouched(saved, s.db, id);
    var t := WaitStep(s, id, id in quiet, true);
    WaitStepStatus(s, id, id in quiet, true);
    forall i | Visits(saved, i, Started) && i !in todo - {id}
      ensures WaitedOut(saved, os0, t.db, t.os, i, i in quiet)
    {
      if i == id { WaitedHere(saved, os0, s, todo, id, quiet); }
      else { WaitedThere(saved, os0, s, todo, id, quiet, i); }
    }
    forall i | i in todo - {id} || !Visits(saved, i, Started) ensures Untouched(saved, t.db, i) {
      assert Untouched(saved, s.db, i);
    }
    forall k | k in os0.alive && k !in t.os.alive ensures exists i :: FinishedFor(saved, t.db, i, os0.alive[k]) {
      GoneFor(saved, os0, s, todo, id, quiet, k);
    }
  }

  /** What holds of processes and count in the transaction, rolled back or not: a process collected lowers the
      count by one, whatever becomes of the statements. */
  ghost predicate WaitAccount(saved: Db, os0: Os, count0: int, s: Server, taken: nat)
  {
    && InTransaction(saved, s.db, s.os) && Fewer(os0, s.os)
    && s.count <= count0 && count0 - s.count == |os0.alive.Keys| - |s.os.alive.Keys|
    && Spare(s.os, s.count) == Spare(os0, count0) - taken
    && (Unnamed(saved, os0) ==> Unnamed(saved, s.os) && taken == 0)
  }

  /** The same with the tables, while the rows of `todo` are still to be visited. */
  ghost predicate WaitLoop(saved: Db, os0: Os, count0: int, s: Server, taken: nat, todo: set<int>, quiet: set<int>)
  {
    && WaitAccount(saved, os0, count0, s, taken) && WaitedBut(saved, os0, s, todo, quiet)
    && forall id :: id in todo ==> Visits(saved, id, Started)
  }

  lemma RollsBack(saved: Db, os0: Os, count0: int, s: Server, taken: nat)
    requires WaitAccount(saved, os0, count0, s, taken)
    ensures WaitAccount(saved, os0, count0, s.(db := saved), taken)
  {
    Begins(saved, s.os);
  }

  lemma WaitBegins(saved: Db, os: Os, count: int, todo: set<int>, quiet: set<int>)
    requires Sound(saved, os) && forall id :: id in todo <==> Visits(saved, id, Started)
    ensures WaitLoop(saved, os, count, Server(saved, os, count), 0, todo, quiet)
  {
    Begins(saved, os);
    WaitedButStarts(saved, os, count, todo, quiet);
  }

  /** `job_wait`: one exclusive transaction that visits every STARTED job with a row. A rollback restores the
      database but neither the collected processes nor the count. `taken` counts the strays that were taken for
      the child of a row. `quiet` and `stored` tell for every job what the system does when its row is visited,
      `ended` whether the transaction can be ended. */
  method JobWait(saved: Db, os0: Os, count0: int, quiet: set<int>, stored: set<int>, ended: bool)
    returns (s: Server, ghost taken: nat)
    requires Sound(saved, os0)
    ensures Waited(saved, os0, s.db, s.os, quiet, stored, ended)
    ensures WaitAccount(saved, os0, count0, s, taken)
  {
    s, taken := Server(saved, os0, count0), 0;
    var todo := set id | id in saved.local && Visits(saved, id, Started);
    WaitBegins(saved, os0, count0, todo, quiet);
    while todo != {}
      invariant WaitLoop(saved, os0, count0, s, taken, todo, quiet) && StoredBut(saved, Started, todo, quiet, stored)
      decreases |todo|
    {
      var id, rest := Pick(todo);
      s, taken := VisitWait(saved, os0, count0, s, taken, todo, id, quiet, id in stored);
      StoredButStep(saved, Started, todo, id, quiet, stored);
      todo := rest;
      if id !in quiet && id !in stored {
        RollsBack(saved, os0, count0, s, taken);
        return s.(db := saved), taken;
      }
    }
    if !ended {
      RollsBack(saved, os0, count0, s, taken);
      s := s.(db := saved);
    }
  }

  lemma WaitedHere(saved: Db, os0: Os, s: Server, todo: set<int>, id: int, quiet: set<int>)
    requires Processes(s.os) && Processes(os0) && Fewer(os0, s.os) && WaitedBut(saved, os0, s, todo, quiet)
    requires id in todo && Visits(saved, id, Started) && Visits(s.db, id, Started)
    ensures var t := WaitStep(s, id, id in quiet, true); WaitedOut(saved, os0, t.db, t.os, id, id in quiet)
  {
    var t := WaitStep(s, id, id in quiet, true);
    WaitStepStatus(s, id, id in quiet, true);
    assert Untouched(saved, s.db, id);
    if id !in quiet {
      var p := saved.local[id].pid;
      if PidInUse(s.os, p) {
        assert PidInUse(os0, p);
        forall other | FinishedFor(saved, t.db, other, p) ensures other == id {
          if other != id { FinishedFreed(saved, os0, s, todo, quiet, other, p); }
        }
      } else if PidInUse(os0, p) {
        var k :| k in os0.alive && os0.alive[k] == p;
        var other :| FinishedFor(saved, s.db, other, p);
        assert FinishedFor(saved, t.db, other, p);
      }
    }
  }

  /** The process of a job that is FINISHED is gone. */
  lemma FinishedFreed(saved: Db, os0: Os, s: Server, todo: set<int>, quiet: set<int>, id: int, p: int)
    requires WaitedBut(saved, os0, s, todo, quiet) && FinishedFor(saved, s.db, id, p)
    ensures !PidInUse(s.os, p) && id !in todo
  {
    assert Untouched(saved, s.db, id) || id !in todo;
    assert WaitedOut(saved, os0, s.db, s.os, id, id in quiet);
  }

  lemma WaitedThere(saved: Db, os0: Os, s: Server, todo: set<int>, id: int, quiet: set<int>, i: int)
    requires Processes(s.os) && Processes(os0) && Fewer(os0, s.os) && WaitedBut(saved, os0, s, todo, quiet)
    requires id in todo && Visits(saved, id, Started) && Visits(s.db, id, Started)
    requires i != id && i !in todo && Visits(saved, i, Started)
    ensures var t := WaitStep(s, id, id in quiet, true); WaitedOut(saved, os0, t.db, t.os, i, i in quiet)
  {
    var t := WaitStep(s, id, id in quiet, true);
    WaitStepStatus(s, id, id in quiet, true);
    assert Untouched(saved, s.db, id);
    assert WaitedOut(saved, os0, s.db, s.os, i, i in quiet);
    var p := saved.local[i].pid;
    if i !in quiet {
      forall other | FinishedFor(saved, t.db, other, p) ensures FinishedFor(saved, s.db, other, p) {
        assert other == id ==> PidInUse(s.os, p);
      }
      forall other | FinishedFor(saved, s.db, other, p) ensures FinishedFor(saved, t.db, other, p) {
        FinishedFreed(saved, os0, s, todo, quiet, other, p);
      }
    }
  }

  lemma GoneFor(saved: Db, os0: Os, s: Server, todo: set<int>, id: int, quiet: set<int>, k: nat)
    requires Processes(s.os) && Processes(os0) && Fewer(os0, s.os) && WaitedBut(saved, os0, s, todo, quiet)
    requires id in todo && Visits(saved, id, Started) && Visits(s.db, id, Started)
    requires k in os0.alive && k !in WaitStep(s, id, id in quiet, true).os.alive
    ensures exists i :: FinishedFor(saved, WaitStep(s, id, id in quiet, true).db, i, os0.alive[k])
  {
    var t := WaitStep(s, id, id in quiet, true);
    WaitStepStatus(s, id, id in quiet, true);
    assert Untouched(saved, s.db, id);
    if k in s.os.alive {
      assert FinishedFor(saved, t.db, id, os0.alive[k]);
    } else {
      var i :| FinishedFor(saved, s.db, i, os0.alive[k]);
      FinishedFreed(saved, os0, s, todo, quiet, i, os0.alive[k]);
      assert FinishedFor(saved, t.db, i, os0.alive[k]);
    }
  }

  lemma WaitStepAlive(s: Server, id: int, quiet: bool, stored: bool)
    requires Processes(s.os) && id in s.db.local && id in s.db.jobs
    ensures var t := WaitStep(s, id, quiet, stored);
            s.count - t.count == |s.os.alive.Keys| - |t.os.alive.Keys| && t.count <= s.count
  {
    if Collects(s, id, quiet) {
      var k := ForkOf(s.os, s.db.local[id].pid);
      OneLess(s.os.alive.Keys, Collected(s.os, k).alive.Keys, k);
    }
  }

  lemma WaitStepAccount(saved: Db, os0: Os, count0: int, s: Server, taken: nat, id: int, quiet: bool, stored: bool)
    requires WaitAccount(saved, os0, count0, s, taken) && WaitableRow(saved, s.db, id)
    ensures WaitAccount(saved, os0, count0, WaitStep(s, id, quiet, stored),
              taken + Takes(s, id, !quiet))
  {
    var t := WaitStep(s, id, quiet, stored);
    WaitStepKeeps(saved, s, id, quiet, stored);
    WaitStepSpare(s, id, quiet, stored);
    WaitStepAlive(s, id, quiet, stored);
    VisitUnnamed(saved, s.db, s.os, id, t.os);
    FewerStill(os0, s.os, t.os);
  }

  method VisitWait(ghost saved: Db, ghost os0: Os, ghost count0: int, s0: Server, ghost taken0: nat,
      ghost todo: set<int>, id: int, quiet: set<int>, stored: bool)
    returns (s: Server, ghost taken: nat)
    requires Processes(os0) && WaitLoop(saved, os0, count0, s0, taken0, todo, quiet) && id in todo
    ensures WaitAccount(saved, os0, count0, s, taken)
    ensures id in quiet || stored ==> WaitLoop(saved, os0, count0, s, taken, todo - {id}, quiet)
  {
    WaitedButStep(saved, os0, s0, todo, id, quiet);
    assert Untouched(saved, s0.db, id);
    WaitStepAccount(saved, os0, count0, s0, taken0, id, id in quiet, stored);
    s := WaitStep(s0, id, id in quiet, stored);
    taken := taken0 + Takes(s0, id, id !in quiet);
  }

  // ---------------------------------------------------------------------- job_kill

  ghost predicate WaitedAreOrphans(db: Db, os: Os)
  {
    forall id :: id in db.local && db.local[id].waited ==> OrphanRow(db, os, id) && db.jobs[id].status == Killed
  }

  lemma WaitedInTransaction(saved: Db, db: Db, os: Os, id: int)
    requires InTransaction(saved, db, os) && WaitedAreOrphans(db, os)
    requires OrphanRow(db, os, id) && db.jobs[id].status == Killed
    ensures InTransaction(saved, WaitedDb(db, id), os) && WaitedAreOrphans(WaitedDb(db, id), os)
    ensures WaitedDb(db, id).local.Keys == db.local.Keys
  {
    WaitedKeeps(db, os, id);
    var after := WaitedDb(db, id);
    forall i | i in after.local && after.local[i].waited
      ensures OrphanRow(after, os, i) && after.jobs[i].status == Killed
    {
      if i != id { assert OrphanRow(db, os, i); }
    }
    WaitedLive(saved, db, id);
  }

  lemma WaitedLive(saved: Db, db: Db, id: int)
    requires LiveWithin(saved, db) && id in db.local
    ensures LiveWithin(saved, WaitedDb(db, id))
  {
    forall i | LiveRow(WaitedDb(db, id), i) ensures LiveRow(db, i) && WaitedDb(db, id).local[i].pid == db.local[i].pid {
    }
  }

  lemma OrphansStay(db: Db, os: Os, after: Os)
    requires WaitedAreOrphans(db, os) && Fewer(os, after)
    ensures WaitedAreOrphans(db, after)
  {
    forall id | id in db.local && db.local[id].waited ensures OrphanRow(db, after, id) {
      assert OrphanRow(db, os, id);
    }
  }

  /** A visit of job_kill keeps the transaction, and the one it may be rolled back to. */
  lemma KillStepKeeps(saved: Db, s: Server, id: int, quiet: bool, stored: bool)
    requires InTransaction(saved, s.db, s.os) && WaitedAreOrphans(s.db, s.os)
    requires LiveRow(s.db, id) && s.db.jobs[id].status == Killed
    ensures var t := KillStep(s, id, quiet, stored);
            && InTransaction(saved, t.db, t.os) && WaitedAreOrphans(t.db, t.os) && Fewer(s.os, t.os)
            && t.db.jobs == s.db.jobs && t.db.local.Keys == s.db.local.Keys
  {
    var pid := s.db.local[id].pid;
    if Collects(s, id, quiet) {
      CollectInTransaction(saved, s.db, s.os, pid);
      OrphansStay(s.db, s.os, Collected(s.os, ForkOf(s.os, pid)));
      if stored { WaitedInTransaction(saved, s.db, Collected(s.os, ForkOf(s.os, pid)), id); }
    } else if !quiet && stored {
      WaitedInTransaction(saved, s.db, s.os, id);
    }
  }

  /** job_kill before its DELETE: a row is marked exactly if it was visited and its child was not quiet, and the
      process of a marked row is gone. */
  ghost predicate KilledBut(saved: Db, os0: Os, s: Server, todo: set<int>, quiet: set<int>)
  {
    && s.db.jobs == saved.jobs && s.db.reaped == saved.reaped && s.db.local.Keys == saved.local.Keys
    && (forall id :: id in saved.local ==>
          s.db.local[id] == LocalJob(saved.local[id].pid, Visits(saved, id, Killed) && id !in todo && id !in quiet))
    && (forall id :: id in saved.local && s.db.local[id].waited ==> !PidInUse(s.os, saved.local[id].pid))
    && (forall k :: k in os0.alive && k !in s.os.alive ==> exists id :: KilledFor(saved, id, os0.alive[k], quiet))
  }

  /** The row of `id` names process `p`, was visited and its child was not quiet. */
  ghost predicate KilledFor(saved: Db, id: int, p: int, quiet: set<int>)
  {
    Visits(saved, id, Killed) && saved.local[id].pid == p && id !in quiet
  }

  /** job_kill in terms of rows: rolled back, or the rows of the KILLED jobs whose child was not quiet are gone,
      and with them their processes and no others. Jobs and the remaining rows are as they were. */
  ghost predicate Cleared(saved: Db, os0: Os, db: Db, os: Os, quiet: set<int>, stored: set<int>, ended: bool)
  {
    if Commits(saved, Killed, quiet, stored, ended) then
      && db.jobs == saved.jobs && db.reaped == saved.reaped
      && (forall id :: id in db.local <==> id in saved.local && !(Visits(saved, id, Killed) && id !in quiet))
      && (forall id :: id in db.local ==> db.local[id] == saved.local[id])
      && (forall id :: id in saved.local && id !in db.local ==> !PidInUse(os, saved.local[id].pid))
      && (forall k :: k in os0.alive && k !in os.alive ==> exists id :: KilledFor(saved, id, os0.alive[k], quiet))
    else db == saved
  }

  /** `job_kill`: kills and collects the children of KILLED jobs; rows marked in this transaction are deleted
      before it ends. `lost`: a counted child was collected and the mark could not be stored, which aborts the
      transaction and leaves the count one too high for good. `quiet` and `stored` tell for every job what the
      system does when its row is visited, `ended` whether the transaction can be ended. */
  method JobKill(saved: Db, os0: Os, count0: int, quiet: set<int>, stored: set<int>, ended: bool)
    returns (s: Server, lost: bool, ghost taken: nat)
    requires Sound(saved, os0) && NoneWaited(saved)
    ensures KillAccount(saved, os0, count0, s, lost, taken)
    ensures lost ==> s.db == saved && LostSomewhere(saved, os0, quiet, stored)
    ensures Cleared(saved, os0, s.db, s.os, quiet, stored, ended)
    ensures Commits(saved, Killed, quiet, stored, ended) ==>
              count0 - s.count == |os0.alive.Keys| - |s.os.alive.Keys|
  {
    s, lost, taken := Server(saved, os0, count0), false, 0;
    var todo := set id | id in saved.local && Visits(saved, id, Killed);
    KillBegins(saved, os0, count0, todo, quiet);
    while todo != {}
      invariant !lost && KillLoop(saved, os0, count0, s, taken, todo, quiet)
      invariant StoredBut(saved, Killed, todo, quiet, stored)
      decreases |todo|
    {
      var id, rest := Pick(todo);
      s, lost, taken := VisitKill(saved, os0, count0, s, taken, todo, id, quiet, stored);
      StoredButStep(saved, Killed, todo, id, quiet, stored);
      todo := rest;
      if id !in quiet && id !in stored {
        s := KillAborts(saved, os0, count0, s, lost, taken);
        return;
      }
    }
    if ended {
      s := Sweep(saved, os0, count0, s, taken, quiet, stored);
    } else {
      s := KillAborts(saved, os0, count0, s, lost, taken);
    }
  }

  method KillAborts(saved: Db, ghost os0: Os, ghost count0: int, s0: Server, ghost lost: bool, ghost taken: nat)
    returns (s: Server)
    requires KillAccount(saved, os0, count0, s0, lost, taken)
    ensures KillAccount(saved, os0, count0, s, lost, taken) && s == s0.(db := saved)
  {
    Begins(saved, s0.os);
    s := s0.(db := saved);
  }

  /** The row of `id` was visited, its counted child was there to collect, and the mark was not stored. */
  ghost predicate LostAt(saved: Db, os: Os, id: int, quiet: set<int>, stored: set<int>)
  {
    && LiveRow(saved, id) && saved.jobs[id].status == Killed && id !in quiet && id !in stored
    && PidInUse(os, saved.local[id].pid)
  }

  ghost predicate LostSomewhere(saved: Db, os: Os, quiet: set<int>, stored: set<int>)
  {
    exists id :: LostAt(saved, os, id, quiet, stored)
  }

  lemma LostHere(saved: Db, s: Server, os0: Os, id: int, quiet: set<int>, stored: set<int>)
    requires LiveWithin(saved, s.db) && Fewer(os0, s.os) && s.db.jobs == saved.jobs
    requires Visits(s.db, id, Killed)
    ensures Loses(s, id, id in quiet, id in stored) ==> LostSomewhere(saved, os0, quiet, stored)
  {
    if Loses(s, id, id in quiet, id in stored) { assert LostAt(saved, os0, id, quiet, stored); }
  }

  /** What holds of processes and count in the transaction of job_kill, rolled back or not. */
  ghost predicate KillAccount(saved: Db, os0: Os, count0: int, s: Server, lost: bool, taken: nat)
  {
    && InTransaction(saved, s.db, s.os) && Fewer(os0, s.os)
    && s.count <= count0 && Spare(s.os, s.count) == Spare(os0, count0) + (if lost then 1 else 0) - taken
    && (Unnamed(saved, os0) ==> Unnamed(saved, s.os) && taken == 0)
  }

  ghost predicate KillLoop(saved: Db, os0: Os, count0: int, s: Server, taken: nat, todo: set<int>, quiet: set<int>)
  {
    && KillAccount(saved, os0, count0, s, false, taken) && WaitedAreOrphans(s.db, s.os)
    && KilledBut(saved, os0, s, todo, quiet) && (forall id :: id in todo ==> Visits(saved, id, Killed))
    && count0 - s.count == |os0.alive.Keys| - |s.os.alive.Keys|
  }

  lemma KillBegins(saved: Db, os: Os, count: int, todo: set<int>, quiet: set<int>)
    requires Sound(saved, os) && NoneWaited(saved) && forall id :: id in todo <==> Visits(saved, id, Killed)
    ensures KillLoop(saved, os, count, Server(saved, os, count), 0, todo, quiet)
  {
    Begins(saved, os);
  }

  /** A visit of job_kill in terms of rows: the job stays as it is; the row is marked, and its process gone, unless
      the child is quiet. */
  lemma KillStepRows(s: Server, id: int, quiet: bool, stored: bool)
    requires Processes(s.os) && Visits(s.db, id, Killed)
    ensures var t, pid := KillStep(s, id, quiet, stored), s.db.local[id].pid;
            && (quiet ==> t == s)
            && (!quiet && !stored ==> t.db == s.db)
            && (!quiet ==> !PidInUse(t.os, pid))
            && (forall k :: k in t.os.alive <==> k in s.os.alive && (quiet || s.os.alive[k] != pid))
            && t.count == s.count - (if !quiet && stored && PidInUse(s.os, pid) then 1 else 0)
            && t.db.jobs == s.db.jobs && t.db.reaped == s.db.reaped && t.db.local.Keys == s.db.local.Keys
            && (!quiet && stored ==> t.db.local[id] == LocalJob(pid, true))
            && (forall i :: i in s.db.local && i != id ==> t.db.local[i] == s.db.local[i])
  {
    var pid := s.db.local[id].pid;
    if Collects(s, id, quiet) { CollectFrees(s.os, ForkOf(s.os, pid)); }
  }

  lemma KilledButStep(saved: Db, os0: Os, s: Server, todo: set<int>, id: int, quiet: set<int>)
    requires Processes(s.os) && Fewer(os0, s.os) && KilledBut(saved, os0, s, todo, quiet)
    requires id in todo && Visits(saved, id, Killed)
    ensures Visits(s.db, id, Killed)
    ensures KilledBut(saved, os0, KillStep(s, id, id in quiet, true), todo - {id}, quiet)
  {
    var t := KillStep(s, id, id in quiet, true);
    KillStepRows(s, id, id in quiet, true);
    forall k | k in os0.alive && k !in t.os.alive ensures exists i :: KilledFor(saved, i, os0.alive[k], quiet) {
      if k in s.os.alive { assert KilledFor(saved, id, os0.alive[k], quiet); }
    }
  }

  lemma KillStepAlive(s: Server, id: int, quiet: bool)
    requires Processes(s.os) && id in s.db.local && id in s.db.jobs
    ensures var t := KillStep(s, id, quiet, true);
            s.count - t.count == |s.os.alive.Keys| - |t.os.alive.Keys|
  {
    if Collects(s, id, quiet) {
      var k := ForkOf(s.os, s.db.local[id].pid);
      OneLess(s.os.alive.Keys, Collected(s.os, k).alive.Keys, k);
    }
  }

  lemma KillAccountNext(saved: Db, os0: Os, count0: int, s: Server, taken: nat, t: Server, lost: bool, took: nat)
    requires KillAccount(saved, os0, count0, s, false, taken)
    requires InTransaction(saved, t.db, t.os) && Fewer(s.os, t.os) && t.count <= s.count
    requires Spare(t.os, t.count) == Spare(s.os, s.count) + (if lost then 1 else 0) - took
    requires Unnamed(saved, s.os) ==> Unnamed(saved, t.os) && took == 0
    ensures KillAccount(saved, os0, count0, t, lost, taken + took)
  {
    FewerStill(os0, s.os, t.os);
  }

  lemma KillStepAccount(saved: Db, os0: Os, count0: int, s: Server, taken: nat, id: int, quiet: bool, stored: bool)
    requires KillAccount(saved, os0, count0, s, false, taken) && WaitedAreOrphans(s.db, s.os)
    requires Visits(s.db, id, Killed)
    ensures var t := KillStep(s, id, quiet, stored);
            && WaitedAreOrphans(t.db, t.os)
            && KillAccount(saved, os0, count0, t, Loses(s, id, quiet, stored), taken + Takes(s, id, !quiet && stored))
  {
    var t := KillStep(s, id, quiet, stored);
    KillStepKeeps(saved, s, id, quiet, stored);
    KillStepSpare(s, id, quiet, stored);
    VisitUnnamed(saved, s.db, s.os, id, t.os);
    KillAccountNext(saved, os0, count0, s, taken, t, Loses(s, id, quiet, stored),
      Takes(s, id, !quiet && stored));
  }

  method VisitKill(ghost saved: Db, ghost os0: Os, ghost count0: int, s0: Server, ghost taken0: nat,
      ghost todo: set<int>, id: int, quiet: set<int>, stored: set<int>)
    returns (s: Server, lost: bool, ghost taken: nat)
    requires KillLoop(saved, os0, count0, s0, taken0, todo, quiet) && id in todo
    ensures KillAccount(saved, os0, count0, s, lost, taken)
    ensures id in quiet || id in stored ==> !lost && KillLoop(saved, os0, count0, s, taken, todo - {id}, quiet)
    ensures id in s0.db.local && (lost <==> Loses(s0, id, id in quiet, id in stored))
    ensures lost ==> LostSomewhere(saved, os0, quiet, stored)
  {
    KilledButStep(saved, os0, s0, todo, id, quiet);
    KillStepAccount(saved, os0, count0, s0, taken0, id, id in quiet, id in stored);
    KillStepAlive(s0, id, id in quiet);
    LostHere(saved, s0, os0, id, quiet, stored);
    s := KillStep(s0, id, id in quiet, id in stored);
    lost := Loses(s0, id, id in quiet, id in stored);
    taken := taken0 + Takes(s0, id, id !in quiet && id in stored);
  }

  /** The DELETE removes exactly the rows marked in this transaction. */
  method Sweep(ghost saved: Db, ghost os0: Os, ghost count0: int, s0: Server, ghost taken: nat,
      ghost quiet: set<int>, ghost stored: set<int>)
    returns (s: Server)
    requires NoneWaited(saved) && KillLoop(saved, os0, count0, s0, taken, {}, quiet)
    requires Commits(saved, Killed, quiet, stored, true)
    ensures KillAccount(saved, os0, count0, s, false, taken)
    ensures Cleared(saved, os0, s.db, s.os, quiet, stored, true)
    ensures count0 - s.count == |os0.alive.Keys| - |s.os.alive.Keys|
  {
    SweepKeeps(s0.db, s0.os);
    SweepLive(saved, s0.db);
    SweepClears(saved, os0, s0, quiet, stored);
    s := s0.(db := SweptDb(s0.db));
  }

  lemma SweepClears(saved: Db, os0: Os, s: Server, quiet: set<int>, stored: set<int>)
    requires NoneWaited(saved) && KilledBut(saved, os0, s, {}, quiet)
    requires Commits(saved, Killed, quiet, stored, true)
    ensures Cleared(saved, os0, SweptDb(s.db), s.os, quiet, stored, true)
  {
    var after := SweptDb(s.db);
    forall id ensures id in after.local <==> id in saved.local && !(Visits(saved, id, Killed) && id !in quiet) {
      assert id in saved.local <==> id in s.db.local;
    }
    forall id | id in after.local ensures after.local[id] == saved.local[id] {
      assert s.db.local[id] == LocalJob(saved.local[id].pid, Visits(saved, id, Killed) && id !in quiet);
    }
  }

  lemma SweepLive(saved: Db, db: Db)
    requires LiveWithin(saved, db)
    ensures LiveWithin(saved, SweptDb(db))
  {
    forall i | LiveRow(SweptDb(db), i) ensures LiveRow(db, i) && SweptDb(db).local[i].pid == db.local[i].pid {
    }
  }

  // ---------------------------------------------------------------------- scheduling

  predicate Before(a: Job, b: Job)
  {
    a.priority < b.priority || (a.priority == b.priority && a.timeCommit <= b.timeCommit)
  }

  /** The query of job_schedule_fifo. */
  method SelectFifo(jobs: map<int, Job>) returns (r: Option<int>)
    ensures r.None? ==> forall id :: id in jobs ==> jobs[id].status != Committed
    ensures r.Some? ==> r.value in jobs && jobs[r.value].status == Committed
    ensures r.Some? ==>
             forall id :: id in jobs && jobs[id].status == Committed ==>
               && jobs[r.value].priority <= jobs[id].priority
               && (jobs[r.value].priority == jobs[id].priority ==> jobs[r.value].timeCommit <= jobs[id].timeCommit)
  {
    r := None;
    var todo := jobs.Keys;
    while todo != {}
      invariant todo <= jobs.Keys
      invariant r.Some? ==> r.value in jobs && jobs[r.value].status == Committed
      invariant forall id :: id in jobs && id !in todo && jobs[id].status == Committed ==>
                  r.Some? && Before(jobs[r.value], jobs[id])
      decreases |todo|
    {
      var id, rest := Pick(todo);
      if jobs[id].status == Committed && (r.None? || Before(jobs[id], jobs[r.value])) { r := Some(id); }
      todo := rest;
    }
  }

  // ---------------------------------------------------------------------- the server

  datatype Phase = Waiting | Killing | Selecting | Starting(id: int)

  /** What the system does in a transaction of the scheduler: the process id of a fork and how a start ends, and
      for every job whether its child is quiet and its mark stored, and whether the transaction is ended. */
  datatype Fate = Fate(p: int, outcome: StartOutcome, quiet: set<int>, stored: set<int>, ended: bool)

  /** One transaction of a client, or the next one of the scheduler. */
  datatype Event =
    | Creates(id: int, subject: string, priority: int)
    | Changes(j: Json, subject: string, superuser: bool, to: Status, now: int, failAt: nat)
    | Reaps(j: Json, subject: string, superuser: bool, now: int, failAt: nat)
    | Schedules(fate: Fate)

  /** The counts of a scheduler: `lost` transactions of job_kill collected a child and could not say so, `taken`
      visits took a stray for the child of their row, and `clashes` starts left a stray that a live row names. */
  datatype Slips = Slips(lost: nat, taken: nat, clashes: nat)

  /** The count is exactly the number of children, plus the slots lost, less the strays taken. As long as no
      start clashed, no live row names a stray and none was taken. */
  ghost predicate Accounted(db: Db, os: Os, count: int, slips: Slips)
  {
    && Sound(db, os) && Spare(os, count) == slips.lost - slips.taken
    && (slips.clashes == 0 ==> Unnamed(db, os) && slips.taken == 0)
  }

  /** The children number at most count exactly if no more strays were taken than slots lost; in particular if no
      start clashed. */
  lemma CountExactly(db: Db, os: Os, count: int, slips: Slips)
    requires Accounted(db, os, count, slips)
    ensures |Children(os)| <= count <==> slips.taken <= slips.lost
    ensures slips.clashes == 0 ==> |Children(os)| <= count
  {
  }

  ghost predicate NoneWaited(db: Db) { forall id :: id in db.local ==> !db.local[id].waited }

  /** The job that was selected is still committed, or it has become terminal since. */
  predicate Selected(db: Db, phase: Phase)
  {
    phase.Starting? ==>
      phase.id in db.jobs && (db.jobs[phase.id].status == Committed || Terminal(db.jobs[phase.id].status))
  }

  lemma SelectedStays(before: Db, after: Db, phase: Phase)
    requires Selected(before, phase) && Forward(before, after)
    requires forall id :: id in before.jobs && after.jobs[id].status != before.jobs[id].status ==>
               after.jobs[id].status == Committed || after.jobs[id].status == Killed
    ensures Selected(after, phase)
  {
  }

  /** A client transaction changes no count. */
  lemma ClientAccounted(db: Db, after: Db, os: Os, count: int, slips: Slips)
    requires Accounted(db, os, count, slips) && Forward(db, after) && after.local == db.local
    requires forall id :: id in db.jobs && after.jobs[id].status != db.jobs[id].status ==>
               after.jobs[id].status == Committed || after.jobs[id].status == Killed
    ensures Accounted(after, os, count, slips)
  {
    ClientKeeps(db, after, os);
    ClientLive(db, after, os);
    if Unnamed(db, os) { UnnamedStays(db, os, after, os); }
  }

  lemma ClientLive(db: Db, after: Db, os: Os)
    requires Sound(db, os) && Forward(db, after) && after.local == db.local
    requires forall id :: id in db.jobs && after.jobs[id].status != db.jobs[id].status ==>
               after.jobs[id].status == Committed || after.jobs[id].status == Killed
    ensures LiveWithin(db, after)
  {
    forall i | LiveRow(after, i) ensures LiveRow(db, i) {
      assert RowTold(db, os, i);
    }
  }

  /** Everything that a start does, in one place. */
  lemma StartAccounted(db: Db, os: Os, count: int, slips: Slips, id: int, p: int, outcome: StartOutcome)
    requires Accounted(db, os, count, slips) && NoneWaited(db) && id in db.jobs
    requires Possible(db.jobs[id].status, outcome) && !PidInUse(os, p)
    ensures var after, os' := StartResult(db, id, p, outcome), StartProcess(os, id, p, outcome);
            && Accounted(after, os', StartCount(count, outcome), StartSlips(db, slips, p, outcome))
            && NoneWaited(after) && Forward(db, after) && DropsCollected(db, after, os')
            && (Terminal(db.jobs[id].status) ==> after == db)
            && (outcome.Running? ==> id in after.jobs && after.jobs[id].status == Started)
  {
    var after, os' := StartResult(db, id, p, outcome), StartProcess(os, id, p, outcome);
    StartSound(db, os, id, p, outcome);
    StartSpare(os, id, p, outcome, count);
    StartForward(db, id, p, outcome);
    StartRows(db, os, id, p, outcome);
    KeepsRows(db, after, os');
    if Unnamed(db, os) { ClashExactly(db, os, id, p, outcome); }
  }

  function StartCount(count: int, outcome: StartOutcome): int { if outcome.Running? then count + 1 else count }

  ghost function StartSlips(db: Db, slips: Slips, p: int, outcome: StartOutcome): Slips
  {
    if Clashes(db, p, outcome) then slips.(clashes := slips.clashes + 1) else slips
  }

  /** Everything that a wait or kill transaction does. */
  lemma CollectAccounted(saved: Db, os0: Os, count0: int, slips: Slips, s: Server, lost: bool, taken: nat)
    requires Accounted(saved, os0, count0, slips) && InTransaction(saved, s.db, s.os) && Fewer(os0, s.os)
    requires Spare(s.os, s.count) == Spare(os0, count0) + (if lost then 1 else 0) - taken
    requires Unnamed(saved, os0) ==> taken == 0
    ensures Accounted(s.db, s.os, s.count,
              slips.(lost := slips.lost + (if lost then 1 else 0), taken := slips.taken + taken))
  {
    if Unnamed(saved, os0) { UnnamedStays(saved, os0, s.db, s.os); }
  }

  /** The start phase on the tables and counts. */
  method StartPhase(db: Db, os: Os, count: int, ghost slips: Slips, id: int, p: int, outcome: StartOutcome)
    returns (s: Server, ghost after: Slips)
    requires Accounted(db, os, count, slips) && NoneWaited(db) && id in db.jobs
    requires Possible(db.jobs[id].status, outcome) && !PidInUse(os, p)
    ensures Accounted(s.db, s.os, s.count, after) && NoneWaited(s.db) && s.count == StartCount(count, outcome)
    ensures Forward(db, s.db) && DropsCollected(db, s.db, s.os)
    ensures Terminal(db.jobs[id].status) ==> s.db == db
    ensures outcome.Running? ==> id in s.db.jobs && s.db.jobs[id].status == Started
    ensures after == StartSlips(db, slips, p, outcome)
    ensures StartTells(db, s.db, id, p, outcome) && StartForks(os, s.os, id, p, outcome)
  {
    StartStatus(db, id, p, outcome);
    StartProcessForks(os, id, p, outcome);
    StartAccounted(db, os, count, slips, id, p, outcome);
    s := Server(StartResult(db, id, p, outcome), StartProcess(os, id, p, outcome), StartCount(count, outcome));
    after := StartSlips(db, slips, p, outcome);
  }

  lemma WaitAccounted(db: Db, os: Os, count: int, slips: Slips, s: Server, taken: nat)
    requires Accounted(db, os, count, slips) && WaitAccount(db, os, count, s, taken)
    ensures Accounted(s.db, s.os, s.count, slips.(taken := slips.taken + taken))
    ensures s.count <= count && Forward(db, s.db) && DropsCollected(db, s.db, s.os)
  {
    CollectAccounted(db, os, count, slips, s, false, taken);
  }

  /** job_wait marks no row. */
  lemma WaitedRows(saved: Db, os0: Os, db: Db, os: Os, quiet: set<int>, stored: set<int>, ended: bool)
    requires NoneWaited(saved) && Waited(saved, os0, db, os, quiet, stored, ended)
    ensures NoneWaited(db)
  {
    if Commits(saved, Started, quiet, stored, ended) {
      forall id | id in db.local ensures !db.local[id].waited {
        if Visits(saved, id, Started) { assert WaitedOut(saved, os0, db, os, id, id in quiet); }
        else { assert Untouched(saved, Server(db, os, 0).db, id); }
      }
    }
  }

  /** The wait phase on the tables and counts. */
  method WaitPhase(db: Db, os: Os, count: int, ghost slips: Slips, quiet: set<int>, stored: set<int>, ended: bool)
    returns (s: Server, ghost after: Slips)
    requires Accounted(db, os, count, slips) && NoneWaited(db)
    ensures Waited(db, os, s.db, s.os, quiet, stored, ended)
    ensures Accounted(s.db, s.os, s.count, after) && NoneWaited(s.db) && s.count <= count
    ensures Forward(db, s.db) && DropsCollected(db, s.db, s.os)
    ensures after == slips.(taken := after.taken) && after.taken >= slips.taken
  {
    ghost var taken: nat;
    s, taken := JobWait(db, os, count, quiet, stored, ended);
    WaitAccounted(db, os, count, slips, s, taken);
    WaitedRows(db, os, s.db, s.os, quiet, stored, ended);
    after := slips.(taken := slips.taken + taken);
  }

  lemma KillAccounted(db: Db, os: Os, count: int, slips: Slips, s: Server, lost: bool, taken: nat)
    requires Accounted(db, os, count, slips) && KillAccount(db, os, count, s, lost, taken)
    ensures Accounted(s.db, s.os, s.count,
              slips.(lost := slips.lost + (if lost then 1 else 0), taken := slips.taken + taken))
    ensures s.count <= count && Forward(db, s.db) && DropsCollected(db, s.db, s.os)
  {
    CollectAccounted(db, os, count, slips, s, lost, taken);
  }

  lemma ClearedRows(saved: Db, os0: Os, db: Db, os: Os, quiet: set<int>, stored: set<int>, ended: bool)
    requires NoneWaited(saved) && Cleared(saved, os0, db, os, quiet, stored, ended)
    ensures NoneWaited(db)
  {
  }

  /** The kill phase. */
  method KillPhase(db: Db, os: Os, count: int, ghost slips: Slips, quiet: set<int>, stored: set<int>, ended: bool)
    returns (s: Server, ghost after: Slips)
    requires Accounted(db, os, count, slips) && NoneWaited(db)
    ensures Accounted(s.db, s.os, s.count, after) && NoneWaited(s.db) && s.count <= count
    ensures Forward(db, s.db) && DropsCollected(db, s.db, s.os)
    ensures after == slips.(lost := after.lost, taken := after.taken)
    ensures after.taken >= slips.taken && slips.lost <= after.lost <= slips.lost + 1
    ensures after.lost > slips.lost ==> s.db == db && LostSomewhere(db, os, quiet, stored)
    ensures Cleared(db, os, s.db, s.os, quiet, stored, ended)
  {
    var slip: bool;
    ghost var taken: nat;
    s, slip, taken := JobKill(db, os, count, quiet, stored, ended);
    KillAccounted(db, os, count, slips, s, slip, taken);
    ClearedRows(db, os, s.db, s.os, quiet, stored, ended);
    after := slips.(lost := slips.lost + (if slip then 1 else 0), taken := slips.taken + taken);
  }

  class JobServer {
    const concurrency: int
    var db: Db
    var count: int
    var os: Os
    var phase: Phase
    ghost var slips: Slips

    ghost predicate Valid()
      reads this
    {
      && Accounted(db, os, count, slips) && NoneWaited(db) && Selected(db, phase)
      && (count <= concurrency || count <= 0) && (phase.Starting? ==> count < concurrency)
    }

    /** A scheduler that starts on the tables its predecessor left. */
    constructor (db: Db, concurrency: int)
      requires NoneWaited(db)
      requires forall id :: id in db.local ==>
                 id in db.jobs && db.jobs[id].status != Created && db.jobs[id].status != Committed
      ensures Valid() && this.db == db && this.concurrency == concurrency && count == 0 && slips == Slips(0, 0, 0)
      ensures os == Os(map[], {}, 0, map[], map[]) && phase == Waiting
    {
      this.db, this.concurrency, count, phase, slips := db, concurrency, 0, Waiting, Slips(0, 0, 0);
      os := Empty();
    }

    method Create(id: int, subject: string, priority: int)
      requires Valid() && id !in db.jobs
      modifies this`db
      ensures Valid() && db == old(db).(jobs := old(db).jobs[id := Job(Created, subject, priority, 0)])
      ensures Forward(old(db), db)
    {
      var after := db.(jobs := db.jobs[id := Job(Created, subject, priority, 0)]);
      ClientAccounted(db, after, os, count, slips);
      SelectedStays(db, after, phase);
      db := after;
    }

    /** chirp_job_commit and chirp_job_kill. */
    method Change(j: Json, subject: string, superuser: bool, to: Status, now: int, failAt: nat) returns (rc: Rc)
      requires Valid() && (to == Committed || to == Killed)
      modifies this`db
      ensures Valid() && Forward(old(db), db)
      ensures rc == Ok <==>
                IdList(j) && AllAllowed(old(db), Ids(j), subject, superuser, to) && failAt > |j.items| + 1
      ensures rc == Ok ==> Changed(old(db), db, Ids(j), to, now)
      ensures rc != Ok ==> db == old(db)
    {
      var after: Db;
      rc, after := UpdateAll(db, j, subject, superuser, to, now, failAt);
      ClientAccounted(db, after, os, count, slips);
      SelectedStays(db, after, phase);
      db := after;
    }

    method ReapJobs(j: Json, subject: string, superuser: bool, now: int, failAt: nat) returns (rc: Rc)
      requires Valid()
      modifies this`db
      ensures Valid() && Forward(old(db), db)
      ensures rc == Ok <==> IdList(j) && failAt > |j.items| + 1
      ensures rc == Ok ==> NewlyReaped(old(db), db, Ids(j), subject, superuser, now)
      ensures rc != Ok ==> db == old(db)
    {
      var after: Db;
      rc, after := Reap(db, j, subject, superuser, now, failAt);
      if rc == Ok { ReapedForward(db, ToSet(Ids(j)), subject, superuser, now); }
      ClientAccounted(db, after, os, count, slips);
      SelectedStays(db, after, phase);
      db := after;
    }

    method Wait(quiet: set<int>, stored: set<int>, ended: bool)
      requires Valid() && phase == Waiting
      modifies this
      ensures Waited(old(db), old(os), db, os, quiet, stored, ended)
      ensures Valid() && Forward(old(db), db) && DropsCollected(old(db), db, os)
      ensures phase == Killing && slips == old(slips).(taken := slips.taken) && slips.taken >= old(slips.taken)
    {
      var s: Server;
      s, slips := WaitPhase(db, os, count, slips, quiet, stored, ended);
      db, os, count, phase := s.db, s.os, s.count, Killing;
    }

    /** The one place where a slot of the count is lost; the database is then unchanged, and the mark of a job
        whose child was there to collect was not stored. */
    method Kill(quiet: set<int>, stored: set<int>, ended: bool)
      requires Valid() && phase == Killing
      modifies this
      ensures Valid() && Forward(old(db), db) && DropsCollected(old(db), db, os)
      ensures phase == Selecting && slips == old(slips).(lost := slips.lost, taken := slips.taken)
      ensures slips.taken >= old(slips.taken) && old(slips.lost) <= slips.lost <= old(slips.lost) + 1
      ensures slips.lost > old(slips.lost) ==> db == old(db) && LostSomewhere(old(db), old(os), quiet, stored)
      ensures Cleared(old(db), old(os), db, os, quiet, stored, ended)
    {
      var s: Server;
      ghost var after: Slips;
      s, after := KillPhase(db, os, count, slips, quiet, stored, ended);
      db, os, count, phase, slips := s.db, s.os, s.count, Selecting, after;
    }

    method Select()
      requires Valid() && phase == Selecting
      modifies this`phase
      ensures Valid()
      ensures phase.Starting? ==> count < concurrency && phase.id in db.jobs && db.jobs[phase.id].status == Committed
      ensures phase.Starting? ==>
                forall id :: id in db.jobs && db.jobs[id].status == Committed ==>
                  && db.jobs[phase.id].priority <= db.jobs[id].priority
                  && (db.jobs[phase.id].priority == db.jobs[id].priority ==>
                       db.jobs[phase.id].timeCommit <= db.jobs[id].timeCommit)
      ensures !phase.Starting? ==> phase == Waiting
      ensures !phase.Starting? && count < concurrency ==>
                forall id :: id in db.jobs ==> db.jobs[id].status != Committed
    {
      phase := Waiting;
      if count < concurrency {
        var choice := SelectFifo(db.jobs);
        if choice.Some? { phase := Starting(choice.value); }
      }
    }

    /** A job that became terminal since it was selected is left alone. The system gives a fork a process id that
        no uncollected child has. */
    method Start(p: int, outcome: StartOutcome)
      requires Valid() && phase.Starting? && !PidInUse(os, p) && Possible(db.jobs[phase.id].status, outcome)
      modifies this
      ensures Valid() && Forward(old(db), db) && DropsCollected(old(db), db, os)
      ensures Terminal(old(db).jobs[old(phase).id].status) ==> db == old(db)
      ensures StartTells(old(db), db, old(phase).id, p, outcome) && StartForks(old(os), os, old(phase).id, p, outcome)
      ensures count == old(count) + if outcome.Running? then 1 else 0
      ensures phase == Waiting && slips == StartSlips(old(db), old(slips), p, outcome)
    {
      var s: Server;
      s, slips := StartPhase(db, os, count, slips, phase.id, p, outcome);
      db, os, count, phase := s.db, s.os, s.count, Waiting;
    }

    /** The scheduler's next transaction. */
    method Step(fate: Fate)
      requires Valid()
      requires phase.Starting? ==> !PidInUse(os, fate.p) && Possible(db.jobs[phase.id].status, fate.outcome)
      modifies this
      ensures Valid() && Forward(old(db), db)
    {
      match phase
      case Waiting => Wait(fate.quiet, fate.stored, fate.ended);
      case Killing => Kill(fate.quiet, fate.stored, fate.ended);
      case Selecting => Select();
      case Starting(_) => Start(fate.p, fate.outcome);
    }

    /** Events the system cannot deliver in the current state are passed over. */
    method Deliver(event: Event)
      requires Valid()
      modifies this
      ensures Valid() && Forward(old(db), db)
    {
      match event
      case Creates(id, subject, priority) =>
        if id !in db.jobs { Create(id, subject, priority); }
      case Changes(j, subject, superuser, to, now, failAt) =>
        if to == Committed || to == Killed { var _ := Change(j, subject, superuser, to, now, failAt); }
      case Reaps(j, subject, superuser, now, failAt) =>
        var _ := ReapJobs(j, subject, superuser, now, failAt);
      case Schedules(fate) =>
        if !phase.Starting? || (!PidInUse(os, fate.p) && Possible(db.jobs[phase.id].status, fate.outcome)) {
          Step(fate);
        }
    }

    /** Every interleaving of client and scheduler transactions. */
    method Run(events: seq<Event>)
      requires Valid()
      modifies this
      ensures Valid() && Progressed(old(db), db)
      ensures |Children(os)| <= count <==> slips.taken <= slips.lost
      ensures slips.clashes == 0 ==> |Children(os)| <= count
      ensures count <= concurrency || count <= 0
    {
      for i := 0 to |events|
        invariant Valid() && Progressed(old(db), db)
      {
        ghost var before := db;
        Deliver(events[i]);
        ProgressedStep(old(db), before, db);
      }
      CountExactly(db, os, count, slips);
    }
  }
}
