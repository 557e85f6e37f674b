/** Several server processes that share the allocation records of chirp_alloc.c through file locks. A process
    locks a record while it caches it, saves and unlocks all it has before it waits for another, and so never
    waits with a lock in hand. Records are cached under their spelling, files are locked. */
module AllocLocks {
  import opened Ledger
  import opened AllocCache

  /** What a process is at: `Waiting` is the blocking lock call of alloc_state_load. */
  datatype Process = Running(cache: Table) | Waiting(k: Key)

  datatype State = State(disk: Disk, locks: map<Path, nat>, procs: seq<Process>)

  /** `slashLast`: the order in which a flush saves the two spellings of the root directory. */
  datatype Step =
    | Load(i: nat, k: Key, slashLast: bool)   // F_TLOCK; if it fails, flush and wait
    | Granted(i: nat)                         // the waiting call returns with the lock
    | Refused(i: nat)                         // the waiting call returns an error
    | Charges(i: nat, k: Key, change: int)    // alloc_state_update on a cached record
    | Flushes(i: nat, slashLast: bool)        // chirp_alloc_flush
    | Creates(i: nat, d: Path, size: int)     // alloc_state_create in a new directory

  function Cache(p: Process): Table { if p.Running? then p.cache else map[] }

  /** The spelling under which a cache holds a directory, if it holds it. */
  function Held(cache: Table, d: Path, slashLast: bool): Key
  {
    if d != [] then Named(d)
    else if Dirty(cache, Slash) && (slashLast || !Dirty(cache, Empty)) then Slash
    else if Dirty(cache, Empty) then Empty
    else if Slash in cache then Slash
    else Empty
  }

  /** The records of one process saved. */
  function Saved(disk: Disk, cache: Table, slashLast: bool): Disk
  {
    map d | d in disk :: if Dirty(cache, Held(cache, d, slashLast)) then cache[Held(cache, d, slashLast)].record
        else disk[d]
  }

  function Unlocked(locks: map<Path, nat>, i: nat): map<Path, nat> { map d | d in locks && locks[d] != i :: locks[d] }

  function Emptied(s: State, i: nat, slashLast: bool): State
    requires i < |s.procs|
  {
    State(Saved(s.disk, Cache(s.procs[i]), slashLast), Unlocked(s.locks, i), s.procs[i := Running(map[])])
  }

  function Locked(s: State, i: nat, k: Key): State
    requires i < |s.procs| && PathOf(k) in s.disk
  {
    State(s.disk, s.locks[PathOf(k) := i],
        s.procs[i := Running(Cache(s.procs[i])[k := Entry(s.disk[PathOf(k)], false)])])
  }

  predicate Enabled(s: State, step: Step)
  {
    match step
    case Load(i, k, _) => i < |s.procs| && s.procs[i].Running? && Proper(k) && PathOf(k) in s.disk
           && k !in s.procs[i].cache
    case Granted(i) => i < |s.procs| && s.procs[i].Waiting? && PathOf(s.procs[i].k) in s.disk
           && PathOf(s.procs[i].k) !in s.locks
    case Refused(i) => i < |s.procs| && s.procs[i].Waiting?
    case Charges(i, k, _) => i < |s.procs| && s.procs[i].Running? && k in s.procs[i].cache
    case Flushes(i, _) => i < |s.procs| && s.procs[i].Running?
    case Creates(i, d, _) => i < |s.procs| && s.procs[i].Running? && d !in s.disk && d != []
  }

  function Next(s: State, step: Step): State
    requires Enabled(s, step)
  {
    match step
    case Load(i, k, slashLast) =>
      if PathOf(k) !in s.locks || s.locks[PathOf(k)] == i then Locked(s, i, k)
      else var f := Emptied(s, i, slashLast); f.(procs := f.procs[i := Waiting(k)])
    case Granted(i) => Locked(s, i, s.procs[i].k)
    case Refused(i) => s.(procs := s.procs[i := Running(map[])])
    case Charges(i, k, change) => s.(procs := s.procs[i := Running(Charged(s.procs[i].cache, k, change))])
    case Flushes(i, slashLast) => Emptied(s, i, slashLast)
    case Creates(i, d, size) => s.(disk := s.disk[d := Record(size, 0)])
  }

  // ---------------------------------------------------------------------- locks, in every run

  predicate Caches(cache: Table, d: Path) { if d == [] then Slash in cache || Empty in cache else Named(d) in cache }

  predicate Owns(s: State, i: nat)
    requires i < |s.procs|
  {
    && (forall k :: k in Cache(s.procs[i]) ==>
         Proper(k) && PathOf(k) in s.disk && PathOf(k) in s.locks && s.locks[PathOf(k)] == i)
    && (s.procs[i].Waiting? ==> Proper(s.procs[i].k))
  }

  /** A lock is held by exactly the process that caches its record; a waiting process holds none. */
  ghost predicate Inv(s: State)
  {
    && (forall i :: 0 <= i < |s.procs| ==> Owns(s, i))
    && (forall d :: d in s.locks ==> s.locks[d] < |s.procs| && Caches(Cache(s.procs[s.locks[d]]), d))
  }

  lemma LockedOnDisk(s: State, d: Path)
    requires Inv(s) && d in s.locks
    ensures d in s.disk
  {
    assert Owns(s, s.locks[d]);
  }

  lemma EmptiedInv(s: State, i: nat, slashLast: bool)
    requires Inv(s) && i < |s.procs|
    ensures Inv(Emptied(s, i, slashLast))
  {
    var t := Emptied(s, i, slashLast);
    forall j | 0 <= j < |t.procs| ensures Owns(t, j) {
      assert Owns(s, j);
    }
  }

  lemma LockedInv(s: State, i: nat, k: Key)
    requires Inv(s) && i < |s.procs| && Proper(k) && PathOf(k) in s.disk
    requires (PathOf(k) in s.locks ==> s.locks[PathOf(k)] == i)
    ensures Inv(Locked(s, i, k))
  {
    var t := Locked(s, i, k);
    forall j | 0 <= j < |t.procs| ensures Owns(t, j) {
      assert Owns(s, j);
    }
  }

  lemma WaitingInv(s: State, i: nat, p: Process)
    requires Inv(s) && i < |s.procs| && Cache(s.procs[i]) == map[] == Cache(p) && (p.Waiting? ==> Proper(p.k))
    ensures Inv(s.(procs := s.procs[i := p]))
  {
    var t := s.(procs := s.procs[i := p]);
    forall j | 0 <= j < |t.procs| ensures Owns(t, j) {
      assert Owns(s, j);
    }
  }

  lemma ChargeInv(s: State, i: nat, k: Key, change: int)
    requires Inv(s) && Enabled(s, Charges(i, k, change))
    ensures Inv(Next(s, Charges(i, k, change)))
  {
    var t := Next(s, Charges(i, k, change));
    assert Owns(s, i);
    forall j | 0 <= j < |t.procs| ensures Owns(t, j) {
      assert Owns(s, j);
    }
  }

  lemma CreateInv(s: State, i: nat, d: Path, size: int)
    requires Inv(s) && Enabled(s, Creates(i, d, size))
    ensures Inv(Next(s, Creates(i, d, size))) && d !in s.locks
  {
    var t := Next(s, Creates(i, d, size));
    forall j | 0 <= j < |t.procs| ensures Owns(t, j) {
      assert Owns(s, j);
    }
    if d in s.locks { LockedOnDisk(s, d); }
  }

  /** Every step, under whatever spelling, keeps locks and caches in agreement. */
  lemma NextInv(s: State, step: Step)
    requires Inv(s) && Enabled(s, step)
    ensures Inv(Next(s, step))
  {
    match step
    case Load(i, k, slashLast) =>
      if PathOf(k) in s.locks && s.locks[PathOf(k)] != i {
        EmptiedInv(s, i, slashLast);
        WaitingInv(Emptied(s, i, slashLast), i, Waiting(k));
      } else {
        LockedInv(s, i, k);
      }
    case Granted(i) =>
      assert Owns(s, i);
      LockedInv(s, i, s.procs[i].k);
    case Refused(i) => WaitingInv(s, i, Running(map[]));
    case Charges(i, k, change) => ChargeInv(s, i, k, change);
    case Flushes(i, slashLast) => EmptiedInv(s, i, slashLast);
    case Creates(i, d, size) => CreateInv(s, i, d, size);
  }

  /** At most one process caches a record. */
  lemma OneCacher(s: State, i: nat, j: nat, k: Key, m: Key)
    requires Inv(s) && i < |s.procs| && j < |s.procs| && k in Cache(s.procs[i]) && m in Cache(s.procs[j])
    requires PathOf(k) == PathOf(m)
    ensures i == j
  {
    assert Owns(s, i) && Owns(s, j);
  }

  lemma WaitingHoldsNothing(s: State, i: nat, d: Path)
    requires Inv(s) && i < |s.procs| && s.procs[i].Waiting? && d in s.locks
    ensures s.locks[d] != i
  {
    assert Caches(Cache(s.procs[s.locks[d]]), d);
  }

  /** `i` waits for a lock that `j` holds. */
  predicate WaitsFor(s: State, i: nat, j: nat)
  {
    i < |s.procs| && s.procs[i].Waiting? && PathOf(s.procs[i].k) in s.locks && s.locks[PathOf(s.procs[i].k)] == j
  }

  /** Whoever is waited for is running, so chains of waiting processes have one link and there is no cycle; and its
      flush lets the waiting one go on. */
  lemma NoDeadlock(s: State, i: nat, j: nat, slashLast: bool)
    requires Inv(s) && WaitsFor(s, i, j)
    ensures j < |s.procs| && s.procs[j].Running? && forall k :: !WaitsFor(s, j, k)
    ensures Enabled(s, Flushes(j, slashLast)) && Enabled(Next(s, Flushes(j, slashLast)), Granted(i))
  {
    assert Caches(Cache(s.procs[j]), PathOf(s.procs[i].k));
    LockedOnDisk(s, PathOf(s.procs[i].k));
  }

  // ---------------------------------------------------------------------- records, as if there were one copy

  /** A step that does not mix the spellings of the root directory: a second load in a process reads the record that
      the first one shows, and a charge finds the other spelling not cached. */
  predicate OneCopy(s: State, step: Step)
    requires Enabled(s, step)
  {
    match step
    case Load(i, k, _) => Sees(s.disk, Cache(s.procs[i]), k)
    case Charges(i, k, change) => change == 0 || Alone(Cache(s.procs[i]), k)
    case _ => true
  }

  predicate Clean(s: State, i: nat)
    requires i < |s.procs|
  {
    && Agree(Cache(s.procs[i]))
    && forall k :: k in Cache(s.procs[i]) && !Cache(s.procs[i])[k].dirty ==>
         PathOf(k) in s.disk && Cache(s.procs[i])[k].record == s.disk[PathOf(k)]
  }

  ghost predicate Agreed(s: State) { forall i :: 0 <= i < |s.procs| ==> Clean(s, i) }

  /** The record as its holder sees it. */
  function RecordAt(s: State, d: Path): Record
    requires d in s.disk
  {
    if d in s.locks && s.locks[d] < |s.procs| && Caches(Cache(s.procs[s.locks[d]]), d)
    then Cache(s.procs[s.locks[d]])[Held(Cache(s.procs[s.locks[d]]), d, true)].record
    else s.disk[d]
  }

  function Shown(s: State): Disk { map d | d in s.disk :: RecordAt(s, d) }

  /** What a step does to the records if there were one copy of each. */
  function Applied(m: Disk, step: Step): Disk
  {
    match step
    case Charges(_, k, change) => if PathOf(k) in m
           && change != 0 then m[PathOf(k) := Updated(m[PathOf(k)], change)] else m
    case Creates(_, d, size) => m[d := Record(size, 0)]
    case _ => m
  }

  lemma EmptiedKeeps(s: State, i: nat, slashLast: bool)
    requires Inv(s) && Agreed(s) && i < |s.procs|
    ensures Agreed(Emptied(s, i, slashLast)) && Shown(Emptied(s, i, slashLast)) == Shown(s)
  {
    var t := Emptied(s, i, slashLast);
    assert Owns(s, i) && Clean(s, i);
    forall j | 0 <= j < |t.procs| ensures Clean(t, j) {
      assert Owns(s, j) && Clean(s, j);
    }
    forall d | d in s.disk ensures RecordAt(t, d) == RecordAt(s, d) {
      EmptiedRecord(s, i, slashLast, d);
    }
  }

  lemma EmptiedRecord(s: State, i: nat, slashLast: bool, d: Path)
    requires Inv(s) && Agreed(s) && i < |s.procs| && d in s.disk
    ensures RecordAt(Emptied(s, i, slashLast), d) == RecordAt(s, d)
  {
    assert Owns(s, i) && Clean(s, i);
  }

  lemma LockedKeeps(s: State, i: nat, k: Key)
    requires Inv(s) && Agreed(s) && i < |s.procs| && Proper(k) && PathOf(k) in s.disk
    requires k !in Cache(s.procs[i]) && (PathOf(k) in s.locks ==> s.locks[PathOf(k)] == i)
    requires Sees(s.disk, Cache(s.procs[i]), k)
    ensures Agreed(Locked(s, i, k)) && Shown(Locked(s, i, k)) == Shown(s)
  {
    var t := Locked(s, i, k);
    forall j | 0 <= j < |t.procs| ensures Clean(t, j) {
      assert Clean(s, j);
    }
    forall x | x in s.disk ensures RecordAt(t, x) == RecordAt(s, x) {
    }
  }

  lemma WaitingKeeps(s: State, i: nat, p: Process)
    requires Inv(s) && Agreed(s) && i < |s.procs| && Cache(s.procs[i]) == map[] == Cache(p)
    ensures Agreed(s.(procs := s.procs[i := p])) && Shown(s.(procs := s.procs[i := p])) == Shown(s)
  {
    var t := s.(procs := s.procs[i := p]);
    forall j | 0 <= j < |t.procs| ensures Clean(t, j) {
      assert Clean(s, j);
    }
    forall x | x in s.disk ensures RecordAt(t, x) == RecordAt(s, x) {
    }
  }

  lemma ChargeKeeps(s: State, i: nat, k: Key, change: int)
    requires Inv(s) && Agreed(s) && Enabled(s, Charges(i, k, change)) && OneCopy(s, Charges(i, k, change))
    ensures Agreed(Next(s, Charges(i, k, change)))
    ensures Shown(Next(s, Charges(i, k, change))) == Applied(Shown(s), Charges(i, k, change))
  {
    var t := Next(s, Charges(i, k, change));
    forall j | 0 <= j < |t.procs| ensures Clean(t, j) {
      assert Clean(s, j);
    }
    forall x | x in s.disk ensures RecordAt(t, x) == Applied(Shown(s), Charges(i, k, change))[x] {
      ChargeRecord(s, i, k, change, x);
    }
  }

  lemma ChargeRecord(s: State, i: nat, k: Key, change: int, x: Path)
    requires Inv(s) && Agreed(s) && x in s.disk
    requires Enabled(s, Charges(i, k, change)) && OneCopy(s, Charges(i, k, change))
    ensures RecordAt(Next(s, Charges(i, k, change)), x) == Applied(Shown(s), Charges(i, k, change))[x]
  {
    assert Owns(s, i) && Clean(s, i);
  }

  lemma CreateKeeps(s: State, i: nat, d: Path, size: int)
    requires Inv(s) && Agreed(s) && Enabled(s, Creates(i, d, size))
    ensures Agreed(Next(s, Creates(i, d, size)))
    ensures Shown(Next(s, Creates(i, d, size))) == Applied(Shown(s), Creates(i, d, size))
  {
    var t := Next(s, Creates(i, d, size));
    CreateInv(s, i, d, size);
    forall j | 0 <= j < |t.procs| ensures Clean(t, j) {
      assert Owns(s, j) && Clean(s, j);
    }
    forall x | x in t.disk ensures RecordAt(t, x) == Applied(Shown(s), Creates(i, d, size))[x] {
    }
  }

  /** No such step loses a charge or shows an old record: together the processes act on one copy. */
  lemma NextKeeps(s: State, step: Step)
    requires Inv(s) && Agreed(s) && Enabled(s, step) && OneCopy(s, step)
    ensures Inv(Next(s, step)) && Agreed(Next(s, step)) && Shown(Next(s, step)) == Applied(Shown(s), step)
  {
    NextInv(s, step);
    match step
    case Load(i, k, slashLast) =>
      if PathOf(k) in s.locks && s.locks[PathOf(k)] != i {
        EmptiedInv(s, i, slashLast);
        EmptiedKeeps(s, i, slashLast);
        WaitingKeeps(Emptied(s, i, slashLast), i, Waiting(k));
      } else {
        LockedKeeps(s, i, k);
      }
    case Granted(i) =>
      assert Owns(s, i);
      LockedKeeps(s, i, s.procs[i].k);
    case Refused(i) => WaitingKeeps(s, i, Running(map[]));
    case Charges(i, k, change) => ChargeKeeps(s, i, k, change);
    case Flushes(i, slashLast) => EmptiedKeeps(s, i, slashLast);
    case Creates(i, d, size) => CreateKeeps(s, i, d, size);
  }

  /** And every other step leaves the two spellings in one process with different records. */
  lemma NextExactly(s: State, step: Step)
    requires Inv(s) && Agreed(s) && Enabled(s, step)
    requires step.Charges? ==> Cache(s.procs[step.i])[step.k].record.inuse + step.change >= 0
    ensures OneCopy(s, step) <==> Agreed(Next(s, step)) && Shown(Next(s, step)) == Applied(Shown(s), step)
  {
    if OneCopy(s, step) {
      NextKeeps(s, step);
    } else if step.Load? {
      LoadDiffers(s, step.i, step.k, step.slashLast);
    } else {
      ChargeDiffers(s, step.i, step.k, step.change);
    }
  }

  lemma LoadDiffers(s: State, i: nat, k: Key, slashLast: bool)
    requires Inv(s) && Enabled(s, Load(i, k, slashLast)) && !Sees(s.disk, Cache(s.procs[i]), k)
    ensures !Agreed(Next(s, Load(i, k, slashLast)))
  {
    assert Owns(s, i);
    var t := Next(s, Load(i, k, slashLast));
    assert !Clean(t, i);
  }

  lemma ChargeDiffers(s: State, i: nat, k: Key, change: int)
    requires Agreed(s) && Enabled(s, Charges(i, k, change)) && change != 0 && !Alone(Cache(s.procs[i]), k)
    requires Cache(s.procs[i])[k].record.inuse + change >= 0
    ensures !Agreed(Next(s, Charges(i, k, change)))
  {
    assert Clean(s, i);
    var t := Next(s, Charges(i, k, change));
    assert !Clean(t, i);
  }

  // ---------------------------------------------------------------------- whole runs

  ghost predicate Runs(s: State, steps: seq<Step>, t: State)
    decreases |steps|
  {
    if steps == [] then s == t else Enabled(s, steps[0]) && Runs(Next(s, steps[0]), steps[1..], t)
  }

  /** A run in which no process mixes the spellings of the root directory. */
  ghost predicate Unmixed(s: State, steps: seq<Step>)
    decreases |steps|
  {
    steps == [] || (Enabled(s, steps[0]) && OneCopy(s, steps[0]) && Unmixed(Next(s, steps[0]), steps[1..]))
  }

  function AppliedAll(m: Disk, steps: seq<Step>): Disk
    decreases |steps|
  {
    if steps == [] then m else AppliedAll(Applied(m, steps[0]), steps[1..])
  }

  /** Processes that have just started. */
  lemma StartHolds(disk: Disk, n: nat)
    ensures var s := State(disk, map[], seq(n, i => Running(map[]))); Inv(s) && Agreed(s) && Shown(s) == disk
  {
    var s := State(disk, map[], seq(n, i => Running(map[])));
    forall i | 0 <= i < |s.procs| ensures Owns(s, i) && Clean(s, i) {
    }
  }

  /** Locks and caches agree after any run. */
  lemma {:induction false} RunInv(s: State, steps: seq<Step>, t: State)
    requires Inv(s) && Runs(s, steps, t)
    ensures Inv(t)
    decreases |steps|
  {
    if steps == [] {
    } else {
      NextInv(s, steps[0]);
      RunInv(Next(s, steps[0]), steps[1..], t);
    }
  }

  /** After any run that does not mix the spellings, every record is what its charges make it, in the order in which
      they happened, whoever made them and wherever the record is cached. */
  lemma {:induction false} NoChargeIsLost(s: State, steps: seq<Step>, t: State)
    requires Inv(s) && Agreed(s) && Runs(s, steps, t) && Unmixed(s, steps)
    ensures Inv(t) && Agreed(t) && Shown(t) == AppliedAll(Shown(s), steps)
    decreases |steps|
  {
    if steps == [] {
    } else {
      NextKeeps(s, steps[0]);
      NoChargeIsLost(Next(s, steps[0]), steps[1..], t);
    }
  }

  /** What a step charges to the record in `d`, whoever does it and however it is spelled. */
  function ChangeTo(step: Step, d: Path): int { if step.Charges? && PathOf(step.k) == d then step.change else 0 }

  function ChangesTo(steps: seq<Step>, d: Path): int
    decreases |steps|
  {
    if steps == [] then 0 else ChangeTo(steps[0], d) + ChangesTo(steps[1..], d)
  }

  /** Added up one after the other, the charges never take the use below zero. */
  predicate NeverNegative(inuse: int, steps: seq<Step>, d: Path)
    decreases |steps|
  {
    inuse >= 0 && (steps == [] || NeverNegative(inuse + ChangeTo(steps[0], d), steps[1..], d))
  }

  /** A record has the use it began with plus all charges to it, by all processes together; and once no process holds
      it, so does the one on disk. */
  lemma {:induction false} ChargesAddUp(s: State, steps: seq<Step>, t: State, d: Path)
    requires Inv(s) && Agreed(s) && Runs(s, steps, t) && Unmixed(s, steps)
    requires d in s.disk && NeverNegative(Shown(s)[d].inuse, steps, d)
    ensures d in t.disk && Shown(t)[d].size == Shown(s)[d].size
    ensures Shown(t)[d].inuse == Shown(s)[d].inuse + ChangesTo(steps, d)
    ensures d !in t.locks ==> t.disk[d] == Shown(t)[d]
    decreases |steps|
  {
    if steps == [] {
    } else {
      NextKeeps(s, steps[0]);
      var u := Next(s, steps[0]);
      assert d in Applied(Shown(s), steps[0]);
      assert Shown(u)[d].inuse == Shown(s)[d].inuse + ChangeTo(steps[0], d) by { AppliedTo(s, steps[0], d); }
      ChargesAddUp(u, steps[1..], t, d);
    }
  }

  lemma AppliedTo(s: State, step: Step, d: Path)
    requires Enabled(s, step) && d in s.disk && Shown(s)[d].inuse + ChangeTo(step, d) >= 0
    ensures var m := Applied(Shown(s), step);
            d in m && m[d].size == Shown(s)[d].size && m[d].inuse == Shown(s)[d].inuse + ChangeTo(step, d)
  {
  }

  /** The steps of one process that charges the root directory under both spellings. */
  function Mixed(a: int, b: int, slashLast: bool): seq<Step>
  {
    [Load(0, Slash, true), Charges(0, Slash, a), Load(0, Empty, true), Charges(0, Empty, b), Flushes(0, slashLast)]
  }

  function MixedEnd(record: Record, a: int, b: int, slashLast: bool): State
  {
    State(map[[] := if slashLast then Updated(record, a) else Updated(record, b)], map[], [Running(map[])])
  }

  /** A run that mixes them loses a charge, with one process already. */
  lemma MixedLoses(record: Record, a: nat, b: nat, slashLast: bool)
    requires record.inuse >= 0 && a > 0 && b > 0
    ensures var s := State(map[[] := record], map[], [Running(map[])]);
            && Runs(s, Mixed(a, b, slashLast), MixedEnd(record, a, b, slashLast))
            && Shown(MixedEnd(record, a, b, slashLast)) != AppliedAll(Shown(s), Mixed(a, b, slashLast))
  {
    var s, end := State(map[[] := record], map[], [Running(map[])]), MixedEnd(record, a, b, slashLast);
    MixedRun(record, a, b, slashLast);
    MixedSum(record, a, b, slashLast);
    assert Shown(s) == map[[] := record];
    assert Shown(end)[[]].inuse < record.inuse + a + b;
  }

  lemma MixedRun(record: Record, a: int, b: int, slashLast: bool)
    requires a != 0 && b != 0
    ensures Runs(State(map[[] := record], map[], [Running(map[])]), Mixed(a, b, slashLast),
              MixedEnd(record, a, b, slashLast))
  {
    var steps, end := Mixed(a, b, slashLast), MixedEnd(record, a, b, slashLast);
    var slash, empty := Entry(Updated(record, a), true), Entry(Updated(record, b), true);
    MixedLast(record, a, b, slashLast);
    MixedCharge(record, a, b);
    MixedLoad(record, slash);
    var s1, s2 := MixedState(record, map[Slash := Entry(record, false)]), MixedState(record, map[Slash := slash]);
    var s3 := MixedState(record, map[Slash := slash, Empty := Entry(record, false)]);
    var s4 := MixedState(record, map[Slash := slash, Empty := empty]);
    OneStep(s4, steps[4], end, [], end);
    OneStep(s3, steps[3], s4, [steps[4]], end);
    OneStep(s2, steps[2], s3, [steps[3]] + [steps[4]], end);
    OneStep(s1, steps[1], s2, [steps[2]] + ([steps[3]] + [steps[4]]), end);
    OneStep(State(map[[] := record], map[], [Running(map[])]), steps[0], s1, steps[1..], end);
  }

  lemma MixedLoad(record: Record, slash: Entry)
    ensures var s, step := State(map[[] := record], map[], [Running(map[])]), Load(0, Slash, true);
            Enabled(s, step) && Next(s, step) == MixedState(record, map[Slash := Entry(record, false)])
    ensures var s, step := MixedState(record, map[Slash := slash]), Load(0, Empty, true);
            Enabled(s, step) && Next(s, step) == MixedState(record, map[Slash := slash, Empty := Entry(record, false)])
  {
  }

  /** One process that holds the root directory. */
  function MixedState(record: Record, cache: Table): State { State(map[[] := record], map[[] := 0], [Running(cache)]) }

  lemma MixedCharge(record: Record, a: int, b: int)
    requires a != 0 && b != 0
    ensures var slash, empty := Entry(Updated(record, a), true), Entry(Updated(record, b), true);
            var s1, s2 := MixedState(record, map[Slash := Entry(record, false)]),
                MixedState(record, map[Slash := slash]);
            var s3 := MixedState(record, map[Slash := slash, Empty := Entry(record, false)]);
            && Enabled(s1, Charges(0, Slash, a)) && Next(s1, Charges(0, Slash, a)) == s2
            && Enabled(s3, Charges(0, Empty, b))
            && Next(s3, Charges(0, Empty, b)) == MixedState(record, map[Slash := slash, Empty := empty])
  {
    var slash, empty := Entry(Updated(record, a), true), Entry(Updated(record, b), true);
    var one: Table, two: Table := map[Slash := Entry(record, false)],
        map[Slash := slash, Empty := Entry(record, false)];
    assert Charged(one, Slash, a) == map[Slash := slash];
    assert Charged(two, Empty, b) == map[Slash := slash, Empty := empty];
  }

  lemma MixedLast(record: Record, a: int, b: int, slashLast: bool)
    ensures var slash, empty := Entry(Updated(record, a), true), Entry(Updated(record, b), true);
            var s4 := MixedState(record, map[Slash := slash, Empty := empty]);
            Enabled(s4, Flushes(0, slashLast)) && Next(s4, Flushes(0, slashLast)) == MixedEnd(record, a, b, slashLast)
  {
    var slash, empty := Entry(Updated(record, a), true), Entry(Updated(record, b), true);
    var s4 := MixedState(record, map[Slash := slash, Empty := empty]);
    var end := MixedEnd(record, a, b, slashLast);
    assert Next(s4, Flushes(0, slashLast)).disk == end.disk;
    assert Next(s4, Flushes(0, slashLast)).locks == end.locks;
  }

  lemma OneStep(s: State, step: Step, t: State, rest: seq<Step>, end: State)
    requires Enabled(s, step) && Next(s, step) == t && Runs(t, rest, end)
    ensures Runs(s, [step] + rest, end)
  {
    assert ([step] + rest)[1..] == rest;
  }

  lemma MixedSum(record: Record, a: nat, b: nat, slashLast: bool)
    requires record.inuse >= 0 && a > 0 && b > 0
    ensures var disk: Disk := map[[] := record];
            [] in AppliedAll(disk, Mixed(a, b, slashLast))
            && AppliedAll(disk, Mixed(a, b, slashLast))[[]].inuse == record.inuse + a + b
  {
    var steps, disk: Disk := Mixed(a, b, slashLast), map[[] := record];
    var one: Disk := map[[] := Updated(record, a)];
    var two: Disk := map[[] := Updated(Updated(record, a), b)];
    assert Applied(disk, steps[1]) == one && Applied(one, steps[3]) == two;
    assert AppliedAll(two, steps[4..]) == two by { assert steps[4..][1..] == []; }
    assert AppliedAll(one, steps[3..]) == two by { assert steps[3..][1..] == steps[4..]; }
    assert AppliedAll(one, steps[2..]) == two by { assert steps[2..][1..] == steps[3..]; }
    assert AppliedAll(disk, steps[1..]) == two by { assert steps[1..][1..] == steps[2..]; }
  }
}
