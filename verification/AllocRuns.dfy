/** Whole runs of the allocator against accounts that have no cache. */
module AllocRuns {
  import opened Ledger
  import opened AllocCache

  datatype Event =
    | Writes(p: Path, offset: nat, length: nat)
    | Truncates(p: Path, size: nat)
    | Unlinks(p: Path)
    | Renames(p: Path, q: Path)
    | Creates(p: Path)
    | MakesDir(p: Path)
    | Allocates(p: Path, quota: int)
    | Stats(p: Path, bsize: nat)
    | Lists(p: Path)
    | Flushes

  datatype Answer = Status(result: int) | Space(blocks: int, bavail: int) | Allocation(d: Path, size: int, inuse: int)

  /** The operations whose accounting is exact: size changes of regular files that the file system carries out, writes
      of no bytes only where they are charged nothing, and new allocations of a size that is not negative. */
  predicate InScope(l: Ledger, e: Event)
  {
    && [] in l.allocs
    && match e
       case Writes(p, offset, length) =>
         HomeHolds(l, p);
         p in l.files && (length > 0 || Due(l, p, WriteSize(l, p, offset, 0)) == 0)
       case Truncates(p, _) => p in l.files
       case Unlinks(p) => p in l.files
       case Renames(p, q) =>
         HomeHolds(l, p); HomeHolds(l, q);
         p in l.files && MayHoldFile(l, q) && p != q && Fits(l, p, 0) && Home(Released(l, p), q) in l.allocs
             && Fits(Released(l, p), q, l.files[p])
       case Creates(p) => MayHoldFile(l, p) && p !in l.files
       case MakesDir(p) => MayHoldFile(l, p) && p !in l.files
       case Allocates(p, quota) => MayHoldFile(l, p) && p !in l.files && p !in l.allocs && quota >= 0
       case Stats(_, bsize) => bsize > 0
       case _ => true
  }

  function Resettled(l: Ledger, p: Path, size: nat): Ledger
    requires [] in l.allocs
  {
    HomeHolds(l, p);
    if Fits(l, p, size) then Resize(l, p, size) else l
  }

  function After(l: Ledger, e: Event): Ledger
    requires InScope(l, e)
  {
    match e
    case Writes(p, offset, length) => HomeHolds(l, p); Written(l, p, offset, length)
    case Truncates(p, size) => Resettled(l, p, size)
    case Unlinks(p) => HomeHolds(l, p); if Fits(l, p, 0) then Remove(l, p) else l
    case Renames(p, q) => HomeHolds(l, p); HomeHolds(l, q); Renamed(l, p, q)
    case Creates(p) => l.(files := l.files[p := 0])
    case MakesDir(p) => MakeDir(l, p)
    case Allocates(p, quota) =>
      HomeHolds(l, p);
      if Avail(l.allocs[Home(l, p)]) > quota then Allocate(l, p, quota) else l
    case _ => l
  }

  function Reply(ok: bool): seq<Answer> { [Status(if ok then 0 else -1)] }

  function Answers(l: Ledger, e: Event): seq<Answer>
    requires InScope(l, e)
  {
    match e
    case Writes(p, offset, length) =>
      HomeHolds(l, p);
      [Status(if Fits(l, p, WriteSize(l, p, offset, length)) then length else -1)]
    case Truncates(p, size) => HomeHolds(l, p); Reply(Fits(l, p, size))
    case Unlinks(p) => HomeHolds(l, p); Reply(Fits(l, p, 0))
    case Renames(_, _) => Reply(true)
    case Creates(_) => Reply(true)
    case MakesDir(_) => Reply(true)
    case Allocates(p, quota) => HomeHolds(l, p); Reply(Avail(l.allocs[Home(l, p)]) > quota)
    case Stats(p, bsize) =>
      HomeHolds(l, p);
      var shown := InBlocks(l.allocs[Home(l, p)], bsize);
      [Space(shown.0, shown.1)]
    case Lists(p) =>
      NearestIsLongest(l.allocs.Keys, p, []);
      var d := Nearest(l.allocs.Keys, p);
      [Allocation(d, l.allocs[d].size, l.allocs[d].inuse)]
    case Flushes => []
  }

  // ---------------------------------------------------------------------- spellings

  /** The spellings under which the root directory's record was looked up since the last flush or new
      allocation, those under which it was charged, and what it was then. */
  datatype Track = Track(used: set<Key>, dirty: set<Key>, base: Record)

  function Fresh(l: Ledger): Track
    requires [] in l.allocs
  {
    Track({}, {}, l.allocs[[]])
  }

  /** A lookup, and a charge if it is not zero, under a spelling: the record on disk must be the current one if it
      has to be read again under the second spelling, and there is no charge once both are in use. */
  predicate Allows(l: Ledger, t: Track, k: Key, change: int)
    requires [] in l.allocs
  {
    k.Named? || ((k in t.used || Other(k) !in t.used || l.allocs[[]] == t.base) && (change == 0 || Other(k) !in t.used))
  }

  function Follow(t: Track, k: Key, change: int): Track
  {
    if k.Named? then t else Track(t.used + {k}, if change != 0 then t.dirty + {k} else t.dirty, t.base)
  }

  function PayerOf(l: Ledger, p: Path): Key { RootKey(l.allocs.Keys, DirKey(p)) }

  /** The size an event gives to the file of its first path. */
  function SizeAfter(l: Ledger, e: Event): nat
    requires InScope(l, e)
  {
    match e
    case Writes(p, offset, length) => WriteSize(l, p, offset, length)
    case Truncates(_, size) => size
    case _ => 0
  }

  function DueTo(l: Ledger, p: Path, size: int): int
    requires [] in l.allocs
  {
    HomeHolds(l, p);
    Due(l, p, size)
  }

  function AfterRelease(l: Ledger, p: Path): Ledger
    requires [] in l.allocs
  {
    HomeHolds(l, p);
    Released(l, p)
  }

  predicate Succeeds(l: Ledger, p: Path, quota: int)
    requires [] in l.allocs
  {
    HomeHolds(l, p);
    Avail(l.allocs[Home(l, p)]) > quota
  }

  /** The event does not mix the spellings of the root directory. This speaks of the accounts and of the events
      since the last flush only. */
  predicate Allowed(l: Ledger, t: Track, e: Event)
    requires InScope(l, e)
  {
    match e
    case Renames(p, q) =>
      && Allows(l, t, PayerOf(l, p), DueTo(l, p, 0))
      && Allows(AfterRelease(l, p), Follow(t, PayerOf(l, p), DueTo(l, p, 0)), PayerOf(l, q),
           DueTo(AfterRelease(l, p), q, l.files[p]))
    case Allocates(p, quota) =>
      && Allows(l, t, PayerOf(l, p), 0)
      && (Succeeds(l, p, quota) && quota != 0 && !PayerOf(l, p).Named? ==> Other(PayerOf(l, p)) !in t.dirty)
    case Stats(p, _) => Allows(l, t, PayerOf(l, p), 0)
    case Lists(p) => Allows(l, t, RootKey(l.allocs.Keys, KeyOf(p)), 0)
    case Creates(_) => true
    case MakesDir(_) => true
    case Flushes => true
    case _ => Allows(l, t, PayerOf(l, e.p), DueTo(l, e.p, SizeAfter(l, e)))
  }

  function TrackAfter(l: Ledger, t: Track, e: Event): Track
    requires InScope(l, e)
  {
    match e
    case Renames(p, q) =>
      Follow(Follow(t, PayerOf(l, p), DueTo(l, p, 0)), PayerOf(l, q), DueTo(AfterRelease(l, p), q, l.files[p]))
    case Allocates(p, quota) =>
      AfterHolds(l, e);
      if Succeeds(l, p, quota) then Fresh(After(l, e)) else Follow(t, PayerOf(l, p), 0)
    case Stats(p, _) => Follow(t, PayerOf(l, p), 0)
    case Lists(p) => Follow(t, RootKey(l.allocs.Keys, KeyOf(p)), 0)
    case Creates(_) => t
    case MakesDir(_) => t
    case Flushes => Fresh(l)
    case _ => Follow(t, PayerOf(l, e.p), DueTo(l, e.p, SizeAfter(l, e)))
  }

  /** Every event of the run is in scope and allowed. */
  predicate Meets(l: Ledger, t: Track, events: seq<Event>)
    decreases |events|
  {
    events == [] ||
    (&& InScope(l, events[0]) && Allowed(l, t, events[0])
     && Meets(After(l, events[0]), TrackAfter(l, t, events[0]), events[1..]))
  }

  // ---------------------------------------------------------------------- runs without a cache

  /** What a run leaves and answers when nothing is cached. */
  ghost predicate Replays(l: Ledger, events: seq<Event>, after: Ledger, answers: seq<Answer>)
    decreases |events|
  {
    if events == [] then after == l && answers == []
    else
      && InScope(l, events[0]) && Answers(l, events[0]) <= answers
      && Replays(After(l, events[0]), events[1..], after, answers[|Answers(l, events[0])|..])
  }

  function WithoutFlushes(events: seq<Event>): seq<Event>
  {
    if events == [] then [] else (if events[0].Flushes? then [] else [events[0]]) + WithoutFlushes(events[1..])
  }

  lemma ReplaysCons(l: Ledger, e: Event, rest: seq<Event>, after: Ledger, answers: seq<Answer>)
    requires [] in l.allocs
    ensures Replays(l, [e] + rest, after, answers) <==>
              && InScope(l, e) && Answers(l, e) <= answers
              && Replays(After(l, e), rest, after, answers[|Answers(l, e)|..])
  {
    assert ([e] + rest)[1..] == rest;
  }

  lemma ReplaysFlush(l: Ledger, rest: seq<Event>, after: Ledger, answers: seq<Answer>)
    requires [] in l.allocs
    ensures Replays(l, [Flushes] + rest, after, answers) <==> Replays(l, rest, after, answers)
  {
    ReplaysCons(l, Flushes, rest, after, answers);
    assert answers[0..] == answers;
  }

  /** Without a cache a flush is nothing. */
  lemma {:induction false} FlushesAreNothing(l: Ledger, events: seq<Event>, after: Ledger, answers: seq<Answer>)
    requires [] in l.allocs
    ensures Replays(l, events, after, answers) <==> Replays(l, WithoutFlushes(events), after, answers)
    decreases |events|
  {
    if events == [] {
    } else {
      var e, rest := events[0], WithoutFlushes(events[1..]);
      assert events == [e] + events[1..];
      if e.Flushes? {
        assert WithoutFlushes(events) == rest;
        ReplaysFlush(l, events[1..], after, answers);
        FlushesAreNothing(l, events[1..], after, answers);
      } else {
        assert WithoutFlushes(events) == [e] + rest;
        ReplaysCons(l, e, events[1..], after, answers);
        ReplaysCons(l, e, rest, after, answers);
        if InScope(l, e) && Answers(l, e) <= answers {
          AfterHolds(l, e);
          FlushesAreNothing(After(l, e), events[1..], after, answers[|Answers(l, e)|..]);
        }
      }
    }
  }

  /** A run leaves and answers one thing only. */
  lemma {:induction false} ReplaysOnce(l: Ledger, events: seq<Event>, a: Ledger, xs: seq<Answer>, b: Ledger,
      ys: seq<Answer>)
    requires Replays(l, events, a, xs) && Replays(l, events, b, ys)
    ensures a == b && xs == ys
    decreases |events|
  {
    if events == [] {
    } else {
      var now := Answers(l, events[0]);
      ReplaysOnce(After(l, events[0]), events[1..], a, xs[|now|..], b, ys[|now|..]);
      assert xs == now + xs[|now|..] && ys == now + ys[|now|..];
    }
  }

  lemma AfterHolds(l: Ledger, e: Event)
    requires InScope(l, e)
    ensures [] in After(l, e).allocs
  {
  }

  /** Every operation in scope keeps the accounts exact and within quota. */
  lemma AfterKeeps(l: Ledger, e: Event)
    requires Balanced(l) && InScope(l, e)
    ensures Balanced(After(l, e))
  {
    match e
    case Writes(p, offset, length) => HomeHolds(l, p); WrittenKeeps(l, p, offset, length);
    case Truncates(p, size) => ResettledKeeps(l, p, size);
    case Unlinks(p) => RemoveKeeps(l, p);
    case Renames(p, q) => HomeHolds(l, p); HomeHolds(l, q); RenameKeeps(l, p, q);
    case Creates(p) => CreateKeepsBalance(l, p);
    case MakesDir(p) => MakeDirKeeps(l, p);
    case Allocates(p, quota) =>
      HomeHolds(l, p);
      if Avail(l.allocs[Home(l, p)]) > quota { AllocateKeeps(l, p, quota); }
    case _ =>
  }

  lemma WrittenKeeps(l: Ledger, p: Path, offset: nat, length: nat)
    requires Balanced(l) && p in l.files && Home(l, p) in l.allocs
    requires length > 0 || Due(l, p, WriteSize(l, p, offset, 0)) == 0
    ensures Balanced(Written(l, p, offset, length))
  {
    if length > 0 {
      ResettledKeeps(l, p, WriteSize(l, p, offset, length));
      assert Written(l, p, offset, length) == Resettled(l, p, WriteSize(l, p, offset, length));
    } else {
      UsePositive(l, Home(l, p));
      ChargeNothing(l, Home(l, p));
      assert Written(l, p, offset, length) == l;
    }
  }

  lemma ResettledKeeps(l: Ledger, p: Path, size: nat)
    requires Balanced(l) && p in l.files
    ensures Balanced(Resettled(l, p, size))
  {
    HomeHolds(l, p);
    if Fits(l, p, size) { ResizeKeeps(l, p, size); }
  }

  lemma CreateKeepsBalance(l: Ledger, p: Path)
    requires Balanced(l) && MayHoldFile(l, p) && p !in l.files
    ensures Balanced(l.(files := l.files[p := 0]))
  {
    HomeHolds(l, p);
    UsePositive(l, Home(l, p));
    CreateIsResize(l, p);
    ResizeKeeps(l, p, 0);
  }

  /** A new file of no bytes costs nothing. */
  lemma CreateIsResize(l: Ledger, p: Path)
    requires p !in l.files && Home(l, p) in l.allocs && l.allocs[Home(l, p)].inuse >= 0
    ensures Resize(l, p, 0) == l.(files := l.files[p := 0])
  {
    ChargeNothing(l.(files := l.files[p := 0]), Home(l, p));
  }

  lemma {:induction false} ReplaysOneMore(l: Ledger, events: seq<Event>, mid: Ledger, answers: seq<Answer>, e: Event)
    requires Replays(l, events, mid, answers) && InScope(mid, e)
    ensures Replays(l, events + [e], After(mid, e), answers + Answers(mid, e))
    decreases |events|
  {
    var all := answers + Answers(mid, e);
    if events == [] {
      assert ([e])[1..] == [] && events + [e] == [e] && all == Answers(mid, e);
    } else {
      var n := |Answers(l, events[0])|;
      ReplaysOneMore(After(l, events[0]), events[1..], mid, answers[n..], e);
      OneMoreEvent(events, e);
      MoreAnswers(Answers(l, events[0]), answers, Answers(mid, e));
    }
  }

  lemma OneMoreEvent(events: seq<Event>, e: Event)
    requires events != []
    ensures (events + [e])[0] == events[0] && (events + [e])[1..] == events[1..] + [e]
  {
  }

  lemma MoreAnswers(a: seq<Answer>, b: seq<Answer>, c: seq<Answer>)
    requires a <= b
    ensures a <= b + c && (b + c)[|a|..] == b[|a|..] + c
  {
  }

  // ---------------------------------------------------------------------- the cache behind the accounts

  function Tracked(disk: Disk, table: Table): Track
    requires [] in disk
  {
    var used := set k | k in table && !k.Named?;
    Track(used, (set k | k in used && table[k].dirty), disk[[]])
  }

  function TrackOf(m: Machine): Track
    requires [] in m.disk
  {
    Tracked(m.disk, m.table)
  }

  /** The condition on events is the exact one on the cache. */
  lemma AllowsIsClear(m: Machine, k: Key, change: int)
    requires Sound(m) && PathOf(k) in m.disk && Proper(k)
    ensures Allows(LedgerOf(m), TrackOf(m), k, change) <==> Clear(m.disk, m.table, k, change)
  {
    if !k.Named? && k !in m.table && Other(k) in m.table {
      assert EntryRight(m.disk, m.table, Other(k));
      assert LedgerOf(m).allocs[[]] == m.table[Other(k)].record;
    }
  }

  /** An access is allowed exactly if afterwards both spellings show the one right record. */
  lemma AllowsExactly(m: Machine, k: Key, change: int)
    requires Sound(m) && PathOf(k) in m.disk && Proper(k) && LedgerOf(m).allocs[PathOf(k)].inuse + change >= 0
    ensures var after := Accessed(m.disk, m.table, k, change);
            Allows(LedgerOf(m), TrackOf(m), k, change) <==>
              Agree(after) && View(m.disk, after) == Recharged(View(m.disk, m.table), PathOf(k), change)
  {
    AllowsIsClear(m, k, change);
    AccessExactly(m.disk, m.table, k, change);
  }

  lemma FollowsAccess(disk: Disk, table: Table, k: Key, change: int)
    requires [] in disk && PathOf(k) in disk
    ensures Tracked(disk, Accessed(disk, table, k, change)) == Follow(Tracked(disk, table), k, change)
  {
    var after := Accessed(disk, table, k, change);
    var left, right := Tracked(disk, after), Follow(Tracked(disk, table), k, change);
    assert left.used == right.used;
    assert left.dirty == right.dirty;
  }

  lemma SamePayer(m: Machine, p: Path)
    requires [] in m.disk
    ensures Payer(m, p) == PayerOf(LedgerOf(m), p) && Home(LedgerOf(m), p) in LedgerOf(m).allocs
  {
    HomeHolds(LedgerOf(m), p);
  }

  /** A charge that is allowed, on the machine and in the accounts. */
  lemma AllowedCharge(m: Machine, p: Path, size: int)
    requires Sound(m) && Allows(LedgerOf(m), TrackOf(m), PayerOf(LedgerOf(m), p), DueTo(LedgerOf(m), p, size))
    ensures ClearFor(m, p, size) && Sound(Realloc(m, p, size)) && Home(LedgerOf(m), p) in LedgerOf(m).allocs
    ensures ReallocResult(m, p, size) == if Fits(LedgerOf(m), p, size) then 0 else -1
    ensures LedgerOf(Realloc(m, p, size)) ==
              if Fits(LedgerOf(m), p, size)
                  then Charge(LedgerOf(m), Home(LedgerOf(m), p), Difference(LedgerOf(m), p, size))
              else LedgerOf(m)
    ensures TrackOf(Realloc(m, p, size)) == Follow(TrackOf(m), PayerOf(LedgerOf(m), p), DueTo(LedgerOf(m), p, size))
  {
    SamePayer(m, p);
    PayerOnDisk(m, p);
    AllowsIsClear(m, Payer(m, p), DueTo(LedgerOf(m), p, size));
    ReallocSees(m, p, size);
    ReallocIs(m, p, size);
    FollowsAccess(m.disk, m.table, Payer(m, p), Amount(m, p, size));
  }

  lemma AllowedResize(m: Machine, p: Path, size: nat)
    requires Sound(m) && Allows(LedgerOf(m), TrackOf(m), PayerOf(LedgerOf(m), p), DueTo(LedgerOf(m), p, size))
    ensures var after := Resized(m, p, size, true);
            && Sound(after) && LedgerOf(after) == Resettled(LedgerOf(m), p, size)
            && TrackOf(after) == Follow(TrackOf(m), PayerOf(LedgerOf(m), p), DueTo(LedgerOf(m), p, size))
  {
    AllowedCharge(m, p, size);
  }

  /** A write that is stored completely, of any length: the machine does what the accounts say, also where that makes
      them wrong. */
  lemma AllowedWrite(m: Machine, p: Path, offset: nat, length: nat)
    requires Sound(m) && p in m.files
    requires var l := LedgerOf(m);
             Allows(l, TrackOf(m), PayerOf(l, p), DueTo(l, p, WriteSize(l, p, offset, length)))
    ensures var after, l := WrittenBy(m, p, offset, length, length), LedgerOf(m);
            && Sound(after) && Home(l, p) in l.allocs && LedgerOf(after) == Written(l, p, offset, length)
            && TrackOf(after) == Follow(TrackOf(m), PayerOf(l, p), DueTo(l, p, WriteSize(l, p, offset, length)))
  {
    AllowedCharge(m, p, WriteSize(LedgerOf(m), p, offset, length));
    ReleasedPositive(m, p);
  }

  lemma AllowedUnlink(m: Machine, p: Path)
    requires Sound(m) && p in m.files
    requires Allows(LedgerOf(m), TrackOf(m), PayerOf(LedgerOf(m), p), DueTo(LedgerOf(m), p, 0))
    ensures var after, l := Unlinked(m, p), LedgerOf(m);
            && Sound(after) && Home(l, p) in l.allocs
            && LedgerOf(after) == (if Fits(l, p, 0) then Remove(l, p) else l)
            && TrackOf(after) == Follow(TrackOf(m), PayerOf(l, p), DueTo(l, p, 0))
  {
    AllowedCharge(m, p, 0);
  }

  /** A lookup that is allowed shows the current record. */
  lemma AllowedLook(m: Machine, k: Key)
    requires Sound(m) && Proper(k) && Allows(LedgerOf(m), TrackOf(m), RootKey(m.disk.Keys, k), 0)
    ensures var r := RootKey(m.disk.Keys, k);
            && PathOf(r) in m.disk && PathOf(r) == Nearest(m.disk.Keys, PathOf(k))
            && Seen(m.disk, m.table, r) == LedgerOf(m).allocs[PathOf(r)]
            && Sound(m.(table := Loaded(m.disk, m.table, r)))
            && LedgerOf(m.(table := Loaded(m.disk, m.table, r))) == LedgerOf(m)
            && TrackOf(m.(table := Loaded(m.disk, m.table, r))) == Follow(TrackOf(m), r, 0)
  {
    var r := RootKey(m.disk.Keys, k);
    RootOnDisk(m.disk, k);
    RootKeyIsNearest(m.disk.Keys, k);
    AllowsIsClear(m, r, 0);
    SeesView(m.disk, m.table, r);
    AccessFormed(m.disk, m.table, r, 0);
    AccessKeeps(m.disk, m.table, r, 0);
    FollowsAccess(m.disk, m.table, r, 0);
    ViewPositive(m, PathOf(r));
    assert Recharged(View(m.disk, m.table), PathOf(r), 0) == View(m.disk, m.table);
  }

  lemma AllowedRename(m: Machine, p: Path, q: Path)
    requires Sound(m) && InScope(LedgerOf(m), Renames(p, q)) && Allowed(LedgerOf(m), TrackOf(m), Renames(p, q))
    ensures var m1, e := Realloc(m, p, 0), Renames(p, q);
            && ReallocResult(m, p, 0) == 0 && TransferResult(m1, p, q) == 0
            && Sound(Transferred(m1, p, q)) && LedgerOf(Transferred(m1, p, q)) == After(LedgerOf(m), e)
            && TrackOf(Transferred(m1, p, q)) == TrackAfter(LedgerOf(m), TrackOf(m), e)
  {
    var l := LedgerOf(m);
    AllowedCharge(m, p, 0);
    var m1 := Realloc(m, p, 0);
    assert LedgerOf(m1) == Released(l, p) && PayerOf(LedgerOf(m1), q) == PayerOf(l, q);
    AllowedCharge(m1, q, l.files[p]);
    AllowedTransfer(m1, p, q);
  }

  lemma AllowedTransfer(m: Machine, p: Path, q: Path)
    requires Sound(m) && p in m.files && Home(LedgerOf(m), q) in LedgerOf(m).allocs && Fits(LedgerOf(m), q, m.files[p])
    requires Sound(Realloc(m, q, m.files[p])) && ReallocResult(m, q, m.files[p]) == 0
    requires LedgerOf(Realloc(m, q, m.files[p])) ==
               Charge(LedgerOf(m), Home(LedgerOf(m), q), Difference(LedgerOf(m), q, m.files[p]))
    ensures TransferResult(m, p, q) == 0 && Sound(Transferred(m, p, q))
    ensures LedgerOf(Transferred(m, p, q)) == Moved(LedgerOf(m), p, q)
    ensures TrackOf(Transferred(m, p, q)) == TrackOf(Realloc(m, q, m.files[p]))
  {
  }

  /** A rename whose new name has no room leaves the charge of the old one given back, although the file stays. */
  lemma RefusedRename(m: Machine, p: Path, q: Path)
    requires Sound(m) && p in m.files && Home(LedgerOf(m), p) in LedgerOf(m).allocs && Fits(LedgerOf(m), p, 0)
    requires Allows(LedgerOf(m), TrackOf(m), PayerOf(LedgerOf(m), p), DueTo(LedgerOf(m), p, 0))
    requires var l1 := Released(LedgerOf(m), p);
             && Home(l1, q) in l1.allocs && !Fits(l1, q, m.files[p])
             && Allows(l1, TrackOf(Realloc(m, p, 0)), PayerOf(l1, q), 0)
    ensures TransferResult(Realloc(m, p, 0), p, q) == -1
    ensures LedgerOf(Transferred(Realloc(m, p, 0), p, q)) == Released(LedgerOf(m), p)
  {
    var m1 := Realloc(m, p, 0);
    AllowedCharge(m, p, 0);
    AllowedCharge(m1, q, m.files[p]);
    var m2 := Realloc(m1, q, m.files[p]);
    AllowedCharge(m2, p, m.files[p]);
    ReleasedPositive(m2, p);
  }

  /** A rename of a file to itself gives its charge back and does not take it again. */
  lemma RenameToItself(m: Machine, p: Path)
    requires Sound(m) && p in m.files
    requires Allows(LedgerOf(m), TrackOf(m), PayerOf(LedgerOf(m), p), DueTo(LedgerOf(m), p, 0))
    requires Home(LedgerOf(m), p) in LedgerOf(m).allocs && Fits(LedgerOf(m), p, 0)
    ensures TransferResult(Realloc(m, p, 0), p, p) == 0
    ensures LedgerOf(Transferred(Realloc(m, p, 0), p, p)) == Released(LedgerOf(m), p)
  {
    var m1 := Realloc(m, p, 0);
    AllowedCharge(m, p, 0);
    assert PayerOf(LedgerOf(m1), p) == PayerOf(LedgerOf(m), p);
    AllowedCharge(m1, p, m.files[p]);
    PayerOnDisk(m1, p);
    assert Amount(m1, p, m.files[p]) == 0;
    assert (m.files - {p})[p := m.files[p]] == m.files;
    ReleasedPositive(m1, p);
  }

  lemma ReleasedPositive(m: Machine, p: Path)
    requires Sound(m) && Home(LedgerOf(m), p) in LedgerOf(m).allocs
    ensures Charge(LedgerOf(m), Home(LedgerOf(m), p), 0) == LedgerOf(m)
  {
    ViewPositive(m, Home(LedgerOf(m), p));
    ChargeNothing(LedgerOf(m), Home(LedgerOf(m), p));
  }

  /** The outcomes of the flush that ends a new allocation in `p`, whose size is charged to `r`. */
  predicate GrantFlushed(m: Machine, r: Key, p: Path, size: int, after: Disk)
    requires [] in m.disk && PathOf(r) in m.disk
  {
    Flushed(m.disk[p := Record(size, 0)], Accessed(m.disk, m.table, r, size), after)
  }

  function Granted(l: Ledger, p: Path, size: int): Disk
    requires Home(l, p) in l.allocs
  {
    Allocate(l, p, size).allocs
  }

  lemma AllowedGrant(m: Machine, p: Path, size: int, after: Disk)
    requires Sound(m) && p != [] && p !in m.disk && PathOf(Payer(m, p)) in m.disk
    requires Sees(m.disk, m.table, Payer(m, p))
    requires size != 0 && !Payer(m, p).Named? ==> !Dirty(m.table, Other(Payer(m, p)))
    requires GrantFlushed(m, Payer(m, p), p, size, after)
    ensures Home(LedgerOf(m), p) in LedgerOf(m).allocs && after == Granted(LedgerOf(m), p, size)
  {
    SamePayer(m, p);
    PayerOnDisk(m, p);
    SeesView(m.disk, m.table, Payer(m, p));
    var want := Granted(LedgerOf(m), p, size);
    assert want.Keys == m.disk.Keys + {p} == after.Keys;
    forall x | x in want ensures after[x] == want[x] {
      GrantRecord(m, p, size, after, x);
    }
  }

  lemma GrantRecord(m: Machine, p: Path, size: int, after: Disk, x: Path)
    requires Sound(m) && p != [] && p !in m.disk && PathOf(Payer(m, p)) in m.disk && Proper(Payer(m, p))
    requires PathOf(Payer(m, p)) == Home(LedgerOf(m), p) && Sees(m.disk, m.table, Payer(m, p))
    requires Seen(m.disk, m.table, Payer(m, p)) == LedgerOf(m).allocs[Home(LedgerOf(m), p)]
    requires size != 0 && !Payer(m, p).Named? ==> !Dirty(m.table, Other(Payer(m, p)))
    requires GrantFlushed(m, Payer(m, p), p, size, after) && x in after
    ensures x in Granted(LedgerOf(m), p, size) && after[x] == Granted(LedgerOf(m), p, size)[x]
  {
    NotCached(m, p);
    if x == [] { GrantRoot(m, p, size, after); } else { GrantNamed(m, p, size, after, x); }
  }

  lemma NotCached(m: Machine, p: Path)
    requires Formed(m.disk, m.table) && p !in m.disk
    ensures Named(p) !in m.table
  {
    assert Named(p) in m.table ==> EntryRight(m.disk, m.table, Named(p));
  }

  lemma GrantRoot(m: Machine, p: Path, size: int, after: Disk)
    requires Sound(m) && p != [] && p !in m.disk && PathOf(Payer(m, p)) in m.disk && Proper(Payer(m, p))
    requires PathOf(Payer(m, p)) == Home(LedgerOf(m), p) && Sees(m.disk, m.table, Payer(m, p))
    requires Seen(m.disk, m.table, Payer(m, p)) == LedgerOf(m).allocs[Home(LedgerOf(m), p)]
    requires size != 0 && !Payer(m, p).Named? ==> !Dirty(m.table, Other(Payer(m, p)))
    requires [] in after
    requires RootSaved(m.disk[p := Record(size, 0)], Accessed(m.disk, m.table, Payer(m, p), size), after[[]])
    ensures [] in Granted(LedgerOf(m), p, size) && after[[]] == Granted(LedgerOf(m), p, size)[[]]
  {
    ViewPositive(m, PathOf(Payer(m, p)));
    if Slash in m.table { assert EntryRight(m.disk, m.table, Slash); }
    if Empty in m.table { assert EntryRight(m.disk, m.table, Empty); }
  }

  lemma GrantNamed(m: Machine, p: Path, size: int, after: Disk, x: Path)
    requires Sound(m) && p != [] && p !in m.disk && Named(p) !in m.table && PathOf(Payer(m, p)) in m.disk
    requires Proper(Payer(m, p))
    requires PathOf(Payer(m, p)) == Home(LedgerOf(m), p)
    requires Seen(m.disk, m.table, Payer(m, p)) == LedgerOf(m).allocs[Home(LedgerOf(m), p)]
    requires GrantFlushed(m, Payer(m, p), p, size, after) && x in after && x != []
    ensures x in Granted(LedgerOf(m), p, size) && after[x] == Granted(LedgerOf(m), p, size)[x]
  {
    ViewPositive(m, PathOf(Payer(m, p)));
  }

  /** Otherwise a flush that saves the other spelling last forgets the new allocation's charge. */
  lemma GrantMayBeLost(m: Machine, p: Path, size: int)
    requires Sound(m) && p != [] && p !in m.disk && PathOf(Payer(m, p)) in m.disk
    requires size > 0 && !Payer(m, p).Named? && Dirty(m.table, Other(Payer(m, p)))
    ensures Home(LedgerOf(m), p) in LedgerOf(m).allocs
    ensures exists after :: GrantFlushed(m, Payer(m, p), p, size, after) && after != Granted(LedgerOf(m), p, size)
  {
    SamePayer(m, p);
    PayerOnDisk(m, p);
    var k := Other(Payer(m, p));
    var disk, table := m.disk[p := Record(size, 0)], Accessed(m.disk, m.table, Payer(m, p), size);
    var after := View(disk, table)[[] := m.table[k].record];
    assert EntryRight(m.disk, m.table, k);
    assert table[k] == m.table[k] && after.Keys == disk.Keys;
    assert GrantFlushed(m, Payer(m, p), p, size, after);
    LostGrant(m, p, size, k);
  }

  lemma LostGrant(m: Machine, p: Path, size: int, k: Key)
    requires Sound(m) && p != [] && p !in m.disk && k in m.table && !k.Named? && size > 0
    requires Home(LedgerOf(m), p) == [] && [] in LedgerOf(m).allocs
    ensures Granted(LedgerOf(m), p, size)[[]] != m.table[k].record
  {
    assert EntryRight(m.disk, m.table, k);
    SeesView(m.disk, m.table, k);
  }

  // ---------------------------------------------------------------------- runs with the cache

  ghost predicate Ready(a: Allocator)
    reads a
  {
    a.Valid() && Agree(a.table)
  }

  /** A write, truncation or deletion. */
  method StepSize(a: Allocator, e: Event) returns (answer: seq<Answer>)
    requires Ready(a) && (e.Writes? || e.Truncates? || e.Unlinks?)
    requires InScope(a.L(), e) && Allowed(a.L(), TrackOf(a.M()), e)
    modifies a
    ensures Ready(a) && a.L() == After(old(a.L()), e) && answer == Answers(old(a.L()), e)
    ensures TrackOf(a.M()) == TrackAfter(old(a.L()), old(TrackOf(a.M())), e)
  {
    ghost var m := a.M();
    AllowedSize(m, e);
    var r: int;
    match e {
      case Writes(p, offset, length) => r := a.Pwrite(p, offset, length, length);
      case Truncates(p, size) => r := a.Truncate(p, size, true);
      case Unlinks(p) => r := a.Unlink(p);
    }
    answer := [Status(r)];
  }

  function Sized(m: Machine, e: Event): Machine
    requires [] in m.disk && InScope(LedgerOf(m), e)
  {
    match e
    case Writes(p, offset, length) => WrittenBy(m, p, offset, length, length)
    case Truncates(p, size) => Resized(m, p, size, true)
    case Unlinks(p) => Unlinked(m, p)
    case _ => m
  }

  function SizedResult(m: Machine, e: Event): int
    requires [] in m.disk && InScope(LedgerOf(m), e) && (e.Writes? || e.Truncates? || e.Unlinks?)
  {
    if ReallocResult(m, e.p, SizeAfter(LedgerOf(m), e)) != 0 then -1 else if e.Writes? then e.length else 0
  }

  lemma AllowedSize(m: Machine, e: Event)
    requires Sound(m) && (e.Writes? || e.Truncates? || e.Unlinks?)
    requires InScope(LedgerOf(m), e) && Allowed(LedgerOf(m), TrackOf(m), e)
    ensures Sound(Sized(m, e)) && LedgerOf(Sized(m, e)) == After(LedgerOf(m), e)
    ensures [Status(SizedResult(m, e))] == Answers(LedgerOf(m), e)
    ensures TrackOf(Sized(m, e)) == TrackAfter(LedgerOf(m), TrackOf(m), e)
  {
    AllowedCharge(m, e.p, SizeAfter(LedgerOf(m), e));
    match e
    case Writes(p, offset, length) => AllowedWrite(m, p, offset, length);
    case Truncates(p, size) => AllowedResize(m, p, size);
    case Unlinks(p) => AllowedUnlink(m, p);
  }

  method StepAllocate(a: Allocator, e: Event) returns (answer: seq<Answer>)
    requires Ready(a) && e.Allocates? && InScope(a.L(), e) && Allowed(a.L(), TrackOf(a.M()), e)
    modifies a
    ensures Ready(a) && a.L() == After(old(a.L()), e) && answer == Answers(old(a.L()), e)
    ensures TrackOf(a.M()) == TrackAfter(old(a.L()), old(TrackOf(a.M())), e)
  {
    ghost var m := a.M();
    AllowedAllocate(m, e);
    var r := a.Mkalloc(e.p, e.quota, true);
    if r == 0 { GrantedTo(m, e, a.disk); }
    answer := [Status(r)];
  }

  lemma AllowedAllocate(m: Machine, e: Event)
    requires Sound(m) && e.Allocates? && InScope(LedgerOf(m), e) && Allowed(LedgerOf(m), TrackOf(m), e)
    ensures PathOf(Payer(m, e.p)) in m.disk && Sees(m.disk, m.table, Payer(m, e.p))
    ensures [Status(if Avail(Seen(m.disk, m.table, Payer(m, e.p))) > e.quota then 0 else -1)] == Answers(LedgerOf(m), e)
    ensures Avail(Seen(m.disk, m.table, Payer(m, e.p))) <= e.quota ==>
              var after := m.(table := Loaded(m.disk, m.table, Payer(m, e.p)));
              Sound(after) && LedgerOf(after) == After(LedgerOf(m), e)
                  && TrackOf(after) == TrackAfter(LedgerOf(m), TrackOf(m), e)
  {
    SamePayer(m, e.p);
    PayerOnDisk(m, e.p);
    AllowedLook(m, DirKey(e.p));
    AllowsIsClear(m, Payer(m, e.p), 0);
  }

  lemma GrantedTo(m: Machine, e: Event, disk: Disk)
    requires Sound(m) && e.Allocates? && InScope(LedgerOf(m), e) && Allowed(LedgerOf(m), TrackOf(m), e)
    requires PathOf(Payer(m, e.p)) in m.disk && Avail(Seen(m.disk, m.table, Payer(m, e.p))) > e.quota
    requires GrantFlushed(m, Payer(m, e.p), e.p, e.quota, disk)
    ensures Ledger(m.files, m.dirs + {e.p}, disk) == After(LedgerOf(m), e) && View(disk, map[]) == disk
    ensures [] in disk && Tracked(disk, map[]) == TrackAfter(LedgerOf(m), TrackOf(m), e)
  {
    AllowedAllocate(m, e);
    SamePayer(m, e.p);
    assert Succeeds(LedgerOf(m), e.p, e.quota);
    if e.quota != 0 && !Payer(m, e.p).Named? { OtherClean(m, e); }
    AllowedGrant(m, e.p, e.quota, disk);
    AllocateAfter(LedgerOf(m), TrackOf(m), e);
    assert View(disk, map[]) == disk;
    FreshTrack(disk);
  }

  lemma AllocateAfter(l: Ledger, t: Track, e: Event)
    requires e.Allocates? && InScope(l, e) && Succeeds(l, e.p, e.quota)
    ensures Home(l, e.p) in l.allocs && After(l, e) == Allocate(l, e.p, e.quota) && [] in After(l, e).allocs
    ensures After(l, e).files == l.files && After(l, e).dirs == l.dirs + {e.p}
    ensures TrackAfter(l, t, e) == Fresh(After(l, e))
  {
    HomeHolds(l, e.p);
  }

  lemma OtherClean(m: Machine, e: Event)
    requires Sound(m) && e.Allocates? && InScope(LedgerOf(m), e) && Allowed(LedgerOf(m), TrackOf(m), e)
    requires Succeeds(LedgerOf(m), e.p, e.quota) && e.quota != 0 && !Payer(m, e.p).Named?
    ensures !Dirty(m.table, Other(Payer(m, e.p)))
  {
    SamePayer(m, e.p);
  }

  lemma FreshTrack(disk: Disk)
    requires [] in disk
    ensures Tracked(disk, map[]) == Track({}, {}, disk[[]])
  {
  }

  /** One event that is in scope and allowed: the accounts and the answer are those without a cache. */
  method Step(a: Allocator, e: Event) returns (answer: seq<Answer>)
    requires Ready(a) && InScope(a.L(), e) && Allowed(a.L(), TrackOf(a.M()), e)
    modifies a
    ensures Ready(a) && a.L() == After(old(a.L()), e) && answer == Answers(old(a.L()), e)
    ensures TrackOf(a.M()) == TrackAfter(old(a.L()), old(TrackOf(a.M())), e)
  {
    ghost var m := a.M();
    match e
    case Renames(p, q) =>
      AllowedRename(m, p, q);
      var r := a.Rename(p, q);
      answer := [Status(r)];
    case Creates(p) => a.Create(p); answer := [Status(0)];
    case MakesDir(p) => a.Mkdir(p); answer := [Status(0)];
    case Allocates(_, _) => answer := StepAllocate(a, e);
    case Stats(p, bsize) =>
      SamePayer(m, p);
      AllowedLook(m, DirKey(p));
      var blocks, bavail := a.Statfs(p, bsize);
      answer := [Space(blocks, bavail)];
    case Lists(p) =>
      AllowedLook(m, KeyOf(p));
      var d, size, inuse := a.Lsalloc(p);
      answer := [Allocation(d, size, inuse)];
    case Flushes =>
      a.Flush();
      FlushKeeps(m.disk, m.table, a.disk);
      assert View(a.disk, map[]) == a.disk;
      FreshTrack(a.disk);
      answer := [];
    case _ => answer := StepSize(a, e);
  }

  /** The state `l` and the answers after `done` events of a run from `start`, and what is left to do. */
  ghost predicate Reached(start: Ledger, events: seq<Event>, done: nat, l: Ledger, t: Track, answers: seq<Answer>)
  {
    && done <= |events| && Balanced(l)
    && Replays(start, events[..done], l, answers) && Meets(l, t, events[done..])
  }

  lemma ReachedNext(start: Ledger, events: seq<Event>, done: nat, l: Ledger, t: Track, answers: seq<Answer>)
    requires Reached(start, events, done, l, t, answers) && done < |events|
    ensures InScope(l, events[done]) && Allowed(l, t, events[done])
    ensures var e := events[done];
            Reached(start, events, done + 1, After(l, e), TrackAfter(l, t, e), answers + Answers(l, e))
  {
    assert events[done..][0] == events[done] && events[done..][1..] == events[done + 1..];
    AfterKeeps(l, events[done]);
    ReplaysOneMore(start, events[..done], l, answers, events[done]);
    assert events[..done + 1] == events[..done] + [events[done]];
  }

  /** A run whose events are in scope and allowed completes; it leaves and answers what it would without a cache,
      with the accounts exact and within quota. */
  method Run(a: Allocator, events: seq<Event>) returns (answers: seq<Answer>)
    requires Ready(a) && Balanced(a.L()) && Meets(a.L(), TrackOf(a.M()), events)
    modifies a
    ensures Ready(a) && Balanced(a.L()) && Replays(old(a.L()), events, a.L(), answers)
  {
    answers := [];
    assert events[..0] == [] && events[0..] == events;
    for done := 0 to |events|
      invariant Ready(a) && Reached(old(a.L()), events, done, a.L(), TrackOf(a.M()), answers)
    {
      ReachedNext(old(a.L()), events, done, a.L(), TrackOf(a.M()), answers);
      var answer := Step(a, events[done]);
      answers := answers + answer;
    }
    assert events[..|events|] == events;
  }

  /** Flushes may be inserted or left out anywhere: two allocators that show the same accounts and run the same
      events, apart from flushes, show the same accounts and give the same answers, as long as neither run mixes
      the spellings of the root directory. */
  method FlushesDoNotMatter(a: Allocator, b: Allocator, xs: seq<Event>, ys: seq<Event>)
    returns (answersA: seq<Answer>, answersB: seq<Answer>)
    requires a != b && Ready(a) && Ready(b) && a.L() == b.L() && Balanced(a.L())
    requires WithoutFlushes(xs) == WithoutFlushes(ys)
    requires Meets(a.L(), TrackOf(a.M()), xs) && Meets(b.L(), TrackOf(b.M()), ys)
    modifies a, b
    ensures Ready(a) && Ready(b) && a.L() == b.L() && answersA == answersB
  {
    ghost var l := a.L();
    answersA := Run(a, xs);
    answersB := Run(b, ys);
    FlushesAreNothing(l, xs, a.L(), answersA);
    FlushesAreNothing(l, ys, b.L(), answersB);
    ReplaysOnce(l, WithoutFlushes(xs), a.L(), answersA, b.L(), answersB);
  }
}
