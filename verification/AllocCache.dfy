/** The write-back cache of allocation records in chirp_alloc.c and the server operations that charge
    them. */
module AllocCache {
  import opened Ledger
  import opened Finite

  /** How the code spells the directory of a record. The root directory has two spellings: "/" is what
      path_dirname yields for a path of one component, "" is where the walk over the slashes ends. */
  datatype Key = Slash | Empty | Named(p: Path)

  datatype Entry = Entry(record: Record, dirty: bool)

  function PathOf(k: Key): Path { if k.Named? then k.p else [] }

  function KeyOf(p: Path): Key { if p == [] then Slash else Named(p) }

  /** path_dirname. */
  function DirKey(p: Path): Key { KeyOf(Dirname(p)) }

  /** The walk of alloc_state_root, as it is spelled. */
  function RootKey(records: set<Path>, k: Key): Key
    decreases |PathOf(k)|
  {
    if !k.Named? || k.p in records || k.p == [] then k
    else if |k.p| == 1 then Empty
    else RootKey(records, Named(Parent(k.p)))
  }

  lemma {:induction false} RootKeyIsNearest(records: set<Path>, k: Key)
    ensures PathOf(RootKey(records, k)) == Nearest(records, PathOf(k))
    decreases |PathOf(k)|
  {
    if !k.Named? || k.p in records || |k.p| <= 1 {
    } else {
      RootKeyIsNearest(records, Named(Parent(k.p)));
    }
  }

  /** Where the two spellings come from: the walk keeps the one it is given, and it comes to the other one from any
      directory below the root. */
  lemma {:induction false} RootSpelling(records: set<Path>, k: Key)
    requires k.Named? ==> k.p != []
    ensures RootKey(records, k) == Slash <==> k == Slash
    ensures RootKey(records, k) == Empty <==> k == Empty || (k.Named? && Nearest(records, k.p) == [])
    decreases |PathOf(k)|
  {
    if !k.Named? || k.p in records || |k.p| == 1 {
    } else {
      RootSpelling(records, Named(Parent(k.p)));
    }
  }

  function Other(k: Key): Key
  {
    match k case Slash => Empty case Empty => Slash case Named(_) => k
  }

  type Table = map<Key, Entry>
  type Disk = map<Path, Record>

  /** The record a directory stands for, whether or not it is cached. */
  function RecordOf(disk: Disk, table: Table, p: Path): Record
    requires p in disk
  {
    if p == [] then
      if Slash in table then table[Slash].record
      else if Empty in table then table[Empty].record
      else disk[p]
    else if Named(p) in table then table[Named(p)].record
    else disk[p]
  }

  function View(disk: Disk, table: Table): (r: Disk)
    ensures r.Keys == disk.Keys
  {
    map p | p in disk :: RecordOf(disk, table, p)
  }

  predicate EntryRight(disk: Disk, table: Table, k: Key)
    requires k in table
  {
    && (k.Named? ==> k.p != []) && PathOf(k) in disk && table[k].record.inuse >= 0
    && (!table[k].dirty ==> table[k].record == disk[PathOf(k)])
  }

  /** What holds in every run: entries are cached with a record on disk, and clean ones equal it. */
  ghost predicate Formed(disk: Disk, table: Table)
  {
    && [] in disk && (forall p :: p in disk ==> disk[p].inuse >= 0)
    && (forall k :: k in table ==> EntryRight(disk, table, k))
  }

  /** The two spellings of the root directory, if both are cached, show the same record. */
  predicate Agree(table: Table) { Slash in table && Empty in table ==> table[Slash].record == table[Empty].record }

  ghost predicate Coherent(disk: Disk, table: Table) { Formed(disk, table) && Agree(table) }

  predicate RootsRight(disk: Disk, roots: map<Key, Key>)
  {
    forall k :: k in roots ==> roots[k] == RootKey(disk.Keys, k)
  }

  /** A key that names no directory twice. */
  predicate Proper(k: Key) { k.Named? ==> k.p != [] }

  lemma {:induction false} RootProper(records: set<Path>, k: Key)
    requires Proper(k)
    ensures Proper(RootKey(records, k))
    decreases |PathOf(k)|
  {
    if !(k.Named? && k.p !in records && |k.p| > 1) {
    } else {
      RootProper(records, Named(Parent(k.p)));
    }
  }

  /** Where the walk ends there is a record. */
  lemma RootOnDisk(disk: Disk, k: Key)
    requires [] in disk && Proper(k)
    ensures PathOf(RootKey(disk.Keys, k)) in disk && Proper(RootKey(disk.Keys, k))
  {
    RootKeyIsNearest(disk.Keys, k);
    NearestIsLongest(disk.Keys, PathOf(k), []);
    RootProper(disk.Keys, k);
  }

  // ---------------------------------------------------------------------- loading and charging

  /** alloc_state_load into the cache. */
  function Loaded(disk: Disk, table: Table, k: Key): Table
    requires PathOf(k) in disk
  {
    if k in table then table else table[k := Entry(disk[PathOf(k)], false)]
  }

  /** The record that a lookup under this spelling shows. */
  function Seen(disk: Disk, table: Table, k: Key): Record
    requires PathOf(k) in disk
  {
    if k in table then table[k].record else disk[PathOf(k)]
  }

  /** alloc_state_update. */
  function Charged(table: Table, k: Key, change: int): Table
    requires k in table
  {
    if change == 0 then table else table[k := Entry(Updated(table[k].record, change), true)]
  }

  function Accessed(disk: Disk, table: Table, k: Key, change: int): Table
    requires PathOf(k) in disk
  {
    Charged(Loaded(disk, table, k), k, change)
  }

  lemma AccessFormed(disk: Disk, table: Table, k: Key, change: int)
    requires Formed(disk, table) && PathOf(k) in disk && Proper(k)
    ensures Formed(disk, Accessed(disk, table, k, change))
  {
    var after := Accessed(disk, table, k, change);
    forall m | m in after ensures EntryRight(disk, after, m) {
      if m in table { assert EntryRight(disk, table, m); }
    }
  }

  /** Reading the record on disk shows the current one. */
  predicate Sees(disk: Disk, table: Table, k: Key)
    requires PathOf(k) in disk
  {
    k in table || Other(k) !in table || table[Other(k)].record == disk[PathOf(k)]
  }

  predicate Alone(table: Table, k: Key) { k.Named? || Other(k) !in table }

  /** The root directory is not cached under its other spelling, or neither that nor this access makes a
      difference. */
  predicate Clear(disk: Disk, table: Table, k: Key, change: int)
    requires PathOf(k) in disk
  {
    Sees(disk, table, k) && (change == 0 || Alone(table, k))
  }

  /** The accounts after a charge. */
  function Recharged(view: Disk, p: Path, change: int): Disk
    requires p in view
  {
    view[p := Updated(view[p], change)]
  }

  lemma SeesView(disk: Disk, table: Table, k: Key)
    requires Coherent(disk, table) && PathOf(k) in disk && Proper(k) && Sees(disk, table, k)
    ensures Seen(disk, table, k) == View(disk, table)[PathOf(k)]
  {
    if k in table { assert EntryRight(disk, table, k); }
  }

  /** An access that is clear shows and changes the record as if there were one copy. */
  lemma AccessKeeps(disk: Disk, table: Table, k: Key, change: int)
    requires Coherent(disk, table) && PathOf(k) in disk && Proper(k) && Clear(disk, table, k, change)
    ensures Agree(Accessed(disk, table, k, change))
    ensures View(disk, Accessed(disk, table, k, change)) == Recharged(View(disk, table), PathOf(k), change)
  {
    var after := Accessed(disk, table, k, change);
    SeesView(disk, table, k);
    forall p | p in disk ensures RecordOf(disk, after, p) == Recharged(View(disk, table), PathOf(k), change)[p] {
      AccessRecord(disk, table, k, change, p);
    }
  }

  lemma AccessRecord(disk: Disk, table: Table, k: Key, change: int, p: Path)
    requires Coherent(disk, table) && PathOf(k) in disk && Proper(k) && Clear(disk, table, k, change) && p in disk
    ensures RecordOf(disk, Accessed(disk, table, k, change), p) == Recharged(View(disk, table), PathOf(k), change)[p]
  {
    SeesView(disk, table, k);
    if k in table { assert EntryRight(disk, table, k); }
    if Other(k) in table { assert EntryRight(disk, table, Other(k)); }
  }

  /** And only then: otherwise the two spellings differ afterwards, or a charge is missing. */
  lemma AccessExactly(disk: Disk, table: Table, k: Key, change: int)
    requires Coherent(disk, table) && PathOf(k) in disk && Proper(k)
    requires View(disk, table)[PathOf(k)].inuse + change >= 0
    ensures Clear(disk, table, k, change) <==>
              && Agree(Accessed(disk, table, k, change))
              && View(disk, Accessed(disk, table, k, change)) == Recharged(View(disk, table), PathOf(k), change)
  {
    var after := Accessed(disk, table, k, change);
    if Clear(disk, table, k, change) {
      AccessKeeps(disk, table, k, change);
    } else {
      assert EntryRight(disk, table, Other(k));
      assert !k.Named? && Other(k) in table && after[Other(k)] == table[Other(k)];
      assert View(disk, table)[[]] == table[Other(k)].record;
      assert Slash in after && View(disk, after)[[]] == after[Slash].record;
    }
  }

  // ---------------------------------------------------------------------- flushing

  predicate Dirty(table: Table, k: Key) { k in table && table[k].dirty }

  /** What saving all entries may leave for the root directory: the record saved last. */
  predicate RootSaved(disk: Disk, table: Table, r: Record)
    requires [] in disk
  {
    || (Dirty(table, Slash) && r == table[Slash].record)
    || (Dirty(table, Empty) && r == table[Empty].record)
    || (!Dirty(table, Slash) && !Dirty(table, Empty) && r == disk[[]])
  }

  /** What saving all entries may leave on disk. */
  predicate Flushed(disk: Disk, table: Table, after: Disk)
    requires [] in disk
  {
    && after.Keys == disk.Keys && RootSaved(disk, table, after[[]])
    && forall p :: p in disk && p != [] ==> after[p] == RecordOf(disk, table, p)
  }

  /** Some entries of `all` are saved and the others, `rest`, are still to come. */
  ghost predicate Saving(disk0: Disk, all: Table, disk: Disk, rest: Table)
    requires [] in disk0
  {
    && disk.Keys == disk0.Keys && (forall k :: k in rest ==> k in all && rest[k] == all[k])
    && (forall p :: p in disk0 && p != [] ==>
          disk[p] == if Named(p) in rest then disk0[p] else RecordOf(disk0, all, p))
    && (|| (disk[[]] == disk0[[]] && (Dirty(all, Slash) ==> Slash in rest) && (Dirty(all, Empty) ==> Empty in rest))
        || (Dirty(all, Slash) && Slash !in rest && disk[[]] == all[Slash].record)
        || (Dirty(all, Empty) && Empty !in rest && disk[[]] == all[Empty].record))
  }

  /** alloc_state_save. */
  function Saved(disk: Disk, table: Table, k: Key): Disk
    requires k in table
  {
    if table[k].dirty then disk[PathOf(k) := table[k].record] else disk
  }

  lemma SavingNext(disk0: Disk, all: Table, disk: Disk, rest: Table, k: Key)
    requires Formed(disk0, all) && Saving(disk0, all, disk, rest) && k in rest
    ensures Saving(disk0, all, Saved(disk, rest, k), rest - {k})
  {
    assert EntryRight(disk0, all, k);
  }

  /** chirp_alloc_flush on the records, in the arbitrary order of the hash table. */
  method SaveAll(disk0: Disk, table0: Table) returns (disk: Disk)
    requires Formed(disk0, table0)
    ensures Flushed(disk0, table0, disk)
  {
    disk := disk0;
    var table := table0;
    assert Saving(disk0, table0, disk, table) by { SavingStarts(disk0, table0); }
    while table != map[]
      invariant Saving(disk0, table0, disk, table)
      decreases |table.Keys|
    {
      assert table.Keys != {};
      var k, rest := Pick(table.Keys);
      SavingNext(disk0, table0, disk, table, k);
      disk, table := Saved(disk, table, k), table - {k};
      assert table.Keys == rest;
    }
  }

  lemma SavingStarts(disk: Disk, table: Table)
    requires Formed(disk, table)
    ensures Saving(disk, table, disk, table)
  {
  }

  /** If the spellings agree, a flush in any order leaves on disk what was visible. */
  lemma FlushKeeps(disk: Disk, table: Table, after: Disk)
    requires Coherent(disk, table) && Flushed(disk, table, after)
    ensures after == View(disk, table) && forall p :: p in after ==> after[p].inuse >= 0
  {
    forall k | k in table ensures EntryRight(disk, table, k) {
    }
    assert after[[]] == RecordOf(disk, table, []);
  }

  /** And if they do not, a flush shows: whatever it leaves, a lookup under one of the spellings changes. */
  lemma FlushShows(disk: Disk, table: Table, after: Disk)
    requires Formed(disk, table) && !Agree(table) && Flushed(disk, table, after)
    ensures Seen(after, map[], Slash) != Seen(disk, table, Slash)
              || Seen(after, map[], Empty) != Seen(disk, table, Empty)
  {
  }

  /** Once the root directory was charged under both spellings, whichever record is saved last overwrites the
      other and a charge is gone. */
  lemma LostCharge(disk: Disk, record: Record, a: int, b: int, after: Disk)
    requires [] in disk && record.inuse >= 0 && record.inuse + a >= 0 && record.inuse + b >= 0
    requires a != 0 && b != 0 && record.inuse + a + b >= 0
    requires Flushed(disk, map[Slash := Entry(Updated(record, a), true),
               Empty := Entry(Updated(record, b), true)], after)
    ensures after[[]] != Updated(Updated(record, a), b)
  {
  }

  /** The same two charges with a flush between them add up. So a flush between charges under different spellings
      makes a difference. */
  lemma FlushMatters(disk: Disk, a: nat, b: nat, without: Disk, mid: Disk, with: Disk)
    requires Formed(disk, map[]) && a > 0 && b > 0
    requires Flushed(disk, Accessed(disk, Accessed(disk, map[], Slash, a), Empty, b), without)
    requires Flushed(disk, Accessed(disk, map[], Slash, a), mid) && Flushed(mid, Accessed(mid, map[], Empty, b), with)
    ensures with[[]] == Updated(Updated(disk[[]], a), b) && without[[]] != with[[]]
  {
  }

  // ---------------------------------------------------------------------- the allocator and its file system

  datatype Machine = Machine(files: map<Path, nat>, dirs: set<Path>, disk: Disk, table: Table)

  /** The accounts as a client sees them. */
  function LedgerOf(m: Machine): Ledger { Ledger(m.files, m.dirs, View(m.disk, m.table)) }

  ghost predicate Sound(m: Machine) { Coherent(m.disk, m.table) }

  /** The record, as it is spelled, that pays for `p`. */
  function Payer(m: Machine, p: Path): Key { RootKey(m.disk.Keys, DirKey(p)) }

  function FileSize(m: Machine, p: Path): nat { if p in m.files then m.files[p] else 0 }

  function Gap(m: Machine, p: Path, size: int): int { SpaceConsumed(size) - SpaceConsumed(FileSize(m, p)) }

  /** The answer of chirp_alloc_realloc, and what it charges to the record it sees. */
  predicate Grants(m: Machine, p: Path, size: int)
    requires PathOf(Payer(m, p)) in m.disk
  {
    size == FileSize(m, p) || Avail(Seen(m.disk, m.table, Payer(m, p))) >= Gap(m, p, size)
  }

  function Amount(m: Machine, p: Path, size: int): int
    requires PathOf(Payer(m, p)) in m.disk
  {
    if size != FileSize(m, p) && Grants(m, p, size) then Gap(m, p, size) else 0
  }

  /** The root directory pays as "/" for what is right in it, and as "" for everything deeper. */
  lemma PayerSpelling(m: Machine, p: Path)
    requires Nearest(m.disk.Keys, Dirname(p)) == []
    ensures Payer(m, p) == if |p| <= 1 then Slash else Empty
  {
    RootSpelling(m.disk.Keys, DirKey(p));
  }

  lemma PayerOnDisk(m: Machine, p: Path)
    requires [] in m.disk
    ensures PathOf(Payer(m, p)) in m.disk && Proper(Payer(m, p))
    ensures PathOf(Payer(m, p)) == Nearest(m.disk.Keys, Dirname(p))
  {
    RootOnDisk(m.disk, DirKey(p));
    RootKeyIsNearest(m.disk.Keys, DirKey(p));
  }

  /** chirp_alloc_realloc. */
  function Realloc(m: Machine, p: Path, size: int): Machine
    requires [] in m.disk
  {
    PayerOnDisk(m, p);
    m.(table := Accessed(m.disk, m.table, Payer(m, p), Amount(m, p, size)))
  }

  function ReallocResult(m: Machine, p: Path, size: int): int
    requires [] in m.disk
  {
    PayerOnDisk(m, p);
    if Grants(m, p, size) then 0 else -1
  }

  /** The access that a charge makes is clear. */
  predicate ClearFor(m: Machine, p: Path, size: int)
    requires [] in m.disk
  {
    PayerOnDisk(m, p);
    Home(LedgerOf(m), p) in m.disk && Clear(m.disk, m.table, Payer(m, p), Due(LedgerOf(m), p, size))
  }

  lemma ReallocSees(m: Machine, p: Path, size: int)
    requires Sound(m) && ClearFor(m, p, size)
    ensures PathOf(Payer(m, p)) in m.disk && PathOf(Payer(m, p)) == Home(LedgerOf(m), p)
    ensures Grants(m, p, size) <==> Fits(LedgerOf(m), p, size)
    ensures Amount(m, p, size) == Due(LedgerOf(m), p, size)
  {
    PayerOnDisk(m, p);
    SeesView(m.disk, m.table, Payer(m, p));
  }

  /** chirp_alloc_realloc through a clear access: it succeeds exactly when the rounded difference fits what is
      available, and then exactly the nearest allocation is charged. */
  lemma ReallocIs(m: Machine, p: Path, size: int)
    requires Sound(m) && ClearFor(m, p, size)
    ensures Home(LedgerOf(m), p) in LedgerOf(m).allocs && Sound(Realloc(m, p, size))
    ensures ReallocResult(m, p, size) == if Fits(LedgerOf(m), p, size) then 0 else -1
    ensures LedgerOf(Realloc(m, p, size)) ==
              if Fits(LedgerOf(m), p, size)
                  then Charge(LedgerOf(m), Home(LedgerOf(m), p), Difference(LedgerOf(m), p, size))
              else LedgerOf(m)
  {
    ReallocSees(m, p, size);
    var l, due := LedgerOf(m), Amount(m, p, size);
    PayerOnDisk(m, p);
    AccessFormed(m.disk, m.table, Payer(m, p), due);
    AccessKeeps(m.disk, m.table, Payer(m, p), due);
    ViewPositive(m, Home(l, p));
    ChargeNothing(l, Home(l, p));
  }

  lemma ViewPositive(m: Machine, p: Path)
    requires Sound(m) && p in m.disk
    ensures View(m.disk, m.table)[p].inuse >= 0
  {
    if p == [] {
      if Slash in m.table { assert EntryRight(m.disk, m.table, Slash); }
      if Empty in m.table { assert EntryRight(m.disk, m.table, Empty); }
    } else if Named(p) in m.table {
      assert EntryRight(m.disk, m.table, Named(p));
    }
  }

  lemma ChargeNothing(l: Ledger, d: Path)
    requires d in l.allocs && l.allocs[d].inuse >= 0
    ensures Charge(l, d, 0) == l
  {
    assert l.allocs[d := l.allocs[d]] == l.allocs;
  }

  /** Every charge, in any state, leaves a well-formed cache. */
  lemma ReallocFormed(m: Machine, p: Path, size: int)
    requires Formed(m.disk, m.table)
    ensures Formed(m.disk, Realloc(m, p, size).table)
  {
    PayerOnDisk(m, p);
    AccessFormed(m.disk, m.table, Payer(m, p), Amount(m, p, size));
  }

  // ---------------------------------------------------------------------- requests

  /** A charge, the change of size, and, where the file system refuses it, the call that should undo the charge. */
  function Resized(m: Machine, p: Path, size: int, works: bool): Machine
    requires [] in m.disk
  {
    var charged := Realloc(m, p, size);
    if ReallocResult(m, p, size) != 0 then charged
    else if works && size >= 0 then charged.(files := charged.files[p := size])
    else Realloc(charged, p, FileSize(m, p))
  }

  function EndOfWrite(m: Machine, p: Path, offset: nat, length: nat): (end: nat)
    ensures end >= FileSize(m, p) && end >= offset + length && (end == FileSize(m, p) || end == offset + length)
  {
    if length + offset > FileSize(m, p) then length + offset else FileSize(m, p)
  }

  /** A charge up to the end of the write, what the file system stored of it, and the calls that follow a failed or a
      short write. */
  function WrittenBy(m: Machine, p: Path, offset: nat, length: nat, stored: int): Machine
    requires [] in m.disk && p in m.files
  {
    var charged := Realloc(m, p, EndOfWrite(m, p, offset, length));
    var grown :=
      if stored > 0 then charged.(files := charged.files[p := EndOfWrite(m, p, offset, stored)]) else charged;
    if ReallocResult(m, p, EndOfWrite(m, p, offset, length)) != 0 then charged
    else if stored < 0 then Realloc(grown, p, FileSize(m, p))
    else if stored < length then Realloc(grown, p, stored)
    else grown
  }

  function Unlinked(m: Machine, p: Path): Machine
    requires [] in m.disk
  {
    var charged := Realloc(m, p, 0);
    if ReallocResult(m, p, 0) != 0 then charged
    else if p in m.files then charged.(files := charged.files - {p})
    else Realloc(charged, p, 0)
  }

  /** The size that the rename request takes for the file: -1 if there is none. */
  function RenameSize(m: Machine, p: Path): int { if p in m.files then m.files[p] else -1 }

  function Transferred(m: Machine, p: Path, q: Path): Machine
    requires [] in m.disk
  {
    var charged := Realloc(m, q, RenameSize(m, p));
    if ReallocResult(m, q, RenameSize(m, p)) != 0 then Realloc(charged, p, FileSize(m, p))
    else if p in m.files then charged.(files := (charged.files - {p})[q := m.files[p]])
    else Realloc(Realloc(charged, p, FileSize(m, p)), q, FileSize(m, q))
  }

  function TransferResult(m: Machine, p: Path, q: Path): int
    requires [] in m.disk
  {
    if ReallocResult(m, q, RenameSize(m, p)) == 0 && p in m.files then 0 else -1
  }

  // ---------------------------------------------------------------------- what the requests leave

  /** `change` is added to the use of the record that spelling `k` shows, which does not go below zero, and to no
      other record; the record is cached from now on. */
  ghost predicate Books(disk: Disk, before: Table, after: Table, k: Key, change: int)
    requires PathOf(k) in disk
  {
    var shown := if k in before then before[k].record else disk[PathOf(k)];
    && after.Keys == before.Keys + {k} && (forall j :: j in before && j != k ==> after[j] == before[j])
    && after[k].record.size == shown.size
    && (change == 0 ==> after[k].record.inuse == shown.inuse)
    && (change != 0 && shown.inuse + change >= 0 ==> after[k].record.inuse == shown.inuse + change)
    && (change != 0 && shown.inuse + change < 0 ==> after[k].record.inuse == 0)
    && (after[k].dirty <==> change != 0 || (k in before && before[k].dirty))
  }

  lemma AccessBooks(disk: Disk, table: Table, k: Key, change: int)
    requires PathOf(k) in disk
    ensures Books(disk, table, Accessed(disk, table, k, change), k, change)
  {
  }

  /** The allocation around `p`, and no other, is charged with `change`. */
  ghost predicate Pays(m: Machine, after: Machine, p: Path, change: int)
    requires [] in m.disk
  {
    PayerOnDisk(m, p);
    after.disk == m.disk && after.dirs == m.dirs && Books(m.disk, m.table, after.table, Payer(m, p), change)
  }

  /** The record that the lookup shows for the allocation around `p` has that much space left. */
  ghost predicate Affords(m: Machine, p: Path, change: int)
    requires [] in m.disk
  {
    PayerOnDisk(m, p);
    var k := Payer(m, p);
    var shown := if k in m.table then m.table[k].record else m.disk[PathOf(k)];
    shown.size - shown.inuse >= change
  }

  /** chirp_alloc_realloc from a file of `current` bytes to `size`: the difference in whole blocks is charged if
      there is room for it, and nothing else happens. */
  ghost predicate ReallocTells(m: Machine, after: Machine, p: Path, current: int, size: int, result: int)
    requires [] in m.disk
  {
    var change := SpaceConsumed(size) - SpaceConsumed(current);
    && after.files == m.files && (result == 0 || result == -1)
    && (result == 0 <==> size == current || Affords(m, p, change))
    && Pays(m, after, p, if result == 0 then change else 0)
  }

  lemma ReallocIsTold(m: Machine, p: Path, size: int)
    requires [] in m.disk
    ensures ReallocTells(m, Realloc(m, p, size), p, FileSize(m, p), size, ReallocResult(m, p, size))
  {
    PayerOnDisk(m, p);
    AccessBooks(m.disk, m.table, Payer(m, p), Amount(m, p, size));
  }

  /** A second call for the size that the file has changes nothing. */
  lemma SecondCall(m: Machine, p: Path, size: int)
    requires [] in m.disk
    ensures var charged := Realloc(m, p, size); Realloc(charged, p, FileSize(m, p)) == charged
  {
    PayerOnDisk(m, p);
  }

  lemma ResizedIsTold(m: Machine, p: Path, size: int, works: bool)
    requires [] in m.disk
    ensures var after := Resized(m, p, size, works);
            && ReallocTells(m, after.(files := m.files), p, FileSize(m, p), size, ReallocResult(m, p, size))
            && after.files == if ReallocResult(m, p, size) == 0 && works && size >= 0 then m.files[p := size]
                              else m.files
  {
    ReallocIsTold(m, p, size);
    SecondCall(m, p, size);
  }

  lemma UnlinkedIsTold(m: Machine, p: Path)
    requires [] in m.disk
    ensures var after := Unlinked(m, p);
            && ReallocTells(m, after.(files := m.files), p, FileSize(m, p), 0, ReallocResult(m, p, 0))
            && after.files == if ReallocResult(m, p, 0) == 0 then m.files - {p} else m.files
  {
    ReallocIsTold(m, p, 0);
    SecondCall(m, p, 0);
  }

  /** A write of `length` bytes at `offset` into a file that has `current` bytes. A write within the file is charged
      nothing; one behind its end is charged for the blocks up to its own end, if there is room. What was stored
      makes the file larger and never smaller. */
  ghost predicate WriteTells(m: Machine, after: Machine, p: Path, offset: nat, length: nat, stored: int, result: int)
    requires [] in m.disk && p in m.files
  {
    var current, end := m.files[p], offset + length;
    var change := if end <= current then 0 else SpaceConsumed(end) - SpaceConsumed(current);
    && (end <= current || Affords(m, p, change) ==> result == stored)
    && (end > current && !Affords(m, p, change) ==> result == -1 && after.files == m.files && Pays(m, after, p, 0))
    && (result == stored && (stored == length || stored == -1) && (end <= current || Affords(m, p, change)) ==>
         Pays(m, after, p, change))
    && (result <= 0 ==> after.files == m.files)
    && (result > 0 ==>
         && p in after.files && after.files == m.files[p := after.files[p]] && result == stored
         && after.files[p] >= current && after.files[p] >= offset + stored
         && (after.files[p] == current || after.files[p] == offset + stored))
  }

  lemma WrittenIsTold(m: Machine, p: Path, offset: nat, length: nat, stored: int)
    requires [] in m.disk && p in m.files && -1 <= stored <= length
    ensures WriteTells(m, WrittenBy(m, p, offset, length, stored), p, offset, length, stored,
              if ReallocResult(m, p, EndOfWrite(m, p, offset, length)) == 0 then stored else -1)
  {
    var end := EndOfWrite(m, p, offset, length);
    ReallocIsTold(m, p, end);
    SecondCall(m, p, end);
  }

  /** The second half of a rename, for a file of `size` bytes, or -1 if there is none: the new name is charged in
      place of what it had, and the file moves, or no file changes. */
  ghost predicate TransferTells(m: Machine, after: Machine, p: Path, q: Path, result: int)
    requires [] in m.disk
  {
    var size: int := if p in m.files then m.files[p] else -1;
    var change := SpaceConsumed(size) - SpaceConsumed(if q in m.files then m.files[q] else 0);
    && (result == 0 || result == -1)
    && (result == 0 <==> p in m.files && (size == FileSize(m, q) || Affords(m, q, change)))
    && (result == 0 ==>
         && Pays(m, after, q, change) && q in after.files && after.files[q] == size && (p == q || p !in after.files)
         && (forall x :: x != p && x != q ==>
              (x in after.files <==> x in m.files) && (x in m.files ==> after.files[x] == m.files[x])))
    && (result != 0 ==> after.files == m.files)
  }

  lemma TransferIsTold(m: Machine, p: Path, q: Path)
    requires [] in m.disk
    ensures TransferTells(m, Transferred(m, p, q), p, q, TransferResult(m, p, q))
  {
    ReallocIsTold(m, q, RenameSize(m, p));
  }

  /** The whole blocks of the size and of what is left, if anything is. */
  lemma InBlocksIs(r: Record, bsize: nat)
    requires bsize > 0 && r.size >= 0
    ensures var (blocks, bavail) := InBlocks(r, bsize);
            && blocks * bsize <= r.size < blocks * bsize + bsize
            && (if r.size <= r.inuse then bavail == 0
                else bavail * bsize <= r.size - r.inuse < bavail * bsize + bsize)
  {
  }

  /** What statfs tells of a record. */
  function InBlocks(r: Record, bsize: nat): (int, int)
    requires bsize > 0
  {
    (CDiv(r.size, bsize), if Avail(r) < 0 then 0 else Avail(r) / bsize)
  }

  class Allocator {
    var files: map<Path, nat>
    var dirs: set<Path>
    var disk: Disk
    var table: Table
    var roots: map<Key, Key>

    function M(): Machine
      reads this
    {
      Machine(files, dirs, disk, table)
    }

    function L(): Ledger
      reads this
    {
      LedgerOf(M())
    }

    /** Holds in every run, whatever the spellings; a cached lookup is what the walk would find. */
    ghost predicate Valid()
      reads this
    {
      Formed(disk, table) && RootsRight(disk, roots)
    }

    /** chirp_alloc_init: the caches are empty after the flush that ends the recovery. */
    constructor (files: map<Path, nat>, dirs: set<Path>, disk: Disk)
      requires [] in disk && forall p :: p in disk ==> disk[p].inuse >= 0
      ensures Valid() && M() == Machine(files, dirs, disk, map[]) && L() == Ledger(files, dirs, disk)
    {
      this.files, this.dirs, this.disk, table, roots := files, dirs, disk, map[], map[];
      new;
      assert View(disk, map[]) == disk;
    }

    /** alloc_state_cache_exact. */
    method Load(k: Key) returns (r: Key)
      requires Valid() && Proper(k)
      modifies this`table, this`roots
      ensures Valid() && r == RootKey(disk.Keys, k) && PathOf(r) == Nearest(disk.Keys, PathOf(k)) && PathOf(r) in disk
      ensures table == Loaded(disk, old(table), r) && table[r].record == Seen(disk, old(table), r)
    {
      if k in roots {
        r := roots[k];
      } else {
        r := RootKey(disk.Keys, k);
        roots := roots[k := r];
      }
      RootKeyIsNearest(disk.Keys, k);
      RootOnDisk(disk, k);
      AccessFormed(disk, table, r, 0);
      if r !in table { table := table[r := Entry(disk[PathOf(r)], false)]; }
    }

    /** chirp_alloc_realloc: the accounts change as `ReallocTells` says, the file does not yet. */
    method Charge(p: Path, size: int) returns (result: int, current: int)
      requires Valid()
      modifies this`table, this`roots
      ensures Valid() && M() == Realloc(old(M()), p, size) && result == ReallocResult(old(M()), p, size)
      ensures current == FileSize(old(M()), p)
    {
      ghost var m := M();
      PayerOnDisk(m, p);
      ReallocFormed(m, p, size);
      var r := Load(DirKey(p));
      current := if p in files then files[p] else 0;
      var difference := SpaceConsumed(size) - SpaceConsumed(current);
      result := 0;
      if size != current {
        if Avail(table[r].record) >= difference {
          table := Charged(table, r, difference);
        } else {
          result := -1;
        }
      }
    }

    /** The truncate requests; `works`: the file system carries the change out. */
    method Truncate(p: Path, size: int, works: bool) returns (result: int)
      requires Valid() && (works ==> p in files)
      modifies this`table, this`roots, this`files
      ensures Valid() && M() == Resized(old(M()), p, size, works)
      ensures result == if ReallocResult(old(M()), p, size) == 0 && works && size >= 0 then 0 else -1
      ensures files == if result == 0 then old(files)[p := size] else old(files)
      ensures ReallocTells(old(M()), M().(files := old(files)), p, FileSize(old(M()), p), size,
                ReallocResult(old(M()), p, size))
    {
      ResizedIsTold(M(), p, size, works);
      var current: int;
      result, current := Charge(p, size);
      if result == 0 {
        if works && size >= 0 {
          files := files[p := size];
        } else {
          result, current := Charge(p, current);
          result := -1;
        }
      }
    }

    /** The pwrite request; `stored` is what the file system returns: -1, or how many bytes it stored. */
    method Pwrite(p: Path, offset: nat, length: nat, stored: int) returns (result: int)
      requires Valid() && p in files && -1 <= stored <= length
      modifies this`table, this`roots, this`files
      ensures Valid() && M() == WrittenBy(old(M()), p, offset, length, stored)
      ensures result == if ReallocResult(old(M()), p, EndOfWrite(old(M()), p, offset, length)) == 0 then stored else -1
      ensures WriteTells(old(M()), M(), p, offset, length, stored, result)
    {
      WrittenIsTold(M(), p, offset, length, stored);
      result := Store(p, offset, length, stored);
    }

    /** Its steps. */
    method Store(p: Path, offset: nat, length: nat, stored: int) returns (result: int)
      requires Valid() && p in files && -1 <= stored <= length
      modifies this`table, this`roots, this`files
      ensures Valid() && M() == WrittenBy(old(M()), p, offset, length, stored)
      ensures result == if ReallocResult(old(M()), p, EndOfWrite(old(M()), p, offset, length)) == 0 then stored else -1
    {
      var oldsize, current, again, ignored := files[p], 0, 0, 0;
      result, current := Charge(p, if length + offset > oldsize then length + offset else oldsize);
      if result == 0 {
        result := stored;
        if stored > 0 && offset + stored > oldsize { files := files[p := offset + stored]; }
        if stored == -1 {
          again, ignored := Charge(p, current);
        } else if stored < length {
          again, ignored := Charge(p, stored);
        }
      }
    }

    method Unlink(p: Path) returns (result: int)
      requires Valid()
      modifies this`table, this`roots, this`files
      ensures Valid() && M() == Unlinked(old(M()), p)
      ensures result == if ReallocResult(old(M()), p, 0) == 0 && p in old(files) then 0 else -1
      ensures files == if result == 0 then old(files) - {p} else old(files)
      ensures ReallocTells(old(M()), M().(files := old(files)), p, FileSize(old(M()), p), 0,
                ReallocResult(old(M()), p, 0))
    {
      UnlinkedIsTold(M(), p);
      var current: int;
      result, current := Charge(p, 0);
      if result == 0 {
        if p in files {
          files := files - {p};
        } else {
          result, current := Charge(p, current);
          result := -1;
        }
      }
    }

    /** The rename request. */
    method Rename(p: Path, q: Path) returns (result: int)
      requires Valid()
      modifies this`table, this`roots, this`files
      ensures Valid()
      ensures ReallocResult(old(M()), p, 0) != 0 ==> result == -1 && M() == Realloc(old(M()), p, 0)
      ensures ReallocResult(old(M()), p, 0) == 0 ==>
                && M() == Transferred(Realloc(old(M()), p, 0), p, q)
                && result == TransferResult(Realloc(old(M()), p, 0), p, q)
                && TransferTells(Realloc(old(M()), p, 0), M(), p, q, result)
    {
      TransferIsTold(Realloc(M(), p, 0), p, q);
      var oldcurrent: int;
      result, oldcurrent := Charge(p, 0);
      if result == 0 { result := Move(p, q, oldcurrent); }
    }

    /** Its second half. */
    method Move(p: Path, q: Path, oldcurrent: int) returns (result: int)
      requires Valid() && oldcurrent == FileSize(M(), p)
      modifies this`table, this`roots, this`files
      ensures Valid() && M() == Transferred(old(M()), p, q) && result == TransferResult(old(M()), p, q)
    {
      var newcurrent, again, ignored: int;
      result, newcurrent := Charge(q, if p in files then files[p] else -1);
      if result != 0 {
        again, ignored := Charge(p, oldcurrent);
      } else if p in files {
        files := (files - {p})[q := files[p]];
      } else {
        again, ignored := Charge(p, oldcurrent);
        again, ignored := Charge(q, newcurrent);
        result := -1;
      }
    }

    method Mkdir(p: Path)
      requires Valid()
      modifies this`dirs
      ensures Valid() && M() == old(M()).(dirs := old(dirs) + {p})
    {
      dirs := dirs + {p};
    }

    /** A file that is opened for the first time costs nothing. */
    method Create(p: Path)
      requires Valid() && p !in files
      modifies this`files
      ensures Valid() && M() == old(M()).(files := old(files)[p := 0])
    {
      files := files[p := 0];
    }

    /** Whole blocks, with no negative number of them available. */
    method Statfs(p: Path, bsize: nat) returns (blocks: int, bavail: int)
      requires Valid() && bsize > 0
      modifies this`table, this`roots
      ensures Valid() && PathOf(Payer(old(M()), p)) in disk
      ensures M() == old(M()).(table := Loaded(disk, old(table), Payer(old(M()), p)))
      ensures (blocks, bavail) == InBlocks(Seen(disk, old(table), Payer(old(M()), p)), bsize)
    {
      var r := Load(DirKey(p));
      blocks, bavail := CDiv(table[r].record.size, bsize), CDiv(Avail(table[r].record), bsize);
      if Avail(table[r].record) < 0 { bavail := 0; }
    }

    /** The nearest allocation at or above `p`. */
    method Lsalloc(p: Path) returns (d: Path, size: int, inuse: int)
      requires Valid()
      modifies this`table, this`roots
      ensures Valid() && d == Nearest(disk.Keys, p) && d in disk && d == PathOf(RootKey(disk.Keys, KeyOf(p)))
      ensures M() == old(M()).(table := Loaded(disk, old(table), RootKey(disk.Keys, KeyOf(p))))
      ensures Record(size, inuse) == Seen(disk, old(table), RootKey(disk.Keys, KeyOf(p)))
    {
      var r := Load(KeyOf(p));
      d, size, inuse := PathOf(r), table[r].record.size, table[r].record.inuse;
    }

    /** chirp_alloc_mkalloc; `made` tells whether the mkdir succeeds. The flush at the end forgets the cached
        lookups, which the new record may have outdated. */
    method Mkalloc(p: Path, size: int, made: bool) returns (result: int)
      requires Valid() && (made ==> p != [] && p !in disk)
      modifies this
      ensures Valid() && files == old(files) && PathOf(Payer(old(M()), p)) in old(disk)
      ensures result == if made && Affords(old(M()), p, size + 1) then 0 else -1
      ensures result != 0 ==> M() == old(M()).(table := Loaded(old(disk), old(table), Payer(old(M()), p)))
      ensures result == 0 ==>
                && dirs == old(dirs) + {p} && table == map[] && roots == map[]
                && Flushed(old(disk)[p := Record(size, 0)],
                     Accessed(old(disk), old(table), Payer(old(M()), p), size), disk)
    {
      var r := Load(DirKey(p));
      if Avail(table[r].record) > size && made {
        EstablishFormed(disk, table, r, p, size);
        var saved := SaveAll(disk[p := Record(size, 0)], Charged(table, r, size));
        FlushFormed(disk[p := Record(size, 0)], Charged(table, r, size), saved);
        dirs, disk, table, roots := dirs + {p}, saved, map[], map[];
        result := 0;
      } else {
        result := -1;
      }
    }

    /** chirp_alloc_flush. */
    method Flush()
      requires Valid()
      modifies this`disk, this`table, this`roots
      ensures Valid() && Flushed(old(disk), old(table), disk) && table == map[] && roots == map[]
    {
      var saved := SaveAll(disk, table);
      FlushFormed(disk, table, saved);
      disk, table, roots := saved, map[], map[];
    }
  }

  lemma FlushFormed(disk: Disk, table: Table, after: Disk)
    requires Formed(disk, table) && Flushed(disk, table, after)
    ensures Formed(after, map[])
  {
    forall p | p in after ensures after[p].inuse >= 0 {
      if p == [] {
        if Dirty(table, Slash) { assert EntryRight(disk, table, Slash); }
        if Dirty(table, Empty) { assert EntryRight(disk, table, Empty); }
      } else if Named(p) in table {
        assert EntryRight(disk, table, Named(p));
      }
    }
  }

  lemma EstablishFormed(disk: Disk, table: Table, r: Key, p: Path, size: int)
    requires Formed(disk, table) && r in table && p != [] && p !in disk
    ensures Formed(disk[p := Record(size, 0)], Charged(table, r, size))
  {
    var disk', table' := disk[p := Record(size, 0)], Charged(table, r, size);
    forall k | k in table' ensures EntryRight(disk', table', k) {
      assert EntryRight(disk, table, k);
    }
  }
}
