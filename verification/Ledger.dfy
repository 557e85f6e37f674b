/** The accounts of the space allocator in chirp_alloc.c: a directory tree in which some directories
    carry an allocation, and what each allocation is charged for. */
module Ledger {
  import opened Sums

  /** The components of an absolute path; the root directory is the empty sequence. */
  type Path = seq<string>

  datatype Record = Record(size: int, inuse: int)

  /** Regular files with their sizes, directories, and the allocation records in them. */
  datatype Ledger = Ledger(files: map<Path, nat>, dirs: set<Path>, allocs: map<Path, Record>)

  const BLOCK_SIZE := 4096

  /** Division and remainder as C defines them. */
  function CDiv(a: int, b: int): int
    requires b > 0
  {
    if a >= 0 then a / b else -(-a / b)
  }

  /** The blocks a file of this size occupies, in bytes. */
  function SpaceConsumed(filesize: int): int
  {
    var blocks := CDiv(filesize, BLOCK_SIZE);
    (if filesize - blocks * BLOCK_SIZE != 0 then blocks + 1 else blocks) * BLOCK_SIZE
  }

  /** The least number of whole blocks that holds the file. */
  lemma SpaceIsRounded(n: nat)
    ensures n <= SpaceConsumed(n) < n + 4096 && SpaceConsumed(n) % 4096 == 0
  {
  }

  /** A file that is missing has size -1 to the caller, and that is a block. */
  lemma SpaceOfMissing()
    ensures SpaceConsumed(-1) == 4096
  {
  }

  function Parent(p: Path): Path
    requires p != []
  {
    p[..|p| - 1]
  }

  lemma PrefixOfParent(d: Path, p: Path)
    requires d <= p && d != p
    ensures d <= Parent(p)
  {
    assert p[..|d|] == Parent(p)[..|d|];
  }

  // ---------------------------------------------------------------------- the nearest allocation

  /** The walk of alloc_state_root towards the root. */
  function Nearest(allocs: set<Path>, p: Path): Path
    decreases |p|
  {
    if p in allocs || p == [] then p else Nearest(allocs, Parent(p))
  }

  /** It ends at the longest prefix that holds a record. */
  lemma {:induction false} NearestIsLongest(allocs: set<Path>, p: Path, d: Path)
    requires [] in allocs
    ensures Nearest(allocs, p) in allocs && Nearest(allocs, p) <= p
    ensures d in allocs && d <= p ==> d <= Nearest(allocs, p)
    decreases |p|
  {
    if p in allocs {
    } else {
      NearestIsLongest(allocs, Parent(p), d);
      if d in allocs && d <= p { PrefixOfParent(d, p); }
    }
  }

  lemma {:induction false} NearestStable(allocs: set<Path>, p: Path, x: Path)
    requires !(x <= p) || x in allocs
    ensures Nearest(allocs + {x}, p) == Nearest(allocs, p)
    decreases |p|
  {
    if p in allocs || p == [] {
    } else {
      if x <= Parent(p) { assert x <= p; }
      NearestStable(allocs, Parent(p), x);
    }
  }

  lemma PrefixTransitive(a: Path, b: Path, c: Path)
    requires a <= b <= c
    ensures a <= c
  {
  }

  // ---------------------------------------------------------------------- accounts

  /** Everything some allocation pays for: files, and the sub-allocations made in it. */
  function Charges(l: Ledger): map<Path, int>
  {
    map p | p in l.files.Keys + (l.allocs.Keys - {[]}) ::
        if p in l.files then SpaceConsumed(l.files[p]) else l.allocs[p].size
  }

  function Homes(l: Ledger): map<Path, Path>
  {
    map p | p in l.files.Keys + (l.allocs.Keys - {[]}) && p != [] :: Nearest(l.allocs.Keys, Parent(p))
  }

  ghost predicate Shaped(l: Ledger)
  {
    && [] in l.allocs && l.allocs.Keys <= l.dirs
    && (forall p :: p in l.files ==> p != [] && p !in l.dirs && Parent(p) in l.dirs)
    && (forall p :: p in l.dirs && p != [] ==> Parent(p) in l.dirs)
  }

  /** Each allocation's use is what it is charged for. */
  ghost predicate Conserved(l: Ledger)
  {
    forall d :: d in l.allocs ==> Exact(l, d)
  }

  ghost predicate Exact(l: Ledger, d: Path)
    requires d in l.allocs
  {
    l.allocs[d].inuse == Total(Fibre(Charges(l), Homes(l), d))
  }

  predicate WithinQuota(l: Ledger)
  {
    forall d :: d in l.allocs ==> 0 <= l.allocs[d].size && l.allocs[d].inuse <= l.allocs[d].size
  }

  ghost predicate Balanced(l: Ledger) { Shaped(l) && Conserved(l) && WithinQuota(l) }

  lemma {:induction false} DirsClosed(l: Ledger, p: Path, x: Path)
    requires Shaped(l) && x in l.dirs && p <= x
    ensures p in l.dirs
    decreases |x|
  {
    if p == x {
    } else {
      PrefixOfParent(p, x);
      DirsClosed(l, p, Parent(x));
    }
  }

  lemma ChargesPositive(l: Ledger, d: Path)
    requires WithinQuota(l)
    ensures Total(Fibre(Charges(l), Homes(l), d)) >= 0
    ensures forall p :: p in Charges(l) ==> Charges(l)[p] >= 0
  {
    TotalPositive(Fibre(Charges(l), Homes(l), d));
  }

  // ---------------------------------------------------------------------- the subtree bound

  /** The allocations at or below `d`. */
  function Below(l: Ledger, d: Path): set<Path> { set a | a in l.allocs && d <= a }

  /** The space of all files below `d`, at any depth. */
  function FilesBelow(l: Ledger, d: Path): map<Path, int>
  {
    map p | p in l.files && d <= p :: SpaceConsumed(l.files[p])
  }

  lemma HomeBelow(l: Ledger, d: Path, p: Path)
    requires Shaped(l) && d in l.allocs && p in Charges(l)
    ensures p in Homes(l) && (Homes(l)[p] in Below(l, d) <==> d <= p && d != p)
  {
    var home := Nearest(l.allocs.Keys, Parent(p));
    NearestIsLongest(l.allocs.Keys, Parent(p), d);
    if d <= home { PrefixTransitive(d, home, Parent(p)); }
    if d <= p && d != p { PrefixOfParent(d, p); }
  }

  function UseBelow(l: Ledger, d: Path): map<Path, int> { map a | a in Below(l, d) :: l.allocs[a].inuse }

  /** The sizes of the allocations strictly below `d`. */
  function GrantsBelow(l: Ledger, d: Path): map<Path, int> { map a | a in Below(l, d) && a != d :: l.allocs[a].size }

  function ChargesBelow(l: Ledger, d: Path): map<Path,
      int> { map p | p in Charges(l) && d <= p && d != p :: Charges(l)[p] }

  lemma ChargedBelow(l: Ledger, d: Path)
    requires Shaped(l) && d in l.allocs
    ensures FibreOf(Charges(l), Homes(l), Below(l, d)) == ChargesBelow(l, d)
  {
    forall p | p in Charges(l) ensures p in Homes(l) && (Homes(l)[p] in Below(l, d) <==> d <= p && d != p) {
      HomeBelow(l, d, p);
    }
  }

  lemma ChargesAreFilesAndGrants(l: Ledger, d: Path)
    requires Shaped(l) && d in l.allocs
    ensures Where(ChargesBelow(l, d), Below(l, d)) == GrantsBelow(l, d)
    ensures ChargesBelow(l, d) - Below(l, d) == FilesBelow(l, d)
  {
  }

  lemma UseIsFibreTotals(l: Ledger, d: Path)
    requires Conserved(l)
    ensures FibreTotals(Charges(l), Homes(l), Below(l, d)) == UseBelow(l, d)
  {
  }

  /** What all allocations at or below `d` use together is the space of the files below `d` and the
      sizes of the allocations strictly below it. */
  lemma UseOfSubtree(l: Ledger, d: Path)
    requires Shaped(l) && Conserved(l) && d in l.allocs
    ensures Total(UseBelow(l, d)) == Total(FilesBelow(l, d)) + Total(GrantsBelow(l, d))
  {
    UseIsFibreTotals(l, d);
    TotalFibres(Charges(l), Homes(l), Below(l, d));
    ChargedBelow(l, d);
    TotalSplit(ChargesBelow(l, d), Below(l, d));
    ChargesAreFilesAndGrants(l, d);
  }

  lemma UseAtMostGrants(l: Ledger, d: Path)
    requires WithinQuota(l) && d in l.allocs
    ensures Total(UseBelow(l, d)) <= l.allocs[d].inuse + Total(GrantsBelow(l, d))
  {
    TotalRemove(UseBelow(l, d), d);
    TotalAtMost(UseBelow(l, d) - {d}, GrantsBelow(l, d));
  }

  /** No allocation's whole subtree holds more than its size. */
  lemma SubtreeBound(l: Ledger, d: Path)
    requires Balanced(l) && d in l.allocs
    ensures Total(FilesBelow(l, d)) <= l.allocs[d].inuse <= l.allocs[d].size
  {
    UseOfSubtree(l, d);
    UseAtMostGrants(l, d);
  }

  // ---------------------------------------------------------------------- operations

  /** The directory whose allocation pays for `p`. */
  function Dirname(p: Path): Path { if p == [] then [] else Parent(p) }

  function Home(l: Ledger, p: Path): Path { Nearest(l.allocs.Keys, Dirname(p)) }

  function Current(l: Ledger, p: Path): nat { if p in l.files then l.files[p] else 0 }

  function Avail(r: Record): int { r.size - r.inuse }

  /** `alloc_state_update`, with its clamp at zero. */
  function Updated(r: Record, change: int): Record
  {
    if r.inuse + change < 0 then r.(inuse := 0) else r.(inuse := r.inuse + change)
  }

  function Charge(l: Ledger, d: Path, change: int): (r: Ledger)
    requires d in l.allocs
    ensures r.allocs.Keys == l.allocs.Keys
  {
    l.(allocs := l.allocs[d := Updated(l.allocs[d], change)])
  }

  function Difference(l: Ledger, p: Path, size: int): int { SpaceConsumed(size) - SpaceConsumed(Current(l, p)) }

  /** The test of chirp_alloc_realloc. */
  predicate Fits(l: Ledger, p: Path, size: int)
    requires Home(l, p) in l.allocs
  {
    size == Current(l, p) || Avail(l.allocs[Home(l, p)]) >= Difference(l, p, size)
  }

  predicate MayHoldFile(l: Ledger, p: Path) { p != [] && p !in l.dirs && Parent(p) in l.dirs }

  /** A file that is made, written or truncated to `size` bytes, with its charge. */
  function Resize(l: Ledger, p: Path, size: nat): Ledger
    requires Home(l, p) in l.allocs
  {
    Charge(l.(files := l.files[p := size]), Home(l, p), Difference(l, p, size))
  }

  function Remove(l: Ledger, p: Path): Ledger
    requires Home(l, p) in l.allocs
  {
    Charge(l.(files := l.files - {p}), Home(l, p), Difference(l, p, 0))
  }

  function MakeDir(l: Ledger, p: Path): Ledger { l.(dirs := l.dirs + {p}) }

  /** A new directory with an allocation of its own, paid for by the allocation around it. */
  function Allocate(l: Ledger, p: Path, size: int): Ledger
    requires Home(l, p) in l.allocs
  {
    Charge(MakeDir(l, p).(allocs := l.allocs[p := Record(size, 0)]), Home(l, p), size)
  }

  lemma HomeHolds(l: Ledger, p: Path)
    requires [] in l.allocs
    ensures Home(l, p) in l.allocs
  {
    NearestIsLongest(l.allocs.Keys, Dirname(p), []);
  }

  lemma SameKeys(l: Ledger)
    requires Shaped(l)
    ensures Charges(l).Keys == Homes(l).Keys
  {
  }

  /** An allocation that pays for `p` uses at least what `p` costs. */
  lemma ChargedAtLeast(l: Ledger, p: Path)
    requires Balanced(l) && p in Charges(l)
    ensures p in Homes(l) && Homes(l)[p] in l.allocs && l.allocs[Homes(l)[p]].inuse >= Charges(l)[p]
  {
    HomeHolds(l, p);
    SameKeys(l);
    var d := Homes(l)[p];
    var f := Fibre(Charges(l), Homes(l), d);
    TotalRemove(f, p);
    ChargesPositive(l, d);
    TotalPositive(f - {p});
  }

  /** The clamp of alloc_state_update does not fire when a file changes size. */
  lemma NoClamp(l: Ledger, p: Path, size: nat)
    requires Balanced(l) && MayHoldFile(l, p)
    ensures Home(l, p) in l.allocs && l.allocs[Home(l, p)].inuse + Difference(l, p, size) >= 0
  {
    HomeHolds(l, p);
    SpaceIsRounded(size);
    if p in l.files {
      ChargedAtLeast(l, p);
    } else {
      ChargesPositive(l, Home(l, p));
    }
  }

  lemma ResizeCharges(l: Ledger, p: Path, size: nat)
    requires MayHoldFile(l, p) && Home(l, p) in l.allocs && l.allocs.Keys <= l.dirs
    ensures Charges(Resize(l, p, size)) == Charges(l)[p := SpaceConsumed(size)]
  {
    var left, right := Charges(Resize(l, p, size)), Charges(l)[p := SpaceConsumed(size)];
    assert left.Keys == right.Keys;
  }

  lemma ResizeHomes(l: Ledger, p: Path, size: nat)
    requires MayHoldFile(l, p) && Home(l, p) in l.allocs
    ensures Homes(Resize(l, p, size)) == Homes(l)[p := Home(l, p)]
  {
    var left, right := Homes(Resize(l, p, size)), Homes(l)[p := Home(l, p)];
    assert left.Keys == right.Keys;
  }

  lemma ResizeExact(l: Ledger, p: Path, size: nat, d: Path)
    requires Shaped(l) && MayHoldFile(l, p) && Home(l, p) in l.allocs && d in l.allocs && Exact(l, d)
    requires l.allocs[Home(l, p)].inuse + Difference(l, p, size) >= 0
    ensures Exact(Resize(l, p, size), d)
  {
    SameKeys(l);
    ResizeCharges(l, p, size);
    ResizeHomes(l, p, size);
    FibreUpdate(Charges(l), Homes(l), p, SpaceConsumed(size), Home(l, p), d);
  }

  lemma ResizeConserves(l: Ledger, p: Path, size: nat)
    requires Shaped(l) && Conserved(l) && MayHoldFile(l, p) && Home(l, p) in l.allocs
    requires l.allocs[Home(l, p)].inuse + Difference(l, p, size) >= 0
    ensures Conserved(Resize(l, p, size))
  {
    forall d | d in l.allocs ensures Exact(Resize(l, p, size), d) {
      ResizeExact(l, p, size, d);
    }
  }

  lemma ResizeShape(l: Ledger, p: Path, size: nat)
    requires Shaped(l) && MayHoldFile(l, p) && Home(l, p) in l.allocs
    ensures Shaped(Resize(l, p, size))
  {
  }

  lemma ChargeQuota(l: Ledger, d: Path, change: int)
    requires WithinQuota(l) && d in l.allocs && l.allocs[d].inuse + change <= l.allocs[d].size
    ensures WithinQuota(Charge(l, d, change))
  {
  }

  /** A size change that fits keeps the accounts exact and within quota. */
  lemma ResizeKeeps(l: Ledger, p: Path, size: nat)
    requires Balanced(l) && MayHoldFile(l, p) && Home(l, p) in l.allocs && Fits(l, p, size)
    ensures Balanced(Resize(l, p, size))
  {
    NoClamp(l, p, size);
    ResizeConserves(l, p, size);
    ResizeShape(l, p, size);
    ChargeQuota(l.(files := l.files[p := size]), Home(l, p), Difference(l, p, size));
  }

  lemma RemoveCharges(l: Ledger, p: Path)
    requires p in l.files && p !in l.allocs && Home(l, p) in l.allocs
    ensures Charges(Remove(l, p)) == Charges(l) - {p} && Homes(Remove(l, p)) == Homes(l) - {p}
  {
    assert Charges(Remove(l, p)).Keys == (Charges(l) - {p}).Keys;
    assert Homes(Remove(l, p)).Keys == (Homes(l) - {p}).Keys;
  }

  lemma RemoveExact(l: Ledger, p: Path, d: Path)
    requires Shaped(l) && p in l.files && Home(l, p) in l.allocs && d in l.allocs && Exact(l, d)
    requires l.allocs[Home(l, p)].inuse + Difference(l, p, 0) >= 0
    ensures Exact(Remove(l, p), d)
  {
    SameKeys(l);
    RemoveCharges(l, p);
    FibreRemove(Charges(l), Homes(l), p, d);
  }

  lemma RemoveShape(l: Ledger, p: Path)
    requires Shaped(l) && Home(l, p) in l.allocs
    ensures Shaped(Remove(l, p))
  {
  }

  /** Deleting a file needs no room. */
  lemma RemoveKeeps(l: Ledger, p: Path)
    requires Balanced(l) && p in l.files
    ensures Home(l, p) in l.allocs && Fits(l, p, 0) && Balanced(Remove(l, p))
  {
    NoClamp(l, p, 0);
    SpaceIsRounded(l.files[p]);
    RemoveShape(l, p);
    ChargeQuota(l.(files := l.files - {p}), Home(l, p), Difference(l, p, 0));
    forall d | d in l.allocs ensures Exact(Remove(l, p), d) {
      RemoveExact(l, p, d);
    }
  }

  lemma MakeDirKeeps(l: Ledger, p: Path)
    requires Balanced(l) && MayHoldFile(l, p) && p !in l.files
    ensures Balanced(MakeDir(l, p))
  {
    var after := MakeDir(l, p);
    assert Charges(after) == Charges(l) && Homes(after) == Homes(l);
  }

  /** A new directory is nobody's nearest allocation yet. */
  lemma NewNearest(l: Ledger, p: Path, x: Path)
    requires Shaped(l) && MayHoldFile(l, p) && x in l.dirs
    ensures Nearest(l.allocs.Keys + {p}, x) == Nearest(l.allocs.Keys, x)
  {
    if p <= x { DirsClosed(l, p, x); }
    NearestStable(l.allocs.Keys, x, p);
  }

  lemma AllocateKeys(l: Ledger, p: Path, size: int)
    requires Home(l, p) in l.allocs
    ensures Allocate(l, p, size).allocs.Keys == l.allocs.Keys + {p}
  {
  }

  lemma AllocateCharges(l: Ledger, p: Path, size: int)
    requires Shaped(l) && MayHoldFile(l, p) && p !in l.files && Home(l, p) in l.allocs
    ensures Charges(Allocate(l, p, size)) == Charges(l)[p := size]
  {
    AllocateKeys(l, p, size);
    var left, right := Charges(Allocate(l, p, size)), Charges(l)[p := size];
    assert left.Keys == right.Keys;
  }

  lemma AllocateHomes(l: Ledger, p: Path, size: int)
    requires Shaped(l) && MayHoldFile(l, p) && p !in l.files && Home(l, p) in l.allocs
    ensures Homes(Allocate(l, p, size)) == Homes(l)[p := Home(l, p)]
  {
    AllocateKeys(l, p, size);
    var left, right := Homes(Allocate(l, p, size)), Homes(l)[p := Home(l, p)];
    assert left.Keys == right.Keys;
    forall x | x in right ensures left[x] == right[x] {
      NewNearest(l, p, Parent(x));
    }
  }

  lemma NobodysHome(l: Ledger, p: Path)
    requires Shaped(l) && MayHoldFile(l, p)
    ensures Total(Fibre(Charges(l), Homes(l), p)) == 0
  {
    forall x | x in Homes(l) ensures Homes(l)[x] != p {
      HomeHolds(l, x);
    }
    assert Fibre(Charges(l), Homes(l), p) == map[];
  }

  lemma AllocateExact(l: Ledger, p: Path, size: nat, d: Path)
    requires Shaped(l) && MayHoldFile(l, p) && p !in l.files && Home(l, p) in l.allocs
    requires d in l.allocs && Exact(l, d) && l.allocs[Home(l, p)].inuse >= 0
    ensures d in Allocate(l, p, size).allocs && Exact(Allocate(l, p, size), d)
  {
    SameKeys(l);
    AllocateCharges(l, p, size);
    AllocateHomes(l, p, size);
    FibreUpdate(Charges(l), Homes(l), p, size, Home(l, p), d);
  }

  lemma AllocateNew(l: Ledger, p: Path, size: nat)
    requires Shaped(l) && MayHoldFile(l, p) && p !in l.files && Home(l, p) in l.allocs
    ensures p in Allocate(l, p, size).allocs && Exact(Allocate(l, p, size), p)
  {
    SameKeys(l);
    NobodysHome(l, p);
    AllocateCharges(l, p, size);
    AllocateHomes(l, p, size);
    FibreUpdate(Charges(l), Homes(l), p, size, Home(l, p), p);
  }

  lemma UsePositive(l: Ledger, d: Path)
    requires Balanced(l) && d in l.allocs
    ensures l.allocs[d].inuse >= 0
  {
    assert Exact(l, d);
    ChargesPositive(l, d);
  }

  /** A new allocation keeps the accounts exact and within quota. */
  lemma AllocateKeeps(l: Ledger, p: Path, size: nat)
    requires Balanced(l) && MayHoldFile(l, p) && p !in l.files && Home(l, p) in l.allocs
    requires Avail(l.allocs[Home(l, p)]) > size
    ensures Balanced(Allocate(l, p, size))
  {
    var after := Allocate(l, p, size);
    AllocateKeys(l, p, size);
    UsePositive(l, Home(l, p));
    forall d | d in after.allocs ensures Exact(after, d) {
      if d == p { AllocateNew(l, p, size); } else { AllocateExact(l, p, size, d); }
    }
    AllocateShape(l, p, size);
    AllocateQuota(l, p, size);
  }

  lemma AllocateQuota(l: Ledger, p: Path, size: nat)
    requires WithinQuota(l) && Home(l, p) in l.allocs && p !in l.allocs && Avail(l.allocs[Home(l, p)]) > size
    ensures WithinQuota(Allocate(l, p, size))
  {
  }

  lemma AllocateShape(l: Ledger, p: Path, size: int)
    requires Shaped(l) && MayHoldFile(l, p) && p !in l.files && Home(l, p) in l.allocs
    ensures Shaped(Allocate(l, p, size))
  {
    AllocateKeys(l, p, size);
  }

  /** chirp_alloc_mkalloc does not refuse a negative size, and such an allocation is over its quota
      from the start. So exactly the sizes that are not negative keep the accounts in order. */
  lemma AllocateExactly(l: Ledger, p: Path, size: int)
    requires Balanced(l) && MayHoldFile(l, p) && p !in l.files && Home(l, p) in l.allocs
    requires Avail(l.allocs[Home(l, p)]) > size
    ensures Balanced(Allocate(l, p, size)) <==> size >= 0
  {
    if size >= 0 {
      AllocateKeeps(l, p, size);
    } else {
      assert Allocate(l, p, size).allocs[p].size == size;
    }
  }

  /** The charge for `p` given back while the file is still there. */
  function Released(l: Ledger, p: Path): Ledger
    requires Home(l, p) in l.allocs
  {
    Charge(l, Home(l, p), Difference(l, p, 0))
  }

  /** The new name paid for and the file moved. */
  function Moved(l: Ledger, p: Path, q: Path): Ledger
    requires Home(l, q) in l.allocs && p in l.files
  {
    Charge(l, Home(l, q), Difference(l, q, l.files[p])).(files := (l.files - {p})[q := l.files[p]])
  }

  function Renamed(l: Ledger, p: Path, q: Path): Ledger
    requires Home(l, p) in l.allocs && Home(l, q) in l.allocs && p in l.files
  {
    assert Home(Released(l, p), q) == Home(l, q);
    Moved(Released(l, p), p, q)
  }

  lemma RenamedIs(l: Ledger, p: Path, q: Path)
    requires Home(l, p) in l.allocs && Home(l, q) in l.allocs && p in l.files && p != q
    ensures Home(Released(l, p), q) == Home(l, q) == Home(Remove(l, p), q)
    ensures Renamed(l, p, q) == Resize(Remove(l, p), q, l.files[p])
    ensures Fits(Released(l, p), q, l.files[p]) <==> Fits(Remove(l, p), q, l.files[p])
  {
    assert Released(l, p).allocs.Keys == l.allocs.Keys == Remove(l, p).allocs.Keys;
  }

  /** Where a rename's charges go: the old name is paid back before the new one is paid for. */
  lemma RenameKeeps(l: Ledger, p: Path, q: Path)
    requires Balanced(l) && p in l.files && MayHoldFile(l, q) && p != q
    requires Home(l, p) in l.allocs && Home(l, q) in l.allocs && Home(Released(l, p), q) in l.allocs
    requires Fits(Released(l, p), q, l.files[p])
    ensures Balanced(Renamed(l, p, q))
  {
    RenamedIs(l, p, q);
    RemoveKeeps(l, p);
    ResizeKeeps(Remove(l, p), q, l.files[p]);
  }

  lemma ReleasedMaps(l: Ledger, p: Path)
    requires Home(l, p) in l.allocs
    ensures Home(Released(l, p), p) == Home(l, p)
    ensures Charges(Released(l, p)) == Charges(l) && Homes(Released(l, p)) == Homes(l)
  {
    assert Released(l, p).allocs.Keys == l.allocs.Keys;
  }

  /** A charge without a change of any file makes exact accounts wrong, unless it is nothing. */
  lemma ChargeShows(l: Ledger, d: Path, change: int)
    requires Balanced(l) && d in l.allocs && l.allocs[d].inuse + change >= 0
    ensures Conserved(Charge(l, d, change)) <==> change == 0
  {
    UsePositive(l, d);
    if change == 0 {
      assert l.allocs[d := l.allocs[d]] == l.allocs;
    } else {
      assert Exact(l, d);
      ChargeInexact(l, d, change);
    }
  }

  lemma ChargeInexact(l: Ledger, d: Path, change: int)
    requires d in l.allocs && Exact(l, d) && change != 0 && l.allocs[d].inuse + change >= 0
    ensures !Exact(Charge(l, d, change), d)
  {
    ChargeMaps(l, d, change);
  }

  lemma ChargeMaps(l: Ledger, d: Path, change: int)
    requires d in l.allocs
    ensures Charges(Charge(l, d, change)) == Charges(l) && Homes(Charge(l, d, change)) == Homes(l)
  {
    assert Charge(l, d, change).allocs.Keys == l.allocs.Keys;
  }

  /** Accounts in which a charge was given back while its file stayed are wrong, unless it was empty. */
  lemma ReleaseShows(l: Ledger, p: Path)
    requires Balanced(l) && p in l.files && Home(l, p) in l.allocs
    ensures Conserved(Released(l, p)) <==> l.files[p] == 0
  {
    NoClamp(l, p, 0);
    SpaceIsRounded(l.files[p]);
    ChargeShows(l, Home(l, p), Difference(l, p, 0));
  }

  /** The size a write of `length` bytes is charged for. */
  function WriteSize(l: Ledger, p: Path, offset: nat, length: nat): (size: nat)
    ensures size >= Current(l, p) && size >= offset + length && (size == Current(l, p) || size == offset + length)
  {
    if length + offset > Current(l, p) then length + offset else Current(l, p)
  }

  /** What a charge of the accounts costs, if it fits. */
  function Due(l: Ledger, p: Path, size: int): int
    requires Home(l, p) in l.allocs
  {
    if size != Current(l, p) && Fits(l, p, size) then Difference(l, p, size) else 0
  }

  /** A write that is stored completely. A write of no bytes is charged up to its offset and leaves the file as it
      is. */
  function Written(l: Ledger, p: Path, offset: nat, length: nat): Ledger
    requires Home(l, p) in l.allocs
  {
    var size := WriteSize(l, p, offset, length);
    if !Fits(l, p, size) then l
    else if length > 0 then Resize(l, p, size)
    else Charge(l, Home(l, p), Due(l, p, size))
  }

  /** A write of no bytes keeps the accounts exact exactly if it is charged nothing. */
  lemma EmptyWriteExactly(l: Ledger, p: Path, offset: nat)
    requires Balanced(l) && p in l.files && Home(l, p) in l.allocs
    ensures Conserved(Written(l, p, offset, 0)) <==> Due(l, p, WriteSize(l, p, offset, 0)) == 0
  {
    NoClamp(l, p, WriteSize(l, p, offset, 0));
    UsePositive(l, Home(l, p));
    ChargeShows(l, Home(l, p), Due(l, p, WriteSize(l, p, offset, 0)));
  }

  /** Such a write behind the first byte of an empty file, with room for a block. */
  lemma EmptyWriteBreaks(l: Ledger, p: Path)
    requires Balanced(l) && p in l.files && l.files[p] == 0 && Home(l, p) in l.allocs
    requires Avail(l.allocs[Home(l, p)]) >= BLOCK_SIZE
    ensures !Conserved(Written(l, p, 1, 0))
  {
    EmptyWriteExactly(l, p, 1);
  }

  /** The undo calls compare against the size on disk, which the failed operation did not change, so
      they change nothing. */
  lemma UndoIsNoOp(l: Ledger, p: Path)
    requires p in l.files && Home(l, p) in l.allocs
    ensures Home(Released(l, p), p) in l.allocs && Fits(Released(l, p), p, l.files[p])
    ensures Difference(Released(l, p), p, l.files[p]) == 0
  {
    ReleasedMaps(l, p);
  }
}
