/** The recovery scan of chirp_alloc.c, which recomputes the use of every allocation from the tree. */
module Recovery {
  import opened Ledger

  datatype Quota = NoQuota | Quota(size: nat)

  datatype Node = File(size: nat) | Dir(quota: Quota, entries: seq<Entry>) | Special

  datatype Entry = Entry(name: string, node: Node)

  /** Names the scan passes over: the directory itself, its parent and the server's own files. */
  predicate Skipped(name: string) { name == "." || name == ".." || (|name| >= 3 && name[..3] == ".__") }

  predicate Visible(e: Entry) { !Skipped(e.name) }

  /** What the entries of a directory cost the allocation they belong to: the blocks of the files in
      it and, through directories without an allocation, below it, and the sizes of the first
      allocations met on the way down. */
  function Use(entries: seq<Entry>): int
    decreases entries, 0
  {
    if entries == [] then 0 else Use(entries[..|entries| - 1]) + EntryUse(entries[|entries| - 1])
  }

  function EntryUse(e: Entry): int
    decreases e, 1
  {
    if !Visible(e) then 0 else
    match e.node
    case File(size) => SpaceConsumed(size)
    case Dir(Quota(size), _) => size
    case Dir(NoQuota, entries) => Use(entries)
    case Special => 0
  }

  /** `sub` is what the path `p` leads to from `node`. */
  ghost predicate Leads(node: Node, p: Path, sub: Node)
    decreases |p|
  {
    if p == [] then sub == node
    else
      && node.Dir?
      && exists i :: 0 <= i < |node.entries| && Step(node.entries[i], p[0]) && Leads(node.entries[i].node, p[1..], sub)
  }

  predicate Step(e: Entry, name: string) { Visible(e) && e.name == name }

  /** Records on disk agree with the tree, and names in a directory differ. */
  ghost predicate Matches(disk: map<Path, int>, path: Path, node: Node)
    decreases node
  {
    node.Dir? ==>
      && (path in disk <==> node.quota.Quota?)
      && (node.quota.Quota? ==> disk[path] == node.quota.size)
      && (forall i, j :: 0 <= i < j < |node.entries| ==> node.entries[i].name != node.entries[j].name)
      && (forall i :: 0 <= i < |node.entries| && Visible(node.entries[i]) ==>
           Matches(disk, path + [node.entries[i].name], node.entries[i].node))
  }

  type Table = map<Path, Record>

  predicate IsAlloc(node: Node) { node.Dir? && node.quota.Quota? }

  ghost predicate RightAt(table: Table, path: Path, sub: Node)
    requires IsAlloc(sub)
  {
    path in table && table[path] == Record(sub.quota.size, Use(sub.entries))
  }

  /** Every allocation at or below `path` has its use. */
  ghost predicate Right(table: Table, path: Path, node: Node)
  {
    forall p, sub :: Leads(node, p, sub) && IsAlloc(sub) ==> RightAt(table, path + p, sub)
  }

  ghost predicate Same(a: Table, b: Table, k: Path) { (k in a <==> k in b) && (k in a ==> a[k] == b[k]) }

  lemma RightStays(a: Table, b: Table, path: Path, node: Node)
    requires Right(a, path, node) && forall k :: path <= k ==> Same(a, b, k)
    ensures Right(b, path, node)
  {
    forall p, sub | Leads(node, p, sub) && IsAlloc(sub) ensures RightAt(b, path + p, sub) {
      assert RightAt(a, path + p, sub);
      assert Same(a, b, path + p);
    }
  }

  ghost predicate ChildRight(table: Table, path: Path, e: Entry) { Visible(e) ==> Right(table, path + [e.name],
      e.node) }

  lemma RightFromChildren(table: Table, path: Path, node: Node)
    requires node.Dir? && (IsAlloc(node) ==> RightAt(table, path, node))
    requires forall i :: 0 <= i < |node.entries| ==> ChildRight(table, path, node.entries[i])
    ensures Right(table, path, node)
  {
    forall p, sub | Leads(node, p, sub) && IsAlloc(sub) ensures RightAt(table, path + p, sub) {
      if p == [] {
        assert path + p == path;
      } else {
        var i :| 0 <= i < |node.entries| && Step(node.entries[i], p[0]) && Leads(node.entries[i].node, p[1..], sub);
        assert ChildRight(table, path, node.entries[i]);
        assert path + p == path + [p[0]] + p[1..];
      }
    }
  }

  /** Nothing at or below `path` is cached, except the record of `path` itself, with no use yet. */
  ghost predicate Untouched(disk: map<Path, int>, table: Table, path: Path)
  {
    forall k :: k in table && path <= k ==> k == path && k in disk && table[k] == Record(disk[k], 0)
  }

  /** Outside `path`, only the use of `home` grew, by `use`. */
  ghost predicate Grown(before: Table, after: Table, path: Path, home: Path, use: int)
  {
    forall k :: !(path <= k) ==>
      if k == home then k in before && k in after && after[k] == Record(before[k].size, before[k].inuse + use)
      else Same(before, after, k)
  }

  function Child(path: Path, e: Entry): Path { path + [e.name] }

  /** After the first `n` entries of the directory at `path`. */
  ghost predicate Scanned(before: Table, table: Table, path: Path, node: Node, home: Path, n: nat)
    requires node.Dir? && n <= |node.entries|
  {
    && home in table && home in before
    && table[home] == Record(before[home].size, before[home].inuse + Use(node.entries[..n]))
    && (forall i :: 0 <= i < n ==> ChildRight(table, path, node.entries[i]))
    && (forall i, k :: n <= i < |node.entries| && k in table && Visible(node.entries[i]) ==>
         !(Child(path, node.entries[i]) <= k))
    && (forall k :: !(path <= k) && k != home ==> Same(before, table, k))
  }

  lemma SiblingApart(path: Path, a: Entry, b: Entry, k: Path)
    requires a.name != b.name && Child(path, a) <= k
    ensures !(Child(path, b) <= k)
  {
    assert Child(path, a)[|path|] == a.name && Child(path, b)[|path|] == b.name;
    assert k[|path|] == a.name;
  }

  lemma UseNext(entries: seq<Entry>, n: nat)
    requires n < |entries|
    ensures Use(entries[..n + 1]) == Use(entries[..n]) + EntryUse(entries[n])
  {
    assert entries[..n + 1][..n] == entries[..n];
  }

  /** An entry that only adds to the home allocation. */
  lemma ScannedAdd(before: Table, table: Table, path: Path, node: Node, home: Path, n: nat)
    requires node.Dir? && n < |node.entries| && Scanned(before, table, path, node, home, n) && home <= path
    requires !Visible(node.entries[n]) || !node.entries[n].node.Dir?
    ensures Scanned(before, table[home := Record(table[home].size,
              table[home].inuse + EntryUse(node.entries[n]))], path, node, home, n + 1)
  {
    var after := table[home := Record(table[home].size, table[home].inuse + EntryUse(node.entries[n]))];
    UseNext(node.entries, n);
    forall i | 0 <= i < n + 1 ensures ChildRight(after, path, node.entries[i]) {
      if i < n {
        assert ChildRight(table, path, node.entries[i]);
        if Visible(node.entries[i]) { RightStays(table, after, Child(path, node.entries[i]), node.entries[i].node); }
      } else if Visible(node.entries[n]) {
        NothingBelow(after, Child(path, node.entries[n]), node.entries[n].node);
      }
    }
    forall k | !(path <= k) && k != home ensures Same(before, after, k) {
      assert Same(before, table, k);
    }
  }

  lemma NothingBelow(table: Table, path: Path, node: Node)
    requires !node.Dir?
    ensures Right(table, path, node)
  {
  }

  /** A directory that was scanned in between: `mid` is what its scan left, and then its size was
      added if it has an allocation of its own. */
  lemma ScannedDir(before: Table, table: Table, mid: Table, path: Path, node: Node, home: Path, n: nat)
    requires node.Dir? && n < |node.entries| && Scanned(before, table, path, node, home, n) && home <= path
    requires Visible(node.entries[n]) && node.entries[n].node.Dir?
    requires forall i, j :: 0 <= i < j < |node.entries| ==> node.entries[i].name != node.entries[j].name
    requires Right(mid, Child(path, node.entries[n]), node.entries[n].node) && home in mid
    requires Grown(table, mid, Child(path, node.entries[n]), home, EntryUse(node.entries[n]))
    ensures Scanned(before, mid, path, node, home, n + 1)
  {
    UseNext(node.entries, n);
    var c := Child(path, node.entries[n]);
    forall i | 0 <= i < n ensures ChildRight(mid, path, node.entries[i]) {
      assert ChildRight(table, path, node.entries[i]);
      if Visible(node.entries[i]) { SiblingStays(table, mid, path, node.entries[i], node.entries[n], home,
          EntryUse(node.entries[n])); }
    }
    forall i, k | n + 1 <= i < |node.entries| && k in mid && Visible(node.entries[i])
        ensures !(Child(path, node.entries[i]) <= k) {
      if c <= k { SiblingApart(path, node.entries[n], node.entries[i], k); }
    }
    forall k | !(path <= k) && k != home ensures Same(before, mid, k) {
      if c <= k { PrefixTransitive(path, c, k); }
      assert Same(before, table, k);
    }
  }

  lemma SiblingStays(table: Table, mid: Table, path: Path, e: Entry, other: Entry, home: Path, use: int)
    requires Grown(table, mid, Child(path, other), home, use) && e.name != other.name && home <= path
    requires Right(table, Child(path, e), e.node)
    ensures Right(mid, Child(path, e), e.node)
  {
    forall k | Child(path, e) <= k ensures Same(table, mid, k) {
      SiblingApart(path, e, other, k);
    }
    RightStays(table, mid, Child(path, e), e.node);
  }

  class Scan {
    /** The sizes in the records on disk. */
    const disk: map<Path, int>
    var table: Table

    constructor (disk: map<Path, int>)
      ensures this.disk == disk && table == map[]
    {
      this.disk, table := disk, map[];
    }

    /** alloc_state_cache_exact during recovery: a record is loaded with no use. */
    method Cache(path: Path) returns (d: Path)
      requires [] in disk
      modifies this`table
      ensures d == Nearest(disk.Keys, path) && d in disk && d <= path
      ensures table == if d in old(table) then old(table) else old(table)[d := Record(disk[d], 0)]
    {
      NearestIsLongest(disk.Keys, path, []);
      d := Nearest(disk.Keys, path);
      if d !in table { table := table[d := Record(disk[d], 0)]; }
    }

    /** `recover`: computes the use of every allocation at or below `path`; what belongs to the
        allocation around `path` is added to that one. */
    method Recover(path: Path, node: Node)
      requires [] in disk && node.Dir? && Matches(disk, path, node) && Untouched(disk, table, path)
      requires Positive(table) && (Nearest(disk.Keys, path) != path ==> Nearest(disk.Keys, path) in table)
      modifies this`table
      ensures Right(table, path, node) && Positive(table)
      ensures Grown(old(table), table, path, Nearest(disk.Keys, path), Use(node.entries))
      decreases node, 1
    {
      var a := Cache(path);
      ghost var before := table;
      BeginScan(disk, table, path, node, a);
      for n := 0 to |node.entries|
        invariant Scanned(before, table, path, node, a, n) && Positive(table)
      {
        var e := node.entries[n];
        if Skipped(e.name) || !e.node.Dir? {
          RecoverLeaf(before, path, node, a, n);
        } else {
          RecoverChild(before, path, node, a, n);
        }
      }
      EndScan(disk, before, table, path, node, a);
    }

    /** An entry that is passed over, a regular file, or something else. */
    method RecoverLeaf(ghost before: Table, ghost path: Path, node: Node, a: Path, n: nat)
      requires node.Dir? && n < |node.entries| && a <= path && Scanned(before, table, path, node, a, n)
      requires Positive(table)
      requires !Visible(node.entries[n]) || !node.entries[n].node.Dir?
      modifies this`table
      ensures Scanned(before, table, path, node, a, n + 1) && Positive(table)
    {
      var e := node.entries[n];
      ScannedAdd(before, table, path, node, a, n);
      if Skipped(e.name) || e.node.Special? {
        assert table[a := Record(table[a].size, table[a].inuse + 0)] == table;
      } else {
        SpaceIsRounded(e.node.size);
        table := table[a := Updated(table[a], SpaceConsumed(e.node.size))];
      }
    }

    /** A directory inside the one at `path`. */
    method RecoverChild(ghost before: Table, path: Path, node: Node, a: Path, n: nat)
      requires [] in disk && node.Dir? && Matches(disk, path, node) && a == Nearest(disk.Keys, path) && a <= path
      requires n < |node.entries| && Visible(node.entries[n]) && node.entries[n].node.Dir?
      requires Scanned(before, table, path, node, a, n) && Positive(table)
      modifies this`table
      ensures Scanned(before, table, path, node, a, n + 1) && Positive(table)
      decreases node, 0
    {
      var e := node.entries[n];
      var c := Child(path, e);
      ghost var start := table;
      ChildNearest(disk, path, e);
      Recover(c, e.node);
      AroundChild(start, table, c, e.node, a, Nearest(disk.Keys, c));
      ghost var mid := table;
      var b := Cache(c);
      if a != b { table := table[a := Updated(table[a], table[b].size)]; }
      ScannedChild(before, start, mid, table, path, node, a, n);
    }
  }

  ghost predicate Positive(table: Table) { forall k :: k in table ==> table[k].inuse >= 0 }

  lemma BeginScan(disk: map<Path, int>, table: Table, path: Path, node: Node, a: Path)
    requires node.Dir? && Untouched(disk, table, path) && a in table
    ensures Scanned(table, table, path, node, a, 0)
  {
    forall i, k | 0 <= i < |node.entries| && k in table && Visible(node.entries[i])
        ensures !(Child(path, node.entries[i]) <= k) {
      if Child(path, node.entries[i]) <= k { PrefixTransitive(path, Child(path, node.entries[i]), k); }
    }
  }

  lemma EndScan(disk: map<Path, int>, before: Table, table: Table, path: Path, node: Node, a: Path)
    requires node.Dir? && Matches(disk, path, node) && Scanned(before, table, path, node, a, |node.entries|)
    requires a == Nearest(disk.Keys, path) && a in disk && (a == path ==> before[a] == Record(disk[a], 0))
    ensures Right(table, path, node) && Grown(before, table, path, a, Use(node.entries))
  {
    assert node.entries[..|node.entries|] == node.entries;
    RightFromChildren(table, path, node);
  }

  lemma ChildNearest(disk: map<Path, int>, path: Path, e: Entry)
    ensures Child(path, e) !in disk ==> Nearest(disk.Keys, Child(path, e)) == Nearest(disk.Keys, path)
    ensures Child(path, e) in disk ==> Nearest(disk.Keys, Child(path, e)) == Child(path, e)
  {
    assert Parent(Child(path, e)) == path;
  }

  lemma AroundChild(start: Table, mid: Table, c: Path, node: Node, a: Path, home: Path)
    requires node.Dir? && Right(mid, c, node) && Grown(start, mid, c, home, Use(node.entries)) && a in start
    requires !(c <= a)
    requires if IsAlloc(node) then home == c else home == a
    ensures a in mid && (IsAlloc(node) ==> RightAt(mid, c, node))
  {
    if IsAlloc(node) {
      assert Leads(node, [], node) && c + [] == c;
      assert Same(start, mid, a);
    }
  }

  lemma ScannedChild(before: Table, start: Table, mid: Table, table: Table, path: Path, node: Node, a: Path, n: nat)
    requires node.Dir? && n < |node.entries| && Scanned(before, start, path, node, a, n) && a <= path
    requires Visible(node.entries[n]) && node.entries[n].node.Dir? && Positive(mid)
    requires forall i, j :: 0 <= i < j < |node.entries| ==> node.entries[i].name != node.entries[j].name
    requires Right(mid, Child(path, node.entries[n]), node.entries[n].node) && a in mid
    requires node.entries[n].node.quota.NoQuota? ==>
             table == mid && Grown(start, mid, Child(path, node.entries[n]), a, Use(node.entries[n].node.entries))
    requires node.entries[n].node.quota.Quota? ==>
               && Grown(start, mid, Child(path, node.entries[n]), Child(path, node.entries[n]),
                    Use(node.entries[n].node.entries))
               && table == mid[a := Updated(mid[a], node.entries[n].node.quota.size)]
    ensures Scanned(before, table, path, node, a, n + 1) && Positive(table)
  {
    var e := node.entries[n];
    var c := Child(path, e);
    if e.node.quota.Quota? {
      RightStays(mid, table, c, e.node);
      assert Same(start, mid, a);
      forall k | !(c <= k) && k != a ensures Same(start, table, k) {
        assert Same(start, mid, k);
      }
    }
    ScannedDir(before, start, table, path, node, a, n);
  }

  /** chirp_alloc_init: after an uncontended scan of any tree, every allocation's use is the blocks of
      the files it is the nearest allocation of, and the sizes of the allocations right below it. */
  method Init(disk: map<Path, int>, tree: Node) returns (scan: Scan)
    requires tree.Dir? && tree.quota.Quota? && Matches(disk, [], tree)
    ensures fresh(scan) && Right(scan.table, [], tree)
  {
    scan := new Scan(disk);
    var root := scan.Cache([]);
    scan.Recover([], tree);
  }
}
