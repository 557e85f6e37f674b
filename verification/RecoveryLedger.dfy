/** The recovery scan leaves exact accounts: what it computes for an allocation is the sum of the
    charges whose nearest allocation it is. */
module RecoveryLedger {
  import opened Sums
  import opened Ledger
  import opened Recovery

  /** Nodes that cost the allocation around them something. */
  predicate Costs(node: Node) { node.File? || IsAlloc(node) }

  function Cost(node: Node): int
    requires Costs(node)
  {
    if node.File? then SpaceConsumed(node.size) else node.quota.size
  }

  /** `p` leads from the entries to `sub` through directories without an allocation. */
  ghost predicate Reaches(entries: seq<Entry>, p: Path, sub: Node)
    decreases |p|, 0
  {
    p != [] && exists i :: 0 <= i < |entries| && Step(entries[i], p[0]) && ReachesFrom(entries[i].node, p[1..], sub)
  }

  ghost predicate ReachesFrom(node: Node, p: Path, sub: Node)
    decreases |p|, 1
  {
    if p == [] then sub == node else node.Dir? && node.quota.NoQuota? && Reaches(node.entries, p, sub)
  }

  // ---------------------------------------------------------------------- paths

  lemma {:induction false} ReachesLeads(node: Node, p: Path, sub: Node)
    requires node.Dir? && Reaches(node.entries, p, sub)
    ensures Leads(node, p, sub)
    decreases |p|
  {
    var i :| 0 <= i < |node.entries| && Step(node.entries[i], p[0]) && ReachesFrom(node.entries[i].node, p[1..], sub);
    if p[1..] == [] {
    } else {
      ReachesLeads(node.entries[i].node, p[1..], sub);
    }
  }

  lemma ChildOf(path: Path, p: Path)
    requires p != []
    ensures path + p == path + [p[0]] + p[1..]
    ensures p[1..] == [] ==> Parent(path + p) == path && p == [p[0]]
    ensures p[1..] != [] ==> path + [p[0]] <= Parent(path + p)
  {
    if p[1..] != [] {
      assert Parent(path + p)[..|path| + 1] == path + [p[0]];
    }
  }

  /** Everything reached has the same nearest allocation. */
  lemma {:induction false} ReachedHome(disk: map<Path, int>, path: Path, node: Node, p: Path, sub: Node)
    requires node.Dir? && Matches(disk, path, node) && Reaches(node.entries, p, sub)
    ensures path + p != [] && Nearest(disk.Keys, Parent(path + p)) == Nearest(disk.Keys, path)
    decreases |p|
  {
    var i :| 0 <= i < |node.entries| && Step(node.entries[i], p[0]) && ReachesFrom(node.entries[i].node, p[1..], sub);
    var e := node.entries[i];
    ChildOf(path, p);
    if p[1..] == [] {
    } else {
      ReachedHome(disk, path + [e.name], e.node, p[1..], sub);
      ChildNearest(disk, path, e);
    }
  }

  /** Everything below is reached, or an allocation in between is nearer. */
  lemma {:induction false} ReachedOrNearer(disk: map<Path, int>, path: Path, node: Node, p: Path, sub: Node)
    requires [] in disk && node.Dir? && Matches(disk, path, node) && Leads(node, p, sub) && p != []
    ensures Reaches(node.entries, p, sub) || (path + p != [] && |Nearest(disk.Keys, Parent(path + p))| > |path|)
    decreases |p|
  {
    var i :| 0 <= i < |node.entries| && Step(node.entries[i], p[0]) && Leads(node.entries[i].node, p[1..], sub);
    var e := node.entries[i];
    var c := path + [e.name];
    ChildOf(path, p);
    if p[1..] == [] {
      assert ReachesFrom(e.node, p[1..], sub);
    } else if e.node.quota.Quota? {
      NearestIsLongest(disk.Keys, Parent(path + p), c);
    } else {
      ReachedOrNearer(disk, c, e.node, p[1..], sub);
      if Reaches(e.node.entries, p[1..], sub) { assert ReachesFrom(e.node, p[1..], sub); }
    }
  }

  // ---------------------------------------------------------------------- the charges of one allocation

  /** The costs reached from the entries of the directory at `path`. */
  function Own(path: Path, entries: seq<Entry>): map<Path, int>
    decreases entries, 0
  {
    if entries == [] then map[] else Own(path, entries[..|entries| - 1]) + OwnEntry(path, entries[|entries| - 1])
  }

  function OwnEntry(path: Path, e: Entry): map<Path, int>
    decreases e, 1
  {
    if !Visible(e) then map[]
    else if Costs(e.node) then map[path + [e.name] := Cost(e.node)]
    else if e.node.Dir? then Own(path + [e.name], e.node.entries)
    else map[]
  }

  predicate Distinct(entries: seq<Entry>) { forall i,
      j :: 0 <= i < j < |entries| ==> entries[i].name != entries[j].name }

  /** Names differ in the directory and in those below it. */
  ghost predicate AllDistinct(entries: seq<Entry>)
    decreases entries, 0
  {
    Distinct(entries) && forall i :: 0 <= i < |entries| ==> EntryDistinct(entries[i])
  }

  ghost predicate EntryDistinct(e: Entry)
    decreases e, 1
  {
    Visible(e) && e.node.Dir? ==> AllDistinct(e.node.entries)
  }

  lemma {:induction false} OwnBelow(path: Path, entries: seq<Entry>, k: Path)
    requires k in Own(path, entries)
    ensures exists i :: 0 <= i < |entries| && path + [entries[i].name] <= k
    decreases entries, 0
  {
    var last := entries[|entries| - 1];
    if k in OwnEntry(path, last) {
      OwnEntryBelow(path, last, k);
    } else {
      OwnBelow(path, entries[..|entries| - 1], k);
      var i :| 0 <= i < |entries| - 1 && path + [entries[..|entries| - 1][i].name] <= k;
      assert entries[i] == entries[..|entries| - 1][i];
    }
  }

  lemma {:induction false} OwnEntryBelow(path: Path, e: Entry, k: Path)
    requires k in OwnEntry(path, e)
    ensures path + [e.name] <= k
    decreases e, 1
  {
    if !Costs(e.node) {
      OwnBelow(path + [e.name], e.node.entries, k);
      var i :| 0 <= i < |e.node.entries| && path + [e.name] + [e.node.entries[i].name] <= k;
      PrefixTransitive(path + [e.name], path + [e.name] + [e.node.entries[i].name], k);
    }
  }

  lemma OwnApart(path: Path, entries: seq<Entry>)
    requires entries != [] && Distinct(entries)
    ensures Own(path, entries[..|entries| - 1]).Keys !! OwnEntry(path, entries[|entries| - 1]).Keys
  {
    var init, last := entries[..|entries| - 1], entries[|entries| - 1];
    forall k | k in Own(path, init) ensures k !in OwnEntry(path, last) {
      OwnBelow(path, init, k);
      var i :| 0 <= i < |init| && path + [init[i].name] <= k;
      SiblingApart(path, init[i], last, k);
      if k in OwnEntry(path, last) { OwnEntryBelow(path, last, k); }
    }
  }

  lemma TotalUnion(a: map<Path, int>, b: map<Path, int>)
    requires a.Keys !! b.Keys
    ensures Total(a + b) == Total(a) + Total(b)
  {
    TotalSplit(a + b, b.Keys);
    assert Where(a + b, b.Keys) == b;
    assert (a + b) - b.Keys == a;
  }

  /** Their sum is what the scan computes. */
  lemma {:induction false} OwnTotal(path: Path, entries: seq<Entry>)
    requires AllDistinct(entries)
    ensures Total(Own(path, entries)) == Use(entries)
    decreases entries, 0
  {
    if entries == [] {
    } else {
      var init, last := entries[..|entries| - 1], entries[|entries| - 1];
      InitDistinct(entries);
      OwnTotal(path, init);
      OwnEntryTotal(path, last);
      OwnApart(path, entries);
      TotalUnion(Own(path, init), OwnEntry(path, last));
    }
  }

  lemma InitDistinct(entries: seq<Entry>)
    requires entries != [] && AllDistinct(entries)
    ensures AllDistinct(entries[..|entries| - 1]) && EntryDistinct(entries[|entries| - 1])
  {
    var init := entries[..|entries| - 1];
    forall i | 0 <= i < |init| ensures EntryDistinct(init[i]) {
      assert init[i] == entries[i];
    }
  }

  lemma {:induction false} OwnEntryTotal(path: Path, e: Entry)
    requires EntryDistinct(e)
    ensures Total(OwnEntry(path, e)) == EntryUse(e)
    decreases e, 1
  {
    if Visible(e) {
      var k := path + [e.name];
      if Costs(e.node) {
        TotalInsert(map[], k, Cost(e.node));
        assert map[][k := Cost(e.node)] == map[k := Cost(e.node)];
      } else if e.node.Dir? {
        OwnTotal(k, e.node.entries);
      }
    }
  }

  // ---------------------------------------------------------------------- charges and paths

  lemma {:induction false} OwnReached(path: Path, entries: seq<Entry>, k: Path) returns (p: Path, sub: Node)
    requires k in Own(path, entries)
    ensures k == path + p && Reaches(entries, p, sub) && Costs(sub) && Own(path, entries)[k] == Cost(sub)
    decreases entries, 0
  {
    var init, last := entries[..|entries| - 1], entries[|entries| - 1];
    if k in OwnEntry(path, last) {
      p, sub := OwnEntryReached(path, last, k);
      assert Step(entries[|entries| - 1], p[0]);
    } else {
      p, sub := OwnReached(path, init, k);
      var i :| 0 <= i < |init| && Step(init[i], p[0]) && ReachesFrom(init[i].node, p[1..], sub);
      assert entries[i] == init[i];
    }
  }

  lemma {:induction false} OwnEntryReached(path: Path, e: Entry, k: Path) returns (p: Path, sub: Node)
    requires k in OwnEntry(path, e)
    ensures p != [] && k == path + p && Step(e, p[0]) && ReachesFrom(e.node, p[1..], sub) && Costs(sub)
    ensures OwnEntry(path, e)[k] == Cost(sub)
    decreases e, 1
  {
    if Costs(e.node) {
      p, sub := [e.name], e.node;
    } else {
      var r: Path;
      r, sub := OwnReached(path + [e.name], e.node.entries, k);
      p := [e.name] + r;
      assert p[1..] == r && path + p == path + [e.name] + r;
    }
  }

  lemma {:induction false} ReachedOwn(path: Path, entries: seq<Entry>, p: Path, sub: Node)
    requires AllDistinct(entries) && Reaches(entries, p, sub) && Costs(sub)
    ensures path + p in Own(path, entries) && Own(path, entries)[path + p] == Cost(sub)
    decreases entries, 0
  {
    var init, last := entries[..|entries| - 1], entries[|entries| - 1];
    var i :| 0 <= i < |entries| && Step(entries[i], p[0]) && ReachesFrom(entries[i].node, p[1..], sub);
    InitDistinct(entries);
    if i == |entries| - 1 {
      ReachedOwnEntry(path, last, p, sub);
    } else {
      assert init[i] == entries[i];
      ReachedOwn(path, init, p, sub);
      OwnApart(path, entries);
    }
  }

  lemma {:induction false} ReachedOwnEntry(path: Path, e: Entry, p: Path, sub: Node)
    requires EntryDistinct(e) && p != [] && Step(e, p[0]) && ReachesFrom(e.node, p[1..], sub) && Costs(sub)
    ensures path + p in OwnEntry(path, e) && OwnEntry(path, e)[path + p] == Cost(sub)
    decreases e, 1
  {
    ChildOf(path, p);
    if p[1..] != [] { ReachedOwn(path + [e.name], e.node.entries, p[1..], sub); }
  }

  // ---------------------------------------------------------------------- the whole tree

  lemma {:induction false} MatchesDistinct(disk: map<Path, int>, path: Path, node: Node)
    requires node.Dir? && Matches(disk, path, node)
    ensures AllDistinct(node.entries)
    decreases node
  {
    forall i | 0 <= i < |node.entries| ensures EntryDistinct(node.entries[i]) {
      var e := node.entries[i];
      if Visible(e) && e.node.Dir? { MatchesDistinct(disk, path + [e.name], e.node); }
    }
  }

  lemma {:induction false} MatchesBelow(disk: map<Path, int>, path: Path, node: Node, p: Path, sub: Node)
    requires Matches(disk, path, node) && Leads(node, p, sub)
    ensures Matches(disk, path + p, sub)
    decreases |p|
  {
    if p == [] {
      assert path + p == path;
    } else {
      var i :| 0 <= i < |node.entries| && Step(node.entries[i], p[0]) && Leads(node.entries[i].node, p[1..], sub);
      ChildOf(path, p);
      MatchesBelow(disk, path + [p[0]], node.entries[i].node, p[1..], sub);
    }
  }

  /** A path leads to one node, through every node on the way. */
  lemma {:induction false} LeadsOn(disk: map<Path, int>, path: Path, node: Node, d: Path, at: Node, p: Path, sub: Node)
    requires Matches(disk, path, node) && Leads(node, d, at)
    ensures Leads(node, d + p, sub) <==> Leads(at, p, sub)
    decreases |d|
  {
    if d == [] {
      assert d + p == p;
    } else {
      var i :| 0 <= i < |node.entries| && Step(node.entries[i], d[0]) && Leads(node.entries[i].node, d[1..], at);
      assert (d + p)[1..] == d[1..] + p && (d + p)[0] == d[0];
      LeadsOn(disk, path + [d[0]], node.entries[i].node, d[1..], at, p, sub);
      if Leads(node, d + p, sub) {
        var j :| 0 <= j < |node.entries| && Step(node.entries[j], d[0])
            && Leads(node.entries[j].node, (d + p)[1..], sub);
        OneName(node.entries, i, j);
      }
    }
  }

  lemma OneName(entries: seq<Entry>, i: nat, j: nat)
    requires Distinct(entries) && i < |entries| && j < |entries| && entries[i].name == entries[j].name
    ensures i == j
  {
  }

  /** The accounts list exactly the tree's files and allocations. */
  ghost predicate Describes(l: Ledger, disk: map<Path, int>, tree: Node)
  {
    && l.allocs.Keys == disk.Keys && Homes(l).Keys == Charges(l).Keys
    && (forall k :: k in Charges(l) ==> Founded(l, tree, k))
    && (forall k, sub {:trigger Listed(l, tree, k, sub)} :: Listed(l, tree, k, sub))
  }

  ghost predicate Founded(l: Ledger, tree: Node, k: Path)
    requires k in Charges(l)
  {
    exists sub :: Leads(tree, k, sub) && Costs(sub) && Charges(l)[k] == Cost(sub)
  }

  ghost predicate Listed(l: Ledger, tree: Node, k: Path, sub: Node)
  {
    Leads(tree, k, sub) && Costs(sub) && k != [] ==> k in Charges(l) && Charges(l)[k] == Cost(sub)
  }

  lemma OwnIsFibre(l: Ledger, disk: map<Path, int>, tree: Node, d: Path, at: Node)
    requires Matches(disk, [], tree) && [] in disk && Describes(l, disk, tree) && Leads(tree, d, at) && IsAlloc(at)
    ensures Fibre(Charges(l), Homes(l), d) == Own(d, at.entries)
  {
    OwnWithin(l, disk, tree, d, at);
    FibreWithin(l, disk, tree, d, at);
    SameMap(Own(d, at.entries), Fibre(Charges(l), Homes(l), d));
  }

  lemma OwnWithin(l: Ledger, disk: map<Path, int>, tree: Node, d: Path, at: Node)
    requires Matches(disk, [], tree) && [] in disk && Describes(l, disk, tree) && Leads(tree, d, at) && IsAlloc(at)
    ensures var fibre := Fibre(Charges(l), Homes(l), d);
            forall k :: k in Own(d, at.entries) ==> k in fibre && fibre[k] == Own(d, at.entries)[k]
  {
    var own, fibre := Own(d, at.entries), Fibre(Charges(l), Homes(l), d);
    forall k | k in own ensures k in fibre && fibre[k] == own[k] {
      OwnInFibre(l, disk, tree, d, at, k);
    }
  }

  lemma FibreWithin(l: Ledger, disk: map<Path, int>, tree: Node, d: Path, at: Node)
    requires Matches(disk, [], tree) && [] in disk && Describes(l, disk, tree) && Leads(tree, d, at) && IsAlloc(at)
    ensures forall k :: k in Fibre(Charges(l), Homes(l), d) ==> k in Own(d, at.entries)
  {
    forall k | k in Fibre(Charges(l), Homes(l), d) ensures k in Own(d, at.entries) {
      FibreInOwn(l, disk, tree, d, at, k);
    }
  }

  lemma AllocHere(disk: map<Path, int>, tree: Node, d: Path, at: Node)
    requires Matches(disk, [], tree) && Leads(tree, d, at) && IsAlloc(at)
    ensures Matches(disk, d, at) && d in disk && Nearest(disk.Keys, d) == d && AllDistinct(at.entries)
  {
    MatchesBelow(disk, [], tree, d, at);
    assert [] + d == d;
    MatchesDistinct(disk, d, at);
  }

  lemma OwnInFibre(l: Ledger, disk: map<Path, int>, tree: Node, d: Path, at: Node, k: Path)
    requires Matches(disk, [], tree) && [] in disk && Describes(l, disk, tree) && Leads(tree, d, at) && IsAlloc(at)
    requires k in Own(d, at.entries)
    ensures k in Charges(l) && Charges(l)[k] == Own(d, at.entries)[k] && k in Homes(l) && Homes(l)[k] == d
  {
    AllocHere(disk, tree, d, at);
    var p, sub := OwnReached(d, at.entries, k);
    ReachesLeads(at, p, sub);
    LeadsOn(disk, [], tree, d, at, p, sub);
    ReachedHome(disk, d, at, p, sub);
    assert Listed(l, tree, k, sub);
  }

  lemma FibreInOwn(l: Ledger, disk: map<Path, int>, tree: Node, d: Path, at: Node, k: Path)
    requires Matches(disk, [], tree) && [] in disk && Describes(l, disk, tree) && Leads(tree, d, at) && IsAlloc(at)
    requires k in Fibre(Charges(l), Homes(l), d)
    ensures k in Own(d, at.entries)
  {
    assert Founded(l, tree, k);
    var sub :| Leads(tree, k, sub) && Costs(sub) && Charges(l)[k] == Cost(sub);
    LeadsInOwn(disk, tree, d, at, k, sub);
  }

  lemma LeadsInOwn(disk: map<Path, int>, tree: Node, d: Path, at: Node, k: Path, sub: Node)
    requires Matches(disk, [], tree) && [] in disk && Leads(tree, d, at) && IsAlloc(at)
    requires Leads(tree, k, sub) && Costs(sub) && k != [] && Nearest(disk.Keys, Parent(k)) == d
    ensures k in Own(d, at.entries)
  {
    AllocHere(disk, tree, d, at);
    NearestIsLongest(disk.Keys, Parent(k), []);
    var p := k[|d|..];
    assert k == d + p && p != [];
    LeadsOn(disk, [], tree, d, at, p, sub);
    ReachedOrNearer(disk, d, at, p, sub);
    ReachedOwn(d, at.entries, p, sub);
  }

  ghost predicate TakenFrom(l: Ledger, tree: Node, table: Table, d: Path)
    requires d in l.allocs
  {
    d in table && l.allocs[d] == table[d] && exists at :: Leads(tree, d, at) && IsAlloc(at)
  }

  lemma RecoveryExact(l: Ledger, disk: map<Path, int>, tree: Node, table: Table, d: Path)
    requires Matches(disk, [], tree) && [] in disk && Describes(l, disk, tree) && Right(table, [], tree)
    requires d in l.allocs && TakenFrom(l, tree, table, d)
    ensures Exact(l, d)
  {
    var at :| Leads(tree, d, at) && IsAlloc(at);
    RightHere(tree, table, d, at);
    AllocHere(disk, tree, d, at);
    OwnIsFibre(l, disk, tree, d, at);
    OwnTotal(d, at.entries);
  }

  lemma RightHere(tree: Node, table: Table, d: Path, at: Node)
    requires Right(table, [], tree) && Leads(tree, d, at) && IsAlloc(at)
    ensures RightAt(table, d, at)
  {
    assert [] + d == d;
  }

  /** Accounts that list the tree and take their use from the scan are exact. */
  lemma RecoveryConserves(l: Ledger, disk: map<Path, int>, tree: Node, table: Table)
    requires Matches(disk, [], tree) && [] in disk && Describes(l, disk, tree) && Right(table, [], tree)
    requires forall d :: d in l.allocs ==> TakenFrom(l, tree, table, d)
    ensures Conserved(l)
  {
    forall d | d in l.allocs ensures Exact(l, d) {
      RecoveryExact(l, disk, tree, table, d);
    }
  }
}
