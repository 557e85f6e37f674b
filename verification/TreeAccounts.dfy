/** The accounts of a directory tree, and that the recovery scan makes them exact. */
module TreeAccounts {
  import opened Sums
  import opened Ledger
  import opened Recovery
  import opened RecoveryLedger

  /** Every node below the directory at `path`, with its path. */
  function Places(path: Path, entries: seq<Entry>): map<Path, Node>
    decreases entries, 0
  {
    if entries == [] then map[] else Places(path, entries[..|entries| - 1]) + EntryPlaces(path, entries[|entries| - 1])
  }

  function EntryPlaces(path: Path, e: Entry): map<Path, Node>
    decreases e, 1
  {
    if !Visible(e) then map[]
    else if e.node.Dir? then Places(path + [e.name], e.node.entries)[path + [e.name] := e.node]
    else map[path + [e.name] := e.node]
  }

  function TreePlaces(tree: Node): map<Path, Node>
    requires tree.Dir?
  {
    Places([], tree.entries)[[] := tree]
  }

  // ---------------------------------------------------------------------- places and paths

  lemma {:induction false} PlacesBelow(path: Path, entries: seq<Entry>, k: Path)
    requires k in Places(path, entries)
    ensures exists i :: 0 <= i < |entries| && path + [entries[i].name] <= k
    decreases entries, 0
  {
    var init, last := entries[..|entries| - 1], entries[|entries| - 1];
    if k in EntryPlaces(path, last) {
      EntryPlacesBelow(path, last, k);
    } else {
      PlacesBelow(path, init, k);
      var i :| 0 <= i < |init| && path + [init[i].name] <= k;
      assert entries[i] == init[i];
    }
  }

  lemma {:induction false} EntryPlacesBelow(path: Path, e: Entry, k: Path)
    requires k in EntryPlaces(path, e)
    ensures path + [e.name] <= k
    decreases e, 1
  {
    var c := path + [e.name];
    if e.node.Dir? && k != c {
      PlacesBelow(c, e.node.entries, k);
      var i :| 0 <= i < |e.node.entries| && c + [e.node.entries[i].name] <= k;
      PrefixTransitive(c, c + [e.node.entries[i].name], k);
    }
  }

  lemma PlacesApart(path: Path, entries: seq<Entry>)
    requires entries != [] && Distinct(entries)
    ensures Places(path, entries[..|entries| - 1]).Keys !! EntryPlaces(path, entries[|entries| - 1]).Keys
  {
    var init, last := entries[..|entries| - 1], entries[|entries| - 1];
    forall k | k in Places(path, init) ensures k !in EntryPlaces(path, last) {
      PlacesBelow(path, init, k);
      var i :| 0 <= i < |init| && path + [init[i].name] <= k;
      SiblingApart(path, init[i], last, k);
      if k in EntryPlaces(path, last) { EntryPlacesBelow(path, last, k); }
    }
  }

  /** A place is where its path leads. */
  lemma {:induction false} PlaceLeads(path: Path, node: Node, entries: seq<Entry>, k: Path) returns (p: Path)
    requires node.Dir? && entries <= node.entries && k in Places(path, entries)
    ensures p != [] && k == path + p && Leads(node, p, Places(path, entries)[k])
    decreases entries, 0
  {
    var init, last := entries[..|entries| - 1], entries[|entries| - 1];
    if k in EntryPlaces(path, last) {
      p := EntryPlaceLeads(path, last, k);
      assert node.entries[|entries| - 1] == last && Step(last, p[0]);
    } else {
      p := PlaceLeads(path, node, init, k);
    }
  }

  lemma {:induction false} EntryPlaceLeads(path: Path, e: Entry, k: Path) returns (p: Path)
    requires k in EntryPlaces(path, e)
    ensures p != [] && k == path + p && Step(e, p[0]) && Leads(e.node, p[1..], EntryPlaces(path, e)[k])
    decreases e, 1
  {
    if k == path + [e.name] {
      p := [e.name];
    } else {
      var r := PlaceLeads(path + [e.name], e.node, e.node.entries, k);
      p := [e.name] + r;
      assert p[1..] == r && path + p == path + [e.name] + r;
    }
  }

  /** Where a path leads is a place. */
  lemma {:induction false} LeadsPlace(path: Path, entries: seq<Entry>, i: nat, p: Path, sub: Node)
    requires AllDistinct(entries) && i < |entries| && p != [] && Step(entries[i], p[0])
    requires Leads(entries[i].node, p[1..], sub)
    ensures path + p in Places(path, entries) && Places(path, entries)[path + p] == sub
    decreases entries, 0
  {
    var init, last := entries[..|entries| - 1], entries[|entries| - 1];
    InitDistinct(entries);
    if i == |entries| - 1 {
      LeadsEntryPlace(path, last, p, sub);
    } else {
      assert init[i] == entries[i];
      LeadsPlace(path, init, i, p, sub);
      PlacesApart(path, entries);
    }
  }

  lemma {:induction false} LeadsEntryPlace(path: Path, e: Entry, p: Path, sub: Node)
    requires EntryDistinct(e) && p != [] && Step(e, p[0]) && Leads(e.node, p[1..], sub)
    ensures path + p in EntryPlaces(path, e) && EntryPlaces(path, e)[path + p] == sub
    decreases e, 1
  {
    ChildOf(path, p);
    if p[1..] != [] {
      var q := p[1..];
      var j :| 0 <= j < |e.node.entries| && Step(e.node.entries[j], q[0]) && Leads(e.node.entries[j].node, q[1..], sub);
      LeadsPlace(path + [e.name], e.node.entries, j, q, sub);
    }
  }

  lemma TreePlace(tree: Node, k: Path, sub: Node)
    requires tree.Dir? && AllDistinct(tree.entries)
    ensures Leads(tree, k, sub) <==> k in TreePlaces(tree) && TreePlaces(tree)[k] == sub
  {
    if Leads(tree, k, sub) && k != [] {
      var i :| 0 <= i < |tree.entries| && Step(tree.entries[i], k[0]) && Leads(tree.entries[i].node, k[1..], sub);
      LeadsPlace([], tree.entries, i, k, sub);
      assert [] + k == k;
    } else if k in TreePlaces(tree) && k != [] {
      var p := PlaceLeads([], tree, tree.entries, k);
      assert [] + p == p;
    }
  }

  /** The directory itself, its parent and the server's own files. */
  predicate Hidden(name: string) { name == "." || name == ".." || ".__" <= name }

  lemma {:induction false} LeadsVisible(node: Node, p: Path, sub: Node, i: nat)
    requires Leads(node, p, sub) && i < |p|
    ensures !Hidden(p[i])
    decreases |p|
  {
    var j :| 0 <= j < |node.entries| && Step(node.entries[j], p[0]) && Leads(node.entries[j].node, p[1..], sub);
    if i == 0 {
    } else {
      LeadsVisible(node.entries[j].node, p[1..], sub, i - 1);
    }
  }

  /** Every entry of a directory has its place in the accounts, except those with a hidden name. */
  lemma PlaceOfEntry(tree: Node, path: Path, i: nat)
    requires tree.Dir? && AllDistinct(tree.entries) && path in TreePlaces(tree)
    requires TreePlaces(tree)[path].Dir? && i < |TreePlaces(tree)[path].entries|
    ensures var e, k := TreePlaces(tree)[path].entries[i], path + [TreePlaces(tree)[path].entries[i].name];
            if Hidden(e.name) then k !in TreePlaces(tree)
            else k in TreePlaces(tree) && TreePlaces(tree)[k] == e.node
  {
    var at := TreePlaces(tree)[path];
    var k := path + [at.entries[i].name];
    TreePlace(tree, path, at);
    if Hidden(at.entries[i].name) {
      if k in TreePlaces(tree) {
        TreePlace(tree, k, TreePlaces(tree)[k]);
        LeadsVisible(tree, k, TreePlaces(tree)[k], |path|);
      }
    } else {
      LeadsInto(tree, path, at, i);
      TreePlace(tree, k, at.entries[i].node);
    }
  }

  // ---------------------------------------------------------------------- the records and accounts of a tree

  /** The allocation records in a tree. */
  function TreeDisk(tree: Node): map<Path, int>
    requires tree.Dir?
  {
    map k | k in TreePlaces(tree) && IsAlloc(TreePlaces(tree)[k]) :: TreePlaces(tree)[k].quota.size
  }

  /** The files and directories of a tree, with the records in `table`. */
  function TreeLedger(tree: Node, table: Table): Ledger
    requires tree.Dir?
  {
    var places := TreePlaces(tree);
    Ledger(map k | k in places && places[k].File? :: places[k].size,
           set k | k in places && places[k].Dir?,
           map k | k in places && IsAlloc(places[k]) && k in table :: table[k])
  }

  /** Entering a directory on the way. */
  lemma {:induction false} LeadsInto(node: Node, p: Path, at: Node, i: nat)
    requires Leads(node, p, at) && at.Dir? && i < |at.entries| && Visible(at.entries[i])
    ensures Leads(node, p + [at.entries[i].name], at.entries[i].node)
    decreases |p|
  {
    var name := at.entries[i].name;
    if p == [] {
      assert ([name])[1..] == [] && Step(node.entries[i], name) && [] + [name] == [name];
    } else {
      var j :| 0 <= j < |node.entries| && Step(node.entries[j], p[0]) && Leads(node.entries[j].node, p[1..], at);
      LeadsInto(node.entries[j].node, p[1..], at, i);
      assert (p + [name])[1..] == p[1..] + [name] && (p + [name])[0] == p[0];
    }
  }

  /** The directory around a place. */
  lemma {:induction false} LeadsOut(node: Node, p: Path, sub: Node) returns (at: Node)
    requires Leads(node, p, sub) && p != []
    ensures Leads(node, Parent(p), at) && at.Dir?
    decreases |p|
  {
    var j :| 0 <= j < |node.entries| && Step(node.entries[j], p[0]) && Leads(node.entries[j].node, p[1..], sub);
    if p[1..] == [] {
      at := node;
    } else {
      at := LeadsOut(node.entries[j].node, p[1..], sub);
      assert Parent(p)[1..] == Parent(p[1..]) && Parent(p)[0] == p[0];
    }
  }

  lemma {:induction false} DistinctBelow(node: Node, p: Path, sub: Node)
    requires node.Dir? && AllDistinct(node.entries) && Leads(node, p, sub) && sub.Dir?
    ensures AllDistinct(sub.entries)
    decreases |p|
  {
    if p == [] {
    } else {
      var j :| 0 <= j < |node.entries| && Step(node.entries[j], p[0]) && Leads(node.entries[j].node, p[1..], sub);
      assert EntryDistinct(node.entries[j]);
      DistinctBelow(node.entries[j].node, p[1..], sub);
    }
  }

  /** The records agree with the tree. */
  lemma {:induction false} TreeMatches(tree: Node, path: Path, node: Node)
    requires tree.Dir? && AllDistinct(tree.entries) && Leads(tree, path, node)
    ensures Matches(TreeDisk(tree), path, node)
    decreases node
  {
    if !node.Dir? {
    } else {
      TreePlace(tree, path, node);
      DistinctBelow(tree, path, node);
      forall i | 0 <= i < |node.entries| && Visible(node.entries[i])
        ensures Matches(TreeDisk(tree), path + [node.entries[i].name], node.entries[i].node)
      {
        LeadsInto(tree, path, node, i);
        TreeMatches(tree, path + [node.entries[i].name], node.entries[i].node);
      }
    }
  }

  ghost predicate Tree(tree: Node) { tree.Dir? && tree.quota.Quota? && AllDistinct(tree.entries) }

  /** The scan has a record for every allocation. */
  lemma Recorded(tree: Node, table: Table, k: Path)
    requires Tree(tree) && Right(table, [], tree) && k in TreePlaces(tree) && IsAlloc(TreePlaces(tree)[k])
    ensures k in TreeLedger(tree, table).allocs && TakenFrom(TreeLedger(tree, table), tree, table, k)
  {
    TreePlace(tree, k, TreePlaces(tree)[k]);
    RightHere(tree, table, k, TreePlaces(tree)[k]);
  }

  lemma TreeShaped(tree: Node, table: Table)
    requires Tree(tree) && Right(table, [], tree)
    ensures Shaped(TreeLedger(tree, table))
  {
    var places := TreePlaces(tree);
    Recorded(tree, table, []);
    forall p | p in places && p != [] ensures Parent(p) in TreeLedger(tree, table).dirs {
      TreePlace(tree, p, places[p]);
      var at := LeadsOut(tree, p, places[p]);
      TreePlace(tree, Parent(p), at);
    }
  }

  lemma TreeCharge(tree: Node, table: Table, k: Path)
    requires Tree(tree) && Right(table, [], tree)
    ensures k in Charges(TreeLedger(tree, table)) <==> k in TreePlaces(tree) && Costs(TreePlaces(tree)[k]) && k != []
    ensures k in Charges(TreeLedger(tree, table)) ==> Charges(TreeLedger(tree, table))[k] == Cost(TreePlaces(tree)[k])
  {
    if k in TreePlaces(tree) && IsAlloc(TreePlaces(tree)[k]) {
      TreePlace(tree, k, TreePlaces(tree)[k]);
      RightHere(tree, table, k, TreePlaces(tree)[k]);
    }
  }

  lemma TreeDescribed(tree: Node, table: Table)
    requires Tree(tree) && Right(table, [], tree)
    ensures Describes(TreeLedger(tree, table), TreeDisk(tree), tree)
  {
    var l, places := TreeLedger(tree, table), TreePlaces(tree);
    forall k | k in Charges(l) ensures Founded(l, tree, k) {
      TreeCharge(tree, table, k);
      TreePlace(tree, k, places[k]);
    }
    forall k, sub ensures Listed(l, tree, k, sub) {
      TreePlace(tree, k, sub);
      TreeCharge(tree, table, k);
    }
    forall k | k in TreeDisk(tree) ensures k in l.allocs {
      Recorded(tree, table, k);
    }
    TreeShaped(tree, table);
    SameKeys(l);
  }

  /** chirp_alloc_init on any tree: afterwards every allocation of the tree has a record whose use is what its own
      files and the allocations right below it cost. */
  method RecoverTree(tree: Node) returns (scan: Scan)
    requires Tree(tree)
    ensures fresh(scan) && Shaped(TreeLedger(tree, scan.table)) && Conserved(TreeLedger(tree, scan.table))
    ensures forall d :: d in TreePlaces(tree) ==>
              if IsAlloc(TreePlaces(tree)[d]) then
                && d in TreeLedger(tree, scan.table).allocs
                && TreeLedger(tree, scan.table).allocs[d].size == TreePlaces(tree)[d].quota.size
              else d !in TreeLedger(tree, scan.table).allocs
    ensures forall p :: p in TreeLedger(tree, scan.table).files <==> p in TreePlaces(tree) && TreePlaces(tree)[p].File?
    ensures forall p :: p in TreeLedger(tree, scan.table).files ==>
              TreeLedger(tree, scan.table).files[p] == TreePlaces(tree)[p].size
  {
    TreeMatches(tree, [], tree);
    scan := Init(TreeDisk(tree), tree);
    TreeShaped(tree, scan.table);
    TreeDescribed(tree, scan.table);
    forall d | d in TreeLedger(tree, scan.table).allocs
        ensures TakenFrom(TreeLedger(tree, scan.table), tree, scan.table, d) {
      Recorded(tree, scan.table, d);
    }
    forall d | d in TreePlaces(tree) && IsAlloc(TreePlaces(tree)[d])
      ensures d in scan.table && scan.table[d].size == TreePlaces(tree)[d].quota.size
    {
      TreePlace(tree, d, TreePlaces(tree)[d]);
      RightHere(tree, scan.table, d, TreePlaces(tree)[d]);
    }
    RecoveryConserves(TreeLedger(tree, scan.table), TreeDisk(tree), tree, scan.table);
  }
}
