/** The transfer loop of chirp_distribute.c: a growing set of nodes that hold the data
    pushes it to the others, at most `maxprocs` transfers at a time. */
module Distribute {
  import opened Finite

  datatype NodeState = Fresh | Receiving | Sending | Idle | Failed

  datatype Mark = Untried | Failure | Success

  /** How a child process ended: exit 0, exit ECONNRESET, or anything else. */
  datatype Outcome = Delivered | ConnReset | Broken

  /** The targets and the failure matrix, row by row. */
  datatype Net = Net(n: nat, state: seq<NodeState>, pid: seq<int>, marks: seq<seq<Mark>>, nprocs: int)
  {
    predicate Shaped() {
      n > 0 && |state| == n && |pid| == n && |marks| == n && forall s :: 0 <= s < n ==> |marks[s]| == n
    }
  }

  function SetMark(marks: seq<seq<Mark>>, s: nat, t: nat, m: Mark): seq<seq<Mark>>
    requires s < |marks| && t < |marks[s]|
  {
    marks[s := marks[s][t := m]]
  }

  /** The flat matrix `s * n + t` of failure_matrix_get gives every pair a place of its own. */
  lemma FlatMatrixInjective(n: nat, i: nat, j: nat, s: nat, t: nat)
    requires i < n && j < n && s < n && t < n && i * n + j == s * n + t
    ensures i == s && j == t
  {
    if i < s { FlatRowsApart(n, i, s, j, t); }
    if s < i { FlatRowsApart(n, s, i, t, j); }
  }

  lemma FlatRowsApart(n: nat, i: nat, s: nat, j: nat, t: nat)
    requires i < s && j < n
    ensures i * n + j < s * n + t
  {
    assert (i + 1) * n <= s * n;
    assert (i + 1) * n == i * n + n;
  }

  /** What happened so far. `peer[i]` is the other end of a running transfer; `arrival[i]` is the
      time node `i` got the data, or -1; `parent[i]` is the node it came from; `launches[s][t]`
      counts the transfers started from `s` to `t`. */
  datatype History = History(peer: seq<nat>, arrival: seq<int>, parent: seq<nat>, launches: seq<seq<nat>>, clock: nat)

  ghost predicate Sized(w: Net, h: History)
  {
    && w.Shaped() && |h.peer| == w.n && |h.arrival| == w.n && |h.parent| == w.n
    && |h.launches| == w.n && forall s :: 0 <= s < w.n ==> |h.launches[s]| == w.n
  }

  function Senders(w: Net): set<int>
    requires w.Shaped()
  {
    set i | 0 <= i < w.n && Sends(w, i)
  }

  function Receivers(w: Net): set<int>
    requires w.Shaped()
  {
    set i | 0 <= i < w.n && Receives(w, i)
  }

  predicate Sends(w: Net, i: int)
    requires w.Shaped()
  {
    0 <= i < w.n && w.state[i] == Sending
  }

  predicate Receives(w: Net, i: int)
    requires w.Shaped()
  {
    0 <= i < w.n && w.state[i] == Receiving
  }

  ghost predicate SenderPaired(w: Net, h: History, i: int)
    requires Sized(w, h) && 0 <= i < w.n
  {
    && 0 < h.peer[i] < w.n && w.state[h.peer[i]] == Receiving
    && w.pid[h.peer[i]] == w.pid[i] && h.peer[h.peer[i]] == i && w.marks[i][h.peer[i]] == Untried
  }

  ghost predicate ReceiverPaired(w: Net, h: History, j: int)
    requires Sized(w, h) && 0 <= j < w.n
  {
    h.peer[j] < w.n && w.state[h.peer[j]] == Sending && w.pid[h.peer[j]] == w.pid[j] && h.peer[h.peer[j]] == j
  }

  /** Sending and receiving nodes come in pairs that share a process id, one id per pair. */
  ghost predicate Paired(w: Net, h: History)
    requires Sized(w, h)
  {
    && (forall i {:trigger Sends(w, i)} :: Sends(w, i) ==> SenderPaired(w, h, i))
    && (forall j {:trigger Receives(w, j)} :: Receives(w, j) ==> ReceiverPaired(w, h, j))
    && (forall i, j :: Sends(w, i) && Sends(w, j) && i != j ==> w.pid[i] != w.pid[j])
    && w.nprocs == |Senders(w)|
  }

  /** Idle and sending nodes hold the data, fresh and receiving ones do not; every holder but
      node 0 got it from a node that held it earlier. */
  ghost predicate Held(w: Net, h: History)
    requires Sized(w, h)
  {
    && h.arrival[0] == 0
    && (forall i :: 0 <= i < w.n ==> -1 <= h.arrival[i] < h.clock)
    && (forall i :: 0 <= i < w.n && (w.state[i] == Idle || w.state[i] == Sending) ==> h.arrival[i] >= 0)
    && (forall i :: 0 <= i < w.n && (w.state[i] == Fresh || w.state[i] == Receiving) ==> h.arrival[i] == -1)
    && (forall i {:trigger h.parent[i]} :: 0 < i < w.n && h.arrival[i] >= 0 ==>
         h.parent[i] < w.n && 0 <= h.arrival[h.parent[i]] < h.arrival[i])
  }

  ghost predicate MarkTells(w: Net, h: History, s: nat, t: nat)
    requires Sized(w, h) && s < w.n && t < w.n
  {
    w.marks[s][t] == Success <==> t > 0 && h.arrival[t] >= 0 && h.parent[t] == s
  }

  /** The SUCCESS marks are exactly the tree edges. */
  ghost predicate MarksTell(w: Net, h: History)
    requires Sized(w, h)
  {
    forall s: nat, t: nat :: s < w.n && t < w.n ==> MarkTells(w, h, s, t)
  }

  ghost predicate OnceAtMost(w: Net, h: History, s: nat, t: nat)
    requires Sized(w, h) && s < w.n && t < w.n
  {
    h.launches[s][t] == if w.marks[s][t] != Untried || (w.state[s] == Sending && h.peer[s] == t) then 1 else 0
  }

  /** A pair was launched once if it has a mark or is running, and never otherwise. */
  ghost predicate AtMostOnce(w: Net, h: History)
    requires Sized(w, h)
  {
    forall s: nat, t: nat :: s < w.n && t < w.n ==> OnceAtMost(w, h, s, t)
  }

  ghost predicate Inv(w: Net, h: History)
  {
    Sized(w, h) && Paired(w, h) && Held(w, h) && MarksTell(w, h) && AtMostOnce(w, h)
  }

  // ---------------------------------------------------------------------- launching

  function Launched(w: Net, s: nat, t: nat, p: int): Net
    requires w.Shaped() && s < w.n && t < w.n
  {
    w.(state := w.state[s := Sending][t := Receiving], pid := w.pid[s := p][t := p], nprocs := w.nprocs + 1)
  }

  ghost function LaunchedHistory(w: Net, h: History, s: nat, t: nat): History
    requires Sized(w, h) && s < w.n && t < w.n
  {
    h.(peer := h.peer[s := t][t := s], launches := h.launches[s := h.launches[s][t := h.launches[s][t] + 1]])
  }

  /** No running child has process id `p`. */
  predicate PidFree(w: Net, p: int)
    requires w.Shaped()
  {
    forall i :: 0 <= i < w.n && Sends(w, i) ==> w.pid[i] != p
  }

  /** An idle source, a fresh target it has not failed on, and an unused process id. */
  ghost predicate CanLaunch(w: Net, s: nat, t: nat, p: int)
    requires w.Shaped()
  {
    && s < w.n && 0 < t < w.n
    && w.state[s] == Idle && w.state[t] == Fresh && w.marks[s][t] != Failure
    && PidFree(w, p)
  }

  /** Starting a transfer keeps the invariant, and it is the first one for its pair. */
  lemma LaunchKeeps(w: Net, h: History, s: nat, t: nat, p: int)
    requires Inv(w, h) && CanLaunch(w, s, t, p)
    ensures h.launches[s][t] == 0
    ensures Inv(Launched(w, s, t, p), LaunchedHistory(w, h, s, t))
  {
    assert MarkTells(w, h, s, t) && OnceAtMost(w, h, s, t);
    LaunchPairs(w, h, s, t, p);
    LaunchMarks(w, h, s, t, p);
    LaunchCounts(w, h, s, t, p);
  }

  lemma LaunchPairs(w: Net, h: History, s: nat, t: nat, p: int)
    requires Sized(w, h) && Paired(w, h) && CanLaunch(w, s, t, p) && w.marks[s][t] == Untried
    ensures Paired(Launched(w, s, t, p), LaunchedHistory(w, h, s, t))
  {
    var w' := Launched(w, s, t, p);
    LaunchSenders(w, s, t, p);
    LaunchPids(w, h, s, t, p);
    forall i | Sends(w', i) ensures SenderPaired(w', LaunchedHistory(w, h, s, t), i) {
      LaunchSender(w, h, s, t, p, i);
    }
    forall j | Receives(w', j) ensures ReceiverPaired(w', LaunchedHistory(w, h, s, t), j) {
      LaunchReceiver(w, h, s, t, p, j);
    }
  }

  lemma LaunchPids(w: Net, h: History, s: nat, t: nat, p: int)
    requires Sized(w, h) && Paired(w, h) && CanLaunch(w, s, t, p)
    ensures var w' := Launched(w, s, t, p);
            forall i, j :: Sends(w', i) && Sends(w', j) && i != j ==> w'.pid[i] != w'.pid[j]
  {
    var w' := Launched(w, s, t, p);
    forall i, j | Sends(w', i) && Sends(w', j) && i != j ensures w'.pid[i] != w'.pid[j] {
      if i != s { assert Sends(w, i); }
      if j != s { assert Sends(w, j); }
    }
  }

  lemma LaunchSenders(w: Net, s: nat, t: nat, p: int)
    requires w.Shaped() && CanLaunch(w, s, t, p)
    ensures forall i :: Sends(Launched(w, s, t, p), i) <==> Sends(w, i) || i == s
    ensures Senders(Launched(w, s, t, p)) == Senders(w) + {s} && s !in Senders(w)
    ensures |Senders(Launched(w, s, t, p))| == |Senders(w)| + 1
  {
    var w' := Launched(w, s, t, p);
    forall i ensures Sends(w', i) <==> Sends(w, i) || i == s {}
    assert Senders(w') == Senders(w) + {s};
    OneMore(Senders(w), Senders(w'), s);
  }

  lemma LaunchSender(w: Net, h: History, s: nat, t: nat, p: int, i: int)
    requires Sized(w, h) && Paired(w, h) && CanLaunch(w, s, t, p) && w.marks[s][t] == Untried
    requires Sends(Launched(w, s, t, p), i)
    ensures SenderPaired(Launched(w, s, t, p), LaunchedHistory(w, h, s, t), i)
  {
    if i != s { assert Sends(w, i) && h.peer[i] != s && h.peer[i] != t; }
  }

  lemma LaunchReceiver(w: Net, h: History, s: nat, t: nat, p: int, j: int)
    requires Sized(w, h) && Paired(w, h) && CanLaunch(w, s, t, p)
    requires Receives(Launched(w, s, t, p), j)
    ensures ReceiverPaired(Launched(w, s, t, p), LaunchedHistory(w, h, s, t), j)
  {
    if j != t { assert Receives(w, j) && h.peer[j] != s && h.peer[j] != t; }
  }

  lemma LaunchMarks(w: Net, h: History, s: nat, t: nat, p: int)
    requires Sized(w, h) && MarksTell(w, h) && CanLaunch(w, s, t, p)
    ensures MarksTell(Launched(w, s, t, p), LaunchedHistory(w, h, s, t))
  {
    var w', h' := Launched(w, s, t, p), LaunchedHistory(w, h, s, t);
    forall a: nat, b: nat | a < w.n && b < w.n ensures MarkTells(w', h', a, b) {
      assert MarkTells(w, h, a, b);
    }
  }

  lemma LaunchCounts(w: Net, h: History, s: nat, t: nat, p: int)
    requires Sized(w, h) && AtMostOnce(w, h) && CanLaunch(w, s, t, p) && w.marks[s][t] == Untried
    ensures AtMostOnce(Launched(w, s, t, p), LaunchedHistory(w, h, s, t))
  {
    var w', h' := Launched(w, s, t, p), LaunchedHistory(w, h, s, t);
    forall a: nat, b: nat | a < w.n && b < w.n ensures OnceAtMost(w', h', a, b) {
      assert OnceAtMost(w, h, a, b);
    }
  }

  // ---------------------------------------------------------------------- collecting

  function AfterLanding(o: Outcome): NodeState
  {
    match o case Delivered => Idle case ConnReset => Failed case Broken => Fresh
  }

  function Landed(w: Net, s: nat, t: nat, o: Outcome): Net
    requires w.Shaped() && s < w.n && t < w.n
  {
    w.(state := w.state[s := Idle][t := AfterLanding(o)],
       marks := SetMark(w.marks, s, t, if o == Delivered then Success else Failure),
       nprocs := w.nprocs - 1)
  }

  ghost function LandedHistory(w: Net, h: History, s: nat, t: nat, o: Outcome): History
    requires Sized(w, h) && s < w.n && t < w.n
  {
    if o == Delivered then h.(arrival := h.arrival[t := h.clock], parent := h.parent[t := s],
        clock := h.clock + 1) else h
  }

  ghost predicate Running(w: Net, h: History, s: nat, t: nat)
    requires Sized(w, h)
  {
    s < w.n && t < w.n && w.state[s] == Sending && h.peer[s] == t
  }

  /** Collecting a transfer keeps the invariant: a delivered target joins the tree below its source. */
  lemma LandKeeps(w: Net, h: History, s: nat, t: nat, o: Outcome)
    requires Inv(w, h) && Running(w, h, s, t)
    ensures Inv(Landed(w, s, t, o), LandedHistory(w, h, s, t, o))
  {
    LandPairs(w, h, s, t, o);
    LandHolders(w, h, s, t, o);
    LandMarks(w, h, s, t, o);
    LandCounts(w, h, s, t, o);
  }

  lemma LandPairs(w: Net, h: History, s: nat, t: nat, o: Outcome)
    requires Sized(w, h) && Paired(w, h) && Running(w, h, s, t)
    ensures Paired(Landed(w, s, t, o), LandedHistory(w, h, s, t, o))
  {
    var w', h' := Landed(w, s, t, o), LandedHistory(w, h, s, t, o);
    assert Sends(w, s);
    LandSenders(w, s, t, o);
    forall i | Sends(w', i) ensures SenderPaired(w', h', i) {
      assert Sends(w, i) && h.peer[i] != s && h.peer[i] != t;
    }
    forall j | Receives(w', j) ensures ReceiverPaired(w', h', j) {
      assert Receives(w, j) && h.peer[j] != s && h.peer[j] != t;
    }
  }

  lemma LandSenders(w: Net, s: nat, t: nat, o: Outcome)
    requires w.Shaped() && s < w.n && t < w.n && w.state[s] == Sending && w.state[t] == Receiving
    ensures forall i :: Sends(Landed(w, s, t, o), i) <==> Sends(w, i) && i != s
    ensures |Senders(Landed(w, s, t, o))| == |Senders(w)| - 1
  {
    var w' := Landed(w, s, t, o);
    forall i ensures Sends(w', i) <==> Sends(w, i) && i != s {}
    assert Senders(w) == Senders(w') + {s};
  }

  lemma LandHolders(w: Net, h: History, s: nat, t: nat, o: Outcome)
    requires Sized(w, h) && Paired(w, h) && Held(w, h) && Running(w, h, s, t)
    ensures Held(Landed(w, s, t, o), LandedHistory(w, h, s, t, o))
  {
    assert Sends(w, s);
  }

  lemma LandMarks(w: Net, h: History, s: nat, t: nat, o: Outcome)
    requires Sized(w, h) && Paired(w, h) && Held(w, h) && MarksTell(w, h) && Running(w, h, s, t)
    ensures MarksTell(Landed(w, s, t, o), LandedHistory(w, h, s, t, o))
  {
    var w', h' := Landed(w, s, t, o), LandedHistory(w, h, s, t, o);
    assert Sends(w, s);
    assert h.arrival[t] == -1;
    forall a: nat, b: nat | a < w.n && b < w.n ensures MarkTells(w', h', a, b) {
      assert MarkTells(w, h, a, b);
    }
  }

  lemma LandCounts(w: Net, h: History, s: nat, t: nat, o: Outcome)
    requires Sized(w, h) && Paired(w, h) && AtMostOnce(w, h) && Running(w, h, s, t)
    ensures AtMostOnce(Landed(w, s, t, o), LandedHistory(w, h, s, t, o))
  {
    var w', h' := Landed(w, s, t, o), LandedHistory(w, h, s, t, o);
    assert Sends(w, s);
    forall a: nat, b: nat | a < w.n && b < w.n ensures OnceAtMost(w', h', a, b) {
      assert OnceAtMost(w, h, a, b);
    }
  }

  /** A source with nothing left to try leaves the game; it still holds the data. */
  lemma RetireKeeps(w: Net, h: History, s: nat)
    requires Inv(w, h) && s < w.n && w.state[s] == Idle
    ensures Inv(w.(state := w.state[s := Failed]), h)
  {
    RetirePairs(w, h, s);
    RetireCounts(w, h, s);
  }

  lemma RetirePairs(w: Net, h: History, s: nat)
    requires Sized(w, h) && Paired(w, h) && s < w.n && w.state[s] == Idle
    ensures Paired(w.(state := w.state[s := Failed]), h)
  {
    var w' := w.(state := w.state[s := Failed]);
    forall i ensures Sends(w', i) <==> Sends(w, i) {}
    forall i ensures Receives(w', i) <==> Receives(w, i) {}
    assert Senders(w') == Senders(w);
  }

  lemma RetireCounts(w: Net, h: History, s: nat)
    requires Sized(w, h) && MarksTell(w, h) && AtMostOnce(w, h) && s < w.n && w.state[s] == Idle
    ensures MarksTell(w.(state := w.state[s := Failed]), h) && AtMostOnce(w.(state := w.state[s := Failed]), h)
  {
    var w' := w.(state := w.state[s := Failed]);
    forall a: nat, b: nat | a < w.n && b < w.n ensures MarkTells(w', h, a, b) && OnceAtMost(w', h, a, b) {
      assert MarkTells(w, h, a, b) && OnceAtMost(w, h, a, b);
    }
  }

  ghost predicate Begins(w: Net, h: History)
  {
    && Sized(w, h) && w.nprocs == 0 && w.state[0] == Idle && h.clock == 1 && h.arrival[0] == 0
    && (forall i :: 0 < i < w.n ==> w.state[i] == Fresh && h.arrival[i] == -1)
    && (forall s, t :: 0 <= s < w.n && 0 <= t < w.n ==> w.marks[s][t] == Untried && h.launches[s][t] == 0)
  }

  lemma BeginsInv(w: Net, h: History)
    requires Begins(w, h)
    ensures Inv(w, h)
  {
    forall i ensures !Sends(w, i) && !Receives(w, i) {}
    assert Senders(w) == {};
  }

  // ---------------------------------------------------------------------- the tree

  /** The chain of sources from a holder back to node 0. */
  ghost function Chain(w: Net, h: History, t: nat): (c: seq<nat>)
    requires Sized(w, h) && Held(w, h) && t < w.n && h.arrival[t] >= 0
    ensures |c| > 0 && c[0] == t && c[|c| - 1] == 0
    ensures forall k :: 0 <= k < |c| ==> c[k] < w.n
    decreases h.arrival[t]
  {
    if t == 0 then [0] else [t] + Chain(w, h, h.parent[t])
  }

  /** `b` got the data from `a`, which held it earlier. */
  ghost predicate Link(w: Net, h: History, a: nat, b: nat)
    requires Sized(w, h)
  {
    a < w.n && b < w.n && w.marks[a][b] == Success && 0 <= h.arrival[a] < h.arrival[b]
  }

  ghost predicate Linked(w: Net, h: History, c: seq<nat>)
    requires Sized(w, h)
    decreases |c|
  {
    |c| <= 1 || (Link(w, h, c[1], c[0]) && Linked(w, h, c[1..]))
  }

  /** In every reachable state the successful transfers form a tree rooted at node 0: along the
      chain of any holder each link is a SUCCESS mark from a node that held the data earlier. */
  lemma {:induction false} TreeRootedAtSource(w: Net, h: History, t: nat)
    requires Inv(w, h) && t < w.n && h.arrival[t] >= 0
    ensures Linked(w, h, Chain(w, h, t))
    decreases h.arrival[t]
  {
    if t == 0 {
    } else {
      var s := h.parent[t];
      TreeRootedAtSource(w, h, s);
      assert MarkTells(w, h, s, t);
      assert Chain(w, h, t)[1..] == Chain(w, h, s);
    }
  }

  /** Every node that is idle or sending, other than node 0, has exactly one SUCCESS mark in its
      column; node 0 and the nodes that are fresh or receiving have none. */
  lemma OneSuccessPerHolder(w: Net, h: History, t: nat)
    requires Inv(w, h) && t < w.n
    ensures t != 0 && (w.state[t] == Idle || w.state[t] == Sending) ==>
             exists s :: 0 <= s < w.n && w.marks[s][t] == Success
    ensures t == 0 || w.state[t] == Fresh || w.state[t] == Receiving ==> forall s :: 0 <= s < w.n ==>
              w.marks[s][t] != Success
    ensures forall s, s' :: 0 <= s < w.n && 0 <= s' < w.n ==>
              (w.marks[s][t] == Success && w.marks[s'][t] == Success ==> s == s')
  {
    forall s: nat | s < w.n
      ensures w.marks[s][t] == Success <==> t > 0 && h.arrival[t] >= 0 && h.parent[t] == s
    {
      assert MarkTells(w, h, s, t);
    }
    if t != 0 && (w.state[t] == Idle || w.state[t] == Sending) {
      assert h.arrival[t] >= 0;
      var s := h.parent[t];
      assert 0 <= s < w.n && w.marks[s][t] == Success;
    }
  }

  /** There are exactly `nprocs` sending nodes and `nprocs` receiving nodes. */
  lemma ProcsCountEndpoints(w: Net, h: History)
    requires Inv(w, h)
    ensures |Senders(w)| == w.nprocs == |Receivers(w)|
  {
    var there := map i | i in Senders(w) :: h.peer[i] as int;
    var back := map j | j in Receivers(w) :: h.peer[j] as int;
    forall i | Sends(w, i) ensures Receives(w, h.peer[i]) {}
    forall j | Receives(w, j) ensures Sends(w, h.peer[j]) {}
    AtMostAsMany(Senders(w), Receivers(w), there);
    AtMostAsMany(Receivers(w), Senders(w), back);
  }

  /** The process id of a sender is carried by that sender and its peer, and by no other
      active node. */
  lemma ChildIsUnique(w: Net, h: History, s: nat)
    requires Sized(w, h) && Paired(w, h) && Sends(w, s)
    ensures forall i :: 0 <= i < w.n && w.pid[i] == w.pid[s] ==>
              (w.state[i] == Sending || w.state[i] == Receiving ==> i == s || i == h.peer[s])
  {
    forall i | 0 <= i < w.n && w.pid[i] == w.pid[s] && (w.state[i] == Sending || w.state[i] == Receiving)
      ensures i == s || i == h.peer[s]
    {
      if w.state[i] == Sending {
        assert Sends(w, i);
      } else {
        assert Receives(w, i);
        assert Sends(w, h.peer[i]);
      }
    }
  }

  /** The two ends of a transfer that is collected. */
  lemma LandReady(w: Net, h: History, s: nat)
    requires Inv(w, h) && Sends(w, s)
    ensures var t := h.peer[s];
            && Running(w, h, s, t) && 0 < t && w.state[s] == Sending && Receives(w, t) && w.pid[t] == w.pid[s]
            && forall i :: 0 <= i < w.n && w.pid[i] == w.pid[s] ==>
                 (w.state[i] == Sending || w.state[i] == Receiving ==> i == s || i == t)
  {
    ChildIsUnique(w, h, s);
    assert SenderPaired(w, h, s);
  }

  // ---------------------------------------------------------------------- the log of a run

  /** What a run does, in order. */
  datatype Step = Started(source: nat, target: nat) | Ended(source: nat, target: nat, outcome: Outcome)

  predicate Exited(log: seq<Step>, s: nat, t: nat, o: Outcome) { Ended(s, t, o) in log }

  /** A transfer to `t` delivered the data or was reset. */
  ghost predicate Settled(log: seq<Step>, t: nat)
  {
    exists s :: Exited(log, s, t, Delivered) || Exited(log, s, t, ConnReset)
  }

  predicate MarkLogged(w: Net, log: seq<Step>, s: nat, t: nat)
    requires w.Shaped() && s < w.n && t < w.n
  {
    && (w.marks[s][t] == Success <==> Exited(log, s, t, Delivered))
    && (w.marks[s][t] == Failure <==> Exited(log, s, t, ConnReset) || Exited(log, s, t, Broken))
  }

  /** The marks tell how the transfers of the run ended. */
  ghost predicate MarksLogged(w: Net, log: seq<Step>)
    requires w.Shaped()
  {
    forall s: nat, t: nat :: s < w.n && t < w.n ==> MarkLogged(w, log, s, t)
  }

  /** A target is out of reach once a transfer to it was delivered or reset, and for good in the second case. */
  ghost predicate StatesLogged(w: Net, log: seq<Step>)
    requires w.Shaped()
  {
    && (forall t: nat {:trigger Settled(log, t)} :: 0 < t < w.n ==>
          (w.state[t] == Fresh || w.state[t] == Receiving <==> !Settled(log, t)))
    && (forall s: nat, t: nat :: t < w.n && Exited(log, s, t, ConnReset) ==> t > 0 && w.state[t] == Failed)
  }

  /** No transfer is started twice, none to a target that has the data, and none to one that reset a transfer. */
  ghost predicate Orderly(log: seq<Step>)
  {
    forall i, j :: 0 <= i < j < |log| && log[j].Started? ==>
      && log[i] != log[j]
      && (log[i].Ended? && log[i].target == log[j].target ==> log[i].outcome == Broken)
  }

  ghost predicate StartLogged(w: Net, h: History, log: seq<Step>, s: nat, t: nat)
    requires Sized(w, h) && s < w.n && t < w.n
  {
    h.launches[s][t] > 0 <==> Started(s, t) in log
  }

  ghost predicate StartsLogged(w: Net, h: History, log: seq<Step>)
    requires Sized(w, h)
  {
    forall s: nat, t: nat :: s < w.n && t < w.n ==> StartLogged(w, h, log, s, t)
  }

  ghost predicate Logged(w: Net, h: History, log: seq<Step>)
    requires Sized(w, h)
  {
    MarksLogged(w, log) && StatesLogged(w, log) && Orderly(log) && StartsLogged(w, h, log)
  }

  lemma LaunchLogged(w: Net, h: History, log: seq<Step>, s: nat, t: nat, p: int)
    requires Inv(w, h) && Logged(w, h, log) && CanLaunch(w, s, t, p)
    ensures Sized(Launched(w, s, t, p), LaunchedHistory(w, h, s, t))
    ensures Logged(Launched(w, s, t, p), LaunchedHistory(w, h, s, t), log + [Started(s, t)])
  {
    LaunchKeeps(w, h, s, t, p);
    LaunchStatesLogged(w, log, s, t, p);
    LaunchOrderly(w, h, log, s, t);
    LaunchStartsLogged(w, h, log, s, t, p);
  }

  lemma StartExits(log: seq<Step>, s: nat, t: nat)
    ensures forall a: nat, b: nat, o: Outcome :: Exited(log + [Started(s, t)], a, b, o) <==> Exited(log, a, b, o)
    ensures forall b: nat :: Settled(log + [Started(s, t)], b) <==> Settled(log, b)
  {
  }

  lemma LaunchStatesLogged(w: Net, log: seq<Step>, s: nat, t: nat, p: int)
    requires w.Shaped() && MarksLogged(w, log) && StatesLogged(w, log) && CanLaunch(w, s, t, p)
    ensures MarksLogged(Launched(w, s, t, p), log + [Started(s, t)])
    ensures StatesLogged(Launched(w, s, t, p), log + [Started(s, t)])
  {
    StartExits(log, s, t);
    forall a: nat, b: nat | a < w.n && b < w.n
      ensures MarkLogged(Launched(w, s, t, p), log + [Started(s, t)], a, b)
    {
      assert MarkLogged(w, log, a, b);
    }
  }

  lemma LaunchStartsLogged(w: Net, h: History, log: seq<Step>, s: nat, t: nat, p: int)
    requires Sized(w, h) && StartsLogged(w, h, log) && s < w.n && t < w.n
    ensures StartsLogged(Launched(w, s, t, p), LaunchedHistory(w, h, s, t), log + [Started(s, t)])
  {
    forall a: nat, b: nat | a < w.n && b < w.n
      ensures StartLogged(Launched(w, s, t, p), LaunchedHistory(w, h, s, t), log + [Started(s, t)], a, b)
    {
      assert StartLogged(w, h, log, a, b);
    }
  }

  lemma LaunchOrderly(w: Net, h: History, log: seq<Step>, s: nat, t: nat)
    requires Sized(w, h) && Orderly(log) && StartsLogged(w, h, log) && StatesLogged(w, log)
    requires s < w.n && 0 < t < w.n && h.launches[s][t] == 0 && w.state[t] == Fresh
    ensures Orderly(log + [Started(s, t)])
  {
    assert StartLogged(w, h, log, s, t);
    forall i | 0 <= i < |log| && log[i].Ended? && log[i].target == t ensures log[i].outcome == Broken {
      assert Exited(log, log[i].source, t, log[i].outcome);
      assert !Settled(log, t);
    }
  }

  lemma LandLogged(w: Net, h: History, log: seq<Step>, s: nat, t: nat, o: Outcome)
    requires Inv(w, h) && Logged(w, h, log) && Running(w, h, s, t)
    ensures Sized(Landed(w, s, t, o), LandedHistory(w, h, s, t, o))
    ensures Logged(Landed(w, s, t, o), LandedHistory(w, h, s, t, o), log + [Ended(s, t, o)])
  {
    var w', h', log' := Landed(w, s, t, o), LandedHistory(w, h, s, t, o), log + [Ended(s, t, o)];
    assert Sends(w, s) && SenderPaired(w, h, s);
    forall a: nat, b: nat, q: Outcome
      ensures Exited(log', a, b, q) <==> Exited(log, a, b, q) || (a == s && b == t && q == o)
    {
    }
    forall a: nat, b: nat | a < w.n && b < w.n
      ensures MarkLogged(w', log', a, b) && StartLogged(w', h', log', a, b)
    {
      assert MarkLogged(w, log, a, b) && StartLogged(w, h, log, a, b);
    }
    LandStatesLogged(w, h, log, s, t, o);
  }

  lemma LandStatesLogged(w: Net, h: History, log: seq<Step>, s: nat, t: nat, o: Outcome)
    requires Inv(w, h) && Logged(w, h, log) && Running(w, h, s, t)
    ensures StatesLogged(Landed(w, s, t, o), log + [Ended(s, t, o)])
  {
    var w', log' := Landed(w, s, t, o), log + [Ended(s, t, o)];
    assert Sends(w, s) && SenderPaired(w, h, s);
    forall a: nat, b: nat, q: Outcome
      ensures Exited(log', a, b, q) <==> Exited(log, a, b, q) || (a == s && b == t && q == o)
    {
    }
    forall b: nat | 0 < b < w.n
      ensures w'.state[b] == Fresh || w'.state[b] == Receiving <==> !Settled(log', b)
    {
      if b == t {
        assert !Settled(log, t);
        if o != Broken { assert Exited(log', s, t, o); }
      } else {
        assert Settled(log', b) <==> Settled(log, b);
      }
    }
  }

  /** The nodes and marks after a transfer from `s` to `t`: the source is idle again; the target holds the data, has
      failed for good after a reset, and may be tried again after any other failure. */
  ghost predicate LandTells(w: Net, after: Net, s: nat, t: nat, o: Outcome)
    requires w.Shaped() && s < w.n && t < w.n
  {
    && after.Shaped() && after.n == w.n && after.pid == w.pid && after.nprocs == w.nprocs - 1
    && after.state[s] == Idle
    && (after.state[t] == Idle <==> o == Delivered)
    && (after.state[t] == Failed <==> o == ConnReset)
    && (after.state[t] == Fresh <==> o == Broken)
    && (forall i :: 0 <= i < w.n && i != s && i != t ==> after.state[i] == w.state[i])
    && (after.marks[s][t] == Success <==> o == Delivered)
    && (after.marks[s][t] == Failure <==> o != Delivered)
    && (forall i, j :: 0 <= i < w.n && 0 <= j < w.n && (i != s || j != t) ==> after.marks[i][j] == w.marks[i][j])
  }

  lemma LandedTells(w: Net, s: nat, t: nat, o: Outcome)
    requires w.Shaped() && s < w.n && t < w.n && s != t
    ensures LandTells(w, Landed(w, s, t, o), s, t, o)
  {
  }

  lemma RetireLogged(w: Net, h: History, log: seq<Step>, s: nat)
    requires Inv(w, h) && Logged(w, h, log) && s < w.n && w.state[s] == Idle
    ensures Logged(w.(state := w.state[s := Failed]), h, log)
  {
    var after := w.(state := w.state[s := Failed]);
    forall a: nat, b: nat | a < w.n && b < w.n
      ensures MarkLogged(after, log, a, b) && StartLogged(after, h, log, a, b)
    {
      assert MarkLogged(w, log, a, b) && StartLogged(w, h, log, a, b);
    }
  }

  lemma BeginsLogged(w: Net, h: History)
    requires Begins(w, h)
    ensures Logged(w, h, [])
  {
  }

  /** A broken transfer spoils a target for its own source only: unless another transfer to it was delivered or
      reset, or is under way, every holder whose transfers to it did not fail can still serve it. */
  lemma BrokenIsTriedAgain(w: Net, h: History, log: seq<Step>, s: nat, t: nat, holder: nat, p: int)
    requires Inv(w, h) && Logged(w, h, log) && Exited(log, s, t, Broken) && 0 < t < w.n
    requires forall a: nat, o: Outcome :: Exited(log, a, t, o) ==> o == Broken
    requires w.state[t] != Receiving
    requires holder < w.n && w.state[holder] == Idle && PidFree(w, p)
    ensures CanLaunch(w, holder, t, p) <==> !Exited(log, holder, t, Broken)
  {
    assert !Settled(log, t);
    assert MarkLogged(w, log, holder, t);
  }

  /** A target that reset a transfer can be served by nobody. */
  lemma ResetIsFinal(w: Net, h: History, log: seq<Step>, s: nat, t: nat, holder: nat, p: int)
    requires Inv(w, h) && Logged(w, h, log) && Exited(log, s, t, ConnReset) && t < w.n
    ensures w.state[t] == Failed && !CanLaunch(w, holder, t, p)
  {
  }

  // ---------------------------------------------------------------------- copies

  /** The targets that have the data. */
  ghost function Copies(h: History): set<int>
  {
    set t | 0 < t < |h.arrival| && h.arrival[t] >= 0
  }

  lemma LandCopies(w: Net, h: History, s: nat, t: nat, o: Outcome)
    requires Inv(w, h) && Running(w, h, s, t)
    ensures |Copies(LandedHistory(w, h, s, t, o))| == |Copies(h)| + if o == Delivered then 1 else 0
  {
    assert Sends(w, s) && SenderPaired(w, h, s);
    if o == Delivered {
      assert h.arrival[t] == -1;
      var after := Copies(LandedHistory(w, h, s, t, o));
      assert after == Copies(h) + {t};
      OneMore(Copies(h), after, t);
    }
  }

  // ---------------------------------------------------------------------- all together

  ghost predicate Good(w: Net, h: History, log: seq<Step>, complete: int)
  {
    Inv(w, h) && Logged(w, h, log) && complete == |Copies(h)|
  }

  lemma LaunchGood(w: Net, h: History, log: seq<Step>, complete: int, s: nat, t: nat, p: int)
    requires Good(w, h, log, complete) && CanLaunch(w, s, t, p)
    ensures Good(Launched(w, s, t, p), LaunchedHistory(w, h, s, t), log + [Started(s, t)], complete)
    ensures Started(s, t) !in log
    ensures NeverLaunched(LaunchedHistory(w, h, s, t).launches, w.n) < NeverLaunched(h.launches, w.n)
  {
    LaunchKeeps(w, h, s, t, p);
    LaunchLogged(w, h, log, s, t, p);
    assert Copies(LaunchedHistory(w, h, s, t)) == Copies(h);
    assert StartLogged(w, h, log, s, t);
    FewerUnattempted(h.launches, LaunchedHistory(w, h, s, t).launches, w.n, s, t);
  }

  lemma LandGood(w: Net, h: History, log: seq<Step>, complete: int, s: nat, o: Outcome)
    requires Good(w, h, log, complete) && Sends(w, s)
    ensures h.peer[s] < w.n && w.state[h.peer[s]] == Receiving
    ensures Good(Landed(w, s, h.peer[s], o), LandedHistory(w, h, s, h.peer[s], o), log + [Ended(s, h.peer[s], o)],
              complete + if o == Delivered then 1 else 0)
  {
    LandReady(w, h, s);
    LandKeeps(w, h, s, h.peer[s], o);
    LandLogged(w, h, log, s, h.peer[s], o);
    LandCopies(w, h, s, h.peer[s], o);
  }

  // ---------------------------------------------------------------------- the loop

  ghost function NeverLaunched(launches: seq<seq<nat>>, n: nat): set<(int, int)>
    requires |launches| == n && forall s :: 0 <= s < n ==> |launches[s]| == n
  {
    set s, t | 0 <= s < n && 0 <= t < n && launches[s][t] == 0 :: (s, t)
  }

  lemma FewerUnattempted(before: seq<seq<nat>>, after: seq<seq<nat>>, n: nat, s: nat, t: nat)
    requires |before| == n && (forall i :: 0 <= i < n ==> |before[i]| == n) && s < n && t < n
    requires before[s][t] == 0 && after == before[s := before[s][t := 1]]
    ensures NeverLaunched(after, n) < NeverLaunched(before, n)
  {
    assert (s as int, t as int) in NeverLaunched(before, n) && (s as int, t as int) !in NeverLaunched(after, n);
    forall e | e in NeverLaunched(after, n) ensures e in NeverLaunched(before, n) {
      assert before[e.0][e.1] == 0;
    }
  }

  datatype Exit = Deadline | EnoughCopies | NothingRunning

  class Distributor {
    const n: nat
    const maxprocs: int
    const needed: nat
    const cid: seq<nat>
    var state: seq<NodeState>
    var pid: seq<int>
    var marks: seq<seq<Mark>>
    var nprocs: int
    var complete: nat
    var clusterState: seq<int>
    ghost var h: History
    ghost var log: seq<Step>

    function Snapshot(): Net
      reads this
    {
      Net(n, state, pid, marks, nprocs)
    }

    predicate Shaped()
      reads this
    {
      Snapshot().Shaped() && |cid| == n && forall i :: 0 <= i < n ==> cid[i] < |clusterState|
    }

    ghost predicate Valid()
      reads this
    {
      Shaped() && Good(Snapshot(), h, log, complete) && (nprocs == 0 || nprocs <= maxprocs)
    }

    /** Pairs never tried so far. */
    ghost function Unattempted(): set<(int, int)>
      requires Valid()
      reads this
    {
      NeverLaunched(h.launches, n)
    }

    ghost function IdleNodes(): set<int>
      reads this
    {
      set i | 0 <= i < |state| && state[i] == Idle
    }

    constructor (n: nat, maxprocs: int, needed: nat, cid: seq<nat>, clusterState: seq<int>)
      requires n > 0 && |cid| == n && forall i :: 0 <= i < n ==> cid[i] < |clusterState|
      ensures Valid() && this.n == n && this.maxprocs == maxprocs && this.needed == needed
      ensures log == [] && complete == 0 && nprocs == 0 && this.cid == cid && this.clusterState == clusterState
      ensures state[0] == Idle && forall i :: 0 < i < n ==> state[i] == Fresh
      ensures forall s, t :: 0 <= s < n && 0 <= t < n ==> marks[s][t] == Untried
      ensures forall s, t :: 0 <= s < n && 0 <= t < n ==> h.launches[s][t] == 0
    {
      this.n, this.maxprocs, this.needed, this.cid, this.clusterState := n, maxprocs, needed, cid, clusterState;
      state := seq(n, i => if i == 0 then Idle else Fresh);
      pid := seq(n, i => 0);
      marks := seq(n, i => seq(n, j => Untried));
      nprocs, complete := 0, 0;
      h := History(seq(n, i => 0), seq(n, i => if i == 0 then 0 else -1), seq(n, i => 0),
          seq(n, i => seq(n, j => 0)), 1);
      log := [];
      new;
      BeginsInv(Snapshot(), h);
      BeginsLogged(Snapshot(), h);
      assert Copies(h) == {};
    }

    /** The first idle node, or -1. */
    method PickSource() returns (source: int)
      requires |state| == n
      ensures -1 <= source < n
      ensures source >= 0 ==> state[source] == Idle && forall i :: 0 <= i < source ==> state[i] != Idle
      ensures source == -1 ==> forall i :: 0 <= i < n ==> state[i] != Idle
    {
      for i := 0 to n
        invariant forall j :: 0 <= j < i ==> state[j] != Idle
      {
        if state[i] == Idle { return i; }
      }
      return -1;
    }

    predicate Usable(source: nat, i: nat)
      requires Shaped() && source < n && 0 < i < n
      reads this
    {
      state[i] == Fresh && marks[source][i] != Failure
    }

    /** A target in a cluster that is not known to have or receive a copy. */
    predicate Open(source: nat, i: nat)
      requires Shaped() && source < n && 0 < i < n
      reads this
    {
      Usable(source, i) && clusterState[cid[i]] == 0
    }

    predicate Near(source: nat, i: nat)
      requires Shaped() && source < n && 0 < i < n
      reads this
    {
      Usable(source, i) && cid[i] == cid[source]
    }

    /** A fresh target this source has not failed on: the first in an open cluster, else the first in
        the source's own cluster, else the first; -1 if there is none. */
    method PickTarget(source: nat) returns (target: int, freshCount: nat)
      requires Shaped() && source < n
      modifies this`clusterState
      ensures Shaped()
      ensures target == -1 || (0 < target < n && state[target] == Fresh && marks[source][target] != Failure)
      ensures target == -1 ==> forall i :: 0 < i < n && state[i] == Fresh ==> marks[source][i] == Failure
      ensures target == -1 ==> (freshCount == 0 <==> forall i :: 0 < i < n ==> state[i] != Fresh)
      ensures target > 0 && old(Open(source, target)) ==>
                (forall j :: 0 < j < target ==> !old(Open(source, j)))
                    && clusterState == old(clusterState)[cid[target] := 2]
      ensures target > 0 && !old(Open(source, target)) ==>
                && (forall j :: 0 < j < n ==> !Open(source, j)) && clusterState == old(clusterState)
                && (Near(source, target) ==> forall j :: 0 < j < target ==> !Near(source, j))
                && (!Near(source, target) ==> forall j :: 0 < j < n ==> !Near(source, j))
                && (!Near(source, target) ==> forall j :: 0 < j < target ==> !Usable(source, j))
    {
      freshCount := 0;
      for i := 1 to n
        invariant Shaped() && clusterState == old(clusterState)
        invariant freshCount == 0 <==> forall j :: 0 < j < i ==> state[j] != Fresh
        invariant forall j :: 0 < j < i ==> !Open(source, j)
      {
        if state[i] == Fresh {
          freshCount := freshCount + 1;
          if clusterState[cid[i]] == 0 && Usable(source, i) {
            clusterState := clusterState[cid[i] := 2];
            return i, freshCount;
          }
        }
      }
      target := PickNear(source);
    }

    /** The second and third pass. */
    method PickNear(source: nat) returns (target: int)
      requires Shaped() && source < n
      ensures target == -1 || (0 < target < n && state[target] == Fresh && marks[source][target] != Failure)
      ensures target == -1 ==> forall i :: 0 < i < n && state[i] == Fresh ==> marks[source][i] == Failure
      ensures target > 0 && Near(source, target) ==> forall j :: 0 < j < target ==> !Near(source, j)
      ensures target > 0 && !Near(source, target) ==> forall j :: 0 < j < n ==> !Near(source, j)
      ensures target > 0 && !Near(source, target) ==> forall j :: 0 < j < target ==> !Usable(source, j)
    {
      for i := 1 to n
        invariant forall j :: 0 < j < i ==> !Near(source, j)
      {
        if state[i] == Fresh && cid[i] == cid[source] && Usable(source, i) { return i; }
      }
      for i := 1 to n
        invariant forall j :: 0 < j < i ==> !Usable(source, j)
        invariant forall j :: 0 < j < i && state[j] == Fresh ==> marks[source][j] == Failure
      {
        if Usable(source, i) { return i; }
      }
      return -1;
    }

    /** The parent's side of a successful fork. */
    method Launch(source: nat, target: nat, p: int)
      requires Valid() && CanLaunch(Snapshot(), source, target, p) && nprocs < maxprocs
      modifies this`state, this`pid, this`nprocs, this`h, this`log
      ensures Valid() && Started(source, target) !in old(log) && log == old(log) + [Started(source, target)]
      ensures state == old(state)[source := Sending][target := Receiving]
      ensures pid == old(pid)[source := p][target := p] && nprocs == old(nprocs) + 1
      ensures h == LaunchedHistory(old(Snapshot()), old(h), source, target)
      ensures Unattempted() < old(Unattempted())
    {
      ghost var w := Snapshot();
      LaunchGood(w, h, log, complete, source, target, p);
      log := log + [Started(source, target)];
      h := LaunchedHistory(w, h, source, target);
      nprocs := nprocs + 1;
      state := state[source := Sending];
      pid := pid[source := p];
      state := state[target := Receiving];
      pid := pid[target := p];
      assert Snapshot() == Launched(w, source, target, p);
    }

    /** What the parent does when `wait` returns child `p`: the scan for the two nodes that carry
        its process id sets their new states and tells which pair to mark. */
    method Land(p: int, o: Outcome, ghost s: nat)
      requires Valid() && Sends(Snapshot(), s) && pid[s] == p
      modifies this`state, this`marks, this`nprocs, this`complete, this`h, this`log
      ensures Valid() && complete == old(complete) + if o == Delivered then 1 else 0
      ensures 0 < old(h.peer[s]) < n && old(Receives(Snapshot(), h.peer[s])) && pid[old(h.peer[s])] == p
      ensures LandTells(old(Snapshot()), Snapshot(), s, old(h.peer[s]), o)
      ensures log == old(log) + [Ended(s, old(h.peer[s]), o)]
      ensures h == LandedHistory(old(Snapshot()), old(h), s, old(h.peer[s]), o)
    {
      LandReady(Snapshot(), h, s);
      LandedTells(Snapshot(), s, h.peer[s], o);
      CollectAndLog(p, o, s);
    }

    method CollectAndLog(p: int, o: Outcome, ghost s: nat)
      requires Valid() && Sends(Snapshot(), s) && pid[s] == p
      modifies this`state, this`marks, this`nprocs, this`complete, this`h, this`log
      ensures Valid() && complete == old(complete) + if o == Delivered then 1 else 0
      ensures old(h.peer[s]) < n && Snapshot() == Landed(old(Snapshot()), s, old(h.peer[s]), o)
      ensures log == old(log) + [Ended(s, old(h.peer[s]), o)]
      ensures h == LandedHistory(old(Snapshot()), old(h), s, old(h.peer[s]), o)
    {
      ghost var t := h.peer[s];
      ghost var w := Snapshot();
      LandReady(w, h, s);
      LandGood(w, h, log, complete, s, o);
      Collect(p, o, s, t);
      log, h := log + [Ended(s, t, o)], LandedHistory(w, h, s, t, o);
      assert Snapshot() == Landed(w, s, t, o);
    }

    method Collect(p: int, o: Outcome, ghost s: nat, ghost t: nat)
      requires Shaped() && s < n && t < n
      requires state[s] == Sending && pid[s] == p && state[t] == Receiving && pid[t] == p
      requires forall i :: 0 <= i < n && pid[i] == p && (state[i] == Sending || state[i] == Receiving) ==>
                 i == s || i == t
      modifies this`state, this`marks, this`nprocs, this`complete
      ensures Snapshot() == Landed(old(Snapshot()), s, t, o)
      ensures complete == old(complete) + if o == Delivered then 1 else 0
    {
      nprocs := nprocs - 1;
      if o == Delivered { complete := complete + 1; }
      var source, target := Scan(p, o, s, t);
      marks := SetMark(marks, source, target, if o == Delivered then Success else Failure);
    }

    method Scan(p: int, o: Outcome, ghost s: nat, ghost t: nat) returns (source: nat, target: nat)
      requires |state| == n && |pid| == n && s < n && t < n
      requires state[s] == Sending && pid[s] == p && state[t] == Receiving && pid[t] == p
      requires forall i :: 0 <= i < n && pid[i] == p && (state[i] == Sending || state[i] == Receiving) ==>
                 i == s || i == t
      modifies this`state
      ensures source == s && target == t && state == old(state)[s := Idle][t := AfterLanding(o)]
    {
      source, target := 0, 0;
      ghost var goal := state[s := Idle][t := AfterLanding(o)];
      for i := 0 to n
        invariant |state| == n
        invariant forall j :: 0 <= j < i ==> state[j] == goal[j]
        invariant forall j :: i <= j < n ==> state[j] == old(state)[j]
        invariant (s < i ==> source == s) && (t < i ==> target == t)
      {
        if pid[i] == p {
          if state[i] == Receiving {
            target := i;
            state := state[i := AfterLanding(o)];
          } else if state[i] == Sending {
            source := i;
            state := state[i := Idle];
          }
        }
      }
    }

    /** The whole loop. Forks may fail and waits may be interrupted, `hiccups` times in all;
        everything else makes progress, so the loop ends even without its deadline. */
    method Run(hiccups: nat) returns (exit: Exit)
      requires Valid()
      modifies this
      ensures Valid() && old(log) <= log
      ensures exit == EnoughCopies ==> needed != 0 && |Copies(h)| >= needed
      ensures exit == NothingRunning ==>
                && nprocs == 0
                && (maxprocs <= 0 || (forall i :: 0 <= i < n ==> state[i] != Idle)
                     || (forall i :: 0 < i < n ==> state[i] != Fresh))
    {
      var left := hiccups;
      while true
        invariant Valid() && left >= 0 && old(log) <= log
        decreases left, Unattempted(), nprocs, IdleNodes()
      {
        var expired: bool := *;
        if expired { return Deadline; }
        if needed != 0 && complete >= needed { return EnoughCopies; }
        var source := PickSource();
        var target, freshCount := -1, 0;
        if source != -1 {
          target, freshCount := PickTarget(source);
          if target == -1 && freshCount > 0 {
            Retire(source);
            continue;
          }
        }
        if nprocs < maxprocs && target != -1 && source != -1 {
          var failed: bool := *;
          if left > 0 && failed {
            left := left - 1;
          } else {
            Fork(source, target);
          }
        } else if nprocs == 0 {
          return NothingRunning;
        } else {
          var interrupted: bool := *;
          if left > 0 && interrupted {
            left := left - 1;
          } else {
            Wait();
          }
        }
      }
    }

    method Retire(source: nat)
      requires Valid() && source < n && state[source] == Idle
      modifies this`state
      ensures Valid() && Unattempted() == old(Unattempted()) && IdleNodes() < old(IdleNodes())
    {
      RetireKeeps(Snapshot(), h, source);
      RetireLogged(Snapshot(), h, log, source);
      state := state[source := Failed];
      assert source in old(IdleNodes()) && source !in IdleNodes();
    }

    /** A fork that succeeds returns a process id that no running child has. */
    method Fork(source: nat, target: nat)
      requires Valid() && source < n && 0 < target < n && nprocs < maxprocs && state[source] == Idle
      requires Usable(source, target)
      modifies this`state, this`pid, this`nprocs, this`h, this`log
      ensures Valid() && Unattempted() < old(Unattempted()) && old(log) <= log
    {
      var unused := UnusedPid();
      var p: int :| PidFree(Snapshot(), p);
      Launch(source, target, p);
    }

    method UnusedPid() returns (p: int)
      requires Shaped()
      ensures PidFree(Snapshot(), p)
    {
      p := 1;
      for i := 0 to n
        invariant forall j :: 0 <= j < i ==> pid[j] < p
      {
        if pid[i] >= p { p := pid[i] + 1; }
      }
    }

    /** `wait` reports any child that is running, however it ended. */
    method Wait()
      requires Valid() && nprocs > 0
      modifies this`state, this`marks, this`nprocs, this`complete, this`h, this`log
      ensures Valid() && nprocs == old(nprocs) - 1 && Unattempted() == old(Unattempted()) && old(log) <= log
    {
      var senders := Senders(Snapshot());
      ghost var one := Element(senders);
      var k :| k in senders;
      var o: Outcome := *;
      Land(pid[k], o, k);
    }
  }
}
