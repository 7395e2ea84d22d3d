/** `generate_graph` (lcugen.cpp:1591-1675): the edge list of the task graph. Each
    Forward task i below i_max-1 adds the unconditional edge (i, i+1, -1); each
    Backward task adds the loop-continue edge with weight 0, to itself for an inner
    loop and otherwise to the Forward task that heads its loop, then the loop-exit
    edge (i, i+1, 1). */
module Graph {
  import opened Types

  /** Rows a task adds to the edge list. */
  function RowsOf(x: Task): nat
  {
    if x.kind == FWD then 1 else if x.kind == BWD then 2 else 0
  }

  /** The row counter `j` once the tasks below i have been handled. */
  function RowsBefore(t: seq<Task>, i: nat): nat
    requires i <= |t|
  {
    if i == 0 then 0 else RowsBefore(t, i - 1) + RowsOf(t[i - 1])
  }

  /** The tasks below i of the given kind. */
  function CountKind(t: seq<Task>, i: nat, kind: int): nat
    requires i <= |t|
  {
    if i == 0 then 0 else CountKind(t, i - 1, kind) + (if t[i - 1].kind == kind then 1 else 0)
  }

  /** The last Forward task k below n with `fwdsel` 0 at loop address `addr`: the
      head of that loop. */
  function LoopHead(t: seq<Task>, addr: nat, n: nat): (r: Option<nat>)
    requires n <= |t|
    ensures r.Some? ==> r.value < n && t[r.value].kind == FWD && t[r.value].fwdsel == 0 && t[r.value].loopAddr == addr
    ensures r.Some? ==> forall k :: r.value < k < n ==> !(t[k].kind == FWD && t[k].fwdsel == 0 && t[k].loopAddr == addr)
    ensures r.None? ==> forall k :: 0 <= k < n ==> !(t[k].kind == FWD && t[k].fwdsel == 0 && t[k].loopAddr == addr)
  {
    if n == 0 then None
    else if t[n - 1].kind == FWD && t[n - 1].fwdsel == 0 && t[n - 1].loopAddr == addr then Some(n - 1)
    else LoopHead(t, addr, n - 1)
  }

  /** The loop-continue edge of Backward task i, written over row g[j]: when no loop
      head is found only the tail is written and the head and weight already in the
      row remain. */
  function ContinueEdge(t: seq<Task>, iMax: nat, i: nat, row: Edge): Edge
    requires 1 <= iMax <= |t| && i < |t|
  {
    if t[i].innerLoop == 1 then Edge(i, i, 0)
    else match LoopHead(t, t[i].loopAddr, iMax - 1)
      case Some(k) => Edge(i, k, 0)
      case None => row.(tail := i)
  }

  /** The edge table once the tasks below i have been handled, starting from e. */
  function GraphUpTo(t: seq<Task>, iMax: nat, e: seq<Edge>, i: nat): (g: seq<Edge>)
    requires 1 <= iMax <= |t| && i <= iMax - 1 && |e| == SLOTS && RowsBefore(t, i) <= SLOTS
    ensures |g| == SLOTS
  {
    if i == 0 then e
    else
      var g := GraphUpTo(t, iMax, e, i - 1);
      var n := i - 1;
      var j := RowsBefore(t, n);
      if t[n].kind == FWD then g[j := Edge(n, n + 1, -1)]
      else if t[n].kind == BWD then g[j := ContinueEdge(t, iMax, n, g[j])][j + 1 := Edge(n, n + 1, 1)]
      else g
  }

  /** The edge table and `edge_list_max` `generate_graph` leaves. */
  function EdgeCount(t: seq<Task>, iMax: nat): nat
    requires 1 <= iMax <= |t|
  {
    RowsBefore(t, iMax - 1)
  }

  function GraphTable(t: seq<Task>, iMax: nat, e: seq<Edge>): (g: seq<Edge>)
    requires 1 <= iMax <= |t| && |e| == SLOTS && EdgeCount(t, iMax) <= SLOTS
    ensures |g| == SLOTS
  {
    GraphUpTo(t, iMax, e, iMax - 1)
  }

  // ---------------------------------------------------------------------------
  // Properties of the edge list
  // ---------------------------------------------------------------------------

  /** `edge_list_max` is the number of Forward tasks plus twice the number of
      Backward tasks below i_max-1. */
  lemma {:induction false} EdgeCountByKind(t: seq<Task>, i: nat)
    requires i <= |t|
    ensures RowsBefore(t, i) == CountKind(t, i, FWD) + 2 * CountKind(t, i, BWD)
  {
    if i > 0 {
      EdgeCountByKind(t, i - 1);
    }
  }

  /** Rows from the counter on are not written yet. */
  lemma {:induction false} GraphFrame(t: seq<Task>, iMax: nat, e: seq<Edge>, i: nat, p: nat)
    requires 1 <= iMax <= |t| && i <= iMax - 1 && |e| == SLOTS && RowsBefore(t, i) <= SLOTS
    requires RowsBefore(t, i) <= p < SLOTS
    ensures GraphUpTo(t, iMax, e, i)[p] == e[p]
  {
    if i > 0 {
      GraphFrame(t, iMax, e, i - 1, p);
    }
  }

  lemma {:induction false} RowsBeforeGrows(t: seq<Task>, a: nat, b: nat)
    requires a <= b <= |t|
    ensures RowsBefore(t, a) <= RowsBefore(t, b)
    ensures a < b ==> RowsBefore(t, a) + RowsOf(t[a]) <= RowsBefore(t, b)
  {
    if a < b {
      RowsBeforeGrows(t, a, b - 1);
    }
  }

  /** The rows of task i, at the position the counter had when i was reached: a
      Forward task has the unconditional edge to its successor; a Backward task has
      its loop-continue edge (to itself for an inner loop, else to the last loop
      head at its address, else only the tail rewritten) followed by the loop-exit
      edge to its successor. */
  lemma {:induction false} TaskRows(t: seq<Task>, iMax: nat, e: seq<Edge>, n: nat, i: nat)
    requires 1 <= iMax <= |t| && n <= iMax - 1 && |e| == SLOTS && RowsBefore(t, n) <= SLOTS
    requires i < n
    ensures RowsBefore(t, i) + RowsOf(t[i]) <= RowsBefore(t, n)
    ensures var g := GraphUpTo(t, iMax, e, n); var j := RowsBefore(t, i);
      (t[i].kind == FWD ==> g[j] == Edge(i, i + 1, -1))
      && (t[i].kind == BWD ==> g[j] == ContinueEdge(t, iMax, i, e[j]) && g[j + 1] == Edge(i, i + 1, 1))
  {
    RowsBeforeGrows(t, i, n);
    var j := RowsBefore(t, i);
    if RowsOf(t[i]) > 0 {
      if i < n - 1 {
        TaskRows(t, iMax, e, n - 1, i);
        RowsBeforeGrows(t, i + 1, n - 1);
        var g := GraphUpTo(t, iMax, e, n - 1);
        var g' := GraphUpTo(t, iMax, e, n);
        assert forall p :: 0 <= p < RowsBefore(t, n - 1) ==> g'[p] == g[p];
      } else {
        GraphFrame(t, iMax, e, i, j);
      }
    }
  }

  /** The edges come in tail order, and every tail is a task below the ones handled. */
  predicate TailsSorted(g: seq<Edge>, m: nat, i: nat)
    requires m <= |g|
  {
    (forall p :: 0 <= p < m ==> 0 <= g[p].tail < i)
    && (forall p, q :: 0 <= p < q < m ==> g[p].tail <= g[q].tail)
  }

  lemma {:induction false} TailOrder(t: seq<Task>, iMax: nat, e: seq<Edge>, i: nat)
    requires 1 <= iMax <= |t| && i <= iMax - 1 && |e| == SLOTS && RowsBefore(t, i) <= SLOTS
    ensures TailsSorted(GraphUpTo(t, iMax, e, i), RowsBefore(t, i), i)
  {
    if i > 0 {
      TailOrder(t, iMax, e, i - 1);
      GraphStepRows(t, iMax, e, i);
      SortedExtend(GraphUpTo(t, iMax, e, i - 1), GraphUpTo(t, iMax, e, i), RowsBefore(t, i - 1), RowsBefore(t, i), i - 1);
    }
  }

  /** Task i-1 writes only the rows from the counter on, each with tail i-1. */
  lemma GraphStepRows(t: seq<Task>, iMax: nat, e: seq<Edge>, i: nat)
    requires 1 <= iMax <= |t| && 1 <= i <= iMax - 1 && |e| == SLOTS && RowsBefore(t, i) <= SLOTS
    ensures RowsBefore(t, i - 1) <= RowsBefore(t, i)
    ensures forall p :: 0 <= p < RowsBefore(t, i - 1) ==> GraphUpTo(t, iMax, e, i)[p] == GraphUpTo(t, iMax, e, i - 1)[p]
    ensures forall p :: RowsBefore(t, i - 1) <= p < RowsBefore(t, i) ==> GraphUpTo(t, iMax, e, i)[p].tail == i - 1
  {
  }

  /** Appending rows with tail c to rows sorted by tail, all below c, keeps them
      sorted, now all below c+1. */
  lemma SortedExtend(g: seq<Edge>, g': seq<Edge>, j: nat, m: nat, c: nat)
    requires j <= m <= |g| && |g'| == |g|
    requires TailsSorted(g, j, c)
    requires forall p :: 0 <= p < j ==> g'[p] == g[p]
    requires forall p :: j <= p < m ==> g'[p].tail == c
    ensures TailsSorted(g', m, c + 1)
  {
  }

  /** Each row's weight is -1 for a Forward tail, 0 then 1 for a Backward tail
      (when its loop head is found), so every Backward task below i_max-1 has
      exactly one loop-continue and one loop-exit edge. */
  lemma BackwardEdges(t: seq<Task>, iMax: nat, e: seq<Edge>, i: nat)
    requires 1 <= iMax <= |t| && |e| == SLOTS && EdgeCount(t, iMax) <= SLOTS
    requires i < iMax - 1 && t[i].kind == BWD
    requires t[i].innerLoop == 1 || LoopHead(t, t[i].loopAddr, iMax - 1).Some?
    ensures RowsBefore(t, i) + 2 <= EdgeCount(t, iMax)
    ensures var g := GraphTable(t, iMax, e); var j := RowsBefore(t, i);
      g[j].tail == i && g[j].weight == 0 && g[j + 1] == Edge(i, i + 1, 1)
      && forall p :: 0 <= p < EdgeCount(t, iMax) && g[p].tail == i ==> p == j || p == j + 1
  {
    var g := GraphTable(t, iMax, e);
    var j := RowsBefore(t, i);
    TaskRows(t, iMax, e, iMax - 1, i);
    TailOrder(t, iMax, e, iMax - 1);
    forall p | 0 <= p < EdgeCount(t, iMax) && g[p].tail == i
      ensures p == j || p == j + 1
    {
      if p < j || p > j + 1 {
        RowsOwned(t, iMax, e, iMax - 1, p);
      }
    }
  }

  /** Every written row belongs to the task whose rows surround it. */
  lemma {:induction false} RowsOwned(t: seq<Task>, iMax: nat, e: seq<Edge>, n: nat, p: nat)
    requires 1 <= iMax <= |t| && n <= iMax - 1 && |e| == SLOTS && RowsBefore(t, n) <= SLOTS
    requires p < RowsBefore(t, n)
    ensures var g := GraphUpTo(t, iMax, e, n);
      0 <= g[p].tail < n && RowsBefore(t, g[p].tail) <= p < RowsBefore(t, g[p].tail) + RowsOf(t[g[p].tail])
  {
    if p < RowsBefore(t, n - 1) {
      RowsOwned(t, iMax, e, n - 1, p);
    }
  }

  /** Starting from a table whose rows name task slots, every row still names task
      slots: the rows written join tasks below i_max, and a loop-continue row with
      no loop head keeps the head it had. */
  lemma {:induction false} GraphNamesTasks(t: seq<Task>, iMax: nat, e: seq<Edge>, i: nat)
    requires 1 <= iMax <= |t| <= SLOTS && i <= iMax - 1 && |e| == SLOTS && RowsBefore(t, i) <= SLOTS
    requires EdgesIndex(e, SLOTS)
    ensures EdgesIndex(GraphUpTo(t, iMax, e, i), SLOTS)
  {
    if i > 0 {
      RowsBeforeGrows(t, i - 1, i);
      GraphNamesTasks(t, iMax, e, i - 1);
    }
  }
}
