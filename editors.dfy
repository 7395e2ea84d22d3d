/** The table editors `remove_task_data`, `assign_edges`, `remove_common_edges` and
    `rearrange_edge_list` (lcugen.cpp:1402-1512), as functions on the tables they
    rewrite; the `LcuGen` class runs their loops against these functions. */
module Editors {
  import opened Types
  import opened Bits
  import opened Render

  // ---------------------------------------------------------------------------
  // remove_task_data
  // ---------------------------------------------------------------------------

  /** Slot k after the removal: the next slot's task with its `taskid` decremented
      (unsigned), keeping slot k's own block list. */
  function Slid(x: Task, next: Task): Task
  {
    next.(taskId := (next.taskId + WORD - 1) % WORD, bbList := x.bbList, bbListSize := x.bbListSize)
  }

  /** `remove_task_data(i)`: from slot i up to `i_max`-1 every slot takes over its
      successor (a negative i matches no slot), and `i_max` is decremented as an
      unsigned value. Slot `i_max` is read, so it must exist. */
  function RemoveTask(t: seq<Task>, iMax: nat, i: int): (r: (seq<Task>, nat))
    requires |t| == SLOTS && iMax < SLOTS
    ensures |r.0| == SLOTS && r.1 < WORD
    ensures iMax >= 1 ==> r.1 == iMax - 1
  {
    (seq(SLOTS, k requires 0 <= k < SLOTS => if 0 <= i <= k < iMax then Slid(t[k], t[k + 1]) else t[k]),
     (iMax + WORD - 1) % WORD)
  }

  /** The fields of a task that describe it, leaving out its number and block list. */
  predicate SameBody(a: Task, b: Task)
  {
    a.nodeBegin == b.nodeBegin && a.nodeEnd == b.nodeEnd && a.kind == b.kind && a.fwdsel == b.fwdsel
    && a.loopAddr == b.loopAddr && a.innerLoop == b.innerLoop && a.annotation == b.annotation
  }

  /** Removing task i from a table numbered by slot keeps it numbered by slot: the
      tasks after i move down one slot and their `taskid`s follow, and the tasks
      before i are untouched. */
  lemma RemoveKeepsNumbering(t: seq<Task>, iMax: nat, i: int)
    requires |t| == SLOTS && iMax < SLOTS && 0 <= i < iMax
    requires forall k :: 0 <= k <= iMax ==> t[k].taskId == k
    ensures var (r, m) := RemoveTask(t, iMax, i);
      m == iMax - 1
      && (forall k :: 0 <= k < iMax ==> r[k].taskId == k)
      && (forall k :: 0 <= k < i ==> r[k] == t[k])
      && (forall k :: i <= k < iMax ==> SameBody(r[k], t[k + 1]))
  {
  }

  // ---------------------------------------------------------------------------
  // assign_edges
  // ---------------------------------------------------------------------------

  /** `assign_edges(j)`: every edge below n that enters j enters j+1 instead. */
  function AssignEdges(e: seq<Edge>, n: nat, j: int): (r: seq<Edge>)
    requires n <= |e| && j + 1 < INT_LIMIT
    ensures |r| == |e|
  {
    seq(|e|, p requires 0 <= p < |e| => if p < n && e[p].head == j then e[p].(head := j + 1) else e[p])
  }

  /** After `assign_edges(j)` no edge below n enters j; each such edge was redirected
      to j+1, and tails, weights and all other heads are as before. */
  lemma AssignEdgesRedirects(e: seq<Edge>, n: nat, j: int)
    requires n <= |e| && j + 1 < INT_LIMIT
    ensures var r := AssignEdges(e, n, j);
      (forall p :: 0 <= p < n ==> r[p].head != j && r[p].tail == e[p].tail && r[p].weight == e[p].weight)
      && (forall p :: 0 <= p < n ==> (r[p].head == j + 1 <==> e[p].head == j || e[p].head == j + 1))
      && (forall p :: n <= p < |e| ==> r[p] == e[p])
  {
  }

  // ---------------------------------------------------------------------------
  // rearrange_edge_list
  // ---------------------------------------------------------------------------

  function Renamed(x: int, j: int): int
  {
    if x > j then x - 1 else x
  }

  /** `rearrange_edge_list(j)`: every endpoint above j below edge n is decremented. */
  function RearrangeEdges(e: seq<Edge>, n: nat, j: int): (r: seq<Edge>)
    requires n <= |e|
    ensures |r| == |e|
  {
    seq(|e|, p requires 0 <= p < |e| =>
      if p < n then e[p].(tail := Renamed(e[p].tail, j), head := Renamed(e[p].head, j)) else e[p])
  }

  /** Renaming the edges after removing task i keeps every edge on the same tasks:
      an edge that joined tasks other than i joins, in the shrunken table, the tasks
      that moved into their places. */
  lemma RenameFollowsRemoval(t: seq<Task>, iMax: nat, i: int, e: seq<Edge>, n: nat)
    requires |t| == SLOTS && iMax < SLOTS && 0 <= i < iMax && n <= |e|
    requires forall p :: 0 <= p < n ==> 0 <= e[p].tail < iMax && 0 <= e[p].head < iMax
    requires forall p :: 0 <= p < n ==> e[p].tail != i && e[p].head != i
    ensures var r := RemoveTask(t, iMax, i).0; var e' := RearrangeEdges(e, n, i);
      forall p :: 0 <= p < n ==>
        0 <= e'[p].tail < iMax - 1 && 0 <= e'[p].head < iMax - 1
        && SameBody(r[e'[p].tail], t[e[p].tail]) && SameBody(r[e'[p].head], t[e[p].head])
  {
    var r := RemoveTask(t, iMax, i).0;
    var e' := RearrangeEdges(e, n, i);
    forall p | 0 <= p < n
      ensures 0 <= e'[p].tail < iMax - 1 && 0 <= e'[p].head < iMax - 1
      ensures SameBody(r[e'[p].tail], t[e[p].tail]) && SameBody(r[e'[p].head], t[e[p].head])
    {
      RenamedEndpoint(t, iMax, i, e[p].tail);
      RenamedEndpoint(t, iMax, i, e[p].head);
    }
  }

  lemma RenamedEndpoint(t: seq<Task>, iMax: nat, i: int, x: int)
    requires |t| == SLOTS && iMax < SLOTS && 0 <= i < iMax && 0 <= x < iMax && x != i
    ensures 0 <= Renamed(x, i) < iMax - 1
    ensures SameBody(RemoveTask(t, iMax, i).0[Renamed(x, i)], t[x])
  {
  }

  // ---------------------------------------------------------------------------
  // remove_common_edges
  // ---------------------------------------------------------------------------

  /** The inner loop: the edges from slot k+1 up to slot m move down one slot. */
  function ShiftDown(e: seq<Edge>, k: nat, m: nat): (r: seq<Edge>)
    requires k <= m < |e|
    ensures |r| == |e|
  {
    seq(|e|, l requires 0 <= l < |e| => if k <= l < m then e[l + 1] else e[l])
  }

  /** The outer loop from index k with `edge_list_max` = m: an edge leaving j is
      deleted and k advances anyway, so the edge that slid into its slot is not
      looked at. Slot m is read by the shift, so it must exist. */
  function RemoveCommon(e: seq<Edge>, j: int, k: nat, m: nat): (r: (seq<Edge>, nat))
    requires m < |e|
    ensures |r.0| == |e| && r.1 <= m
    decreases m - k
  {
    if k >= m then (e, m)
    else if e[k].tail == j then RemoveCommon(ShiftDown(e, k, m), j, k + 1, m - 1)
    else RemoveCommon(e, j, k + 1, m)
  }

  /** One iteration of the outer loop. */
  lemma RemoveCommonUnfold(e: seq<Edge>, j: int, k: nat, m: nat)
    requires k < m < |e|
    ensures RemoveCommon(e, j, k, m) ==
      if e[k].tail == j then RemoveCommon(ShiftDown(e, k, m), j, k + 1, m - 1) else RemoveCommon(e, j, k + 1, m)
  {
  }

  /** Whether the loop looks at edge p of the original list s: the first edge is
      looked at, and an edge is skipped exactly when the one before it was looked at
      and deleted. */
  predicate Examined(s: seq<Edge>, j: int, p: nat)
    requires p <= |s|
  {
    p == 0 || !(Examined(s, j, p - 1) && s[p - 1].tail == j)
  }

  predicate Deleted(s: seq<Edge>, j: int, p: nat)
    requires p < |s|
  {
    Examined(s, j, p) && s[p].tail == j
  }

  /** The edges among the first q of s that survive, in order. */
  function Kept(s: seq<Edge>, j: int, q: nat): seq<Edge>
    requires q <= |s|
  {
    if q == 0 then [] else Kept(s, j, q - 1) + (if Deleted(s, j, q - 1) then [] else [s[q - 1]])
  }

  function DelCount(s: seq<Edge>, j: int, q: nat): nat
    requires q <= |s|
  {
    if q == 0 then 0 else DelCount(s, j, q - 1) + (if Deleted(s, j, q - 1) then 1 else 0)
  }

  lemma {:induction false} KeptCount(s: seq<Edge>, j: int, q: nat)
    requires q <= |s|
    ensures |Kept(s, j, q)| + DelCount(s, j, q) == q
  {
    if q > 0 {
      KeptCount(s, j, q - 1);
    }
  }

  /** One deletion followed by the skipped edge, as the loop sees it. */
  lemma DeleteStep(e: seq<Edge>, j: int, k: nat, m: nat, s: seq<Edge>, q: nat)
    requires k < m < |e| && q < |s| && m - k == |s| - q
    requires e[..k] == Kept(s, j, q) && e[k..m] == s[q..] && Deleted(s, j, q)
    ensures var e' := ShiftDown(e, k, m);
      e'[..k] == Kept(s, j, q + 1) && e'[k..m - 1] == s[q + 1..]
  {
    var e' := ShiftDown(e, k, m);
    assert e'[..k] == e[..k];
    forall l | k <= l < m - 1
      ensures e'[l] == s[q + 1 + (l - k)]
    {
      assert e'[l] == e[l + 1] == e[k..m][l + 1 - k];
    }
  }

  /** The outer loop at index k with `edge_list_max` = m is at edge q of the
      original list s: the edges below k are the survivors among the first q, the
      edges from k to m are the rest of s, and edge q is looked at. */
  predicate Aligned(e: seq<Edge>, j: int, k: nat, m: nat, s: seq<Edge>, q: nat)
  {
    k <= m < |e| && q <= |s| && m - k == |s| - q
    && e[..k] == Kept(s, j, q) && e[k..m] == s[q..]
    && (q < |s| ==> Examined(s, j, q))
  }

  /** An edge not leaving j is kept and the next one is looked at. */
  lemma KeepStep(e: seq<Edge>, j: int, k: nat, m: nat, s: seq<Edge>, q: nat)
    requires Aligned(e, j, k, m, s, q) && k < m && e[k].tail != j
    ensures Aligned(e, j, k + 1, m, s, q + 1)
  {
    assert e[k] == e[k..m][0] == s[q];
    assert !Deleted(s, j, q);
    assert e[..k + 1] == e[..k] + [e[k]];
    assert e[k + 1..m] == e[k..m][1..];
  }

  /** An edge leaving j is deleted and the edge that slides into its slot is
      skipped. */
  lemma DeleteSkipStep(e: seq<Edge>, j: int, k: nat, m: nat, s: seq<Edge>, q: nat)
    requires Aligned(e, j, k, m, s, q) && k < m && e[k].tail == j && q + 1 < |s|
    ensures Aligned(ShiftDown(e, k, m), j, k + 1, m - 1, s, q + 2)
  {
    assert e[k] == e[k..m][0] == s[q];
    assert Deleted(s, j, q);
    DeleteStep(e, j, k, m, s, q);
    var e' := ShiftDown(e, k, m);
    assert Kept(s, j, q + 1) == Kept(s, j, q);
    assert e'[k] == e'[k..m - 1][0] == s[q + 1];
    assert !Examined(s, j, q + 1);
    assert Kept(s, j, q + 2) == Kept(s, j, q) + [s[q + 1]];
    assert e'[..k + 1] == e'[..k] + [e'[k]];
    assert e'[k + 1..m - 1] == e'[k..m - 1][1..];
  }

  /** Deleting the last edge ends the loop. */
  lemma DeleteLastStep(e: seq<Edge>, j: int, k: nat, m: nat, s: seq<Edge>, q: nat)
    requires Aligned(e, j, k, m, s, q) && k < m && e[k].tail == j && q + 1 == |s|
    ensures var r := RemoveCommon(e, j, k, m); r.0[..r.1] == Kept(s, j, |s|)
  {
    assert e[k] == e[k..m][0] == s[q];
    assert Deleted(s, j, q);
    DeleteStep(e, j, k, m, s, q);
    var e' := ShiftDown(e, k, m);
    assert Kept(s, j, q + 1) == Kept(s, j, q);
    assert RemoveCommon(e, j, k, m) == (e', m - 1);
    assert e'[..m - 1] == e'[..k];
  }

  lemma {:induction false} RemoveCommonFrom(e: seq<Edge>, j: int, k: nat, m: nat, s: seq<Edge>, q: nat)
    requires Aligned(e, j, k, m, s, q)
    ensures var r := RemoveCommon(e, j, k, m); r.0[..r.1] == Kept(s, j, |s|)
    decreases m - k
  {
    if k == m {
      assert q == |s|;
    } else if e[k].tail == j {
      if q + 1 == |s| {
        DeleteLastStep(e, j, k, m, s, q);
      } else {
        DeleteSkipStep(e, j, k, m, s, q);
        RemoveCommonFrom(ShiftDown(e, k, m), j, k + 1, m - 1, s, q + 2);
      }
    } else {
      KeepStep(e, j, k, m, s, q);
      RemoveCommonFrom(e, j, k + 1, m, s, q + 1);
    }
  }

  /** `remove_common_edges(j)` on the first m edges: the survivors are exactly the
      edges the loop did not delete, in their original order, and `edge_list_max`
      drops by the number deleted. */
  lemma RemoveCommonEdgesKeeps(e: seq<Edge>, m: nat, j: int)
    requires m < |e|
    ensures var r := RemoveCommon(e, j, 0, m);
      r.1 == m - DelCount(e[..m], j, m) && r.0[..r.1] == Kept(e[..m], j, m)
  {
    var s := e[..m];
    assert Aligned(e, j, 0, m, s, 0);
    RemoveCommonFrom(e, j, 0, m, s, 0);
    KeptCount(s, j, m);
  }

  /** The edges of s that do not leave j. */
  function WithoutTail(s: seq<Edge>, j: int): (r: seq<Edge>)
    ensures forall x :: x in r ==> x in s && x.tail != j
  {
    if s == [] then [] else WithoutTail(s[..|s| - 1], j) + (if s[|s| - 1].tail == j then [] else [s[|s| - 1]])
  }

  /** No two consecutive edges leave j. */
  predicate Isolated(s: seq<Edge>, j: int)
  {
    forall p :: 0 <= p < |s| - 1 ==> !(s[p].tail == j && s[p + 1].tail == j)
  }

  lemma {:induction false} IsolatedDeletes(s: seq<Edge>, j: int, p: nat)
    requires Isolated(s, j) && p < |s|
    ensures Deleted(s, j, p) <==> s[p].tail == j
  {
    if p > 0 {
      IsolatedDeletes(s, j, p - 1);
    }
  }

  /** When no two consecutive edges leave j, every edge leaving j is deleted and
      the rest keep their order. */
  lemma {:induction false} IsolatedRemovesAll(s: seq<Edge>, j: int, q: nat)
    requires Isolated(s, j) && q <= |s|
    ensures Kept(s, j, q) == WithoutTail(s[..q], j)
  {
    if q > 0 {
      IsolatedRemovesAll(s, j, q - 1);
      IsolatedDeletes(s, j, q - 1);
      assert s[..q][..q - 1] == s[..q - 1];
    }
  }

  /** Two consecutive edges leaving j: only the first is deleted, and an edge
      leaving j survives. */
  lemma AdjacentEdgeSurvives(a: Edge, b: Edge, j: int)
    requires a.tail == j && b.tail == j
    ensures Kept([a, b], j, 2) == [b]
  {
    var s := [a, b];
    assert Deleted(s, j, 0);
    assert Kept(s, j, 1) == [];
    assert !Examined(s, j, 1);
    assert !Deleted(s, j, 1);
    assert Kept(s, j, 2) == Kept(s, j, 1) + [s[1]];
  }
}
