/** Block-list assignment of `lcugen` (lcugen.cpp:284-313): blocks 0 .. size_max
    are appended, in order, to the block list of the current task, and the current
    task advances wherever the loop depth changes between consecutive blocks. */
module BlockLists {
  import opened Types
  import opened Partition

  /** The depth changes between block b-1 and block b (only blocks the loop visits
      are compared; the final block is appended without a comparison). */
  predicate DepthChange(cfg: Cfg, b: nat)
    requires CfgShape(cfg)
  {
    1 <= b < cfg.sizeMax && cfg.loopDepth[b] != cfg.loopDepth[b - 1]
  }

  /** The task whose list receives block b. */
  function BlockTask(cfg: Cfg, b: nat): (k: nat)
    requires CfgShape(cfg)
    ensures k <= b
  {
    if b == 0 then 0 else BlockTask(cfg, b - 1) + (if DepthChange(cfg, b) then 1 else 0)
  }

  /** The position of block b within that list. */
  function BlockPos(cfg: Cfg, b: nat): nat
    requires CfgShape(cfg)
  {
    if b == 0 || DepthChange(cfg, b) then 0 else BlockPos(cfg, b - 1) + 1
  }

  /** No task receives more than the 40 entries of `bb_list`. */
  predicate ListsFit(cfg: Cfg)
    requires CfgShape(cfg)
  {
    forall b :: 0 <= b <= ScanEnd(cfg) ==> BlockPos(cfg, b) < BB_SLOTS
  }

  function Place(t: seq<Task>, k: nat, pos: nat, b: nat): (r: seq<Task>)
    requires TaskTable(t) && k < SLOTS && pos < BB_SLOTS
    ensures TaskTable(r)
  {
    t[k := t[k].(bbList := t[k].bbList[pos := b])]
  }

  function Close(t: seq<Task>, k: nat, size: nat): (r: seq<Task>)
    requires TaskTable(t) && k < SLOTS
    ensures TaskTable(r)
  {
    t[k := t[k].(bbListSize := size)]
  }

  /** The table after blocks 0 .. n-1 have been placed. */
  function ListsAt(cfg: Cfg, t: seq<Task>, n: nat): (r: seq<Task>)
    requires CfgShape(cfg) && TaskTable(t) && ListsFit(cfg) && 1 <= n <= ScanEnd(cfg)
    ensures TaskTable(r)
  {
    if n == 1 then Place(t, 0, 0, 0)
    else
      var tt := ListsAt(cfg, t, n - 1);
      var b := n - 1;
      var closed := if DepthChange(cfg, b) then Close(tt, BlockTask(cfg, b - 1), BlockPos(cfg, b - 1) + 1) else tt;
      Place(closed, BlockTask(cfg, b), BlockPos(cfg, b), b)
  }

  /** One step of `ListsAt`: block b is placed after the list before it is closed
      where the depth changes. */
  lemma ListsAtStep(cfg: Cfg, t: seq<Task>, b: nat)
    requires CfgShape(cfg) && TaskTable(t) && ListsFit(cfg) && 1 <= b && b + 1 <= ScanEnd(cfg)
    ensures var tt := ListsAt(cfg, t, b);
      var closed := if DepthChange(cfg, b) then Close(tt, BlockTask(cfg, b - 1), BlockPos(cfg, b - 1) + 1) else tt;
      BlockTask(cfg, b) < SLOTS && BlockPos(cfg, b) < BB_SLOTS
      && ListsAt(cfg, t, b + 1) == Place(closed, BlockTask(cfg, b), BlockPos(cfg, b), b)
  {
  }

  /** The table after the final block has been appended and the current list's size
      recorded. */
  function AssignLists(cfg: Cfg, t: seq<Task>): (r: seq<Task>)
    requires CfgShape(cfg) && TaskTable(t) && ListsFit(cfg)
    ensures TaskTable(r)
  {
    var last := ScanEnd(cfg);
    var k := BlockTask(cfg, last);
    Close(Place(ListsAt(cfg, t, last), k, BlockPos(cfg, last), last), k, BlockPos(cfg, last) + 1)
  }

  // ---------------------------------------------------------------------------
  // The lists partition the blocks
  // ---------------------------------------------------------------------------

  /** The first `bb_list_size` entries of a task's list. */
  function ListOf(x: Task): seq<int>
  {
    if x.bbListSize <= |x.bbList| then x.bbList[..x.bbListSize] else x.bbList
  }

  /** The lists of tasks 0 .. m-1, one after the other. */
  function Flatten(t: seq<Task>, m: nat): seq<int>
    requires m <= |t|
  {
    if m == 0 then [] else Flatten(t, m - 1) + ListOf(t[m - 1])
  }

  /** The block numbers 0 .. n-1. */
  function Iota(n: nat): (s: seq<int>)
    ensures |s| == n && forall i :: 0 <= i < n ==> s[i] == i
  {
    seq(n, i => i)
  }

  lemma {:induction false} FlattenFrame(t: seq<Task>, u: seq<Task>, m: nat)
    requires m <= |t| && m <= |u|
    requires forall k :: 0 <= k < m ==> ListOf(t[k]) == ListOf(u[k])
    ensures Flatten(t, m) == Flatten(u, m)
  {
    if m > 0 {
      FlattenFrame(t, u, m - 1);
    }
  }

  /** Placing block b at position pos of list k extends that list's prefix and
      leaves the other slots alone. */
  lemma PlaceExtends(t: seq<Task>, k: nat, pos: nat, b: nat)
    requires TaskTable(t) && k < SLOTS && pos < BB_SLOTS
    ensures Place(t, k, pos, b)[k].bbList[..pos + 1] == t[k].bbList[..pos] + [b]
    ensures forall j :: 0 <= j < SLOTS && j != k ==> Place(t, k, pos, b)[j] == t[j]
  {
    var l := t[k].bbList[pos := b];
    assert l[..pos + 1] == l[..pos] + [b];
    assert l[..pos] == t[k].bbList[..pos];
  }

  /** Closing list k at size `size` makes its first `size` entries its list. */
  lemma CloseList(t: seq<Task>, k: nat, size: nat)
    requires TaskTable(t) && k < SLOTS && size <= BB_SLOTS
    ensures ListOf(Close(t, k, size)[k]) == t[k].bbList[..size]
    ensures forall j :: 0 <= j < SLOTS && j != k ==> Close(t, k, size)[j] == t[j]
  {
  }

  /** A depth change closes list m at size p+1 and opens list m+1 with block b. */
  lemma SpellOpen(tt: seq<Task>, m: nat, p: nat, b: nat)
    requires TaskTable(tt) && m + 1 < SLOTS && p < BB_SLOTS
    requires Flatten(tt, m) + tt[m].bbList[..p + 1] == Iota(b)
    ensures var r := Place(Close(tt, m, p + 1), m + 1, 0, b);
      Flatten(r, m + 1) + r[m + 1].bbList[..1] == Iota(b + 1)
  {
    var closed := Close(tt, m, p + 1);
    var r := Place(closed, m + 1, 0, b);
    CloseList(tt, m, p + 1);
    FlattenFrame(tt, closed, m);
    assert Flatten(closed, m + 1) == Iota(b);
    PlaceExtends(closed, m + 1, 0, b);
    FlattenFrame(closed, r, m + 1);
    assert r[m + 1].bbList[..1] == [b];
    assert Iota(b) + [b] == Iota(b + 1);
  }

  /** Without a depth change block b is appended to the open list m. */
  lemma SpellExtend(tt: seq<Task>, m: nat, p: nat, b: nat)
    requires TaskTable(tt) && m < SLOTS && p + 1 < BB_SLOTS
    requires Flatten(tt, m) + tt[m].bbList[..p + 1] == Iota(b)
    ensures var r := Place(tt, m, p + 1, b);
      Flatten(r, m) + r[m].bbList[..p + 2] == Iota(b + 1)
  {
    var r := Place(tt, m, p + 1, b);
    PlaceExtends(tt, m, p + 1, b);
    FlattenFrame(tt, r, m);
    assert Iota(b) + [b] == Iota(b + 1);
  }

  /** After blocks 0 .. n-1 have been placed, the closed lists followed by the open
      part of the current list spell out those blocks. */
  predicate Spelt(cfg: Cfg, t: seq<Task>, n: nat)
    requires CfgShape(cfg) && TaskTable(t) && ListsFit(cfg) && 1 <= n <= ScanEnd(cfg)
  {
    var r := ListsAt(cfg, t, n);
    Flatten(r, BlockTask(cfg, n - 1)) + r[BlockTask(cfg, n - 1)].bbList[..BlockPos(cfg, n - 1) + 1] == Iota(n)
  }

  /** While placing, the closed lists followed by the open part of the current list
      spell out the blocks placed so far. */
  lemma {:induction false} ListsAtSpell(cfg: Cfg, t: seq<Task>, n: nat)
    requires CfgShape(cfg) && TaskTable(t) && ListsFit(cfg) && 1 <= n <= ScanEnd(cfg)
    ensures Spelt(cfg, t, n)
  {
    if n == 1 {
      SpellFirst(cfg, t);
    } else {
      ListsAtSpell(cfg, t, n - 1);
      SpellNext(cfg, t, n);
    }
  }

  /** Block 0 opens the list of task 0. */
  lemma SpellFirst(cfg: Cfg, t: seq<Task>)
    requires CfgShape(cfg) && TaskTable(t) && ListsFit(cfg) && 1 <= ScanEnd(cfg)
    ensures Spelt(cfg, t, 1)
  {
    PlaceExtends(t, 0, 0, 0);
    assert Iota(1) == [0];
  }

  /** Placing block n-1 keeps the blocks spelt out. */
  lemma SpellNext(cfg: Cfg, t: seq<Task>, n: nat)
    requires CfgShape(cfg) && TaskTable(t) && ListsFit(cfg) && 2 <= n <= ScanEnd(cfg)
    requires Spelt(cfg, t, n - 1)
    ensures Spelt(cfg, t, n)
  {
    var b := n - 1;
    var tt := ListsAt(cfg, t, b);
    var m, p := BlockTask(cfg, b - 1), BlockPos(cfg, b - 1);
    assert Flatten(tt, m) + tt[m].bbList[..p + 1] == Iota(b);
    assert p < BB_SLOTS by {
      assert b - 1 <= ScanEnd(cfg);
    }
    if DepthChange(cfg, b) {
      SpellNextOpen(cfg, t, b);
    } else {
      SpellNextExtend(cfg, t, b);
    }
  }

  /** Block b after a depth change opens the next list. */
  lemma SpellNextOpen(cfg: Cfg, t: seq<Task>, b: nat)
    requires CfgShape(cfg) && TaskTable(t) && ListsFit(cfg) && 1 <= b && b + 1 <= ScanEnd(cfg)
    requires DepthChange(cfg, b)
    requires var tt := ListsAt(cfg, t, b); var m := BlockTask(cfg, b - 1);
      Flatten(tt, m) + tt[m].bbList[..BlockPos(cfg, b - 1) + 1] == Iota(b)
    ensures Spelt(cfg, t, b + 1)
  {
    var tt := ListsAt(cfg, t, b);
    var m, p := BlockTask(cfg, b - 1), BlockPos(cfg, b - 1);
    ListsAtStep(cfg, t, b);
    assert BlockTask(cfg, b) == m + 1 && BlockPos(cfg, b) == 0;
    assert p < BB_SLOTS by {
      assert b - 1 <= ScanEnd(cfg);
    }
    SpellOpen(tt, m, p, b);
  }

  /** Block b without a depth change extends the current list. */
  lemma SpellNextExtend(cfg: Cfg, t: seq<Task>, b: nat)
    requires CfgShape(cfg) && TaskTable(t) && ListsFit(cfg) && 1 <= b && b + 1 <= ScanEnd(cfg)
    requires !DepthChange(cfg, b)
    requires var tt := ListsAt(cfg, t, b); var m := BlockTask(cfg, b - 1);
      Flatten(tt, m) + tt[m].bbList[..BlockPos(cfg, b - 1) + 1] == Iota(b)
    ensures Spelt(cfg, t, b + 1)
  {
    var tt := ListsAt(cfg, t, b);
    var m, p := BlockTask(cfg, b - 1), BlockPos(cfg, b - 1);
    ListsAtStep(cfg, t, b);
    assert BlockTask(cfg, b) == m && BlockPos(cfg, b) == p + 1;
    SpellExtend(tt, m, p, b);
  }

  /** The final block is appended to the open list m at position p and the list
      is closed at size p+1. */
  lemma SpellFinish(tt: seq<Task>, m: nat, p: nat, b: nat)
    requires TaskTable(tt) && m < SLOTS && p < BB_SLOTS
    requires Flatten(tt, m) + tt[m].bbList[..p] == Iota(b)
    ensures Flatten(Close(Place(tt, m, p, b), m, p + 1), m + 1) == Iota(b + 1)
  {
    var placed := Place(tt, m, p, b);
    var r := Close(placed, m, p + 1);
    PlaceExtends(tt, m, p, b);
    CloseList(placed, m, p + 1);
    FlattenFrame(tt, placed, m);
    FlattenFrame(placed, r, m);
    assert Flatten(r, m + 1) == Flatten(r, m) + ListOf(r[m]);
    assert Iota(b) + [b] == Iota(b + 1);
  }

  /** Blocks 0 .. size_max (block 1 at least) are placed in increasing order into
      the consecutive tasks 0 .. BlockTask(last), with no gap and no overlap.
      Which blocks each list holds, and its size, is AssignListsMembers. */
  lemma BlockListsPartition(cfg: Cfg, t: seq<Task>)
    requires CfgShape(cfg) && TaskTable(t) && ListsFit(cfg)
    ensures var last := ScanEnd(cfg);
      Flatten(AssignLists(cfg, t), BlockTask(cfg, last) + 1) == Iota(last + 1)
  {
    var last := ScanEnd(cfg);
    var tt := ListsAt(cfg, t, last);
    var m, p := BlockTask(cfg, last - 1), BlockPos(cfg, last - 1);
    ListsAtSpell(cfg, t, last);
    assert Flatten(tt, m) + tt[m].bbList[..p + 1] == Iota(last);
    assert BlockTask(cfg, last) == m && BlockPos(cfg, last) == p + 1 by {
      assert !DepthChange(cfg, last);
    }
    assert p + 1 < BB_SLOTS;
    SpellFinish(tt, m, p + 1, last);
  }


  // ---------------------------------------------------------------------------
  // Each list holds exactly the blocks of its task
  // ---------------------------------------------------------------------------

  /** The blocks below n that task k receives, in increasing order. */
  function Members(cfg: Cfg, k: nat, n: nat): seq<int>
    requires CfgShape(cfg)
  {
    if n == 0 then [] else Members(cfg, k, n - 1) + (if BlockTask(cfg, n - 1) == k then [n - 1] else [])
  }

  /** Members lists blocks below n that go to task k. */
  lemma {:induction false} MembersBelong(cfg: Cfg, k: nat, n: nat)
    requires CfgShape(cfg)
    ensures forall i :: 0 <= i < |Members(cfg, k, n)| ==>
      0 <= Members(cfg, k, n)[i] < n && BlockTask(cfg, Members(cfg, k, n)[i]) == k
  {
    if n > 0 {
      MembersBelong(cfg, k, n - 1);
      if BlockTask(cfg, n - 1) == k {
        var s := Members(cfg, k, n - 1);
        assert Members(cfg, k, n) == s + [n - 1];
      }
    }
  }

  /** Members lists its blocks each once, in increasing order. */
  lemma {:induction false} MembersIncreasing(cfg: Cfg, k: nat, n: nat)
    requires CfgShape(cfg)
    ensures forall i, j :: 0 <= i < j < |Members(cfg, k, n)| ==> Members(cfg, k, n)[i] < Members(cfg, k, n)[j]
  {
    if n > 0 {
      MembersIncreasing(cfg, k, n - 1);
      if BlockTask(cfg, n - 1) == k {
        var s := Members(cfg, k, n - 1);
        assert Members(cfg, k, n) == s + [n - 1];
        MembersBelong(cfg, k, n - 1);
      }
    }
  }

  /** Later blocks never go to an earlier task. */
  lemma {:induction false} BlockTaskMonotone(cfg: Cfg, b: nat, c: nat)
    requires CfgShape(cfg) && b <= c
    ensures BlockTask(cfg, b) <= BlockTask(cfg, c)
  {
    if b < c {
      BlockTaskMonotone(cfg, b, c - 1);
    }
  }

  /** A task beyond the one receiving block n-1 has received nothing yet. */
  lemma {:induction false} MembersBeyond(cfg: Cfg, k: nat, n: nat)
    requires CfgShape(cfg) && 1 <= n && BlockTask(cfg, n - 1) < k
    ensures Members(cfg, k, n) == []
  {
    if n > 1 {
      BlockTaskMonotone(cfg, n - 2, n - 1);
      MembersBeyond(cfg, k, n - 1);
    }
  }

  /** Block b is entry BlockPos(b) of its task's list: the blocks the task received
      before b number exactly BlockPos(b). */
  lemma {:induction false} MembersBefore(cfg: Cfg, b: nat)
    requires CfgShape(cfg)
    ensures |Members(cfg, BlockTask(cfg, b), b)| == BlockPos(cfg, b)
  {
    if b > 0 {
      if DepthChange(cfg, b) {
        MembersBeyond(cfg, BlockTask(cfg, b), b);
      } else {
        MembersBefore(cfg, b - 1);
      }
    }
  }

  /** Among the blocks below n, block b sits at position BlockPos(b) of its task's
      members. */
  lemma {:induction false} MembersAt(cfg: Cfg, b: nat, n: nat)
    requires CfgShape(cfg) && b < n
    ensures var s := Members(cfg, BlockTask(cfg, b), n); BlockPos(cfg, b) < |s| && s[BlockPos(cfg, b)] == b
  {
    if n == b + 1 {
      MembersBefore(cfg, b);
    } else {
      MembersAt(cfg, b, n - 1);
    }
  }

  /** Block b - BlockPos(b) is the first block of b's task. */
  lemma {:induction false} ListStart(cfg: Cfg, b: nat)
    requires CfgShape(cfg)
    ensures BlockPos(cfg, b) <= b
    ensures BlockTask(cfg, b - BlockPos(cfg, b)) == BlockTask(cfg, b) && BlockPos(cfg, b - BlockPos(cfg, b)) == 0
  {
    if b > 0 && !DepthChange(cfg, b) {
      ListStart(cfg, b - 1);
    }
  }

  /** After blocks 0 .. n-1 have been placed, every closed list holds exactly the
      blocks its task received and its size is their number, and the placed part of
      the open list holds the blocks of the current task. */
  predicate Gathered(cfg: Cfg, t: seq<Task>, n: nat)
    requires CfgShape(cfg) && TaskTable(t) && ListsFit(cfg) && 1 <= n <= ScanEnd(cfg)
  {
    var r := ListsAt(cfg, t, n);
    var m := BlockTask(cfg, n - 1);
    (forall k :: 0 <= k < m ==> r[k].bbListSize == |Members(cfg, k, n)| && ListOf(r[k]) == Members(cfg, k, n))
    && r[m].bbList[..BlockPos(cfg, n - 1) + 1] == Members(cfg, m, n)
  }

  lemma {:induction false} ListsAtGather(cfg: Cfg, t: seq<Task>, n: nat)
    requires CfgShape(cfg) && TaskTable(t) && ListsFit(cfg) && 1 <= n <= ScanEnd(cfg)
    ensures Gathered(cfg, t, n)
  {
    if n == 1 {
      GatherFirst(cfg, t);
    } else {
      ListsAtGather(cfg, t, n - 1);
      if DepthChange(cfg, n - 1) {
        GatherOpen(cfg, t, n - 1);
      } else {
        GatherExtend(cfg, t, n - 1);
      }
    }
  }

  /** Block 0 opens the list of task 0. */
  lemma GatherFirst(cfg: Cfg, t: seq<Task>)
    requires CfgShape(cfg) && TaskTable(t) && ListsFit(cfg) && 1 <= ScanEnd(cfg)
    ensures Gathered(cfg, t, 1)
  {
    PlaceExtends(t, 0, 0, 0);
    assert Members(cfg, 0, 1) == [0];
  }

  /** A depth change at block b closes the current list with exactly its task's
      blocks and opens the next with b. */
  lemma GatherOpen(cfg: Cfg, t: seq<Task>, b: nat)
    requires CfgShape(cfg) && TaskTable(t) && ListsFit(cfg) && 1 <= b && b + 1 <= ScanEnd(cfg)
    requires DepthChange(cfg, b) && Gathered(cfg, t, b)
    ensures Gathered(cfg, t, b + 1)
  {
    var tt := ListsAt(cfg, t, b);
    var m, p := BlockTask(cfg, b - 1), BlockPos(cfg, b - 1);
    ListsAtStep(cfg, t, b);
    assert BlockTask(cfg, b) == m + 1 && BlockPos(cfg, b) == 0;
    assert p < BB_SLOTS by {
      assert b - 1 <= ScanEnd(cfg);
    }
    CloseAndOpen(cfg, tt, m, p, b);
  }

  /** Without a depth change block b extends the open list, which then holds the
      current task's blocks up to b. */
  lemma GatherExtend(cfg: Cfg, t: seq<Task>, b: nat)
    requires CfgShape(cfg) && TaskTable(t) && ListsFit(cfg) && 1 <= b && b + 1 <= ScanEnd(cfg)
    requires !DepthChange(cfg, b) && Gathered(cfg, t, b)
    ensures Gathered(cfg, t, b + 1)
  {
    var tt := ListsAt(cfg, t, b);
    var m, p := BlockTask(cfg, b - 1), BlockPos(cfg, b - 1);
    ListsAtStep(cfg, t, b);
    assert BlockTask(cfg, b) == m && BlockPos(cfg, b) == p + 1;
    Append(cfg, tt, m, p + 1, b);
  }

  /** Closing list m, whose first p+1 entries are task m's blocks below b, and
      placing b first in list m+1 keeps every list matched to its task's blocks. */
  lemma CloseAndOpen(cfg: Cfg, tt: seq<Task>, m: nat, p: nat, b: nat)
    requires CfgShape(cfg) && TaskTable(tt) && m + 1 < SLOTS && p < BB_SLOTS && 1 <= b
    requires BlockTask(cfg, b - 1) == m && BlockTask(cfg, b) == m + 1
    requires forall k :: 0 <= k < m ==> tt[k].bbListSize == |Members(cfg, k, b)| && ListOf(tt[k]) == Members(cfg, k, b)
    requires tt[m].bbList[..p + 1] == Members(cfg, m, b)
    ensures var r := Place(Close(tt, m, p + 1), m + 1, 0, b);
      (forall k :: 0 <= k < m + 1 ==> r[k].bbListSize == |Members(cfg, k, b + 1)| && ListOf(r[k]) == Members(cfg, k, b + 1))
      && r[m + 1].bbList[..1] == Members(cfg, m + 1, b + 1)
  {
    var closed := Close(tt, m, p + 1);
    var r := Place(closed, m + 1, 0, b);
    CloseList(tt, m, p + 1);
    PlaceExtends(closed, m + 1, 0, b);
    MembersBeyond(cfg, m + 1, b);
    assert Members(cfg, m + 1, b + 1) == [b];
    forall k | 0 <= k < m + 1
      ensures r[k].bbListSize == |Members(cfg, k, b + 1)| && ListOf(r[k]) == Members(cfg, k, b + 1)
    {
      assert Members(cfg, k, b + 1) == Members(cfg, k, b);
    }
  }

  /** Placing block b at position p of list m, whose first p entries are task m's
      blocks below b, keeps every list matched to its task's blocks. */
  lemma Append(cfg: Cfg, tt: seq<Task>, m: nat, p: nat, b: nat)
    requires CfgShape(cfg) && TaskTable(tt) && m < SLOTS && p < BB_SLOTS
    requires BlockTask(cfg, b) == m
    requires forall k :: 0 <= k < m ==> tt[k].bbListSize == |Members(cfg, k, b)| && ListOf(tt[k]) == Members(cfg, k, b)
    requires tt[m].bbList[..p] == Members(cfg, m, b)
    ensures var r := Place(tt, m, p, b);
      (forall k :: 0 <= k < m ==> r[k].bbListSize == |Members(cfg, k, b + 1)| && ListOf(r[k]) == Members(cfg, k, b + 1))
      && r[m].bbList[..p + 1] == Members(cfg, m, b + 1)
  {
    var r := Place(tt, m, p, b);
    PlaceExtends(tt, m, p, b);
    assert Members(cfg, m, b + 1) == Members(cfg, m, b) + [b];
    forall k | 0 <= k < m
      ensures r[k].bbListSize == |Members(cfg, k, b + 1)| && ListOf(r[k]) == Members(cfg, k, b + 1)
    {
      assert Members(cfg, k, b + 1) == Members(cfg, k, b);
    }
  }

  /** The lists of tasks 0 .. BlockTask(last) hold exactly the blocks each task
      receives, in increasing order, and each `bb_list_size` is their number. */
  predicate ListsOfTasks(cfg: Cfg, c: seq<Task>)
    requires CfgShape(cfg) && BlockTask(cfg, ScanEnd(cfg)) < |c|
  {
    var last := ScanEnd(cfg);
    forall k :: 0 <= k <= BlockTask(cfg, last) ==>
      c[k].bbListSize == |Members(cfg, k, last + 1)| && ListOf(c[k]) == Members(cfg, k, last + 1)
  }

  /** ListsOfTasks depends on the block lists and their sizes only. */
  lemma ListsOfTasksFrame(cfg: Cfg, c: seq<Task>, d: seq<Task>)
    requires CfgShape(cfg) && BlockTask(cfg, ScanEnd(cfg)) < |c| == |d|
    requires forall k :: 0 <= k < |c| ==> d[k].bbList == c[k].bbList && d[k].bbListSize == c[k].bbListSize
    requires ListsOfTasks(cfg, c)
    ensures ListsOfTasks(cfg, d)
  {
    forall k | 0 <= k <= BlockTask(cfg, ScanEnd(cfg))
      ensures ListOf(d[k]) == ListOf(c[k])
    {
    }
  }

  /** After the final block and the closing size, every list of tasks
      0 .. BlockTask(last) holds exactly its task's blocks and its size counts them. */
  lemma AssignListsMembers(cfg: Cfg, t: seq<Task>)
    requires CfgShape(cfg) && TaskTable(t) && ListsFit(cfg)
    ensures BlockTask(cfg, ScanEnd(cfg)) < SLOTS
    ensures ListsOfTasks(cfg, AssignLists(cfg, t))
  {
    var last := ScanEnd(cfg);
    var tt := ListsAt(cfg, t, last);
    var m, p := BlockTask(cfg, last - 1), BlockPos(cfg, last - 1);
    ListsAtGather(cfg, t, last);
    assert BlockTask(cfg, last) == m && BlockPos(cfg, last) == p + 1 by {
      assert !DepthChange(cfg, last);
    }
    assert p + 1 < BB_SLOTS;
    var placed := Place(tt, m, p + 1, last);
    var r := Close(placed, m, p + 2);
    assert r == AssignLists(cfg, t);
    Append(cfg, tt, m, p + 1, last);
    CloseList(placed, m, p + 2);
  }

  /** Every block 0 .. last goes to a task no later than the last block's and is
      entry BlockPos(b) of that task's list; block b >= 1 opens its task's list
      exactly where the loop depth changes between blocks b-1 and b. */
  lemma BlockPlacement(cfg: Cfg, c: seq<Task>)
    requires CfgShape(cfg) && BlockTask(cfg, ScanEnd(cfg)) < |c| && ListsOfTasks(cfg, c)
    ensures forall b :: 0 <= b <= ScanEnd(cfg) ==>
      BlockTask(cfg, b) <= BlockTask(cfg, ScanEnd(cfg))
      && BlockPos(cfg, b) < |ListOf(c[BlockTask(cfg, b)])| && ListOf(c[BlockTask(cfg, b)])[BlockPos(cfg, b)] == b
      && (1 <= b ==> (ListOf(c[BlockTask(cfg, b)])[0] == b <==> DepthChange(cfg, b)))
  {
    forall b | 0 <= b <= ScanEnd(cfg)
      ensures BlockTask(cfg, b) <= BlockTask(cfg, ScanEnd(cfg))
      && BlockPos(cfg, b) < |ListOf(c[BlockTask(cfg, b)])| && ListOf(c[BlockTask(cfg, b)])[BlockPos(cfg, b)] == b
      && (1 <= b ==> (ListOf(c[BlockTask(cfg, b)])[0] == b <==> DepthChange(cfg, b)))
    {
      PlacementOf(cfg, c, b);
    }
  }

  /** Block b's place in its task's list, and where that list starts. */
  lemma PlacementOf(cfg: Cfg, c: seq<Task>, b: nat)
    requires CfgShape(cfg) && BlockTask(cfg, ScanEnd(cfg)) < |c| && ListsOfTasks(cfg, c)
    requires b <= ScanEnd(cfg)
    ensures BlockTask(cfg, b) <= BlockTask(cfg, ScanEnd(cfg))
    ensures var l := ListOf(c[BlockTask(cfg, b)]);
      BlockPos(cfg, b) < |l| && l[BlockPos(cfg, b)] == b && l[0] == b - BlockPos(cfg, b)
  {
    var last := ScanEnd(cfg);
    var k, p := BlockTask(cfg, b), BlockPos(cfg, b);
    var s := Members(cfg, k, last + 1);
    BlockTaskMonotone(cfg, b, last);
    assert ListOf(c[k]) == s;
    assert p < |s| && s[p] == b by {
      MembersAt(cfg, b, last + 1);
    }
    assert s[0] == b - p by {
      ListStart(cfg, b);
      MembersAt(cfg, b - p, last + 1);
    }
  }

  /** a differs from b in block lists only. */
  predicate OnlyLists(a: seq<Task>, b: seq<Task>)
  {
    |a| == |b| && forall k :: 0 <= k < |a| ==> a[k] == b[k].(bbList := a[k].bbList, bbListSize := a[k].bbListSize)
  }

  lemma {:induction false} ListsAtOnlyLists(cfg: Cfg, t: seq<Task>, n: nat)
    requires CfgShape(cfg) && TaskTable(t) && ListsFit(cfg) && 1 <= n <= ScanEnd(cfg)
    ensures OnlyLists(ListsAt(cfg, t, n), t)
  {
    if n > 1 {
      ListsAtOnlyLists(cfg, t, n - 1);
    }
  }

  /** Block-list assignment writes block lists and their sizes and nothing else. */
  lemma AssignListsOnlyLists(cfg: Cfg, t: seq<Task>)
    requires CfgShape(cfg) && TaskTable(t) && ListsFit(cfg)
    ensures OnlyLists(AssignLists(cfg, t), t)
  {
    ListsAtOnlyLists(cfg, t, ScanEnd(cfg));
  }
}
