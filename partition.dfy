/** The task partitioner of `lcugen` (lcugen.cpp:189-282): block 0 opens the
    Forward task 0; scanning blocks 1 .. size_max-1, a loop-begin block pushes a
    fresh loop address and, unless it also ends a loop, opens a task at itself; a
    loop-end block pops and opens a Backward task at the following block whose
    address is the new top of stack. Each function below gives the value of one
    piece of the scan's state before block n. */
module Partition {
  import opened Types
  import opened LoopStack
  import opened Bits

  predicate IsBegin(cfg: Cfg, b: nat)
    requires CfgShape(cfg) && b < SLOTS
  {
    cfg.loopBegin[b] == 1
  }

  predicate IsEnd(cfg: Cfg, b: nat)
    requires CfgShape(cfg) && b < SLOTS
  {
    cfg.loopEnd[b] == 1
  }

  /** Block b opens a task: it begins or it ends a loop. */
  predicate Creates(cfg: Cfg, b: nat)
    requires CfgShape(cfg) && b < SLOTS
  {
    IsBegin(cfg, b) || IsEnd(cfg, b)
  }

  /** The number of the block after the last one the scan looks at; with
      size_max = 0 the scan still starts from block 1. */
  function ScanEnd(cfg: Cfg): (n: nat)
    requires CfgShape(cfg)
    ensures 1 <= n <= SLOTS && n >= cfg.sizeMax
  {
    if cfg.sizeMax == 0 then 1 else cfg.sizeMax
  }

  /** `loop_addr_max` before block n: the loop-begin blocks among 1 .. n-1. */
  function Opened(cfg: Cfg, n: nat): nat
    requires CfgShape(cfg) && 1 <= n <= SLOTS
  {
    if n == 1 then 0 else Opened(cfg, n - 1) + (if IsBegin(cfg, n - 1) then 1 else 0)
  }

  /** The push of block b onto stack s: a loop-begin block pushes the next fresh
      address. */
  function PushStep(cfg: Cfg, b: nat, s: seq<nat>): seq<nat>
    requires CfgShape(cfg) && 1 <= b < SLOTS
  {
    if IsBegin(cfg, b) then PushSeq(s, Opened(cfg, b) + 1) else s
  }

  /** The loop-address stack before block n. */
  function StackAt(cfg: Cfg, n: nat): seq<nat>
    requires CfgShape(cfg) && 1 <= n <= SLOTS
  {
    if n == 1 then []
    else
      var p := PushStep(cfg, n - 1, StackAt(cfg, n - 1));
      if IsEnd(cfg, n - 1) then PopSeq(p).1 else p
  }

  /** The stack while block b is handled, after its push and before its pop. */
  function Pushed(cfg: Cfg, b: nat): seq<nat>
    requires CfgShape(cfg) && 1 <= b < SLOTS
  {
    PushStep(cfg, b, StackAt(cfg, b))
  }

  /** `get_item` after each `pop` among blocks 1 .. n-1 finds a node: every loop-end
      block leaves an enclosing address on the stack. */
  predicate TopDefined(cfg: Cfg, n: nat)
    requires CfgShape(cfg) && n <= SLOTS
  {
    forall b :: 1 <= b < n && IsEnd(cfg, b) ==> |Pushed(cfg, b)| >= 2
  }

  /** The task counter `i` before block n. */
  function TaskCount(cfg: Cfg, n: nat): (c: nat)
    requires CfgShape(cfg) && 1 <= n <= SLOTS
    ensures 1 <= c <= n
  {
    if n == 1 then 1 else TaskCount(cfg, n - 1) + (if Creates(cfg, n - 1) then 1 else 0)
  }

  /** Lines 195-204: below `size_max`, `loop_addr` and `taskid` are cleared and the
      kind is marked unresolved (-1). */
  function Preset(t: seq<Task>, sizeMax: nat): (r: seq<Task>)
    ensures |r| == |t|
  {
    seq(|t|, k requires 0 <= k < |t| =>
      if k < sizeMax then t[k].(loopAddr := 0, taskId := 0, kind := UNRESOLVED) else t[k])
  }

  /** Lines 211-216: task 0 is `fwd0(0)` and starts at block 0. */
  function Task0(x: Task): Task
  {
    x.(nodeBegin := 0, kind := FWD, fwdsel := 0, loopAddr := 0, taskId := 0)
  }

  /** The record block b writes over slot `slot`. */
  function Created(cfg: Cfg, x: Task, b: nat, slot: nat): Task
    requires CfgShape(cfg) && 1 <= b < SLOTS
    requires IsEnd(cfg, b) ==> |Pushed(cfg, b)| >= 2
  {
    if IsEnd(cfg, b) then
      x.(nodeBegin := b + 1, kind := BWD, fwdsel := 0, loopAddr := Top(PopSeq(Pushed(cfg, b)).1), taskId := slot)
    else if IsBegin(cfg, b) then
      x.(nodeBegin := b, loopAddr := Opened(cfg, b) + 1, taskId := slot)
    else x
  }

  /** The task table before block n, starting from table t. */
  function TasksAt(cfg: Cfg, t: seq<Task>, n: nat): (r: seq<Task>)
    requires CfgShape(cfg) && |t| == SLOTS && 1 <= n <= SLOTS && TopDefined(cfg, n)
    ensures |r| == SLOTS
  {
    if n == 1 then t[0 := Task0(t[0])]
    else
      var tt := TasksAt(cfg, t, n - 1);
      var k := TaskCount(cfg, n - 1);
      if Creates(cfg, n - 1) then tt[k := Created(cfg, tt[k], n - 1, k)] else tt
  }

  /** The table and task count `lcugen` leaves after the scan. */
  function ScanTable(cfg: Cfg, t: seq<Task>): seq<Task>
    requires CfgShape(cfg) && |t| == SLOTS && TopDefined(cfg, ScanEnd(cfg))
  {
    TasksAt(cfg, t, ScanEnd(cfg))
  }

  // ---------------------------------------------------------------------------
  // Properties of the scan
  // ---------------------------------------------------------------------------

  /** Strictly increasing sequence of addresses. */
  predicate Increasing(s: seq<nat>)
  {
    forall p, q :: 0 <= p < q < |s| ==> s[p] < s[q]
  }

  /** Stack discipline: the stack holds distinct addresses in the order they were
      opened, each between 1 and the number of loops opened so far, so each push
      is of an address never used before. */
  lemma {:induction false} StackDiscipline(cfg: Cfg, n: nat)
    requires CfgShape(cfg) && 1 <= n <= SLOTS
    ensures Increasing(StackAt(cfg, n))
    ensures forall a :: a in StackAt(cfg, n) ==> 1 <= a <= Opened(cfg, n)
  {
    if n > 1 {
      StackDiscipline(cfg, n - 1);
      var s := StackAt(cfg, n - 1);
      var p := PushStep(cfg, n - 1, s);
      if IsBegin(cfg, n - 1) {
        var x := Opened(cfg, n - 1) + 1;
        assert p == s + [x] && x == Opened(cfg, n);
        forall a | a in p ensures 1 <= a <= Opened(cfg, n) {
          if a != x { assert a in s; }
        }
        forall i, j | 0 <= i < j < |p| ensures p[i] < p[j] {
          assert p[i] in s;
          if j < |s| { assert p[j] == s[j]; }
        }
      }
      if IsEnd(cfg, n - 1) && p != [] {
        var q := PopSeq(p).1;
        assert q == p[..|p| - 1];
        assert forall a :: a in q ==> a in p;
      }
    }
  }

  /** The address a loop-begin block pushes is the number of loops opened up to and
      including it: addresses are handed out as 1, 2, 3, ... in block order. */
  lemma PushedAddress(cfg: Cfg, b: nat)
    requires CfgShape(cfg) && 1 <= b < SLOTS && IsBegin(cfg, b)
    ensures Pushed(cfg, b) == StackAt(cfg, b) + [Opened(cfg, b + 1)]
    ensures forall a :: a in StackAt(cfg, b) ==> a < Opened(cfg, b + 1)
  {
    StackDiscipline(cfg, b);
  }

  /** Slots at or past the task counter are untouched. */
  lemma {:induction false} ScanFrame(cfg: Cfg, t: seq<Task>, n: nat, k: nat)
    requires CfgShape(cfg) && |t| == SLOTS && 1 <= n <= SLOTS && TopDefined(cfg, n)
    requires TaskCount(cfg, n) <= k < SLOTS
    ensures TasksAt(cfg, t, n)[k] == t[k]
  {
    if n > 1 {
      ScanFrame(cfg, t, n - 1, k);
    }
  }

  /** The counter only grows, and strictly past a block that opens a task. */
  lemma {:induction false} TaskCountGrows(cfg: Cfg, b: nat, n: nat)
    requires CfgShape(cfg) && 1 <= b < n <= SLOTS
    ensures TaskCount(cfg, b) + (if Creates(cfg, b) then 1 else 0) <= TaskCount(cfg, n)
  {
    if b < n - 1 {
      TaskCountGrows(cfg, b, n - 1);
    }
  }

  /** Each block that opens a task owns slot TaskCount(b), written once and never
      again: a loop-end block b yields a Backward task starting at b+1 whose address
      is the top of stack after the pop, and any other loop-begin block a task
      starting at b with the address it has just pushed; either way `taskid` is the
      slot. */
  lemma {:induction false} ScanSlot(cfg: Cfg, t: seq<Task>, n: nat, b: nat)
    requires CfgShape(cfg) && |t| == SLOTS && 1 <= n <= SLOTS && TopDefined(cfg, n)
    requires 1 <= b < n && Creates(cfg, b)
    ensures TasksAt(cfg, t, n)[TaskCount(cfg, b)] == Created(cfg, t[TaskCount(cfg, b)], b, TaskCount(cfg, b))
  {
    var k := TaskCount(cfg, b);
    if b < n - 1 {
      assert TopDefined(cfg, n - 1);
      ScanSlot(cfg, t, n - 1, b);
      TaskCountGrows(cfg, b, n - 1);
      ScanKeepsBelow(cfg, t, n, k);
    } else {
      assert TopDefined(cfg, b);
      ScanFrame(cfg, t, b, k);
      assert TasksAt(cfg, t, b + 1) == TasksAt(cfg, t, b)[k := Created(cfg, TasksAt(cfg, t, b)[k], b, k)];
    }
  }

  /** Block n-1 writes no slot below the counter it starts with. */
  lemma ScanKeepsBelow(cfg: Cfg, t: seq<Task>, n: nat, k: nat)
    requires CfgShape(cfg) && |t| == SLOTS && 2 <= n <= SLOTS && TopDefined(cfg, n)
    requires k < TaskCount(cfg, n - 1)
    ensures TasksAt(cfg, t, n)[k] == TasksAt(cfg, t, n - 1)[k]
  {
  }

  /** Task 0 is `fwd0(0)` starting at block 0. */
  lemma {:induction false} ScanTask0(cfg: Cfg, t: seq<Task>, n: nat)
    requires CfgShape(cfg) && |t| == SLOTS && 1 <= n <= SLOTS && TopDefined(cfg, n)
    ensures TasksAt(cfg, t, n)[0] == Task0(t[0])
  {
    if n > 1 {
      ScanTask0(cfg, t, n - 1);
    }
  }

  /** Every slot below the task counter has `taskid` equal to its index. */
  lemma {:induction false} ScanTaskIds(cfg: Cfg, t: seq<Task>, n: nat)
    requires CfgShape(cfg) && |t| == SLOTS && 1 <= n <= SLOTS && TopDefined(cfg, n)
    ensures forall k :: 0 <= k < TaskCount(cfg, n) ==> TasksAt(cfg, t, n)[k].taskId == k
  {
    if n > 1 {
      ScanTaskIds(cfg, t, n - 1);
    }
  }

  /** Below the counter, every task other than task 0 is either a Backward task
      created at a loop end or keeps the kind it had before the scan (the preset -1
      for a Forward task). */
  lemma {:induction false} ScanKinds(cfg: Cfg, t: seq<Task>, n: nat)
    requires CfgShape(cfg) && |t| == SLOTS && 1 <= n <= SLOTS && TopDefined(cfg, n)
    ensures TasksAt(cfg, t, n)[0].kind == FWD
    ensures forall k :: 1 <= k < SLOTS ==>
      TasksAt(cfg, t, n)[k].kind == BWD || TasksAt(cfg, t, n)[k].kind == t[k].kind
  {
    if n > 1 {
      ScanKinds(cfg, t, n - 1);
    }
  }

  /** A procedure without loops yields the single task `fwd0(0)`. */
  lemma {:induction false} NoLoopsOneTask(cfg: Cfg, n: nat)
    requires CfgShape(cfg) && 1 <= n <= SLOTS
    requires forall b :: 1 <= b < n ==> !Creates(cfg, b)
    ensures TaskCount(cfg, n) == 1
  {
    if n > 1 {
      NoLoopsOneTask(cfg, n - 1);
    }
  }

  /** The scan leaves every block list and `inner_loop` flag as it was. */
  lemma {:induction false} ScanKeepsLists(cfg: Cfg, t: seq<Task>, n: nat)
    requires CfgShape(cfg) && |t| == SLOTS && 1 <= n <= SLOTS && TopDefined(cfg, n)
    ensures forall k :: 0 <= k < SLOTS ==>
      TasksAt(cfg, t, n)[k].bbList == t[k].bbList && TasksAt(cfg, t, n)[k].bbListSize == t[k].bbListSize
      && TasksAt(cfg, t, n)[k].innerLoop == t[k].innerLoop
  {
    if n > 1 {
      ScanKeepsLists(cfg, t, n - 1);
    }
  }

  /** Lines 316-317: for j < i_max, `node_end` of task j is the next task's
      `node_begin` minus one in unsigned arithmetic, so a successor starting at 0
      gives 0xFFFFFFFF. */
  function NodeEnds(t: seq<Task>, iMax: nat): (r: seq<Task>)
    requires |t| == SLOTS && iMax < SLOTS
    ensures |r| == SLOTS
    ensures forall k :: 0 <= k < iMax && 1 <= t[k + 1].nodeBegin <= WORD ==> r[k].nodeEnd == t[k + 1].nodeBegin - 1
    ensures forall k :: 0 <= k < iMax && t[k + 1].nodeBegin == 0 ==> r[k].nodeEnd == WORD - 1
    ensures forall k :: 0 <= k < SLOTS ==> r[k] == t[k].(nodeEnd := r[k].nodeEnd)
    ensures forall k :: iMax <= k < SLOTS ==> r[k] == t[k]
  {
    seq(SLOTS, k requires 0 <= k < SLOTS =>
      if k < iMax then t[k].(nodeEnd := (t[k + 1].nodeBegin - 1) % WORD) else t[k])
  }
}
