/** The global state of `lcugen` (lcugen.cpp:117-152) and the loops that rewrite
    it. Each method runs the source's loop over the arrays and is proved to leave
    exactly the table that the specification function of its stage computes. */
module Lcu {
  import opened Types
  import opened Bits
  import opened LoopStack
  import opened Partition
  import opened BlockLists
  import opened Classify
  import opened Graph
  import opened Tcfg
  import opened Lookups
  import opened Editors
  import opened Render

  /** A slot of a zero-initialised global `task_data_arr`. */
  function ZeroTask(): Task
  {
    Task(0, 0, 0, 0, 0, 0, 0, 0, seq(BB_SLOTS, _ => 0), 0)
  }

  /** The table `init_task_data_arr` leaves. */
  function Blanks(): (t: seq<Task>)
    ensures TaskTable(t)
  {
    seq(SLOTS, _ => BlankTask())
  }

  /** The number of tasks the scan creates: `i_max`. */
  function TaskTotal(cfg: Cfg): (n: nat)
    requires CfgShape(cfg)
    ensures 1 <= n <= SLOTS
  {
    TaskCount(cfg, ScanEnd(cfg))
  }

  /** The inputs `lcugen` handles without reading outside its tables: `get_item`
      always finds a node, no block list overflows, and the task table keeps a
      spare slot after the last task (it is read at `i_max`). */
  predicate Partitionable(cfg: Cfg)
  {
    CfgShape(cfg) && TopDefined(cfg, ScanEnd(cfg)) && ListsFit(cfg) && TaskTotal(cfg) < SLOTS
  }

  /** The task table after the partitioner (lcugen.cpp:189-317). */
  function Partitioned(cfg: Cfg): (t: seq<Task>)
    requires Partitionable(cfg)
    ensures |t| == SLOTS
  {
    var p := Preset(Blanks(), cfg.sizeMax);
    ScanKeepsLists(cfg, p, ScanEnd(cfg));
    NodeEnds(AssignLists(cfg, ScanTable(cfg, p)), TaskTotal(cfg))
  }

  /** The task table after the classifier (lcugen.cpp:320-383). */
  function ClassifiedTable(cfg: Cfg): (t: seq<Task>)
    requires Partitionable(cfg)
    ensures |t| == SLOTS
  {
    Classified(Partitioned(cfg), TaskTotal(cfg))
  }

  /** The edge list of the whole run fits its table. */
  predicate Admissible(cfg: Cfg)
  {
    Partitionable(cfg) && EdgeCount(ClassifiedTable(cfg), TaskTotal(cfg)) <= SLOTS
  }

  /** The preset blank table: every slot begins at block 0, has clear `fwdsel`,
      loop address and `inner_loop`, 40 block-list entries, and is Backward (0)
      or, below `size_max`, unresolved. */
  lemma PresetBlanks(sizeMax: nat)
    ensures var p := Preset(Blanks(), sizeMax);
      TaskTable(p)
      && forall k :: 0 <= k < SLOTS ==>
        p[k].nodeBegin == 0 && p[k].fwdsel == 0 && p[k].loopAddr == 0 && p[k].innerLoop == 0
        && p[k].kind in {BWD, UNRESOLVED}
  {
  }

  /** The scan numbers the tasks it creates by slot, leaves kinds in Forward,
      Backward or unresolved, creates `fwd0(0)` in slot 0 and leaves slot `i_max`
      and the `inner_loop` flags alone. */
  lemma ScanFacts(cfg: Cfg, p: seq<Task>)
    requires CfgShape(cfg) && TopDefined(cfg, ScanEnd(cfg)) && TaskTable(p)
    requires forall k :: 0 <= k < SLOTS ==> p[k].kind in {BWD, UNRESOLVED}
    ensures var s := ScanTable(cfg, p); var n := TaskTotal(cfg);
      TaskTable(s)
      && (forall k :: 0 <= k < n ==> s[k].taskId == k && s[k].kind in {BWD, FWD, UNRESOLVED})
      && (forall k :: 0 <= k < SLOTS ==> s[k].innerLoop == p[k].innerLoop)
      && s[0] == Task0(p[0])
      && (n < SLOTS ==> s[n] == p[n])
  {
    var last := ScanEnd(cfg);
    ScanKeepsLists(cfg, p, last);
    ScanTaskIds(cfg, p, last);
    ScanKinds(cfg, p, last);
    ScanTask0(cfg, p, last);
    if TaskTotal(cfg) < SLOTS {
      ScanFrame(cfg, p, last, TaskTotal(cfg));
    }
  }

  /** Block lists and node ends: the lists of tasks 0 .. BlockTask(last) spell out
      blocks 0 .. last, and every other field is as the scan left it except
      `node_end`, which is the successor's `node_begin` minus one. */
  lemma ListFacts(cfg: Cfg, s: seq<Task>, n: nat)
    requires CfgShape(cfg) && TaskTable(s) && ListsFit(cfg) && n < SLOTS
    ensures BlockTask(cfg, ScanEnd(cfg)) < SLOTS
    ensures var t := NodeEnds(AssignLists(cfg, s), n);
      Flatten(t, BlockTask(cfg, ScanEnd(cfg)) + 1) == Iota(ScanEnd(cfg) + 1)
      && (forall k :: 0 <= k < SLOTS ==>
            t[k].taskId == s[k].taskId && t[k].kind == s[k].kind && t[k].innerLoop == s[k].innerLoop
            && t[k].nodeBegin == s[k].nodeBegin && t[k].fwdsel == s[k].fwdsel && t[k].loopAddr == s[k].loopAddr)
      && (n >= 1 && s[n].nodeBegin == 0 ==> t[n - 1].nodeEnd == WORD - 1)
    ensures ListsOfTasks(cfg, NodeEnds(AssignLists(cfg, s), n))
  {
    var last := ScanEnd(cfg);
    var a := AssignLists(cfg, s);
    var t := NodeEnds(a, n);
    AssignListsOnlyLists(cfg, s);
    BlockListsPartition(cfg, s);
    FlattenFrame(a, t, BlockTask(cfg, last) + 1);
    AssignListsMembers(cfg, s);
    ListsOfTasksFrame(cfg, a, t);
  }

  /** The scanned table `Partitioned` is built from, with the scan's facts. */
  lemma ScannedFacts(cfg: Cfg) returns (s: seq<Task>)
    requires Partitionable(cfg)
    ensures s == ScanTable(cfg, Preset(Blanks(), cfg.sizeMax)) && TaskTable(s)
    ensures Partitioned(cfg) == NodeEnds(AssignLists(cfg, s), TaskTotal(cfg))
    ensures s[0].nodeBegin == 0 && s[0].kind == FWD && s[0].fwdsel == 0 && s[0].loopAddr == 0
    ensures s[TaskTotal(cfg)].nodeBegin == 0
    ensures forall k :: 0 <= k < TaskTotal(cfg) ==> s[k].taskId == k && s[k].kind in {BWD, FWD, UNRESOLVED}
    ensures forall k :: 0 <= k < SLOTS ==> s[k].innerLoop == 0
  {
    var p := Preset(Blanks(), cfg.sizeMax);
    PresetBlanks(cfg.sizeMax);
    ScanFacts(cfg, p);
    s := ScanTable(cfg, p);
  }

  /** What the partitioner leaves for the classifier: tasks numbered by slot, of
      kind Forward, Backward or unresolved, with clear `inner_loop` flags; task 0
      is `fwd0(0)` starting at block 0; the last task ends at 0xFFFFFFFF because the
      slot after it still begins at block 0; and the block lists of tasks
      0 .. BlockTask(last) spell out blocks 0 .. last, each list holding exactly
      its task's blocks with `bb_list_size` counting them. */
  lemma PartitionedFacts(cfg: Cfg)
    requires Partitionable(cfg)
    ensures BlockTask(cfg, ScanEnd(cfg)) < SLOTS
    ensures forall k :: 0 <= k < TaskTotal(cfg) ==>
      Partitioned(cfg)[k].taskId == k && Partitioned(cfg)[k].kind in {BWD, FWD, UNRESOLVED}
    ensures forall k :: 0 <= k < SLOTS ==> Partitioned(cfg)[k].innerLoop == 0
    ensures Partitioned(cfg)[0].nodeBegin == 0 && Partitioned(cfg)[0].kind == FWD
      && Partitioned(cfg)[0].fwdsel == 0 && Partitioned(cfg)[0].loopAddr == 0
    ensures Partitioned(cfg)[TaskTotal(cfg) - 1].nodeEnd == WORD - 1
    ensures Flatten(Partitioned(cfg), BlockTask(cfg, ScanEnd(cfg)) + 1) == Iota(ScanEnd(cfg) + 1)
    ensures ListsOfTasks(cfg, Partitioned(cfg))
  {
    var s := ScannedFacts(cfg);
    ListFacts(cfg, s, TaskTotal(cfg));
    var t := Partitioned(cfg);
    forall k | 0 <= k < TaskTotal(cfg)
      ensures t[k].taskId == k && t[k].kind in {BWD, FWD, UNRESOLVED}
    {
      assert t[k].taskId == s[k].taskId && t[k].kind == s[k].kind;
    }
  }

  /** The classifier keeps the block lists, hence what they spell out. */
  lemma ClassifiedLists(t: seq<Task>, n: nat, m: nat)
    requires 1 <= n < |t| && m <= |t|
    ensures Flatten(Classified(t, n), m) == Flatten(t, m)
  {
    ClassifiedKeeps(t, n);
    var c := Classified(t, n);
    assert forall k :: 0 <= k < m ==> ListOf(c[k]) == ListOf(t[k]);
    FlattenFrame(c, t, m);
  }

  /** The classifier keeps the numbering and leaves only Forward and Backward
      tasks below i_max. */
  lemma ClassifiedNumbering(t: seq<Task>, n: nat)
    requires 1 <= n < |t|
    requires forall k :: 0 <= k < n ==> t[k].taskId == k && t[k].kind in {BWD, FWD, UNRESOLVED}
    ensures forall k :: 0 <= k < n ==> Classified(t, n)[k].taskId == k && Classified(t, n)[k].kind in {BWD, FWD}
  {
    ClassifiedKinds(t, n);
    ClassifiedKeeps(t, n);
  }

  /** Task i+1 is an inner loop exactly when task i is Forward and task i+1
      Backward in `s`, for every i below n. */
  predicate InnerLoopsMarked(c: seq<Task>, s: seq<Task>, n: nat)
    requires n < |c| && n < |s|
  {
    forall i :: 0 <= i < n ==> (c[i + 1].innerLoop == 1 <==> s[i].kind == FWD && s[i + 1].kind == BWD)
  }

  /** With cleared `inner_loop` flags, the marking judges every task by the
      shifted kinds, and task 0 is never an inner loop. */
  lemma ClassifiedInnerLoops(t: seq<Task>, n: nat)
    requires 1 <= n < |t|
    requires forall k :: 0 <= k < |t| ==> t[k].innerLoop == 0
    ensures InnerLoopsMarked(Classified(t, n), ShiftUpTo(Default(FwdselUpTo(t, n), n), n), n)
    ensures Classified(t, n)[0].innerLoop == 0
  {
    forall i | 0 <= i < n
      ensures var s := ShiftUpTo(Default(FwdselUpTo(t, n), n), n);
        Classified(t, n)[i + 1].innerLoop == 1 <==> s[i].kind == FWD && s[i + 1].kind == BWD
    {
      InnerLoops(t, n, i);
    }
    InnerLoops(t, n, 0);
  }

  /** The last task becomes `bwd0` and keeps its node end. */
  lemma ClassifiedLast(t: seq<Task>, n: nat)
    requires 1 <= n < |t|
    ensures Classified(t, n)[n - 1].kind == BWD && Classified(t, n)[n - 1].loopAddr == 0
    ensures Classified(t, n)[n - 1].nodeEnd == t[n - 1].nodeEnd && Classified(t, n)[0].nodeBegin == t[0].nodeBegin
  {
    LastIsBwd0(t, n);
    ClassifiedKeeps(t, n);
  }

  /** What the classifier hands to the edge builder: the tasks 0 .. i_max-1 are
      still numbered by slot and are now all Forward or Backward; the last one is
      `bwd0` and ends at 0xFFFFFFFF; task 0 begins at block 0 and is never an
      inner loop; task i+1 is an inner loop exactly when, after the shift, task i
      is Forward and task i+1 Backward; and the block lists still spell out every
      block of the procedure once, in order, each list holding exactly its task's
      blocks with `bb_list_size` counting them. */
  lemma ClassifiedFacts(cfg: Cfg)
    requires Partitionable(cfg)
    ensures var c := ClassifiedTable(cfg); var n := TaskTotal(cfg);
      forall k :: 0 <= k < n ==> c[k].taskId == k && c[k].kind in {BWD, FWD}
    ensures var c := ClassifiedTable(cfg); var n := TaskTotal(cfg);
      c[n - 1].kind == BWD && c[n - 1].loopAddr == 0 && c[n - 1].nodeEnd == WORD - 1
    ensures var c := ClassifiedTable(cfg);
      c[0].nodeBegin == 0 && c[0].innerLoop == 0
    ensures var n := TaskTotal(cfg);
      InnerLoopsMarked(ClassifiedTable(cfg), ShiftUpTo(Default(FwdselUpTo(Partitioned(cfg), n), n), n), n)
    ensures BlockTask(cfg, ScanEnd(cfg)) < SLOTS
    ensures Flatten(ClassifiedTable(cfg), BlockTask(cfg, ScanEnd(cfg)) + 1) == Iota(ScanEnd(cfg) + 1)
    ensures ListsOfTasks(cfg, ClassifiedTable(cfg))
  {
    var t := Partitioned(cfg);
    var n := TaskTotal(cfg);
    PartitionedFacts(cfg);
    assert ClassifiedTable(cfg) == Classified(t, n);
    ClassifiedNumbering(t, n);
    ClassifiedLast(t, n);
    ClassifiedInnerLoops(t, n);
    ClassifiedLists(t, n, BlockTask(cfg, ScanEnd(cfg)) + 1);
    ClassifiedKeeps(t, n);
    ListsOfTasksFrame(cfg, t, ClassifiedTable(cfg));
  }

  class LcuGen {
    /** `task_data_arr[100]`. */
    const tasks: array<Task>
    /** `edge_list[100][3]`, one `Edge` per row. */
    const edges: array<Edge>
    /** `TCFG[100]`. */
    const tcfg: array<TcfgRow>
    var iMax: nat
    var edgeListMax: nat
    var cacTaskIdMax: nat
    var fwdselMax: nat
    var nlp: nat

    predicate Valid()
    {
      tasks.Length == SLOTS && edges.Length == SLOTS && tcfg.Length == SLOTS
    }

    /** The zero-initialised globals. */
    constructor ()
      ensures Valid() && fresh(tasks) && fresh(edges) && fresh(tcfg)
      ensures tasks[..] == seq(SLOTS, _ => ZeroTask())
      ensures edges[..] == seq(SLOTS, _ => Edge(0, 0, 0))
      ensures tcfg[..] == seq(SLOTS, _ => TcfgRow(0, 0, 0, 0))
      ensures iMax == 0 && edgeListMax == 0 && cacTaskIdMax == 0 && fwdselMax == 0 && nlp == 0
    {
      tasks := new Task[SLOTS](_ => ZeroTask());
      edges := new Edge[SLOTS](_ => Edge(0, 0, 0));
      tcfg := new TcfgRow[SLOTS](_ => TcfgRow(0, 0, 0, 0));
      iMax, edgeListMax, cacTaskIdMax, fwdselMax, nlp := 0, 0, 0, 0, 0;
    }

    // -------------------------------------------------------------------------
    // init_task_data_arr (lcugen.cpp:1700-1720)
    // -------------------------------------------------------------------------

    /** Every slot is cleared and its 40 block-list entries set to -1. */
    method InitTaskDataArr()
      requires Valid() && TaskTable(tasks[..])
      modifies tasks
      ensures tasks[..] == Blanks()
    {
      var i := 0;
      while i < SLOTS
        invariant 0 <= i <= SLOTS
        invariant forall k :: 0 <= k < i ==> tasks[k] == BlankTask()
        invariant forall k :: i <= k < SLOTS ==> |tasks[k].bbList| == BB_SLOTS
      {
        tasks[i] := tasks[i].(nodeBegin := 0, nodeEnd := 0, taskId := 0, kind := 0, fwdsel := 0,
                              loopAddr := 0, innerLoop := 0, annotation := 0);
        var j := 0;
        while j < BB_SLOTS
          invariant 0 <= j <= BB_SLOTS
          invariant forall k :: 0 <= k < i ==> tasks[k] == BlankTask()
          invariant forall k :: i < k < SLOTS ==> |tasks[k].bbList| == BB_SLOTS
          invariant |tasks[i].bbList| == BB_SLOTS
          invariant forall k :: 0 <= k < j ==> tasks[i].bbList[k] == -1
          invariant tasks[i] == Task(0, 0, 0, 0, 0, 0, 0, 0, tasks[i].bbList, tasks[i].bbListSize)
        {
          tasks[i] := tasks[i].(bbList := tasks[i].bbList[j := -1]);
          j := j + 1;
        }
        tasks[i] := tasks[i].(bbListSize := 0);
        assert tasks[i].bbList == BlankTask().bbList;
        i := i + 1;
      }
    }

    // -------------------------------------------------------------------------
    // The partitioner (lcugen.cpp:194-282)
    // -------------------------------------------------------------------------

    /** Lines 194-204: below `size_max`, `loop_addr` and `taskid` are cleared and
        the kind is marked unresolved, one loop per field. */
    method PresetSlots(sizeMax: nat)
      requires Valid() && sizeMax <= SLOTS
      modifies tasks
      ensures tasks[..] == Preset(old(tasks[..]), sizeMax)
    {
      ghost var t0 := tasks[..];
      var size := 0;
      while size < sizeMax
        invariant 0 <= size <= sizeMax
        invariant forall k :: 0 <= k < SLOTS ==> tasks[k] == if k < size then t0[k].(loopAddr := 0) else t0[k]
      {
        tasks[size] := tasks[size].(loopAddr := 0);
        size := size + 1;
      }
      size := 0;
      while size < sizeMax
        invariant 0 <= size <= sizeMax
        invariant forall k :: 0 <= k < SLOTS ==>
          tasks[k] == if k < size then t0[k].(loopAddr := 0, taskId := 0)
                      else if k < sizeMax then t0[k].(loopAddr := 0) else t0[k]
      {
        tasks[size] := tasks[size].(taskId := 0);
        size := size + 1;
      }
      size := 0;
      while size < sizeMax
        invariant 0 <= size <= sizeMax
        invariant forall k :: 0 <= k < SLOTS ==>
          tasks[k] == if k < size then t0[k].(loopAddr := 0, taskId := 0, kind := UNRESOLVED)
                      else if k < sizeMax then t0[k].(loopAddr := 0, taskId := 0) else t0[k]
      {
        tasks[size] := tasks[size].(kind := UNRESOLVED);
        size := size + 1;
      }
    }

    /** Lines 206-282: task 0 is `fwd0(0)`, then blocks 1 .. size_max-1 are scanned
        with the loop-address stack; `i_max` is the number of tasks created. */
    method Scan(cfg: Cfg)
      requires Valid() && CfgShape(cfg) && TopDefined(cfg, ScanEnd(cfg))
      modifies this, tasks
      ensures tasks[..] == ScanTable(cfg, old(tasks[..]))
      ensures iMax == TaskCount(cfg, ScanEnd(cfg))
      ensures edgeListMax == old(edgeListMax) && cacTaskIdMax == old(cacTaskIdMax)
      ensures fwdselMax == old(fwdselMax) && nlp == old(nlp)
    {
      ghost var t0 := tasks[..];
      var stack := new AddressStack();
      var loopAddrMax: nat := 0;
      var loopAddrI: nat := 0;
      var size: nat := 0;
      var i: nat := 0;
      tasks[i] := tasks[i].(nodeBegin := size, kind := FWD, fwdsel := 0, loopAddr := loopAddrI, taskId := i);
      i := i + 1;
      size := 1;
      while size < cfg.sizeMax
        invariant 1 <= size <= ScanEnd(cfg)
        invariant i == TaskCount(cfg, size) && loopAddrMax == Opened(cfg, size)
        invariant stack.items == StackAt(cfg, size)
        invariant tasks[..] == TasksAt(cfg, t0, size)
        invariant fresh(stack)
        invariant edgeListMax == old(edgeListMax) && cacTaskIdMax == old(cacTaskIdMax)
        invariant fwdselMax == old(fwdselMax) && nlp == old(nlp)
      {
        i, loopAddrMax, loopAddrI := ScanBlock(cfg, t0, stack, size, i, loopAddrMax, loopAddrI);
        size := size + 1;
      }
      iMax := i;
    }

    /** One iteration of the scan: block `size` pushes a fresh address when it
        begins a loop, then opens a Forward task (loop begin only) or a Backward
        task after the pop (loop end). */
    method ScanBlock(cfg: Cfg, ghost t0: seq<Task>, stack: AddressStack, size: nat, i: nat,
                     loopAddrMax: nat, loopAddrI: nat)
        returns (i': nat, loopAddrMax': nat, loopAddrI': nat)
      requires Valid() && CfgShape(cfg) && |t0| == SLOTS && 1 <= size < cfg.sizeMax
      requires TopDefined(cfg, size + 1)
      requires i == TaskCount(cfg, size) && loopAddrMax == Opened(cfg, size)
      requires stack.items == StackAt(cfg, size)
      requires tasks[..] == TasksAt(cfg, t0, size)
      modifies tasks, stack
      ensures i' == TaskCount(cfg, size + 1) && loopAddrMax' == Opened(cfg, size + 1)
      ensures stack.items == StackAt(cfg, size + 1)
      ensures tasks[..] == TasksAt(cfg, t0, size + 1)
    {
      i', loopAddrMax', loopAddrI' := i, loopAddrMax, loopAddrI;
      if cfg.loopBegin[size] == 1 {
        loopAddrI' := loopAddrI' + 1;
        loopAddrMax' := loopAddrMax' + 1;
        stack.Push(loopAddrMax');
      }
      assert stack.items == Pushed(cfg, size);
      if cfg.loopEnd[size] != 1 {
        if cfg.loopBegin[size] == 1 {
          tasks[i'] := tasks[i'].(nodeBegin := size, loopAddr := loopAddrMax', taskId := i');
          i' := i' + 1;
        }
      }
      if cfg.loopEnd[size] == 1 {
        assert |Pushed(cfg, size)| >= 2;
        tasks[i'] := tasks[i'].(nodeBegin := size + 1, kind := BWD, fwdsel := 0);
        loopAddrI' := stack.Pop();
        var top := stack.GetItem();
        tasks[i'] := tasks[i'].(loopAddr := top);
        tasks[i'] := tasks[i'].(taskId := i');
        i' := i' + 1;
      }
    }

    /** Lines 284-313: blocks 0 .. size_max are appended in order to the current
        task's list, which is closed and succeeded by the next task wherever the
        loop depth changes. */
    method AssignBlockLists(cfg: Cfg)
      requires Valid() && CfgShape(cfg) && ListsFit(cfg) && TaskTable(tasks[..])
      modifies tasks
      ensures tasks[..] == AssignLists(cfg, old(tasks[..]))
    {
      ghost var t0 := tasks[..];
      var size: nat := 0;
      var i: nat := 0;
      var bblSize: nat := 0;
      PlaceBlock(i, bblSize, size);
      bblSize := bblSize + 1;
      size := size + 1;
      assert tasks[..] == ListsAt(cfg, t0, 1);
      while size < cfg.sizeMax
        invariant 1 <= size <= ScanEnd(cfg)
        invariant i == BlockTask(cfg, size - 1) && bblSize == BlockPos(cfg, size - 1) + 1
        invariant TaskTable(tasks[..]) && tasks[..] == ListsAt(cfg, t0, size)
      {
        i, bblSize := AppendBlock(cfg, t0, size, i, bblSize);
        size := size + 1;
      }
      assert i == BlockTask(cfg, size) && bblSize == BlockPos(cfg, size) && bblSize < BB_SLOTS;
      PlaceBlock(i, bblSize, size);
      bblSize := bblSize + 1;
      CloseTask(i, bblSize);
    }

    /** One iteration of the block-list loop: block `size` closes the current list
        and opens the next one where the depth changes, and is appended. */
    method AppendBlock(cfg: Cfg, ghost t0: seq<Task>, size: nat, i: nat, bblSize: nat)
        returns (i': nat, bblSize': nat)
      requires Valid() && CfgShape(cfg) && ListsFit(cfg) && TaskTable(t0)
      requires 1 <= size < cfg.sizeMax
      requires i == BlockTask(cfg, size - 1) && bblSize == BlockPos(cfg, size - 1) + 1
      requires tasks[..] == ListsAt(cfg, t0, size)
      modifies tasks
      ensures i' == BlockTask(cfg, size) && bblSize' == BlockPos(cfg, size) + 1
      ensures tasks[..] == ListsAt(cfg, t0, size + 1)
    {
      ListsAtStep(cfg, t0, size);
      i', bblSize' := i, bblSize;
      if cfg.loopDepth[size] != cfg.loopDepth[size - 1] {
        CloseTask(i', bblSize');
        bblSize' := 0;
        i' := i' + 1;
      }
      PlaceBlock(i', bblSize', size);
      bblSize' := bblSize' + 1;
    }

    /** `task_data_arr[i].bb_list[pos] = b`. */
    method PlaceBlock(i: nat, pos: nat, b: nat)
      requires Valid() && TaskTable(tasks[..]) && i < SLOTS && pos < BB_SLOTS
      modifies tasks
      ensures tasks[..] == Place(old(tasks[..]), i, pos, b)
    {
      tasks[i] := tasks[i].(bbList := tasks[i].bbList[pos := b]);
    }

    /** `task_data_arr[i].bb_list_size = size`. */
    method CloseTask(i: nat, size: nat)
      requires Valid() && TaskTable(tasks[..]) && i < SLOTS
      modifies tasks
      ensures tasks[..] == Close(old(tasks[..]), i, size)
    {
      tasks[i] := tasks[i].(bbListSize := size);
    }

    /** Lines 316-317: each task below `i_max` ends one block before its successor
        begins. */
    method SetNodeEnds()
      requires Valid() && iMax < SLOTS
      modifies tasks
      ensures tasks[..] == NodeEnds(old(tasks[..]), iMax)
    {
      ghost var t0 := tasks[..];
      var j := 0;
      while j < iMax
        invariant 0 <= j <= iMax
        invariant tasks[..] == NodeEnds(t0, j)
      {
        assert tasks[j] == t0[j] && tasks[j + 1] == t0[j + 1];
        tasks[j] := tasks[j].(nodeEnd := (tasks[j + 1].nodeBegin - 1) % WORD);
        assert tasks[..] == NodeEnds(t0, j + 1);
        j := j + 1;
      }
    }

    // -------------------------------------------------------------------------
    // The classifier (lcugen.cpp:320-383)
    // -------------------------------------------------------------------------

    /** Lines 320-341: a Backward task j whose successor is unresolved takes one
        more than the `fwdsel` of the last earlier task at its loop address. */
    method ResolveFwdsel()
      requires Valid() && iMax < SLOTS
      modifies tasks
      ensures tasks[..] == FwdselUpTo(old(tasks[..]), iMax)
    {
      ghost var t0 := tasks[..];
      var j := 0;
      while j < iMax
        invariant 0 <= j <= iMax
        invariant tasks[..] == FwdselUpTo(t0, j)
      {
        if tasks[j].kind == BWD && tasks[j + 1].kind == UNRESOLVED {
          ResolveOne(t0, j);
        } else {
          assert !Resolves(t0, j);
          assert FwdselUpTo(t0, j + 1) == FwdselUpTo(t0, j);
        }
        j := j + 1;
      }
    }

    /** The inner loop of lines 330-334 for a Backward task j whose successor is
        unresolved: every earlier task at the same loop address overwrites task j's
        `fwdsel` with its own plus one, so the last of them wins. */
    method ResolveOne(ghost t0: seq<Task>, j: nat)
      requires Valid() && j + 1 < SLOTS && |t0| == SLOTS
      requires tasks[..] == FwdselUpTo(t0, j) && Resolves(t0, j)
      modifies tasks
      ensures tasks[..] == FwdselUpTo(t0, j + 1)
    {
      ghost var before := tasks[..];
      var i := 0;
      while i < j
        invariant 0 <= i <= j
        invariant tasks[..] == before[j := t0[j].(fwdsel := FwdselScan(t0, j, i))]
      {
        assert tasks[i] == before[i] == t0[i].(fwdsel := FwdselAt(t0, i));
        if tasks[i].loopAddr == tasks[j].loopAddr {
          tasks[j] := tasks[j].(fwdsel := (tasks[i].fwdsel + 1) % WORD);
        }
        i := i + 1;
      }
      assert FwdselUpTo(t0, j + 1) == before[j := t0[j].(fwdsel := FwdselAt(t0, j))];
    }

    /** Lines 343-355: an unresolved kind below `i_max` becomes Forward. */
    method DefaultKinds()
      requires Valid() && iMax <= SLOTS
      modifies tasks
      ensures tasks[..] == Default(old(tasks[..]), iMax)
    {
      ghost var t0 := tasks[..];
      var j := 0;
      while j < iMax
        invariant 0 <= j <= iMax
        invariant forall k :: 0 <= k < SLOTS ==>
          tasks[k] == if k < j && t0[k].kind == UNRESOLVED then t0[k].(kind := FWD) else t0[k]
      {
        if tasks[j].kind == UNRESOLVED {
          tasks[j] := tasks[j].(kind := FWD);
        }
        j := j + 1;
      }
    }

    /** Lines 357-363: each task below `i_max` takes its successor's kind. */
    method ShiftKinds()
      requires Valid() && iMax < SLOTS
      modifies tasks
      ensures tasks[..] == ShiftUpTo(old(tasks[..]), iMax)
    {
      ghost var t0 := tasks[..];
      var i := 0;
      while i < iMax
        invariant 0 <= i <= iMax
        invariant tasks[..] == ShiftUpTo(t0, i)
      {
        tasks[i] := tasks[i].(kind := tasks[i + 1].kind);
        i := i + 1;
      }
    }

    /** Lines 365-379: a Forward task followed by a Backward one marks the latter as
        an inner loop. */
    method MarkInnerLoops()
      requires Valid() && iMax < SLOTS
      modifies tasks
      ensures tasks[..] == MarkUpTo(old(tasks[..]), iMax)
    {
      ghost var t0 := tasks[..];
      tasks[0] := tasks[0].(innerLoop := 0);
      var i := 0;
      while i < iMax
        invariant 0 <= i <= iMax
        invariant tasks[..] == MarkUpTo(t0, i)
      {
        MarkStep(t0, i);
        MarkWritesInnerLoop(t0, i, i);
        MarkWritesInnerLoop(t0, i, i + 1);
        if tasks[i].kind == FWD {
          if tasks[i + 1].kind == BWD {
            tasks[i + 1] := tasks[i + 1].(innerLoop := 1);
          }
        }
        i := i + 1;
      }
    }

    /** Lines 382-383: the last task becomes `bwd0`. */
    method FixLastTask()
      requires Valid() && 1 <= iMax <= SLOTS
      modifies tasks
      ensures tasks[..] == FixLast(old(tasks[..]), iMax)
    {
      tasks[iMax - 1] := tasks[iMax - 1].(loopAddr := 0);
      tasks[iMax - 1] := tasks[iMax - 1].(kind := BWD);
    }

    // -------------------------------------------------------------------------
    // generate_graph (lcugen.cpp:1591-1675)
    // -------------------------------------------------------------------------

    /** Builds the edge list of the task graph from the first `i_max`-1 tasks. */
    method GenerateGraph()
      requires Valid() && 1 <= iMax <= SLOTS && EdgeCount(tasks[..], iMax) <= SLOTS
      modifies this, edges
      ensures iMax == old(iMax) && cacTaskIdMax == old(cacTaskIdMax)
      ensures fwdselMax == old(fwdselMax) && nlp == old(nlp)
      ensures edges[..] == GraphTable(tasks[..], iMax, old(edges[..]))
      ensures edgeListMax == EdgeCount(tasks[..], iMax)
    {
      ghost var t := tasks[..];
      ghost var e0 := edges[..];
      var i: nat := 0;
      var j: nat := 0;
      while i < iMax - 1
        invariant iMax == old(iMax) && cacTaskIdMax == old(cacTaskIdMax)
        invariant fwdselMax == old(fwdselMax) && nlp == old(nlp)
        invariant 0 <= i <= iMax - 1 && j == RowsBefore(t, i) && j <= SLOTS
        invariant edges[..] == GraphUpTo(t, iMax, e0, i)
      {
        RowsBeforeGrows(t, i + 1, iMax - 1);
        j := GraphStep(e0, i, j);
        i := i + 1;
      }
      edgeListMax := j;
    }

    /** The rows task i adds to the edge list, from row j on. */
    method GraphStep(ghost e0: seq<Edge>, i: nat, j: nat) returns (j': nat)
      requires Valid() && 1 <= iMax <= SLOTS && i < iMax - 1 && |e0| == SLOTS
      requires j == RowsBefore(tasks[..], i) && RowsBefore(tasks[..], i + 1) <= SLOTS
      requires edges[..] == GraphUpTo(tasks[..], iMax, e0, i)
      modifies edges
      ensures j' == RowsBefore(tasks[..], i + 1)
      ensures edges[..] == GraphUpTo(tasks[..], iMax, e0, i + 1)
    {
      ghost var t := tasks[..];
      ghost var g := edges[..];
      ghost var next := GraphUpTo(t, iMax, e0, i + 1);
      assert next == if t[i].kind == FWD then g[j := Edge(i, i + 1, -1)]
                     else if t[i].kind == BWD then g[j := ContinueEdge(t, iMax, i, g[j])][j + 1 := Edge(i, i + 1, 1)]
                     else g;
      j' := j;
      if tasks[i].kind == FWD {
        edges[j'] := Edge(i, i + 1, -1);
        j' := j' + 1;
      }
      // The nested `FSMsel == 0 || FSMsel == 1` test (lcugen.cpp:1623) always holds here.
      if tasks[i].kind == BWD {
        if tasks[i].innerLoop == 1 {
          edges[j'] := Edge(i, i, 0);
          j' := j' + 1;
        } else {
          FindLoopHead(i, j');
          j' := j' + 1;
        }
        edges[j'] := Edge(i, i + 1, 1);
        j' := j' + 1;
      }
    }

    /** The loop-continue row of a Backward task that is not an inner loop: the tail
        is written, then every Forward task below `i_max`-1 with `fwdsel` 0 at the
        same loop address overwrites head and weight, so the last one wins. */
    method FindLoopHead(i: nat, j: nat)
      requires Valid() && 1 <= iMax <= SLOTS && i < SLOTS && j < SLOTS
      modifies edges
      ensures edges[..] == old(edges[..])[j := match LoopHead(tasks[..], tasks[i].loopAddr, iMax - 1)
                                          case Some(h) => Edge(i, h, 0)
                                          case None => old(edges[j]).(tail := i)]
    {
      ghost var g := edges[..];
      edges[j] := edges[j].(tail := i);
      var k: nat := 0;
      while k < iMax - 1
        invariant 0 <= k <= iMax - 1
        invariant edges[..] == g[j := match LoopHead(tasks[..], tasks[i].loopAddr, k)
                                  case Some(h) => Edge(i, h, 0)
                                  case None => g[j].(tail := i)]
      {
        if tasks[k].kind == FWD && tasks[k].fwdsel == 0 && tasks[k].loopAddr == tasks[i].loopAddr {
          edges[j] := edges[j].(head := k, weight := 0);
        }
        k := k + 1;
      }
    }

    // -------------------------------------------------------------------------
    // Field maxima (lcugen.cpp:429-453)
    // -------------------------------------------------------------------------

    /** `fwdsel_max` and `nlp`: the largest `fwdsel` and `loop_addr` below `i_max`. */
    method ComputeMaxima()
      requires Valid() && iMax <= SLOTS
      modifies this
      ensures iMax == old(iMax) && edgeListMax == old(edgeListMax) && cacTaskIdMax == old(cacTaskIdMax)
      ensures fwdselMax == MaxOf(Fwdsels(tasks[..], iMax))
      ensures nlp == MaxOf(LoopAddrs(tasks[..], iMax))
    {
      fwdselMax := FwdselMaximum();
      nlp := LoopAddrMaximum();
    }

    /** Lines 429-438: the largest `fwdsel` among tasks 0 .. i_max-1 (0 if none). */
    method FwdselMaximum() returns (m: nat)
      requires Valid() && iMax <= SLOTS
      ensures m == MaxOf(Fwdsels(tasks[..], iMax))
    {
      ghost var t := tasks[..];
      m := 0;
      var i := 0;
      while i < iMax
        invariant 0 <= i <= iMax
        invariant m == MaxOf(Fwdsels(t, i))
      {
        FwdselsStep(t, i);
        if tasks[i].fwdsel > m {
          m := tasks[i].fwdsel;
        }
        i := i + 1;
      }
    }

    /** Lines 445-454: the largest loop address among tasks 0 .. i_max-1 (0 if none). */
    method LoopAddrMaximum() returns (m: nat)
      requires Valid() && iMax <= SLOTS
      ensures m == MaxOf(LoopAddrs(tasks[..], iMax))
    {
      ghost var t := tasks[..];
      m := 0;
      var i := 0;
      while i < iMax
        invariant 0 <= i <= iMax
        invariant m == MaxOf(LoopAddrs(t, i))
      {
        LoopAddrsStep(t, i);
        if tasks[i].loopAddr > m {
          m := tasks[i].loopAddr;
        }
        i := i + 1;
      }
    }

    // -------------------------------------------------------------------------
    // generate_tcfg_entries (lcugen.cpp:1335-1391)
    // -------------------------------------------------------------------------

    /** Flattens the first `edge_list_max` edges into `TCFG` rows. */
    method GenerateTcfgEntries()
      requires Valid() && edgeListMax <= SLOTS && EdgesIndex(edges[..], edgeListMax)
      requires RowCount(edges[..], edgeListMax) <= SLOTS
      modifies this, tcfg
      ensures iMax == old(iMax) && edgeListMax == old(edgeListMax)
      ensures fwdselMax == old(fwdselMax) && nlp == old(nlp)
      ensures tcfg[..] == TcfgUpTo(tasks[..], edges[..], old(tcfg[..]), edgeListMax)
      ensures cacTaskIdMax == RowCount(edges[..], edgeListMax)
    {
      ghost var t := tasks[..];
      ghost var e := edges[..];
      ghost var r0 := tcfg[..];
      var cacTaskId: nat := 0;
      var i: nat := 0;
      while i < edgeListMax
        invariant iMax == old(iMax) && edgeListMax == old(edgeListMax)
        invariant fwdselMax == old(fwdselMax) && nlp == old(nlp)
        invariant 0 <= i <= edgeListMax && cacTaskId == RowCount(e, i)
        invariant cacTaskId <= RowCount(e, edgeListMax) && EdgesIndex(e, i)
        invariant tcfg[..] == TcfgUpTo(t, e, r0, i)
      {
        RowCountGrows(e, i, edgeListMax);
        var x := edges[i];
        if x.weight == -1 {
          WriteRow(x, cacTaskId);
          cacTaskId := cacTaskId + 1;
          WriteRow(x, cacTaskId);
          cacTaskId := cacTaskId + 1;
        } else if x.weight == 0 || x.weight == 1 {
          WriteRow(x, cacTaskId);
          cacTaskId := cacTaskId + 1;
        }
        i := i + 1;
      }
      cacTaskIdMax := cacTaskId;
    }

    /** One row: the tail's and head's `taskid`, the head's kind when it is Forward
        or Backward (otherwise `next_ttsel` is not written), and the head's loop
        address. */
    method WriteRow(x: Edge, c: nat)
      requires Valid() && 0 <= x.tail < SLOTS && 0 <= x.head < SLOTS && c < SLOTS
      modifies tcfg
      ensures tcfg[..] == old(tcfg[..])[c := RowFor(tasks[..], x, old(tcfg[c]).nextTtsel)]
    {
      tcfg[c] := tcfg[c].(currentTaskId := tasks[x.tail].taskId, nextTaskId := tasks[x.head].taskId);
      if tasks[x.head].kind == FWD {
        tcfg[c] := tcfg[c].(nextTtsel := 1);
      } else if tasks[x.head].kind == BWD {
        tcfg[c] := tcfg[c].(nextTtsel := 0);
      }
      tcfg[c] := tcfg[c].(nextLoopAddr := tasks[x.head].loopAddr);
    }

    // -------------------------------------------------------------------------
    // Table editors (lcugen.cpp:1402-1512)
    // -------------------------------------------------------------------------

    /** `remove_task_data(i)`. */
    method RemoveTaskData(i: int)
      requires Valid() && iMax < SLOTS
      modifies this, tasks
      ensures edgeListMax == old(edgeListMax) && cacTaskIdMax == old(cacTaskIdMax)
      ensures fwdselMax == old(fwdselMax) && nlp == old(nlp)
      ensures (tasks[..], iMax) == RemoveTask(old(tasks[..]), old(iMax), i)
    {
      ghost var t0 := tasks[..];
      var flag := 0;
      var k: nat := 0;
      while k < iMax
        invariant iMax == old(iMax) && edgeListMax == old(edgeListMax) && cacTaskIdMax == old(cacTaskIdMax)
        invariant fwdselMax == old(fwdselMax) && nlp == old(nlp)
        invariant 0 <= k <= iMax
        invariant flag == if 0 <= i < k then 1 else 0
        invariant tasks[..] == RemoveTask(t0, k, i).0
      {
        if k == i {
          flag := 1;
        }
        if flag == 1 {
          assert tasks[k + 1] == t0[k + 1] && tasks[k] == t0[k];
          tasks[k] := Slid(tasks[k], tasks[k + 1]);
        }
        assert tasks[..] == RemoveTask(t0, k + 1, i).0;
        k := k + 1;
      }
      iMax := (iMax + WORD - 1) % WORD;
    }

    /** `assign_edges(j)`. */
    method AssignEdgesTo(j: int)
      requires Valid() && edgeListMax <= SLOTS && j + 1 < INT_LIMIT
      modifies edges
      ensures edges[..] == AssignEdges(old(edges[..]), edgeListMax, j)
    {
      ghost var e0 := edges[..];
      var k := 0;
      while k < edgeListMax
        invariant 0 <= k <= edgeListMax
        invariant edges[..] == AssignEdges(e0, k, j)
      {
        if edges[k].head == j {
          edges[k] := edges[k].(head := j + 1);
        }
        assert edges[..] == AssignEdges(e0, k + 1, j);
        k := k + 1;
      }
    }

    /** `remove_common_edges(j)`. Slot `edge_list_max` is read by the shift. */
    method RemoveCommonEdges(j: int)
      requires Valid() && edgeListMax < SLOTS
      modifies this, edges
      ensures iMax == old(iMax) && cacTaskIdMax == old(cacTaskIdMax)
      ensures fwdselMax == old(fwdselMax) && nlp == old(nlp)
      ensures (edges[..], edgeListMax) == RemoveCommon(old(edges[..]), j, 0, old(edgeListMax))
    {
      ghost var goal := RemoveCommon(edges[..], j, 0, edgeListMax);
      var k: nat := 0;
      while k < edgeListMax
        invariant iMax == old(iMax) && cacTaskIdMax == old(cacTaskIdMax)
        invariant fwdselMax == old(fwdselMax) && nlp == old(nlp)
        invariant edgeListMax < SLOTS && k <= edgeListMax + 1
        invariant RemoveCommon(edges[..], j, k, edgeListMax) == goal
        decreases edgeListMax + 1 - k
      {
        RemoveCommonStep(j, k);
        k := k + 1;
      }
    }

    /** One iteration of the outer loop of `remove_common_edges`: an edge leaving j
        at slot k is deleted. */
    method RemoveCommonStep(j: int, k: nat)
      requires Valid() && k < edgeListMax < SLOTS
      modifies this, edges
      ensures iMax == old(iMax) && cacTaskIdMax == old(cacTaskIdMax)
      ensures fwdselMax == old(fwdselMax) && nlp == old(nlp)
      ensures edgeListMax == old(edgeListMax) || edgeListMax == old(edgeListMax) - 1
      ensures RemoveCommon(edges[..], j, k + 1, edgeListMax) == RemoveCommon(old(edges[..]), j, k, old(edgeListMax))
    {
      RemoveCommonUnfold(edges[..], j, k, edgeListMax);
      if edges[k].tail == j {
        ShiftEdgesDown(k);
        edgeListMax := edgeListMax - 1;
      }
    }

    /** The inner loop of `remove_common_edges`: rows k+1 to `edge_list_max` move
        down one place. */
    method ShiftEdgesDown(k: nat)
      requires Valid() && k <= edgeListMax < SLOTS
      modifies edges
      ensures edges[..] == ShiftDown(old(edges[..]), k, edgeListMax)
    {
      ghost var before := edges[..];
      var l := k;
      while l < edgeListMax
        invariant k <= l <= edgeListMax
        invariant edges[..] == ShiftDown(before, k, l)
      {
        assert edges[l + 1] == before[l + 1];
        edges[l] := edges[l + 1];
        assert edges[..] == ShiftDown(before, k, l + 1);
        l := l + 1;
      }
    }

    /** `rearrange_edge_list(j)`. */
    method RearrangeEdgeList(j: int)
      requires Valid() && edgeListMax <= SLOTS
      modifies edges
      ensures edges[..] == RearrangeEdges(old(edges[..]), edgeListMax, j)
    {
      ghost var e0 := edges[..];
      var k := 0;
      while k < edgeListMax
        invariant 0 <= k <= edgeListMax
        invariant edges[..] == RearrangeEdges(e0, k, j)
      {
        if edges[k].tail > j {
          edges[k] := edges[k].(tail := edges[k].tail - 1);
        }
        if edges[k].head > j {
          edges[k] := edges[k].(head := edges[k].head - 1);
        }
        assert edges[..] == RearrangeEdges(e0, k + 1, j);
        k := k + 1;
      }
    }

    // -------------------------------------------------------------------------
    // lcugen (lcugen.cpp:189-458)
    // -------------------------------------------------------------------------

    /** The partitioning half of `lcugen` (lcugen.cpp:189-317): blank table,
        preset, scan, block lists, node ends. */
    method Partition(cfg: Cfg)
      requires Valid() && TaskTable(tasks[..]) && Partitionable(cfg)
      modifies this, tasks
      ensures iMax == TaskTotal(cfg)
      ensures tasks[..] == Partitioned(cfg)
      ensures unchanged(this`edgeListMax, this`cacTaskIdMax, this`fwdselMax, this`nlp)
    {
      InitTaskDataArr();
      PresetSlots(cfg.sizeMax);
      ghost var p := tasks[..];
      assert p == Preset(Blanks(), cfg.sizeMax);
      Scan(cfg);
      ScanKeepsLists(cfg, p, ScanEnd(cfg));
      AssignBlockLists(cfg);
      SetNodeEnds();
    }

    /** The classifier of `lcugen`: the five passes in the order the driver
        runs them. */
    method Classify()
      requires Valid() && 1 <= iMax < SLOTS
      modifies tasks
      ensures tasks[..] == Classified(old(tasks[..]), iMax)
    {
      ResolveFwdsel();
      DefaultKinds();
      ShiftKinds();
      MarkInnerLoops();
      FixLastTask();
    }

    /** The whole generator on one procedure's loop flags: partition, classify,
        build the edge list, take the field maxima and flatten the edges into
        `TCFG`. The rows of a loop-continue edge without a loop head keep the head
        and weight they held, so the old edge table matters: its rows must name
        task slots and the flattened rows must fit `TCFG`. */
    method Lcugen(cfg: Cfg)
      requires Valid() && TaskTable(tasks[..]) && Admissible(cfg) && EdgesIndex(edges[..], SLOTS)
      requires RowCount(GraphTable(ClassifiedTable(cfg), TaskTotal(cfg), edges[..]),
                        EdgeCount(ClassifiedTable(cfg), TaskTotal(cfg))) <= SLOTS
      modifies this, tasks, edges, tcfg
      ensures iMax == TaskTotal(cfg)
      ensures tasks[..] == ClassifiedTable(cfg)
      ensures edges[..] == GraphTable(tasks[..], iMax, old(edges[..]))
      ensures edgeListMax == EdgeCount(tasks[..], iMax)
      ensures fwdselMax == MaxOf(Fwdsels(tasks[..], iMax)) && nlp == MaxOf(LoopAddrs(tasks[..], iMax))
      ensures EdgesIndex(edges[..], edgeListMax)
      ensures tcfg[..] == TcfgUpTo(tasks[..], edges[..], old(tcfg[..]), edgeListMax)
      ensures cacTaskIdMax == RowCount(edges[..], edgeListMax)
    {
      Partition(cfg);
      Classify();
      GenerateGraph();
      GraphNamesTasks(tasks[..], iMax, old(edges[..]), iMax - 1);
      ComputeMaxima();
      GenerateTcfgEntries();
    }
  }
}
