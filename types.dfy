/** Record layouts of the loop-control-unit generator (lcugen.h:33-81) and the
    fixed capacities of its global tables. */
module Types {

  datatype Option<T> = None | Some(value: T)

  /** Slots of `task_data_arr`, `edge_list` and `TCFG`. */
  const SLOTS: nat := 100
  /** Entries of a task's `bb_list`. */
  const BB_SLOTS: nat := 40

  /** Values of the `FSMsel` field: Backward, Forward, and not yet classified. */
  const BWD: int := 0
  const FWD: int := 1
  const UNRESOLVED: int := -1

  /** `struct task_data_t`. The unsigned fields are kept below 2^32 by the code that
      writes them; `kind` is the signed `FSMsel`. */
  datatype Task = Task(
    nodeBegin: nat,
    nodeEnd: nat,
    taskId: nat,
    kind: int,
    fwdsel: nat,
    loopAddr: nat,
    innerLoop: nat,
    annotation: nat,
    bbList: seq<int>,
    bbListSize: nat)

  /** The state `init_task_data_arr` leaves in every slot. */
  function BlankTask(): (t: Task)
    ensures |t.bbList| == BB_SLOTS
    ensures forall k :: 0 <= k < BB_SLOTS ==> t.bbList[k] == -1
  {
    Task(0, 0, 0, 0, 0, 0, 0, 0, seq(BB_SLOTS, _ => -1), 0)
  }

  /** One row `{TAIL, HEAD, WEIGHT}` of `int edge_list[100][3]`. A weight of -1 is
      an unconditional transition, 0 and 1 the two values of the loop-end signal. */
  datatype Edge = Edge(tail: int, head: int, weight: int)

  /** `struct tcfg_edge_t`: one entry of the task-transition table. */
  datatype TcfgRow = TcfgRow(currentTaskId: nat, nextTaskId: nat, nextTtsel: nat, nextLoopAddr: nat)

  /** The per-block flags the natural-loop analysis supplies (`loop_depth_arr`,
      `node_begin_arr`, `node_end_arr`) and `size_max`, the number of the last block
      visited. */
  datatype Cfg = Cfg(loopDepth: seq<nat>, loopBegin: seq<nat>, loopEnd: seq<nat>, sizeMax: nat)

  /** The flag arrays have their 100 entries and the last block number indexes them. */
  predicate CfgShape(cfg: Cfg)
  {
    |cfg.loopDepth| == SLOTS && |cfg.loopBegin| == SLOTS && |cfg.loopEnd| == SLOTS
    && cfg.sizeMax < SLOTS
  }

  /** A table of tasks in which every slot has its 40 block-list entries. */
  predicate TaskTable(t: seq<Task>)
  {
    |t| == SLOTS && forall k :: 0 <= k < SLOTS ==> |t[k].bbList| == BB_SLOTS
  }

  /** The edges below n name task slots. */
  predicate EdgesIndex(e: seq<Edge>, n: nat)
    requires n <= |e|
  {
    forall p :: 0 <= p < n ==> 0 <= e[p].tail < SLOTS && 0 <= e[p].head < SLOTS
  }
}
