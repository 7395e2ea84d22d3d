/** Read-only queries over the task table: `get_bb_task_num`,
    `get_loop_initialization_bb_num`, `get_max_loop_num`, `get_max_task_id`
    (lcugen.cpp:494-588), the field maxima `fwdsel_max` and `nlp`
    (lcugen.cpp:429-453), and `bool2uint` / `translate_char` (lcugen.cpp:590-612). */
module Lookups {
  import opened Types
  import opened Bits
  import opened Render

  // ---------------------------------------------------------------------------
  // get_bb_task_num
  // ---------------------------------------------------------------------------

  /** The first `size` block-list entries of a task are readable. */
  predicate ListReadable(x: Task)
  {
    x.bbListSize <= |x.bbList|
  }

  /** Block `bb` is among the first `size` entries of `list`, the entries compared as
      unsigned 32-bit values. */
  predicate Lists(list: seq<int>, size: nat, bb: nat)
    requires size <= |list|
  {
    exists j :: 0 <= j < size && list[j] % WORD == bb
  }

  predicate Contains(x: Task, bb: nat)
    requires ListReadable(x)
  {
    Lists(x.bbList, x.bbListSize, bb)
  }

  /** The inner loop of `get_bb_task_num` over one task's list. */
  function ListSearch(list: seq<int>, size: nat, bb: nat): (found: bool)
    requires size <= |list|
    ensures found <==> Lists(list, size, bb)
  {
    if size == 0 then false
    else ListSearch(list, size - 1, bb) || list[size - 1] % WORD == bb
  }

  /** `get_bb_task_num(t, bb, n)`: the first task below n whose block list holds bb,
      or -1 when none does. */
  function BbTaskNum(t: seq<Task>, bb: nat, n: nat): (r: int)
    requires n <= |t| && forall i :: 0 <= i < n ==> ListReadable(t[i])
    ensures -1 <= r < n
    ensures r == -1 <==> forall i :: 0 <= i < n ==> !Contains(t[i], bb)
    ensures r >= 0 ==> Contains(t[r], bb) && forall i :: 0 <= i < r ==> !Contains(t[i], bb)
  {
    if n == 0 then -1
    else
      var r := BbTaskNum(t, bb, n - 1);
      assert ListReadable(t[n - 1]);
      if r >= 0 then r
      else if ListSearch(t[n - 1].bbList, t[n - 1].bbListSize, bb) then n - 1
      else -1
  }

  // ---------------------------------------------------------------------------
  // Maxima
  // ---------------------------------------------------------------------------

  /** The running maximum of a field, starting from 0. */
  function MaxOf(s: seq<nat>): (m: nat)
    ensures forall i :: 0 <= i < |s| ==> s[i] <= m
    ensures m == 0 || m in s
  {
    if s == [] then 0
    else
      var m := MaxOf(s[..|s| - 1]);
      assert forall i :: 0 <= i < |s| - 1 ==> s[..|s| - 1][i] == s[i];
      if s[|s| - 1] > m then s[|s| - 1] else m
  }

  function LoopAddrs(t: seq<Task>, n: nat): (s: seq<nat>)
    requires n <= |t|
    ensures |s| == n && forall i :: 0 <= i < n ==> s[i] == t[i].loopAddr
  {
    seq(n, i requires 0 <= i < n => t[i].loopAddr)
  }

  function Fwdsels(t: seq<Task>, n: nat): (s: seq<nat>)
    requires n <= |t|
    ensures |s| == n && forall i :: 0 <= i < n ==> s[i] == t[i].fwdsel
  {
    seq(n, i requires 0 <= i < n => t[i].fwdsel)
  }

  function TaskIds(t: seq<Task>, n: nat): (s: seq<nat>)
    requires n <= |t|
    ensures |s| == n && forall i :: 0 <= i < n ==> s[i] == t[i].taskId
  {
    seq(n, i requires 0 <= i < n => t[i].taskId)
  }

  /** One more task raises the running `fwdsel` maximum to its value if larger. */
  lemma FwdselsStep(t: seq<Task>, i: nat)
    requires i < |t|
    ensures MaxOf(Fwdsels(t, i + 1))
      == if t[i].fwdsel > MaxOf(Fwdsels(t, i)) then t[i].fwdsel else MaxOf(Fwdsels(t, i))
  {
    assert Fwdsels(t, i + 1)[..i] == Fwdsels(t, i);
  }

  /** One more task raises the running loop-address maximum to its value if larger. */
  lemma LoopAddrsStep(t: seq<Task>, i: nat)
    requires i < |t|
    ensures MaxOf(LoopAddrs(t, i + 1))
      == if t[i].loopAddr > MaxOf(LoopAddrs(t, i)) then t[i].loopAddr else MaxOf(LoopAddrs(t, i))
  {
    assert LoopAddrs(t, i + 1)[..i] == LoopAddrs(t, i);
  }

  /** An unsigned value returned through `int`. */
  function AsInt(v: nat): (r: int)
    requires v < WORD
    ensures -(INT_LIMIT as int) <= r < INT_LIMIT && r % WORD == v
  {
    if v < INT_LIMIT then v else v - WORD
  }

  /** `get_max_loop_num(t, n)`: the largest loop address among the first n tasks
      (0 when n is 0); a maximum of 2^31 or more comes back negative. */
  function MaxLoopNum(t: seq<Task>, n: nat): (r: int)
    requires n <= |t| && forall i :: 0 <= i < n ==> t[i].loopAddr < WORD
    ensures r % WORD == MaxOf(LoopAddrs(t, n))
    ensures forall i :: 0 <= i < n ==> t[i].loopAddr <= r % WORD
    ensures r == 0 || exists i :: 0 <= i < n && t[i].loopAddr == r % WORD
  {
    var s := LoopAddrs(t, n);
    var m := MaxOf(s);
    assert m == 0 || exists i :: 0 <= i < n && s[i] == m;
    AsInt(m)
  }

  /** `get_max_task_id(t, n)`: the largest `taskid` among the first n tasks. */
  function MaxTaskId(t: seq<Task>, n: nat): (r: int)
    requires n <= |t| && forall i :: 0 <= i < n ==> t[i].taskId < WORD
    ensures r % WORD == MaxOf(TaskIds(t, n))
    ensures forall i :: 0 <= i < n ==> t[i].taskId <= r % WORD
    ensures r == 0 || exists i :: 0 <= i < n && t[i].taskId == r % WORD
  {
    var s := TaskIds(t, n);
    var m := MaxOf(s);
    assert m == 0 || exists i :: 0 <= i < n && s[i] == m;
    AsInt(m)
  }

  /** When every task's `taskid` is its slot, the largest one is the last slot. */
  lemma {:induction false} MaxTaskIdOfNumbered(t: seq<Task>, n: nat)
    requires 1 <= n <= |t| && n < INT_LIMIT
    requires forall i :: 0 <= i < n ==> t[i].taskId == i
    ensures MaxTaskId(t, n) == n - 1
  {
    var s := TaskIds(t, n);
    assert s[n - 1] == n - 1;
    var m := MaxOf(s);
    assert m >= n - 1;
    assert m <= n - 1 by {
      if m != 0 {
        var i :| 0 <= i < n && s[i] == m;
      }
    }
  }

  // ---------------------------------------------------------------------------
  // get_loop_initialization_bb_num
  // ---------------------------------------------------------------------------

  /** The last Backward task below n with loop address `loop`. */
  function LastBwd(t: seq<Task>, loop: nat, n: nat): (r: Option<nat>)
    requires n <= |t|
    ensures r.Some? ==> (r.value < n && t[r.value].kind == BWD && t[r.value].loopAddr == loop
      && forall i :: r.value < i < n ==> !(t[i].kind == BWD && t[i].loopAddr == loop))
    ensures r.None? ==> forall i :: 0 <= i < n ==> !(t[i].kind == BWD && t[i].loopAddr == loop)
  {
    if n == 0 then None
    else if t[n - 1].kind == BWD && t[n - 1].loopAddr == loop then Some(n - 1)
    else LastBwd(t, loop, n - 1)
  }

  /** The first Forward task below n with `fwdsel` 0 and loop address `loop`: the
      loop's header task. */
  function FirstHead(t: seq<Task>, loop: nat, n: nat): (r: Option<nat>)
    requires n <= |t|
    ensures r.Some? ==> (r.value < n && t[r.value].kind == FWD && t[r.value].fwdsel == 0
      && t[r.value].loopAddr == loop
      && forall i :: 0 <= i < r.value ==> !(t[i].kind == FWD && t[i].fwdsel == 0 && t[i].loopAddr == loop))
    ensures r.None? ==> forall i :: 0 <= i < n ==> !(t[i].kind == FWD && t[i].fwdsel == 0 && t[i].loopAddr == loop)
  {
    if n == 0 then None
    else
      var r := FirstHead(t, loop, n - 1);
      if r.Some? then r
      else if t[n - 1].kind == FWD && t[n - 1].fwdsel == 0 && t[n - 1].loopAddr == loop then Some(n - 1)
      else None
  }

  /** The last block of a task's list can be read. */
  predicate HasLastBlock(x: Task)
  {
    1 <= x.bbListSize <= |x.bbList|
  }

  function LastBlock(x: Task): int
    requires HasLastBlock(x)
  {
    x.bbList[x.bbListSize - 1]
  }

  /** `get_loop_initialization_bb_num(t, loop, n)`. The Backward task of the loop
      must exist; an inner loop's block is the last block of the task just before
      that Backward task, any other loop's is the last block of the task just before
      its header task, and -1 when there is no header task or the `inner_loop` flag
      is neither 0 nor 1. */
  function LoopInitBbNum(t: seq<Task>, loop: nat, n: nat): (r: int)
    requires n <= |t| && LastBwd(t, loop, n).Some?
    requires var b := LastBwd(t, loop, n).value;
      t[b].innerLoop == 1 ==> b >= 1 && HasLastBlock(t[b - 1])
    requires var b := LastBwd(t, loop, n).value; var h := FirstHead(t, loop, n);
      t[b].innerLoop == 0 && h.Some? ==> h.value >= 1 && HasLastBlock(t[h.value - 1])
    ensures var b := LastBwd(t, loop, n).value; var h := FirstHead(t, loop, n);
      (t[b].innerLoop == 1 ==> r == LastBlock(t[b - 1]))
      && (t[b].innerLoop == 0 && h.Some? ==> r == LastBlock(t[h.value - 1]))
      && (t[b].innerLoop == 0 && h.None? ==> r == -1)
      && (t[b].innerLoop > 1 ==> r == -1)
  {
    var b := LastBwd(t, loop, n).value;
    if t[b].innerLoop == 1 then LastBlock(t[b - 1])
    else if t[b].innerLoop == 0 then
      match FirstHead(t, loop, n)
      case Some(h) => LastBlock(t[h - 1])
      case None => -1
    else -1
  }

  // ---------------------------------------------------------------------------
  // Flags
  // ---------------------------------------------------------------------------

  /** `bool2uint`: 1 for true, 0 for false. */
  function Bool2Uint(b: bool): (u: nat)
    ensures u <= 1 && (u == 1 <==> b)
  {
    if b then 1 else 0
  }

  /** `translate_char`: 'Y' is 1 and 'N' is 0; any other character leaves the result
      uninitialised, so it is excluded. */
  function TranslateChar(c: char): (u: nat)
    requires c == 'Y' || c == 'N'
    ensures u <= 1 && (u == 1 <==> c == 'Y') && u == Bool2Uint(c == 'Y')
  {
    if c == 'Y' then 1 else 0
  }
}
