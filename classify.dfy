/** The classifier of `lcugen` (lcugen.cpp:320-383), as functions of the task table
    and the task count `i_max`. */
module Classify {
  import opened Types
  import opened Bits

  /** The last slot below n whose loop address is `addr`, if any. */
  function LastSameAddr(t: seq<Task>, addr: nat, n: nat): (r: Option<nat>)
    requires n <= |t|
    ensures r.Some? ==> r.value < n && t[r.value].loopAddr == addr
    ensures r.Some? ==> forall i :: r.value < i < n ==> t[i].loopAddr != addr
    ensures r.None? ==> forall i :: 0 <= i < n ==> t[i].loopAddr != addr
  {
    if n == 0 then None
    else if t[n - 1].loopAddr == addr then Some(n - 1)
    else LastSameAddr(t, addr, n - 1)
  }

  /** Task j is Backward and its successor's kind is still unresolved. */
  predicate Resolves(t: seq<Task>, j: nat)
    requires j + 1 < |t|
  {
    t[j].kind == BWD && t[j + 1].kind == UNRESOLVED
  }

  /** The `fwdsel` task j holds after the first pass (lines 320-341). The pass walks
      j upwards, so an earlier task's `fwdsel` is read after its own update; the
      unsigned increment wraps at 2^32. */
  function FwdselAt(t: seq<Task>, j: nat): nat
    requires j + 1 < |t|
    decreases j
  {
    if !Resolves(t, j) then t[j].fwdsel
    else match LastSameAddr(t, t[j].loopAddr, j)
      case None => t[j].fwdsel
      case Some(m) => (FwdselAt(t, m) + 1) % WORD
  }

  /** The `fwdsel` value the inner loop of the first pass has left in task j after
      looking at the earlier tasks below i. */
  function FwdselScan(t: seq<Task>, j: nat, i: nat): nat
    requires j + 1 < |t| && i <= j
  {
    match LastSameAddr(t, t[j].loopAddr, i)
    case None => t[j].fwdsel
    case Some(m) => (FwdselAt(t, m) + 1) % WORD
  }

  /** The table once the first pass has handled tasks below j. */
  function FwdselUpTo(t: seq<Task>, j: nat): (r: seq<Task>)
    requires j < |t|
    ensures |r| == |t|
  {
    seq(|t|, k requires 0 <= k < |t| => if k < j then t[k].(fwdsel := FwdselAt(t, k)) else t[k])
  }

  /** Pass 2 (lines 343-358): an unresolved kind below i_max becomes Forward. */
  function Default(t: seq<Task>, iMax: nat): (r: seq<Task>)
    ensures |r| == |t|
  {
    seq(|t|, k requires 0 <= k < |t| =>
      if k < iMax && t[k].kind == UNRESOLVED then t[k].(kind := FWD) else t[k])
  }

  /** The shift (lines 360-363) once slots below i have taken their successor's
      kind; slot i+1 is read before it is overwritten. */
  function ShiftUpTo(t: seq<Task>, i: nat): (r: seq<Task>)
    requires i < |t|
    ensures |r| == |t|
  {
    seq(|t|, k requires 0 <= k < |t| => if k < i then t[k].(kind := t[k + 1].kind) else t[k])
  }

  /** Inner-loop marking (lines 365-379) once the transitions out of slots below i
      have been looked at: `inner_loop` of slot 0 is cleared, and slot k+1 is marked
      when slot k is Forward and slot k+1 Backward. */
  function MarkUpTo(t: seq<Task>, i: nat): (r: seq<Task>)
    requires i < |t|
    ensures |r| == |t|
  {
    seq(|t|, k requires 0 <= k < |t| =>
      if 1 <= k <= i && t[k - 1].kind == FWD && t[k].kind == BWD then t[k].(innerLoop := 1)
      else if k == 0 then t[0].(innerLoop := 0)
      else t[k])
  }

  /** One step of the marking: slot i+1 is marked on a Forward-to-Backward
      transition from slot i, and nothing else changes. */
  lemma MarkStep(t: seq<Task>, i: nat)
    requires i + 1 < |t|
    ensures MarkUpTo(t, i)[i + 1] == t[i + 1]
    ensures MarkUpTo(t, i + 1)[i + 1] == if t[i].kind == FWD && t[i + 1].kind == BWD then t[i + 1].(innerLoop := 1) else t[i + 1]
    ensures MarkUpTo(t, i + 1) == MarkUpTo(t, i)[i + 1 := MarkUpTo(t, i + 1)[i + 1]]
  {
    var c := MarkUpTo(t, i);
    var c' := MarkUpTo(t, i + 1);
    forall k | 0 <= k < |t| && k != i + 1
      ensures c'[k] == c[k]
    {
      MarkOther(t, i, k);
    }
    assert c' == c[i + 1 := c'[i + 1]];
  }

  lemma MarkOther(t: seq<Task>, i: nat, k: nat)
    requires i + 1 < |t| && k < |t| && k != i + 1
    ensures MarkUpTo(t, i + 1)[k] == MarkUpTo(t, i)[k]
  {
  }

  /** Lines 382-383: the last task becomes `bwd0`. */
  function FixLast(t: seq<Task>, iMax: nat): (r: seq<Task>)
    requires 1 <= iMax <= |t|
    ensures |r| == |t|
  {
    t[iMax - 1 := t[iMax - 1].(loopAddr := 0, kind := BWD)]
  }

  /** The whole classifier. */
  function Classified(t: seq<Task>, iMax: nat): (r: seq<Task>)
    requires 1 <= iMax < |t|
    ensures |r| == |t|
  {
    FixLast(MarkUpTo(ShiftUpTo(Default(FwdselUpTo(t, iMax), iMax), iMax), iMax), iMax)
  }

  // ---------------------------------------------------------------------------
  // Properties of the classifier
  // ---------------------------------------------------------------------------

  /** The first pass changes `fwdsel` of task j only: a Backward task j whose
      successor is unresolved gets one more than the (already updated) `fwdsel` of
      the last earlier task sharing its loop address; every other task, and such a
      task without an earlier partner, keeps its value. */
  lemma FwdselPass(t: seq<Task>, iMax: nat, j: nat)
    requires iMax < |t| && j < iMax
    ensures var r := FwdselUpTo(t, iMax);
      r[j] == t[j].(fwdsel := r[j].fwdsel)
      && (Resolves(t, j) && LastSameAddr(t, t[j].loopAddr, j).Some? ==>
            var m := LastSameAddr(t, t[j].loopAddr, j).value;
            m < j && t[m].loopAddr == t[j].loopAddr
            && (forall i :: m < i < j ==> t[i].loopAddr != t[j].loopAddr)
            && r[j].fwdsel == (r[m].fwdsel + 1) % WORD)
      && (!Resolves(t, j) || LastSameAddr(t, t[j].loopAddr, j).None? ==> r[j].fwdsel == t[j].fwdsel)
  {
  }

  /** Starting from cleared `fwdsel` fields, no task's `fwdsel` exceeds its index, so
      the increment never wraps. */
  lemma {:induction false} FwdselBound(t: seq<Task>, j: nat)
    requires |t| == SLOTS && j + 1 < |t|
    requires forall k :: 0 <= k <= j ==> t[k].fwdsel == 0
    ensures FwdselAt(t, j) <= j
  {
    if Resolves(t, j) {
      match LastSameAddr(t, t[j].loopAddr, j)
      case None =>
      case Some(m) =>
        FwdselBound(t, m);
        assert FwdselAt(t, m) + 1 < WORD;
    }
  }

  /** Every task below i_max ends up Forward or Backward, provided the kinds it
      starts with are Forward, Backward or unresolved. */
  lemma ClassifiedKinds(t: seq<Task>, iMax: nat)
    requires 1 <= iMax < |t|
    requires forall k :: 0 <= k < iMax ==> t[k].kind in {BWD, FWD, UNRESOLVED}
    ensures forall k :: 0 <= k < iMax ==> Classified(t, iMax)[k].kind in {BWD, FWD}
  {
    var d := Default(FwdselUpTo(t, iMax), iMax);
    assert forall k :: 0 <= k < iMax ==> d[k].kind in {BWD, FWD};
  }

  /** The ownership shift: each task but the last takes the kind its successor was
      resolved to by the first two passes. */
  lemma ShiftedKinds(t: seq<Task>, iMax: nat, i: nat)
    requires 1 <= iMax < |t| && i + 1 < iMax
    ensures Classified(t, iMax)[i].kind == Default(t, iMax)[i + 1].kind
  {
    var f := FwdselUpTo(t, iMax);
    var d := Default(f, iMax);
    var s := ShiftUpTo(d, iMax);
    var m := MarkUpTo(s, iMax);
    assert f[i + 1].kind == t[i + 1].kind;
    assert d[i + 1].kind == Default(t, iMax)[i + 1].kind;
    assert s[i].kind == d[i + 1].kind;
    assert m[i].kind == s[i].kind;
    assert Classified(t, iMax)[i] == m[i];
  }

  /** The fields no stage of the classifier writes. */
  predicate SameLayout(a: seq<Task>, b: seq<Task>)
  {
    |a| == |b| &&
    forall k :: 0 <= k < |a| ==>
      a[k].nodeBegin == b[k].nodeBegin && a[k].nodeEnd == b[k].nodeEnd && a[k].taskId == b[k].taskId
      && a[k].annotation == b[k].annotation && a[k].bbList == b[k].bbList && a[k].bbListSize == b[k].bbListSize
  }

  /** What the marking leaves in slot j+1 (j below i) of any table. */
  lemma MarkAt(s: seq<Task>, i: nat, j: nat)
    requires j < i < |s|
    ensures MarkUpTo(s, i)[j + 1].innerLoop == if s[j].kind == FWD && s[j + 1].kind == BWD then 1 else s[j + 1].innerLoop
  {
    var k := j + 1;
    assert k - 1 == j;
  }

  /** With cleared `inner_loop` fields, task i+1 (i below i_max) is marked as an
      inner loop exactly when task i is Forward and task i+1 Backward after the
      shift, judged before the last task is fixed up; task 0 never is. */
  lemma InnerLoops(t: seq<Task>, iMax: nat, i: nat)
    requires 1 <= iMax < |t| && i < iMax
    requires forall k :: 0 <= k <= iMax ==> t[k].innerLoop == 0
    ensures var s := ShiftUpTo(Default(FwdselUpTo(t, iMax), iMax), iMax);
      Classified(t, iMax)[i + 1].innerLoop == 1 <==> s[i].kind == FWD && s[i + 1].kind == BWD
    ensures Classified(t, iMax)[0].innerLoop == 0
  {
    var s := ShiftUpTo(Default(FwdselUpTo(t, iMax), iMax), iMax);
    UnmarkedBeforeMarking(t, iMax, i + 1);
    MarkedAfter(s, iMax, i);
    FirstUnmarked(s, iMax);
  }

  /** The stages before the marking leave `inner_loop` alone. */
  lemma UnmarkedBeforeMarking(t: seq<Task>, iMax: nat, k: nat)
    requires 1 <= iMax < |t| && k < |t|
    ensures ShiftUpTo(Default(FwdselUpTo(t, iMax), iMax), iMax)[k].innerLoop == t[k].innerLoop
  {
    var f := FwdselUpTo(t, iMax);
    var d := Default(f, iMax);
    assert f[k].innerLoop == t[k].innerLoop;
    assert d[k].innerLoop == f[k].innerLoop;
  }

  /** Marking and the fix-up of the last task, on any table whose slot i+1 is not
      yet marked. */
  lemma {:induction false} MarkedAfter(s: seq<Task>, iMax: nat, i: nat)
    requires 1 <= iMax < |s| && i < iMax && s[i + 1].innerLoop == 0
    ensures FixLast(MarkUpTo(s, iMax), iMax)[i + 1].innerLoop == if s[i].kind == FWD && s[i + 1].kind == BWD then 1 else 0
  {
    var mk := MarkUpTo(s, iMax);
    MarkAt(s, iMax, i);
    FixLastKeepsMarks(mk, iMax, i + 1);
  }

  /** Marking clears the mark of slot 0, and the fix-up keeps it cleared. */
  lemma FirstUnmarked(s: seq<Task>, iMax: nat)
    requires 1 <= iMax < |s|
    ensures FixLast(MarkUpTo(s, iMax), iMax)[0].innerLoop == 0
  {
    var mk := MarkUpTo(s, iMax);
    assert mk[0].innerLoop == 0;
    FixLastKeepsMarks(mk, iMax, 0);
  }

  /** Fixing up the last task leaves every `inner_loop` mark alone. */
  lemma FixLastKeepsMarks(m: seq<Task>, iMax: nat, k: nat)
    requires 1 <= iMax <= |m| && k < |m|
    ensures FixLast(m, iMax)[k].innerLoop == m[k].innerLoop
  {
  }

  /** The last task is the Backward task `bwd0`. */
  lemma LastIsBwd0(t: seq<Task>, iMax: nat)
    requires 1 <= iMax < |t|
    ensures Classified(t, iMax)[iMax - 1].kind == BWD
    ensures Classified(t, iMax)[iMax - 1].loopAddr == 0
  {
  }

  /** Each stage writes one field of a slot. */
  lemma FwdselWritesFwdsel(t: seq<Task>, j: nat, k: nat)
    requires j < |t| && k < |t|
    ensures FwdselUpTo(t, j)[k] == t[k].(fwdsel := FwdselUpTo(t, j)[k].fwdsel)
  {
  }

  lemma DefaultWritesKind(t: seq<Task>, iMax: nat, k: nat)
    requires k < |t|
    ensures Default(t, iMax)[k] == t[k].(kind := Default(t, iMax)[k].kind)
  {
  }

  lemma ShiftWritesKind(t: seq<Task>, i: nat, k: nat)
    requires i < |t| && k < |t|
    ensures ShiftUpTo(t, i)[k] == t[k].(kind := ShiftUpTo(t, i)[k].kind)
  {
  }

  lemma MarkWritesInnerLoop(t: seq<Task>, i: nat, k: nat)
    requires i < |t| && k < |t|
    ensures MarkUpTo(t, i)[k] == t[k].(innerLoop := MarkUpTo(t, i)[k].innerLoop)
  {
  }

  lemma FixLastWritesLast(t: seq<Task>, iMax: nat, k: nat)
    requires 1 <= iMax <= |t| && k < |t|
    ensures FixLast(t, iMax)[k] == t[k].(loopAddr := FixLast(t, iMax)[k].loopAddr, kind := FixLast(t, iMax)[k].kind)
    ensures k != iMax - 1 ==> FixLast(t, iMax)[k] == t[k]
  {
  }

  /** Slot k after the classifier keeps the fields no stage writes, and its loop
      address unless it is the last task. */
  lemma KeepsAt(t: seq<Task>, iMax: nat, k: nat)
    requires 1 <= iMax < |t| && k < |t|
    ensures var c := Classified(t, iMax)[k];
      c.nodeBegin == t[k].nodeBegin && c.nodeEnd == t[k].nodeEnd && c.taskId == t[k].taskId
      && c.annotation == t[k].annotation && c.bbList == t[k].bbList && c.bbListSize == t[k].bbListSize
      && (k != iMax - 1 ==> c.loopAddr == t[k].loopAddr)
  {
    var f := FwdselUpTo(t, iMax);
    var d := Default(f, iMax);
    var s := ShiftUpTo(d, iMax);
    var mk := MarkUpTo(s, iMax);
    FwdselWritesFwdsel(t, iMax, k);
    DefaultWritesKind(f, iMax, k);
    ShiftWritesKind(d, iMax, k);
    MarkWritesInnerLoop(s, iMax, k);
    FixLastWritesLast(mk, iMax, k);
  }

  /** The classifier writes only kinds, `fwdsel`, `inner_loop` and the last task's
      loop address. */
  lemma ClassifiedKeeps(t: seq<Task>, iMax: nat)
    requires 1 <= iMax < |t|
    ensures SameLayout(Classified(t, iMax), t)
    ensures forall k :: 0 <= k < |t| && k != iMax - 1 ==> Classified(t, iMax)[k].loopAddr == t[k].loopAddr
  {
    forall k | 0 <= k < |t|
      ensures var c := Classified(t, iMax)[k];
        c.nodeBegin == t[k].nodeBegin && c.nodeEnd == t[k].nodeEnd && c.taskId == t[k].taskId
        && c.annotation == t[k].annotation && c.bbList == t[k].bbList && c.bbListSize == t[k].bbListSize
        && (k != iMax - 1 ==> c.loopAddr == t[k].loopAddr)
    {
      KeepsAt(t, iMax, k);
    }
  }
}
