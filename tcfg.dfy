/** The consumers of the edge list: `generate_tcfg_entries` (lcugen.cpp:1335-1391),
    which flattens it into the `TCFG` table, the `.cac` initialisation rows of
    `write_file_cac` (lcugen.cpp:1263-1333), numbered the same way, and the rows of
    the VHDL lookup table of `write_file_lut` (lcugen.cpp:880-930). */
module Tcfg {
  import opened Types
  import opened Bits
  import opened Render

  /** Rows an edge yields: two for an unconditional edge, one for a loop-end edge,
      none for any other weight. */
  function RowsFor(x: Edge): nat
  {
    if x.weight == -1 then 2 else if x.weight == 0 || x.weight == 1 then 1 else 0
  }

  /** The row counter `cac_task_id` once the edges below n have been handled. */
  function RowCount(e: seq<Edge>, n: nat): nat
    requires n <= |e|
  {
    if n == 0 then 0 else RowCount(e, n - 1) + RowsFor(e[n - 1])
  }

  /** The edges below n with the given weight. */
  function CountWeight(e: seq<Edge>, n: nat, w: int): nat
    requires n <= |e|
  {
    if n == 0 then 0 else CountWeight(e, n - 1, w) + (if e[n - 1].weight == w then 1 else 0)
  }

  /** `next_ttsel`: the kind of the head when it is Forward or Backward; otherwise the
      field is not written and keeps what the row held. */
  function Ttsel(head: Task, stale: nat): nat
  {
    if head.kind == FWD then 1 else if head.kind == BWD then 0 else stale
  }

  /** The row written for edge x: the tail's and the head's task ids, the head's
      kind as the next selector when it is Forward or Backward (else the stale
      value), and the head's loop address. */
  function RowFor(t: seq<Task>, x: Edge, stale: nat): (r: TcfgRow)
    requires |t| == SLOTS && 0 <= x.tail < SLOTS && 0 <= x.head < SLOTS
    ensures r.currentTaskId == t[x.tail].taskId && r.nextTaskId == t[x.head].taskId
      && r.nextLoopAddr == t[x.head].loopAddr
    ensures t[x.head].kind in {BWD, FWD} ==> r.nextTtsel == t[x.head].kind
    ensures t[x.head].kind !in {BWD, FWD} ==> r.nextTtsel == stale
  {
    TcfgRow(t[x.tail].taskId, t[x.head].taskId, Ttsel(t[x.head], stale), t[x.head].loopAddr)
  }

  /** The `TCFG` table once the edges below n have been flattened, starting from r0. */
  function TcfgUpTo(t: seq<Task>, e: seq<Edge>, r0: seq<TcfgRow>, n: nat): (r: seq<TcfgRow>)
    requires |t| == SLOTS && |r0| == SLOTS && n <= |e| && EdgesIndex(e, n) && RowCount(e, n) <= SLOTS
    ensures |r| == SLOTS
  {
    if n == 0 then r0
    else
      var r := TcfgUpTo(t, e, r0, n - 1);
      var j := RowCount(e, n - 1);
      var x := e[n - 1];
      if x.weight == -1 then r[j := RowFor(t, x, r[j].nextTtsel)][j + 1 := RowFor(t, x, r[j + 1].nextTtsel)]
      else if x.weight == 0 || x.weight == 1 then r[j := RowFor(t, x, r[j].nextTtsel)]
      else r
  }

  // ---------------------------------------------------------------------------
  // Properties of the flattening
  // ---------------------------------------------------------------------------

  /** `cac_task_id_max` is twice the number of unconditional edges plus the number of
      loop-end edges. */
  lemma {:induction false} RowCountByWeight(e: seq<Edge>, n: nat)
    requires n <= |e|
    ensures RowCount(e, n) == 2 * CountWeight(e, n, -1) + CountWeight(e, n, 0) + CountWeight(e, n, 1)
  {
    if n > 0 {
      RowCountByWeight(e, n - 1);
    }
  }

  lemma {:induction false} RowCountGrows(e: seq<Edge>, a: nat, b: nat)
    requires a < b <= |e|
    ensures RowCount(e, a) + RowsFor(e[a]) <= RowCount(e, b)
  {
    if a < b - 1 {
      RowCountGrows(e, a, b - 1);
    }
  }

  lemma {:induction false} TcfgFrame(t: seq<Task>, e: seq<Edge>, r0: seq<TcfgRow>, n: nat, q: nat)
    requires |t| == SLOTS && |r0| == SLOTS && n <= |e| && EdgesIndex(e, n) && RowCount(e, n) <= SLOTS
    requires RowCount(e, n) <= q < SLOTS
    ensures TcfgUpTo(t, e, r0, n)[q] == r0[q]
  {
    if n > 0 {
      TcfgFrame(t, e, r0, n - 1, q);
    }
  }

  /** The rows of edge p, in edge order from row RowCount(e, p) on: each holds the
      tail's `taskid`, the head's `taskid`, the head's kind and the head's loop
      address; an unconditional edge gives two such rows. */
  lemma {:induction false} EdgeRows(t: seq<Task>, e: seq<Edge>, r0: seq<TcfgRow>, n: nat, p: nat)
    requires |t| == SLOTS && |r0| == SLOTS && n <= |e| && EdgesIndex(e, n) && RowCount(e, n) <= SLOTS
    requires p < n
    ensures RowCount(e, p) + RowsFor(e[p]) <= RowCount(e, n)
    ensures var r := TcfgUpTo(t, e, r0, n); var j := RowCount(e, p);
      (RowsFor(e[p]) >= 1 ==> r[j] == RowFor(t, e[p], r0[j].nextTtsel))
      && (RowsFor(e[p]) == 2 ==> r[j + 1] == RowFor(t, e[p], r0[j + 1].nextTtsel))
  {
    RowCountGrows(e, p, n);
    if RowsFor(e[p]) > 0 {
      if p < n - 1 {
        EdgeRows(t, e, r0, n - 1, p);
        var r := TcfgUpTo(t, e, r0, n - 1);
        var r' := TcfgUpTo(t, e, r0, n);
        assert forall q :: 0 <= q < RowCount(e, n - 1) ==> r'[q] == r[q];
      } else {
        TcfgFrame(t, e, r0, p, RowCount(e, p));
        if RowsFor(e[p]) == 2 {
          TcfgFrame(t, e, r0, p, RowCount(e, p) + 1);
        }
      }
    }
  }

  // ---------------------------------------------------------------------------
  // The .cac rows
  // ---------------------------------------------------------------------------

  /** One `ttlut_mem[id]` assignment line: the head's `taskid`, its kind when that is
      Forward or Backward (no `ttsel` assignment otherwise), and its loop address. */
  datatype CacEntry = CacEntry(id: nat, taskData: nat, ttsel: Option<nat>, loopAddr: nat)

  /** The entry printed as number id for edge x: it describes the head. */
  function EntryFor(t: seq<Task>, x: Edge, id: nat): (r: CacEntry)
    requires |t| == SLOTS && 0 <= x.head < SLOTS
    ensures r.id == id && r.taskData == t[x.head].taskId && r.loopAddr == t[x.head].loopAddr
    ensures r.ttsel.Some? <==> t[x.head].kind in {BWD, FWD}
    ensures r.ttsel.Some? ==> r.ttsel.value == t[x.head].kind
  {
    var h := t[x.head];
    CacEntry(id, h.taskId, if h.kind == FWD then Some(1) else if h.kind == BWD then Some(0) else None, h.loopAddr)
  }

  /** The entries of edge x when the counter stands at id. */
  function EntriesOf(t: seq<Task>, x: Edge, id: nat): (r: seq<CacEntry>)
    requires |t| == SLOTS && 0 <= x.head < SLOTS
    ensures |r| == RowsFor(x)
  {
    if x.weight == -1 then [EntryFor(t, x, id), EntryFor(t, x, id + 1)]
    else if x.weight == 0 || x.weight == 1 then [EntryFor(t, x, id)]
    else []
  }

  /** The entries `write_file_cac` prints for the edges below n. */
  function CacEntries(t: seq<Task>, e: seq<Edge>, n: nat): seq<CacEntry>
    requires |t| == SLOTS && n <= |e| && EdgesIndex(e, n)
  {
    if n == 0 then [] else CacEntries(t, e, n - 1) + EntriesOf(t, e[n - 1], RowCount(e, n - 1))
  }

  lemma {:induction false} CacLength(t: seq<Task>, e: seq<Edge>, n: nat)
    requires |t| == SLOTS && n <= |e| && EdgesIndex(e, n)
    ensures |CacEntries(t, e, n)| == RowCount(e, n)
  {
    if n > 0 {
      CacLength(t, e, n - 1);
    }
  }

  /** Entry c, printed as number q, describes TCFG row r. */
  predicate Describes(c: CacEntry, r: TcfgRow, q: nat)
  {
    c.id == q && c.taskData == r.nextTaskId && c.loopAddr == r.nextLoopAddr
    && (c.ttsel.Some? ==> c.ttsel.value == r.nextTtsel)
  }

  /** The last edge's rows leave the rows of the earlier edges alone. */
  lemma TcfgKeepsEarlier(t: seq<Task>, e: seq<Edge>, r0: seq<TcfgRow>, n: nat, q: nat)
    requires |t| == SLOTS && |r0| == SLOTS && 1 <= n <= |e| && EdgesIndex(e, n) && RowCount(e, n) <= SLOTS
    requires q < RowCount(e, n - 1)
    ensures TcfgUpTo(t, e, r0, n)[q] == TcfgUpTo(t, e, r0, n - 1)[q]
  {
  }

  /** The last edge's entries come after the entries of the earlier edges. */
  lemma CacSplit(t: seq<Task>, e: seq<Edge>, n: nat, q: nat)
    requires |t| == SLOTS && 1 <= n <= |e| && EdgesIndex(e, n)
    requires q < |CacEntries(t, e, n)|
    ensures |CacEntries(t, e, n - 1)| == RowCount(e, n - 1)
    ensures q < RowCount(e, n - 1) ==> CacEntries(t, e, n)[q] == CacEntries(t, e, n - 1)[q]
    ensures q >= RowCount(e, n - 1) ==>
      CacEntries(t, e, n)[q] == EntriesOf(t, e[n - 1], RowCount(e, n - 1))[q - RowCount(e, n - 1)]
  {
    CacLength(t, e, n - 1);
  }

  lemma {:induction false} CacEntryAt(t: seq<Task>, e: seq<Edge>, r0: seq<TcfgRow>, n: nat, q: nat)
    requires |t| == SLOTS && |r0| == SLOTS && n <= |e| && EdgesIndex(e, n) && RowCount(e, n) <= SLOTS
    requires q < RowCount(e, n)
    ensures |CacEntries(t, e, n)| == RowCount(e, n)
    ensures Describes(CacEntries(t, e, n)[q], TcfgUpTo(t, e, r0, n)[q], q)
  {
    CacLength(t, e, n);
    assert n > 0;
    CacSplit(t, e, n, q);
    if q < RowCount(e, n - 1) {
      CacEntryAt(t, e, r0, n - 1, q);
      TcfgKeepsEarlier(t, e, r0, n, q);
    } else {
      LastEdgeEntry(t, e, r0, n, q);
    }
  }

  /** An entry of the last edge describes the row written for it. */
  lemma LastEdgeEntry(t: seq<Task>, e: seq<Edge>, r0: seq<TcfgRow>, n: nat, q: nat)
    requires |t| == SLOTS && |r0| == SLOTS && 1 <= n <= |e| && EdgesIndex(e, n) && RowCount(e, n) <= SLOTS
    requires RowCount(e, n - 1) <= q < RowCount(e, n)
    ensures |CacEntries(t, e, n - 1)| == RowCount(e, n - 1)
    ensures Describes(EntriesOf(t, e[n - 1], RowCount(e, n - 1))[q - RowCount(e, n - 1)], TcfgUpTo(t, e, r0, n)[q], q)
  {
    CacLength(t, e, n - 1);
    EdgeRows(t, e, r0, n, n - 1);
    var x := e[n - 1];
    var j := RowCount(e, n - 1);
    assert EntriesOf(t, x, j)[q - j] == EntryFor(t, x, q);
    assert TcfgUpTo(t, e, r0, n)[q] == RowFor(t, x, r0[q].nextTtsel);
    EntryDescribesRow(t, x, q, r0[q].nextTtsel);
  }

  /** The entry printed for an edge describes the row written for it. */
  lemma EntryDescribesRow(t: seq<Task>, x: Edge, id: nat, stale: nat)
    requires |t| == SLOTS && 0 <= x.tail < SLOTS && 0 <= x.head < SLOTS
    ensures Describes(EntryFor(t, x, id), RowFor(t, x, stale), id)
  {
  }

  /** The `.cac` file numbers its entries exactly as `TCFG` is filled: entry q is
      `ttlut_mem[q]` and carries row q's next task, loop address and (when printed)
      kind. */
  lemma CacMatchesTcfg(t: seq<Task>, e: seq<Edge>, r0: seq<TcfgRow>, n: nat)
    requires |t| == SLOTS && |r0| == SLOTS && n <= |e| && EdgesIndex(e, n) && RowCount(e, n) <= SLOTS
    ensures |CacEntries(t, e, n)| == RowCount(e, n)
    ensures forall q :: 0 <= q < RowCount(e, n) ==>
      Describes(CacEntries(t, e, n)[q], TcfgUpTo(t, e, r0, n)[q], q)
  {
    CacLength(t, e, n);
    forall q | 0 <= q < RowCount(e, n)
      ensures Describes(CacEntries(t, e, n)[q], TcfgUpTo(t, e, r0, n)[q], q)
    {
      CacEntryAt(t, e, r0, n, q);
    }
  }

  /** The text of one entry (`printf` with "%x"). */
  function EntryText(c: CacEntry): (r: string)
    ensures |r| >= 12 && r[..12] == "ttlut_mem[0x"
    ensures NewLines(r) == 1 && r[|r| - 1] == '\n'
  {
    var at := "ttlut_mem[0x" + Hex(c.id) + "].";
    var data := at + "task_data=0x" + Hex(c.taskData) + "; ";
    var sel := match c.ttsel case Some(v) => at + "ttsel=0x" + Hex(v) + "; " case None => "";
    var addr := at + "loop_addr=0x" + Hex(c.loopAddr) + ";";
    EntryPiecesInLine(c);
    InLineCat(data, sel);
    InLineCat(data + sel, addr);
    OneLine(data + sel + addr);
    data + sel + addr + "\n"
  }

  lemma EntryPiecesInLine(c: CacEntry)
    ensures var at := "ttlut_mem[0x" + Hex(c.id) + "].";
      InLine(at + "task_data=0x" + Hex(c.taskData) + "; ")
      && InLine(match c.ttsel case Some(v) => at + "ttsel=0x" + Hex(v) + "; " case None => "")
      && InLine(at + "loop_addr=0x" + Hex(c.loopAddr) + ";")
  {
    var at := "ttlut_mem[0x" + Hex(c.id) + "].";
    HexInLine(c.id);
    InLineCat("ttlut_mem[0x", Hex(c.id));
    InLineCat("ttlut_mem[0x" + Hex(c.id), "].");
    HexInLine(c.taskData);
    InLineCat(at, "task_data=0x");
    InLineCat(at + "task_data=0x", Hex(c.taskData));
    InLineCat(at + "task_data=0x" + Hex(c.taskData), "; ");
    if c.ttsel.Some? {
      HexInLine(c.ttsel.value);
      InLineCat(at, "ttsel=0x");
      InLineCat(at + "ttsel=0x", Hex(c.ttsel.value));
      InLineCat(at + "ttsel=0x" + Hex(c.ttsel.value), "; ");
    }
    HexInLine(c.loopAddr);
    InLineCat(at, "loop_addr=0x");
    InLineCat(at + "loop_addr=0x", Hex(c.loopAddr));
    InLineCat(at + "loop_addr=0x" + Hex(c.loopAddr), ";");
  }

  /** The entries one line each. */
  function EntriesText(cs: seq<CacEntry>): (r: string)
    ensures NewLines(r) == |cs|
  {
    if cs == [] then ""
    else
      NewLinesAppend(EntryText(cs[0]), EntriesText(cs[1..]));
      EntryText(cs[0]) + EntriesText(cs[1..])
  }

  /** The `.cac` body for the edges below n: each edge is introduced by a comment
      naming its tail and head, then its entries; a blank line ends the file. */
  function CacText(t: seq<Task>, e: seq<Edge>, n: nat): (r: string)
    requires |t| == SLOTS && n <= |e| && EdgesIndex(e, n)
    requires forall k :: 0 <= k < SLOTS ==> Printable(t[k])
    ensures |r| >= 1 && r[|r| - 1] == '\n'
    ensures NewLines(r) == 1 + n + RowCount(e, n)
  {
    if n == 0 then
      OneLine("");
      assert "" + "\n" == "\n";
      "\n"
    else
      var x := e[n - 1];
      var body := CacText(t, e, n - 1);
      var a, b := PrintDataTask(t[x.tail]), PrintDataTask(t[x.head]);
      var comment := "//# " + a + " -> " + b + "\n";
      var entries := EntriesText(EntriesOf(t, x, RowCount(e, n - 1)));
      CacPieces(body, comment, entries, a, b);
      body[..|body| - 1] + comment + entries + "\n"
  }

  /** Replacing the final blank line of a `.cac` body by an edge's comment, its
      entries and a new blank line adds one line for the comment and one per
      entry. */
  lemma CacPieces(body: string, comment: string, entries: string, a: string, b: string)
    requires |body| >= 1 && body[|body| - 1] == '\n'
    requires NewLines(a) == 0 && NewLines(b) == 0 && comment == "//# " + a + " -> " + b + "\n"
    ensures var r := body[..|body| - 1] + comment + entries + "\n";
      NewLines(r) == NewLines(body) + 1 + NewLines(entries) && r[|r| - 1] == '\n'
  {
    var head := body[..|body| - 1];
    assert body == head + "\n";
    NewLinesAppend(head, "\n");
    assert NewLines("//# ") == 0 && NewLines(" -> ") == 0 && NewLines("\n") == 1;
    NewLinesAppend("//# ", a);
    NewLinesAppend("//# " + a, " -> ");
    NewLinesAppend("//# " + a + " -> ", b);
    NewLinesAppend("//# " + a + " -> " + b, "\n");
    NewLinesAppend(head, comment);
    NewLinesAppend(head + comment, entries);
    NewLinesAppend(head + comment + entries, "\n");
  }

  // ---------------------------------------------------------------------------
  // The lookup-table rows
  // ---------------------------------------------------------------------------

  /** One `when` row of the LUT: the loop-end signal value, the current task and the
      next task. */
  datatype LutRow = LutRow(signal: nat, tail: int, head: int)

  /** A Forward tail gives rows for both signal values; a Backward tail gives the row
      for the edge's weight when that is 0 or 1. */
  function LutRowsOf(t: seq<Task>, x: Edge): (r: seq<LutRow>)
    requires |t| == SLOTS && 0 <= x.tail < SLOTS
    ensures forall q :: 0 <= q < |r| ==> r[q].tail == x.tail && r[q].head == x.head && r[q].signal <= 1
    ensures t[x.tail].kind == FWD ==> |r| == 2 && r[0].signal != r[1].signal
    ensures t[x.tail].kind == BWD ==>
      |r| == (if x.weight == 0 || x.weight == 1 then 1 else 0) && forall q :: 0 <= q < |r| ==> r[q].signal == x.weight
    ensures t[x.tail].kind !in {BWD, FWD} ==> r == []
  {
    if t[x.tail].kind == FWD then [LutRow(0, x.tail, x.head), LutRow(1, x.tail, x.head)]
    else if t[x.tail].kind == BWD && x.weight == 0 then [LutRow(0, x.tail, x.head)]
    else if t[x.tail].kind == BWD && x.weight == 1 then [LutRow(1, x.tail, x.head)]
    else []
  }

  function LutRows(t: seq<Task>, e: seq<Edge>, n: nat): (r: seq<LutRow>)
    requires |t| == SLOTS && n <= |e| && EdgesIndex(e, n)
    ensures forall q :: 0 <= q < |r| ==> r[q].signal <= 1
  {
    if n == 0 then [] else LutRows(t, e, n - 1) + LutRowsOf(t, e[n - 1])
  }

  /** The edges below n whose tail is Forward, and those whose tail is Backward and
      whose weight is a signal value. */
  function ForwardTails(t: seq<Task>, e: seq<Edge>, n: nat): nat
    requires |t| == SLOTS && n <= |e| && EdgesIndex(e, n)
  {
    if n == 0 then 0 else ForwardTails(t, e, n - 1) + (if t[e[n - 1].tail].kind == FWD then 1 else 0)
  }

  function SignalledBackward(t: seq<Task>, e: seq<Edge>, n: nat): nat
    requires |t| == SLOTS && n <= |e| && EdgesIndex(e, n)
  {
    if n == 0 then 0 else SignalledBackward(t, e, n - 1) + (if t[e[n - 1].tail].kind == BWD && (e[n - 1].weight == 0 || e[n - 1].weight == 1) then 1 else 0)
  }

  /** The LUT has two rows per edge out of a Forward task and one per signalled edge
      out of a Backward task, and every row carries an edge's tail and head. */
  lemma {:induction false} LutRowCount(t: seq<Task>, e: seq<Edge>, n: nat)
    requires |t| == SLOTS && n <= |e| && EdgesIndex(e, n)
    ensures |LutRows(t, e, n)| == 2 * ForwardTails(t, e, n) + SignalledBackward(t, e, n)
    ensures forall q :: 0 <= q < |LutRows(t, e, n)| ==>
      exists p :: 0 <= p < n && LutRows(t, e, n)[q].tail == e[p].tail && LutRows(t, e, n)[q].head == e[p].head
  {
    if n > 0 {
      LutRowCount(t, e, n - 1);
      var a := LutRows(t, e, n - 1);
      var rows := LutRows(t, e, n);
      forall q | 0 <= q < |rows|
        ensures exists p :: 0 <= p < n && rows[q].tail == e[p].tail && rows[q].head == e[p].head
      {
        if q < |a| {
          assert rows[q] == a[q];
        } else {
          assert rows[q].tail == e[n - 1].tail && rows[q].head == e[n - 1].head;
        }
      }
    }
  }

  /** A `when` row built from a one-character selector bit and two ROM words is one
      line starting with the bit. */
  lemma LutLine(bit: string, cur: string, next: string)
    requires |bit| == 1 && bit[0] != '\n' && Numeral(cur) && Numeral(next)
    ensures var r := "\t\t  when \"" + bit + cur + "\" => \"" + next + "\";" + "\n";
      |r| >= 11 && r[..10] == "\t\t  when \"" && r[10] == bit[0] && NewLines(r) == 1 && r[|r| - 1] == '\n'
  {
    var w := "\t\t  when \"";
    assert InLine(w) && InLine(bit) && InLine(cur) && InLine(next);
    InLineCat(w, bit);
    InLineCat(w + bit, cur);
    InLineCat(w + bit + cur, "\" => \"");
    InLineCat(w + bit + cur + "\" => \"", next);
    InLineCat(w + bit + cur + "\" => \"" + next, "\";");
    OneLine(w + bit + cur + "\" => \"" + next + "\";");
  }

  /** The text of one LUT row: the signal bit and the current task's ROM word select
      the next task's ROM word. */
  function LutText(t: seq<Task>, row: LutRow, fwdselMax: nat, nlp: nat): (r: string)
    requires |t| == SLOTS && 0 <= row.tail < SLOTS && 0 <= row.head < SLOTS
    requires fwdselMax < WORD && nlp < WORD
    ensures |r| >= 11 && r[..10] == "\t\t  when \"" && r[10] == (if row.signal == 0 then '0' else '1')
    ensures NewLines(r) == 1 && r[|r| - 1] == '\n'
  {
    var bit := if row.signal == 0 then "0" else "1";
    var cur, next := RomData(t[row.tail], fwdselMax, nlp), RomData(t[row.head], fwdselMax, nlp);
    LutLine(bit, cur, next);
    "\t\t  when \"" + bit + cur + "\" => \"" + next + "\";" + "\n"
  }
}
