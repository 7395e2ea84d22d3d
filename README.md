# Loop-control-unit generator (tcfggen `lcugen.cpp`)

This project models the loop-control-unit generator of the tcfggen compiler pass
and proves properties of the model. The generator takes the natural-loop flags of
one procedure's control-flow graph: per basic block a loop depth, a loop-begin
flag and a loop-end flag, plus `size_max`, the number of the last block visited.
From these it produces the following, all held in fixed-size global tables:

- a table of *tasks*. Each task is a run of blocks, Forward (`FSMsel` 1) or
  Backward (`FSMsel` 0), with a loop address, a `fwdsel` index and an
  inner-loop flag;
- an edge list between tasks, whose weights are -1 for unconditional and 0 or 1
  for the two values of the loop-end signal;
- the flattened task-transition table `TCFG`;
- the widths and bit strings used to print the ROM contents.

The model's structure:

- `Lcu.LcuGen` is a class with the same globals:
  - `task_data_arr` (100 slots), `edge_list` (100 rows) and `TCFG` (100 rows)
    are arrays;
  - `i_max`, `edge_list_max`, `cac_task_id_max`, `fwdsel_max` and `nlp` are
    fields.
- Every loop of `lcugen`, `generate_graph`, `generate_tcfg_entries`,
  `init_task_data_arr` and the table editors is a method with that loop. Each
  method is proved to leave exactly the table that a specification function on
  sequences computes.
- The stages are specified in their own modules:

  | module | stage |
  |---|---|
  | `Partition` | the scan that creates tasks |
  | `BlockLists` | block lists |
  | `Classify` | `fwdsel`, kind defaulting, the kind shift, inner loops, `bwd0` |
  | `Graph` | the edge list |
  | `Tcfg` | the `TCFG` rows, the `.cac` entries and the LUT rows |
  | `Editors` | `remove_task_data`, `assign_edges`, `remove_common_edges`, `rearrange_edge_list` |
  | `Lookups` | the read-only queries |
  | `Bits` | `log2`, `ipow`, `dectobin`, `itob` |
  | `Render` | the task namers and `print_rom_data` |
  | `LoopStack` | the loop-address stack |

- The declarative properties are lemmas about those functions.

Integers are unbounded. Where the source's 32-bit unsigned arithmetic can wrap,
the model writes the wrap out with `% WORD` (`WORD` = 2^32):

- the `fwdsel + 1` of the classifier;
- `ipow`;
- the `node_begin - 1` that turns 0 into 0xFFFFFFFF;
- the decrements in the editors.

A printed `%d` of an unsigned value is modelled as the signed value it becomes
(`PercentD`).

Where the design description of the system and the code disagree, the model
follows the code:

- **One task with no loops.** A procedure without loops yields one task, not two:
  `i_max` counts `fwd0(0)` only, and the fix-up turns that task into `bwd0`
  (lcugen.cpp:282, 381-383; `Partition.NoLoopsOneTask`).
- **Loop-continue edge with no head.** If no Forward task with `fwdsel` 0 shares
  the loop address, the edge builder raises no error. It keeps the last match
  and otherwise leaves the row's head and weight as they were
  (lcugen.cpp:1642-1654; `Graph.ContinueEdge`).
- **The last task's `node_end`.** It is 0xFFFFFFFF: the slot after the last
  task still begins at block 0, and `0 - 1` wraps (lcugen.cpp:316-317;
  `Lcu.PartitionedFacts`).
- **The `fwdsel` pass.** It writes into the Backward task `j` itself
  (lcugen.cpp:335).
- **The kind shift.** It is reproduced as written: after the shift, task i
  holds the kind resolved for task i+1.
- **`remove_common_edges` skips an edge.** It does not re-examine the edge
  that slides into a deleted slot (`Editors.AdjacentEdgeSurvives`).

The identity test `FSMsel == 0 || FSMsel == 1` inside the Backward branch of
`generate_graph` (lcugen.cpp:1623) is always true there and is not modelled as
a test.

## Model

| member | source | states |
|---|---|---|
| Bits.Log2Of | lcugen.cpp:727-742 | for operand >= 1 the result is the least r with operand <= 2^r; for 0 it is 32 (the loop runs out) |
| Bits.Log2 | lcugen.cpp:727-742 | the shifting loop returns `Log2Of(operand)` |
| Bits.FieldWidthMinimal | lcugen.cpp:727-742 | `log2(max+1)` is the minimal field width for max: max < 2^w, w = 0 exactly when max = 0, and max >= 2^(w-1) otherwise |
| Bits.IPow | lcugen.cpp:712-724 | the multiply loop returns x^y modulo 2^32, for every exponent below 2^32-1 |
| Bits.DecToBin | lcugen.cpp:687-710 | for 1 <= n <= 10 the loop returns the sum over k < n of bit k of x times 10^k, with no 32-bit wrap on the way |
| Bits.NoWrapUpToTenDigits | lcugen.cpp:687-710 | every intermediate of `dectobin` up to ten digits stays below 2^32 |
| Bits.DecDigitsLow | lcugen.cpp:687-710 | the decimal-coded binary of x is its lowest bit plus ten times that of x/2 |
| Bits.Itob | lcugen.cpp:799-807 | the string has exactly n characters, and character p is '1' exactly when bit n-1-p is set and '0' exactly when it is clear (most significant first) |
| Bits.ItobInto | lcugen.cpp:799-807 | the loop writes `Itob(i, n)` into the buffer, then the terminating NUL, and changes nothing after it |
| Bits.ItobRoundTrip | lcugen.cpp:799-807 | reading the string back as binary gives the low n bits of the value |
| Bits.ItobDecodes | lcugen.cpp:799-807 | a value below 2^n is recovered exactly from its n-bit string |
| Bits.ItobLow | lcugen.cpp:799-807 | the n-bit string is the (n-1)-bit string of x/2 followed by the character of x's lowest bit |
| Bits.PrintedDecToBinIsItob | lcugen.cpp:751-794 | `dectobin(x, n)` printed with `%0nd` is exactly the n-bit binary string of x |
| Bits.DecimalRoundTrip | lcugen.cpp:1021-1054 | the decimal text a namer prints parses back to the number |
| Bits.DecimalInjective | lcugen.cpp:1021-1054 | different numbers print as different decimal texts |
| Bits.BitAsMask | lcugen.cpp:699-703 | bit k of v is what the mask test `v & (1 << k)` reads: (v / 2^k) mod 2 |
| Bits.BitDouble | lcugen.cpp:702 | doubling moves bit k to bit k+1 |
| Bits.BitOfMod | lcugen.cpp:702 | truncating to m bits keeps every bit below m |
| Bits.AndMask | lcugen.cpp:701 | the mask test is nonzero exactly when the bit is set |
| Bits.ShiftKeepsBits | lcugen.cpp:699-703 | one 32-bit left shift keeps tracking the input bits one place higher, and the mask bit read before the shift is the next input bit |
| Bits.AccumulateDigit | lcugen.cpp:705-706 | one step of the summing loop adds bit `count` times 10^count without wrapping, so the running sum plus the digits below `count` is still `dectobin`'s full value |
| Bits.DecDigitsAtMostRepunit | lcugen.cpp:687-710 | the decimal-coded binary of n bits is at most 11...1 (n ones) |
| Bits.RepunitMonotone | lcugen.cpp:687-710 | more digits give a larger 11...1 |
| Bits.PowMonotone | lcugen.cpp:712-724 | 10^k grows with k |
| Bits.TenDigitsFitAWord | lcugen.cpp:687-710 | 1111111111 and 10^9 both fit in 32 bits |
| Bits.MulMod | lcugen.cpp:719-720 | reducing the running product modulo 2^32 before the next multiplication gives the same result |
| Bits.BitLengthBounds | lcugen.cpp:727-742 | t lies below 2^BitLength(t), and at or above 2^(BitLength(t)-1) when positive |
| Bits.BitLengthUnique | lcugen.cpp:727-742 | the bit length is the only r with 2^(r-1) <= t < 2^r |
| Bits.Decimal | lcugen.cpp:1021-1054 | `%d` of a number is a non-empty string of decimal digits |
| Bits.Hex | lcugen.cpp:1285-1302 | `%x` of a number is a non-empty string of the characters 0-9 and a-f |
| Bits.HexRoundTrip | lcugen.cpp:1285-1302 | the hexadecimal text of a `.cac` entry parses back to the number printed |
| Bits.ParseHexSnoc | lcugen.cpp:1285-1302 | appending a hex digit multiplies the value by sixteen and adds the digit |
| Bits.HexDigitRoundTrip | lcugen.cpp:1285-1302 | each hex digit reads back as its value |
| Bits.HexInjective | lcugen.cpp:1285-1302 | different numbers print as different hexadecimal texts |
| Bits.HexInLine | lcugen.cpp:1285-1302 | `%x` text contains no line end |
| Bits.NewLinesAppend | lcugen.cpp:1263-1333 | the line ends of two texts joined are those of each |
| Bits.InLineNoNewLines | lcugen.cpp:1263-1333 | text without a line-end character counts no lines |
| Bits.OneLine | lcugen.cpp:1263-1333 | a text without line ends followed by "\n" is one line |
| Bits.Zeros | lcugen.cpp:751-794 | n '0' characters |
| Bits.DigitsN | lcugen.cpp:751-794 | the last w decimal digits of v, most significant first, exactly w characters |
| Bits.DigitsOfZero | lcugen.cpp:751-794 | the w-digit field of 0 is all zeros |
| Bits.PaddedIsDigits | lcugen.cpp:751-794 | `%0wd` of a value below 10^w is exactly its w-digit field |
| Bits.PaddedOneDigit | lcugen.cpp:751-794 | the same for a single-digit value: zeros then the digit |
| Bits.PaddedNextDigit | lcugen.cpp:751-794 | the same for a value of two or more digits, given it for the value with its last digit dropped |
| Bits.DigitsOfDecDigits | lcugen.cpp:751-794 | the n-digit field of `dectobin(x, n)` is the n-bit binary string of x |
| Bits.DecDigitsBelowPow10 | lcugen.cpp:751-794 | `dectobin(x, n)` has at most n decimal digits |
| Render.PercentD | lcugen.cpp:1021-1054 | `%d` of an unsigned field below 2^31 is its decimal text; any field prints as digits and minus signs ending in a digit |
| Render.SprintDataTask | lcugen.cpp:1021-1027 | the name starts "bwd" for a Backward task and "fwd" otherwise, ends in ')' exactly when the task is not Backward, and is one line; partners `Render.SprintMatchesPrint`, `Render.NameSplit` |
| Render.PrintDataTask | lcugen.cpp:1029-1041 | the name starts "bwd" or "fwd" by kind, ends in ')' exactly when the task is Forward, and is one line; partner `Render.PrintDataTaskInjective` |
| Render.PrintDataTaskFsm | lcugen.cpp:1043-1055 | the state name starts "bwd" or "fwd" by kind, contains '_' exactly when the task is Forward, and is one line; partner `Render.PrintDataTaskFsmInjective` |
| Render.Width | lcugen.cpp:429-453 | `log2(max + 1)` is the least width that holds max (0 for max 0), and 32 when max + 1 wraps to 0 |
| Render.FwdselField | lcugen.cpp:745-796 | for widths 1 to 5 the field is the `itob` bit string of `fwdsel`, otherwise empty; all digits |
| Render.LoopAddrField | lcugen.cpp:745-796 | for widths 1 to 5 the field is the `itob` bit string of the loop address, "0" at width 0, empty above 5; all digits |
| Render.RomData | lcugen.cpp:745-796 | the ROM word starts with '1' for a Forward task and '0' for a Backward one and is made of digits and minus signs; partners `Render.RomDataBits`, `Render.RomRoundTrip` |
| Render.PrintDataTaskInjective | lcugen.cpp:1029-1041 | two tasks with the same `print_data_task` name have the same kind and loop address, and the same `fwdsel` when Forward |
| Render.PrintDataTaskFsmInjective | lcugen.cpp:1043-1055 | the same for `print_data_task_fsm` |
| Render.SprintMatchesPrint | lcugen.cpp:1021-1041 | `sprint_data_task` and `print_data_task` produce the same name for a classified task |
| Render.RomDataBits | lcugen.cpp:745-796 | for field widths up to 5, `print_rom_data` prints the kind bit, the `fwdsel` bits and the loop-address bits (one "0" for a zero-width loop-address field) |
| Render.WidthHolds | lcugen.cpp:429-453 | every value up to a maximum fits the width taken from that maximum, and a zero width means the value is 0 |
| Render.RomRoundTrip | lcugen.cpp:745-796 | the printed ROM word decodes back to the task's kind, `fwdsel` and loop address |
| Render.NameSplit | lcugen.cpp:1029-1055 | a three-letter prefix, a digit run and a tail that does not start with a digit split one way only |
| Render.DecimalDigits | lcugen.cpp:1021-1054 | a printed decimal is all digits |
| Render.NamesSplit | lcugen.cpp:1029-1055 | two names of the form kind prefix + loop address + tail that are equal have the same kind, the same address and the same tail |
| Render.ParenInjective | lcugen.cpp:1029-1041 | two equal parenthesised `fwdsel` suffixes carry the same number |
| LoopStack.PushSeq | lcugen.cpp:648-667 | push puts the item on top of the unchanged stack |
| LoopStack.PopSeq | lcugen.cpp:669-685 | pop on an empty stack gives 0 and an empty stack; otherwise it gives the top item and the rest |
| LoopStack.PopAfterPush | lcugen.cpp:648-685 | pop after push(x) returns x and restores the previous stack |
| LoopStack.Top | lcugen.cpp:614-622 | the top of a non-empty stack is one of its items and is what pop would return |
| LoopStack.AddressStack.Empty | lcugen.cpp:640-646 | returns 1 exactly when the stack holds no node, else 0 |
| LoopStack.AddressStack.GetItem | lcugen.cpp:614-622 | on a non-empty stack, returns the item `pop` would remove |
| LoopStack.AddressStack.Push | lcugen.cpp:648-667 | the stack becomes `PushSeq` of the old stack |
| LoopStack.AddressStack.Pop | lcugen.cpp:669-685 | returns and removes as `PopSeq` says |
| LoopStack.AddressStack.constructor | lcugen.cpp:166 | the stack starts empty |
| Partition.ScanEnd | lcugen.cpp:192-220 | the scan's bound is at least 1, at most 100 and at least `size_max` |
| Partition.TaskCount | lcugen.cpp:206-282 | the number of tasks created before block n is between 1 and n |
| Partition.StackDiscipline | lcugen.cpp:218-282 | the loop stack always holds strictly increasing addresses between 1 and the number of loops opened so far |
| Partition.PushedAddress | lcugen.cpp:226-230 | a loop-begin block pushes the next fresh address, larger than every address on the stack |
| Partition.TaskCountGrows | lcugen.cpp:218-282 | the task count never decreases, and a block that creates a task raises it by one |
| Partition.ScanSlot | lcugen.cpp:232-278 | the task a block creates sits in slot `TaskCount(b)`. A loop-begin block that is not a loop-end creates a task with `node_begin` b and the freshly pushed address. A loop-end block creates a Backward task with `node_begin` b+1, `fwdsel` 0 and the address on top of the stack after the pop |
| Partition.ScanTask0 | lcugen.cpp:210-216 | slot 0 becomes `fwd0(0)`: Forward, `node_begin` 0, `fwdsel` 0, address 0, `taskid` 0 |
| Partition.ScanTaskIds | lcugen.cpp:206-282 | every created task's `taskid` is its slot number |
| Partition.ScanKinds | lcugen.cpp:206-282 | task 0 is Forward; every other slot is Backward or keeps its preset kind |
| Partition.ScanFrame | lcugen.cpp:218-282 | slots at or beyond the task count are not written |
| Partition.NoLoopsOneTask | lcugen.cpp:218-282 | with no loop-begin and no loop-end block, exactly one task is created |
| Partition.ScanKeepsLists | lcugen.cpp:218-282 | the scan writes neither block lists nor `inner_loop` |
| Partition.NodeEnds | lcugen.cpp:316-317 | for j < `i_max`, `node_end[j]` is the next task's `node_begin` minus 1, or 0xFFFFFFFF when that is 0; nothing else changes |
| Partition.Preset | lcugen.cpp:194-204 | the preset keeps the table's length |
| Partition.TasksAt | lcugen.cpp:206-282 | the scan up to block n keeps the table's 100 slots |
| Partition.ScanKeepsBelow | lcugen.cpp:218-282 | a later block never rewrites a task already created |
| BlockLists.BlockTask | lcugen.cpp:284-313 | the task that receives block b has an index at most b |
| BlockLists.PlaceExtends | lcugen.cpp:303-305 | placing block b extends that task's list by b and leaves the other tasks alone |
| BlockLists.CloseList | lcugen.cpp:296-299 | closing a list fixes its size to the blocks placed |
| BlockLists.ListsAtSpell | lcugen.cpp:284-313 | after blocks 0 .. n-1, the closed lists followed by the open one spell out 0 .. n-1 |
| BlockLists.BlockListsPartition | lcugen.cpp:284-313 | the lists of tasks 0 .. BlockTask(last), one after the other, are exactly blocks 0 .. last in order, with no gap and no repeat |
| BlockLists.MembersBelong | lcugen.cpp:284-313 | `Members(k, n)` holds only blocks below n that go to task k |
| BlockLists.MembersIncreasing | lcugen.cpp:284-313 | `Members(k, n)` lists its blocks in strictly increasing order |
| BlockLists.BlockTaskMonotone | lcugen.cpp:294-301 | a later block never goes to an earlier task |
| BlockLists.MembersBeyond | lcugen.cpp:294-301 | a task after the one receiving block n-1 has received no block below n |
| BlockLists.MembersBefore | lcugen.cpp:294-305 | `BlockPos(b)` is the number of blocks task BlockTask(b) received before b |
| BlockLists.MembersAt | lcugen.cpp:303-305 | block b is entry BlockPos(b) of its task's blocks |
| BlockLists.ListStart | lcugen.cpp:296-300 | walking back BlockPos(b) blocks from b reaches the block that opened b's task, in the same task and at position 0 |
| BlockLists.GatherFirst | lcugen.cpp:285-290 | after block 0, task 0's open list holds exactly block 0 |
| BlockLists.ListsAtGather | lcugen.cpp:284-308 | after blocks 0 .. n-1 every closed list holds exactly its task's blocks with its size, and the open list's first entries are the open task's blocks |
| BlockLists.GatherOpen | lcugen.cpp:296-305 | one iteration that changes depth keeps that invariant |
| BlockLists.GatherExtend | lcugen.cpp:303-305 | one iteration that does not change depth keeps it |
| BlockLists.CloseAndOpen | lcugen.cpp:296-305 | closing the open list at its size and starting the next task with block b keeps every list equal to its task's blocks |
| BlockLists.Append | lcugen.cpp:303-305 | writing block b at the open list's next position keeps every list equal to its task's blocks |
| BlockLists.ListsOfTasksFrame | lcugen.cpp:284-317 | which blocks the lists hold depends only on `bb_list` and `bb_list_size` |
| BlockLists.AssignListsMembers | lcugen.cpp:284-313 | after the pass, the list of each task 0 .. BlockTask(last) holds exactly the blocks that task receives, in increasing order, and its `bb_list_size` is their number |
| BlockLists.BlockPlacement | lcugen.cpp:284-313 | every block 0 .. last is entry BlockPos(b) of its task's list; block b >= 1 opens its task's list exactly when the loop depth changes between b-1 and b (line 296) |
| BlockLists.PlacementOf | lcugen.cpp:284-313 | block b's entry in its task's list, and that list's first block b - BlockPos(b) |
| BlockLists.FlattenFrame | lcugen.cpp:284-313 | what the lists spell depends only on the lists |
| BlockLists.AssignListsOnlyLists | lcugen.cpp:284-313 | the pass writes only `bb_list` and `bb_list_size` |
| BlockLists.Place | lcugen.cpp:303-305 | writing block b into a task's list keeps a well-formed task table |
| BlockLists.Close | lcugen.cpp:296-299 | fixing a list's size keeps a well-formed task table |
| BlockLists.ListsAt | lcugen.cpp:284-308 | the block-list loop up to block n keeps a well-formed task table |
| BlockLists.AssignLists | lcugen.cpp:284-313 | the whole block-list pass keeps a well-formed task table |
| BlockLists.ListsAtStep | lcugen.cpp:294-308 | one iteration closes the current list when the loop depth changes, then places the block at the next position of the task that receives it |
| BlockLists.SpellOpen | lcugen.cpp:296-305 | closing the open list and starting the next with block b extends the spelt blocks by b |
| BlockLists.SpellExtend | lcugen.cpp:303-305 | appending block b to the open list extends the spelt blocks by b |
| BlockLists.SpellFirst | lcugen.cpp:285-290 | after block 0, the lists spell out block 0 |
| BlockLists.SpellNext | lcugen.cpp:294-308 | each iteration keeps the lists spelling out every block placed so far |
| BlockLists.SpellNextOpen | lcugen.cpp:296-305 | the same when the loop depth changes |
| BlockLists.SpellNextExtend | lcugen.cpp:303-305 | the same when it does not |
| BlockLists.SpellFinish | lcugen.cpp:310-313 | placing the last block and closing its list spells out every block |
| BlockLists.ListsAtOnlyLists | lcugen.cpp:284-308 | the loop writes only `bb_list` and `bb_list_size` |
| Classify.LastSameAddr | lcugen.cpp:326-338 | the result is the last earlier task with the given loop address, or none when there is none |
| Classify.FwdselPass | lcugen.cpp:320-341 | the pass changes only `fwdsel`. Take a Backward task j whose successor is still unresolved. If an earlier task has its address, `fwdsel[j]` becomes the `fwdsel` of the last such task plus 1 (mod 2^32); otherwise `fwdsel[j]` is unchanged |
| Classify.FwdselBound | lcugen.cpp:320-341 | starting from cleared `fwdsel`, task j's resolved `fwdsel` is at most j |
| Classify.ClassifiedKinds | lcugen.cpp:343-383 | after classification every task below `i_max` is Forward or Backward |
| Classify.ShiftedKinds | lcugen.cpp:357-360 | for i < `i_max`-1, task i's kind is the defaulted kind of task i+1 |
| Classify.FwdselWritesFwdsel | lcugen.cpp:320-341 | the `fwdsel` pass changes no field of a task but `fwdsel` |
| Classify.DefaultWritesKind | lcugen.cpp:343-355 | the defaulting pass changes no field of a task but its kind |
| Classify.ShiftWritesKind | lcugen.cpp:357-360 | the shift changes no field of a task but its kind |
| Classify.MarkWritesInnerLoop | lcugen.cpp:362-379 | the marking changes no field of a task but `inner_loop` |
| Classify.FixLastWritesLast | lcugen.cpp:381-383 | the fix-up changes only the last task, and only its loop address and kind |
| Classify.UnmarkedBeforeMarking | lcugen.cpp:320-360 | the stages before the marking leave every `inner_loop` flag as it was |
| Classify.MarkAt | lcugen.cpp:362-379 | slot j+1 (j below the bound) is set to 1 when slot j is Forward and slot j+1 Backward, and otherwise keeps its flag |
| Classify.MarkedAfter | lcugen.cpp:362-383 | on a table whose slot i+1 is unmarked, after marking and the fix-up that slot's flag is 1 exactly on a Forward-to-Backward transition from slot i, else 0 |
| Classify.FirstUnmarked | lcugen.cpp:363 | after marking and the fix-up, task 0 is not an inner loop |
| Classify.FixLastKeepsMarks | lcugen.cpp:381-383 | the fix-up leaves every `inner_loop` flag alone |
| Classify.KeepsAt | lcugen.cpp:320-383 | one slot after the classifier keeps its node bounds, task id, annotation and block list, and its loop address unless it is the last task |
| Classify.InnerLoops | lcugen.cpp:362-379 | with cleared flags, task i+1 is marked an inner loop exactly when task i is Forward and task i+1 Backward after the shift, before the fix-up; task 0 never is |
| Classify.LastIsBwd0 | lcugen.cpp:381-383 | the last task is Backward with loop address 0 |
| Classify.ClassifiedKeeps | lcugen.cpp:320-383 | the classifier keeps node bounds, task ids, annotations and block lists, and every loop address except the last task's |
| Classify.FwdselUpTo | lcugen.cpp:320-341 | the `fwdsel` pass up to task j keeps the table's length |
| Classify.Default | lcugen.cpp:343-355 | the defaulting pass keeps the table's length |
| Classify.ShiftUpTo | lcugen.cpp:357-360 | the shift up to task i keeps the table's length |
| Classify.MarkUpTo | lcugen.cpp:362-379 | the marking up to task i keeps the table's length |
| Classify.FixLast | lcugen.cpp:381-383 | the fix-up keeps the table's length |
| Classify.Classified | lcugen.cpp:320-383 | the five passes keep the table's length |
| Classify.MarkStep | lcugen.cpp:362-379 | one marking step sets slot i+1's flag on a Forward-to-Backward transition and changes no other slot |
| Classify.MarkOther | lcugen.cpp:362-379 | a marking step leaves every slot but i+1 alone |
| Graph.LoopHead | lcugen.cpp:1642-1654 | the result is the last Forward task before `i_max`-1 with `fwdsel` 0 and the given address, or none |
| Graph.ContinueEdge | lcugen.cpp:1627-1655 | an inner loop continues to itself; otherwise the row points at the loop head with weight 0, or keeps its stale head and weight |
| Graph.EdgeCountByKind | lcugen.cpp:1604-1671 | `edge_list_max` = #Forward + 2 x #Backward among tasks 0 .. `i_max`-2 |
| Graph.GraphFrame | lcugen.cpp:1604-1671 | rows beyond those written keep their old contents |
| Graph.RowsBeforeGrows | lcugen.cpp:1604-1671 | a task's rows come after all rows of the tasks before it |
| Graph.TaskRows | lcugen.cpp:1604-1669 | a Forward task i has the single edge (i, i+1, -1). A Backward task i has the continue edge followed by (i, i+1, 1) |
| Graph.TailOrder | lcugen.cpp:1604-1669 | edges appear in tail order |
| Graph.BackwardEdges | lcugen.cpp:1620-1665 | a Backward task with an inner-loop flag or a loop head owns exactly two consecutive edges: a weight-0 edge from it and (i, i+1, 1) |
| Graph.RowsOwned | lcugen.cpp:1604-1669 | every written row belongs to the task named by its tail |
| Graph.GraphNamesTasks | lcugen.cpp:1604-1669 | the edge builder only writes task slots into the edge list |
| Graph.GraphUpTo | lcugen.cpp:1604-1669 | the edge builder up to task i keeps the 100 rows |
| Graph.GraphTable | lcugen.cpp:1591-1675 | the whole edge builder keeps the 100 rows |
| Graph.GraphStepRows | lcugen.cpp:1604-1669 | task i-1's step keeps the earlier rows and writes rows whose tail is i-1 |
| Tcfg.RowCountByWeight | lcugen.cpp:1344-1390 | `cac_task_id_max` = 2 x #unconditional edges + #weight-0 edges + #weight-1 edges |
| Tcfg.RowCountGrows | lcugen.cpp:1344-1390 | an edge's rows come after the rows of the edges before it |
| Tcfg.TcfgFrame | lcugen.cpp:1344-1390 | rows beyond `cac_task_id_max` keep their old contents |
| Tcfg.EdgeRows | lcugen.cpp:1344-1390 | each edge's rows hold the tail's task id, the head's task id, the head's kind as `next_ttsel` (stale when the head is unresolved) and the head's loop address, in edge order; unconditional edges give two identical rows |
| Tcfg.CacLength | lcugen.cpp:1263-1333 | the `.cac` file has one entry per `TCFG` row |
| Tcfg.RowFor | lcugen.cpp:1344-1390 | the row written for an edge holds the tail's and the head's task ids and the head's loop address, and as `next_ttsel` the head's kind when it is Forward or Backward, else the stale value; partner `Tcfg.EdgeRows` |
| Tcfg.EntryFor | lcugen.cpp:1263-1333 | the entry numbered id describes the edge's head: its task id and loop address, and a `ttsel` exactly when the head is Forward or Backward, equal to its kind; partner `Tcfg.EntryDescribesRow` |
| Tcfg.EntriesOf | lcugen.cpp:1263-1333 | an edge prints two entries when unconditional, one for weight 0 or 1, none otherwise |
| Tcfg.EntryText | lcugen.cpp:1285-1302 | an entry prints as one line starting "ttlut_mem[0x" |
| Tcfg.EntryPiecesInLine | lcugen.cpp:1285-1302 | each assignment of an entry's line is free of line ends |
| Tcfg.EntriesText | lcugen.cpp:1285-1302 | the entries print one line each |
| Tcfg.CacText | lcugen.cpp:1263-1333 | the `.cac` body for n edges ends in a line end and has one comment line per edge, one line per entry and the closing blank line |
| Tcfg.CacPieces | lcugen.cpp:1263-1333 | adding an edge's comment and entries before the closing blank line adds one line plus the entries' lines |
| Tcfg.LutRowsOf | lcugen.cpp:882-930 | an edge's LUT rows carry its tail and head with a one-bit signal; a Forward tail gives the two signal values, a Backward tail one row on the edge's weight when it is 0 or 1, an unresolved tail none |
| Tcfg.LutRows | lcugen.cpp:882-930 | every LUT row's signal is one bit; partner `Tcfg.LutRowCount` |
| Tcfg.LutLine | lcugen.cpp:882-930 | a `when` row built from a signal character and two ROM words is one line whose selector starts with the signal |
| Tcfg.LutText | lcugen.cpp:882-930 | a LUT row prints as one `when` line whose selector starts with the signal bit |
| Tcfg.CacEntryAt | lcugen.cpp:1263-1333 | entry q of the `.cac` file carries id q and the task id, kind and loop address of `TCFG` row q |
| Tcfg.TcfgKeepsEarlier | lcugen.cpp:1335-1391 | the rows written for the last edge leave every row of the earlier edges unchanged |
| Tcfg.CacSplit | lcugen.cpp:1263-1333 | the `.cac` entries of the earlier edges come first, followed by those of the last edge |
| Tcfg.LastEdgeEntry | lcugen.cpp:1263-1391 | each `.cac` entry of the last edge describes the `TCFG` row written for it |
| Tcfg.CacMatchesTcfg | lcugen.cpp:1263-1391 | the `.cac` entries and the `TCFG` rows use the same numbering and the same contents |
| Tcfg.LutRowCount | lcugen.cpp:882-930 | the LUT has two rows per edge from a Forward task and one per weight-0/1 edge from a Backward task, and every row's tail and head come from an edge |
| Tcfg.TcfgUpTo | lcugen.cpp:1335-1391 | the flattening up to edge n keeps the 100 rows |
| Tcfg.EntryDescribesRow | lcugen.cpp:1263-1391 | the `.cac` entry printed for an edge describes the `TCFG` row written for it |
| Lookups.ListSearch | lcugen.cpp:501-508 | true exactly when the list holds the block among its first `size` entries |
| Lookups.BbTaskNum | lcugen.cpp:494-512 | the first task whose list contains the block, or -1 exactly when none does |
| Lookups.MaxOf | lcugen.cpp:429-453 | an upper bound of the values that is 0 or one of them |
| Lookups.AsInt | lcugen.cpp:558-588 | the signed value an unsigned field becomes when returned as `int`, congruent mod 2^32 |
| Lookups.MaxLoopNum | lcugen.cpp:558-572 | the largest loop address among tasks 0 .. n-1, as an `int` |
| Lookups.MaxTaskId | lcugen.cpp:574-588 | the largest task id among tasks 0 .. n-1, as an `int` |
| Lookups.MaxTaskIdOfNumbered | lcugen.cpp:574-588 | on a table numbered by slot the largest id is n-1 |
| Lookups.LastBwd | lcugen.cpp:521-528 | the last Backward task with the loop address, or none |
| Lookups.FirstHead | lcugen.cpp:541-552 | the first Forward task with `fwdsel` 0 and the loop address, or none |
| Lookups.LoopInitBbNum | lcugen.cpp:514-556 | for an inner loop, the last block of the task before the loop's Backward task. Otherwise the last block of the task before the loop's first head, or -1 when there is no head |
| Lookups.Bool2Uint | lcugen.cpp:590-600 | 1 for true, 0 for false |
| Lookups.TranslateChar | lcugen.cpp:602-612 | 'Y' gives 1 and 'N' gives 0 |
| Lookups.LoopAddrs | lcugen.cpp:445-453 | the loop addresses of tasks 0 .. n-1, in order |
| Lookups.Fwdsels | lcugen.cpp:429-437 | the `fwdsel` values of tasks 0 .. n-1, in order |
| Lookups.TaskIds | lcugen.cpp:574-588 | the task ids of tasks 0 .. n-1, in order |
| Lookups.FwdselsStep | lcugen.cpp:431-437 | one more task raises the running `fwdsel` maximum exactly when its `fwdsel` is larger |
| Lookups.LoopAddrsStep | lcugen.cpp:447-453 | one more task raises the running loop-address maximum exactly when its address is larger |
| Editors.RemoveTask | lcugen.cpp:1402-1433 | `i_max` drops by one (wrapping from 0) |
| Editors.RemoveKeepsNumbering | lcugen.cpp:1402-1433 | removing task i keeps tasks before i, moves each later task down one slot with its id renumbered, keeps its own block list in place, and leaves ids equal to slots |
| Editors.AssignEdges | lcugen.cpp:1438-1455 | the edge table keeps its length |
| Editors.AssignEdgesRedirects | lcugen.cpp:1438-1455 | every head j becomes j+1, nothing else changes, and rows beyond `edge_list_max` are untouched |
| Editors.RearrangeEdges | lcugen.cpp:1492-1512 | the edge table keeps its length |
| Editors.RenameFollowsRemoval | lcugen.cpp:1402-1512 | after removing task i, renaming the edges makes every edge point at the same task bodies as before |
| Editors.RenamedEndpoint | lcugen.cpp:1402-1512 | a renamed endpoint names the moved copy of the same task |
| Editors.ShiftDown | lcugen.cpp:1474-1480 | the edge table keeps its length |
| Editors.RemoveCommon | lcugen.cpp:1458-1489 | the new edge count is at most the old one |
| Editors.KeptCount | lcugen.cpp:1458-1489 | kept plus deleted edges account for every edge examined |
| Editors.DeleteStep | lcugen.cpp:1469-1486 | a deletion shifts the unexamined edges down one row |
| Editors.RemoveCommonFrom | lcugen.cpp:1458-1489 | the loop leaves the kept edges, in order, at the front |
| Editors.RemoveCommonEdgesKeeps | lcugen.cpp:1458-1489 | `edge_list_max` drops by the number of deletions, and the edges left are the kept ones in their original order |
| Editors.IsolatedDeletes | lcugen.cpp:1469-1486 | when no two edges from j are adjacent, an edge is deleted exactly when its tail is j |
| Editors.IsolatedRemovesAll | lcugen.cpp:1458-1489 | in that case the result is the list without the edges from j |
| Editors.WithoutTail | lcugen.cpp:1458-1489 | the edges left all come from the list and none has tail j |
| Editors.AdjacentEdgeSurvives | lcugen.cpp:1469-1486 | of two adjacent edges from j, the second survives, because the slid edge is not re-examined |
| Editors.RemoveCommonUnfold | lcugen.cpp:1469-1486 | one examined edge: deleted with the rest shifted down when its tail is j, otherwise kept |
| Editors.KeepStep | lcugen.cpp:1469-1486 | keeping an edge keeps the examined prefix aligned with the kept edges |
| Editors.DeleteSkipStep | lcugen.cpp:1469-1486 | a deletion skips the edge that slides into its slot |
| Editors.DeleteLastStep | lcugen.cpp:1469-1486 | a deletion of the last unexamined edge ends with the kept edges at the front |
| Lcu.Blanks | lcugen.cpp:1700-1720 | the reset table has 100 slots of 40 block-list entries |
| Lcu.TaskTotal | lcugen.cpp:282 | `i_max` is between 1 and 100 |
| Lcu.PresetBlanks | lcugen.cpp:190-204 | after the reset and the presets every slot begins at block 0 and has cleared `fwdsel`, loop address and `inner_loop`; its kind is Backward or unresolved |
| Lcu.ScanFacts | lcugen.cpp:206-282 | the scan numbers its tasks by slot and leaves them Forward, Backward or unresolved. It makes slot 0 `fwd0(0)` and leaves slot `i_max` and every `inner_loop` flag as they were |
| Lcu.ListFacts | lcugen.cpp:284-317 | block lists and node ends spell out every block and touch no other field; the last task ends at 0xFFFFFFFF; each list holds exactly its task's blocks and its size counts them |
| Lcu.ScannedFacts | lcugen.cpp:189-282 | the scanned table's facts, ready for the later stages |
| Lcu.PartitionedFacts | lcugen.cpp:189-317 | after the partitioner the tasks are numbered by slot and are Forward, Backward or unresolved, and all `inner_loop` flags are clear. Task 0 is `fwd0(0)`, the last task ends at 0xFFFFFFFF, and the block lists spell out blocks 0 .. last, each list holding exactly its task's blocks with `bb_list_size` counting them |
| Lcu.ClassifiedLists | lcugen.cpp:320-383 | the classifier keeps what the block lists spell |
| Lcu.ClassifiedNumbering | lcugen.cpp:320-383 | the classifier keeps the numbering and leaves only Forward and Backward tasks |
| Lcu.ClassifiedInnerLoops | lcugen.cpp:362-379 | every task's inner-loop flag is the Forward-then-Backward test on the shifted kinds |
| Lcu.ClassifiedLast | lcugen.cpp:381-383 | the last task is `bwd0` and keeps its node end |
| Lcu.ClassifiedFacts | lcugen.cpp:189-383 | what reaches the edge builder: tasks numbered by slot, all Forward or Backward, the last one `bwd0` ending at 0xFFFFFFFF, task 0 starting at block 0 and not an inner loop, inner loops exactly at Forward-to-Backward transitions, block lists spelling every block once, each holding exactly its task's blocks with `bb_list_size` counting them |
| Lcu.Partitioned | lcugen.cpp:189-317 | the partitioner keeps the 100 slots |
| Lcu.ClassifiedTable | lcugen.cpp:320-383 | the classifier keeps the 100 slots |
| Types.BlankTask | lcugen.cpp:1700-1720 | a cleared task whose 40 block-list entries are -1 |
| Lcu.LcuGen.constructor | lcugen.cpp:117-152 | all globals start zeroed |
| Lcu.LcuGen.InitTaskDataArr | lcugen.cpp:1700-1720 | every slot is cleared and its block list set to -1 |
| Lcu.LcuGen.PresetSlots | lcugen.cpp:194-204 | slots below `size_max` get address 0, id 0 and kind -1 |
| Lcu.LcuGen.Scan | lcugen.cpp:206-282 | the stack-driven scan leaves `ScanTable` and sets `i_max` to the task count |
| Lcu.LcuGen.AssignBlockLists | lcugen.cpp:284-313 | the loop leaves `AssignLists` |
| Lcu.LcuGen.SetNodeEnds | lcugen.cpp:316-317 | the loop leaves `NodeEnds` |
| Lcu.LcuGen.ResolveFwdsel | lcugen.cpp:320-341 | the nested loops leave `FwdselUpTo` |
| Lcu.LcuGen.ResolveOne | lcugen.cpp:326-338 | the inner search for one Backward task |
| Lcu.LcuGen.DefaultKinds | lcugen.cpp:343-355 | unresolved kinds become Forward |
| Lcu.LcuGen.ShiftKinds | lcugen.cpp:357-360 | each kind is taken from the next slot |
| Lcu.LcuGen.MarkInnerLoops | lcugen.cpp:362-379 | the marking loop leaves `MarkUpTo` |
| Lcu.LcuGen.FixLastTask | lcugen.cpp:381-383 | the last task becomes `bwd0` |
| Lcu.LcuGen.GenerateGraph | lcugen.cpp:1591-1675 | the edge list becomes `GraphTable` and `edge_list_max` the edge count |
| Lcu.LcuGen.FindLoopHead | lcugen.cpp:1640-1654 | the head search writes the loop head and weight 0, or leaves the row alone |
| Lcu.LcuGen.ComputeMaxima | lcugen.cpp:429-453 | `fwdsel_max` and `nlp` are the largest `fwdsel` and loop address below `i_max` |
| Lcu.LcuGen.GenerateTcfgEntries | lcugen.cpp:1335-1391 | `TCFG` becomes `TcfgUpTo`, and `cac_task_id_max` is the row count |
| Lcu.LcuGen.WriteRow | lcugen.cpp:1348-1386 | one `TCFG` row from an edge |
| Lcu.LcuGen.RemoveTaskData | lcugen.cpp:1402-1433 | the table and `i_max` become `RemoveTask` |
| Lcu.LcuGen.AssignEdgesTo | lcugen.cpp:1438-1455 | the edges become `AssignEdges` |
| Lcu.LcuGen.RemoveCommonEdges | lcugen.cpp:1458-1489 | the edges and `edge_list_max` become `RemoveCommon` |
| Lcu.LcuGen.RearrangeEdgeList | lcugen.cpp:1492-1512 | the edges become `RearrangeEdges` |
| Lcu.LcuGen.Partition | lcugen.cpp:189-317 | the partitioning half leaves `Partitioned` and `i_max` = `TaskTotal`, and leaves `edge_list_max`, `cac_task_id_max`, `fwdsel_max` and `nlp` unchanged |
| Lcu.LcuGen.Classify | lcugen.cpp:320-383 | the five classifier passes leave `Classified` |
| Lcu.LcuGen.Lcugen | lcugen.cpp:156-459 | the whole run leaves the classified table, its edge list and count, the field maxima, edges that name task slots, and `TCFG` with `cac_task_id_max` |
| Lcu.LcuGen.ScanBlock | lcugen.cpp:218-280 | one block of the scan advances the task count, the address counter, the stack and the table to their values after that block |
| Lcu.LcuGen.AppendBlock | lcugen.cpp:294-308 | one block of the list loop advances the task index, the list position and the table as `ListsAt` says |
| Lcu.LcuGen.PlaceBlock | lcugen.cpp:303-305 | the table becomes `Place` |
| Lcu.LcuGen.CloseTask | lcugen.cpp:296-299 | the table becomes `Close` |
| Lcu.LcuGen.GraphStep | lcugen.cpp:1604-1669 | one task of the edge builder advances the row counter and the edge list to `GraphUpTo` of the next task |
| Lcu.LcuGen.FwdselMaximum | lcugen.cpp:429-437 | the loop returns the largest `fwdsel` below `i_max` |
| Lcu.LcuGen.LoopAddrMaximum | lcugen.cpp:445-453 | the loop returns the largest loop address below `i_max` |
| Lcu.LcuGen.RemoveCommonStep | lcugen.cpp:1469-1486 | one examined edge: the rest of the loop computes the same result as before the step |
| Lcu.LcuGen.ShiftEdgesDown | lcugen.cpp:1474-1480 | the edges become `ShiftDown` |

## Left out

- Reading the natural-loop information from the SUIF CFG (lcugen.cpp:172-186) is
  foreign calls. The model takes the three flag arrays and `size_max` as input
  (`Types.Cfg`).
- Output is I/O. This covers file-name building and `fopen` (lcugen.cpp:461-491),
  the fixed VHDL/VCG header text, `ctime` timestamps and every `dbg_printf`. The
  `.cac` entries and the LUT rows are modelled as values and text. The VCG and
  FSM writers (lcugen.cpp:945-1261) are not modelled beyond the namers they call,
  and neither are `print_weight` or `show_item`/`show_stack`.
- `load_annot_file` (lcugen.cpp:1513-1589) is commented out in the source.
- `lsr_by_1` (lcugen.cpp:1393-1400) is never called.
- tcfggen.cpp, suif_pass.cpp and the headers are SUIF glue and are not part of
  this model. lcugen.h is used only for the record layouts.
- A `malloc` failure in `push` is not modelled: push always succeeds.
- The stack's linked nodes are a sequence, so node aliasing and `free` are not
  modelled.
- The editors (`remove_task_data`, `assign_edges`, `remove_common_edges`,
  `rearrange_edge_list`) are never called by `lcugen`. They are modelled as
  stand-alone operations on the class.
- Undefined behaviour in the source becomes preconditions:
  - `get_item` on an empty stack returns an uninitialised value. `TopDefined`
    requires every loop-end block to leave an enclosing address on the stack.
    This excludes every procedure in which an outermost loop closes before the
    last block.
  - `translate_char` on a character other than 'Y' or 'N'.
  - `dectobin` with 0 bits (`1 << -1`), or with more than 10 bits, where the
    result overflows 32 bits.
  - `get_loop_initialization_bb_num` with no Backward task for the loop
    (uninitialised `bwd_task_id`), or one that reads the task before task 0.
  - More than 100 tasks, more than 40 blocks in one task, or more than 100 edges
    or `TCFG` rows (`Partitionable`, `ListsFit`, `Admissible`).
- Lcu.LcuGen.Lcugen: also requires the old edge table to name task slots and its
  flattened rows to fit `TCFG`. Stale rows from a continue edge without a loop
  head are read by the flattening, and the source does not bound them.
- Bits.IPow: requires an exponent below 2^32-1. The source's unsigned counter in
  `for (i=1; i<=y; i++)` wraps to 0 at y = 0xFFFFFFFF, so that call never
  returns. The only caller, `dectobin`, passes at most 9.
- Lookups.LoopInitBbNum: its first loop reads the global table while the others
  read the table passed in. The model uses one table for both.
- Render.RomDataBits: states the printed word only for field widths up to 5. For
  wider fields the source prints nothing for that field, which the model follows
  but no lemma states.
- Editors.RemoveTask, Editors.AssignEdges, Editors.RearrangeEdges,
  Editors.ShiftDown, Editors.RemoveCommon: their own ensures state only lengths
  and bounds. What they compute is stated by the lemmas that follow each of them.
- Partition.Preset, Partition.TasksAt, BlockLists.Place, BlockLists.Close,
  BlockLists.ListsAt, BlockLists.AssignLists, Classify.FwdselUpTo,
  Classify.Default, Classify.ShiftUpTo, Classify.MarkUpTo, Classify.FixLast,
  Classify.Classified, Graph.GraphUpTo, Graph.GraphTable, Tcfg.TcfgUpTo,
  Lcu.Partitioned, Lcu.ClassifiedTable: their own ensures state only the table's
  length or shape. What they compute is stated by the lemmas about each stage.
