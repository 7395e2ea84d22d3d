/** Text renderings of a task: its names (lcugen.cpp:1021-1054) and the ROM word
    `print_rom_data` writes (lcugen.cpp:745-796), with a decoder for that word. */
module Render {
  import opened Types
  import opened Bits

  const INT_LIMIT: nat := 0x8000_0000

  /** `printf("%d", v)` applied to an unsigned value: the bits are read as a signed
      32-bit integer. */
  function PercentD(v: nat): (s: string)
    requires v < WORD
    ensures v < INT_LIMIT ==> s == Decimal(v)
    ensures 1 <= |s| && Numeral(s) && '0' <= s[|s| - 1] <= '9'
  {
    if v < INT_LIMIT then Decimal(v) else SignedDecimal(v - WORD)
  }

  /** Every field a name prints fits an unsigned word. */
  predicate Printable(x: Task)
  {
    x.loopAddr < WORD && x.fwdsel < WORD
  }

  /** `sprint_data_task`: "bwd<addr>" for a Backward task, "fwd<addr>(<fwdsel>)" for
      any other. */
  function SprintDataTask(x: Task): (r: string)
    requires Printable(x)
    ensures |r| >= 4 && r[..3] == (if x.kind == BWD then "bwd" else "fwd")
    ensures r[|r| - 1] == ')' <==> x.kind != BWD
    ensures NewLines(r) == 0
  {
    var r := if x.kind == BWD then "bwd" + PercentD(x.loopAddr)
      else "fwd" + PercentD(x.loopAddr) + "(" + PercentD(x.fwdsel) + ")";
    InLineNoNewLines(r);
    r
  }

  /** `print_data_task`: "bwd" or "fwd", the address, and "(<fwdsel>)" only for a
      Forward task. */
  function PrintDataTask(x: Task): (r: string)
    requires Printable(x)
    ensures |r| >= 4 && r[..3] == (if x.kind == BWD then "bwd" else "fwd")
    ensures r[|r| - 1] == ')' <==> x.kind == FWD
    ensures NewLines(r) == 0
  {
    var r := (if x.kind == BWD then "bwd" else "fwd") + PercentD(x.loopAddr)
      + (if x.kind == FWD then "(" + PercentD(x.fwdsel) + ")" else "");
    InLineNoNewLines(r);
    r
  }

  /** `print_data_task_fsm`: as `print_data_task`, with "_<fwdsel>" for the VHDL
      state name. */
  function PrintDataTaskFsm(x: Task): (r: string)
    requires Printable(x)
    ensures |r| >= 4 && r[..3] == (if x.kind == BWD then "bwd" else "fwd")
    ensures '_' in r <==> x.kind == FWD
    ensures NewLines(r) == 0
  {
    var r := (if x.kind == BWD then "bwd" else "fwd") + PercentD(x.loopAddr)
      + (if x.kind == FWD then "_" + PercentD(x.fwdsel) else "");
    InLineNoNewLines(r);
    r
  }

  // ---------------------------------------------------------------------------
  // Names identify tasks
  // ---------------------------------------------------------------------------

  predicate AllDigits(s: string)
  {
    forall k :: 0 <= k < |s| ==> '0' <= s[k] <= '9'
  }

  /** A run of digits followed by text that does not start with a digit splits in
      one way only. */
  lemma DigitsSplit(d1: string, x: string, d2: string, y: string)
    requires AllDigits(d1) && AllDigits(d2)
    requires x == [] || !('0' <= x[0] <= '9')
    requires y == [] || !('0' <= y[0] <= '9')
    requires d1 + x == d2 + y
    ensures d1 == d2 && x == y
  {
    assert d1 == (d1 + x)[..|d1|] && d2 == (d2 + y)[..|d2|];
    assert x == (d1 + x)[|d1|..] && y == (d2 + y)[|d2|..];
  }

  /** A three-letter prefix, a run of digits and a tail not starting with a digit
      split in one way only. */
  lemma NameSplit(p1: string, d1: string, t1: string, p2: string, d2: string, t2: string)
    requires |p1| == 3 && |p2| == 3 && AllDigits(d1) && AllDigits(d2)
    requires t1 == [] || !('0' <= t1[0] <= '9')
    requires t2 == [] || !('0' <= t2[0] <= '9')
    requires p1 + d1 + t1 == p2 + d2 + t2
    ensures p1 == p2 && d1 == d2 && t1 == t2
  {
    var s1, s2 := p1 + d1 + t1, p2 + d2 + t2;
    assert p1 == s1[..3] && p2 == s2[..3];
    assert d1 + t1 == s1[3..] && d2 + t2 == s2[3..];
    DigitsSplit(d1, t1, d2, t2);
  }

  /** Fields of a classified task that print as plain decimals. */
  predicate Nameable(x: Task)
  {
    x.kind in {BWD, FWD} && x.loopAddr < INT_LIMIT && x.fwdsel < INT_LIMIT
  }

  lemma {:induction false} DecimalDigits(v: nat)
    ensures AllDigits(Decimal(v))
  {
  }

  /** A name splits into its prefix, its address and its tail. */
  lemma NamesSplit(a: Task, b: Task, ta: string, tb: string)
    requires Nameable(a) && Nameable(b)
    requires ta == [] || !('0' <= ta[0] <= '9')
    requires tb == [] || !('0' <= tb[0] <= '9')
    requires (if a.kind == BWD then "bwd" else "fwd") + Decimal(a.loopAddr) + ta
          == (if b.kind == BWD then "bwd" else "fwd") + Decimal(b.loopAddr) + tb
    ensures a.kind == b.kind && a.loopAddr == b.loopAddr && ta == tb
  {
    var pa: string := if a.kind == BWD then "bwd" else "fwd";
    var pb: string := if b.kind == BWD then "bwd" else "fwd";
    DecimalDigits(a.loopAddr);
    DecimalDigits(b.loopAddr);
    NameSplit(pa, Decimal(a.loopAddr), ta, pb, Decimal(b.loopAddr), tb);
    DecimalInjective(a.loopAddr, b.loopAddr);
    assert pa[0] == pb[0];
  }

  /** Two classified tasks with the same `print_data_task` name have the same kind
      and loop address, and, when Forward, the same `fwdsel`. */
  lemma PrintDataTaskInjective(a: Task, b: Task)
    requires Nameable(a) && Nameable(b)
    requires PrintDataTask(a) == PrintDataTask(b)
    ensures a.kind == b.kind && a.loopAddr == b.loopAddr
    ensures a.kind == FWD ==> a.fwdsel == b.fwdsel
  {
    var ta: string := if a.kind == FWD then "(" + Decimal(a.fwdsel) + ")" else "";
    var tb: string := if b.kind == FWD then "(" + Decimal(b.fwdsel) + ")" else "";
    assert PrintDataTask(a) == (if a.kind == BWD then "bwd" else "fwd") + Decimal(a.loopAddr) + ta;
    assert PrintDataTask(b) == (if b.kind == BWD then "bwd" else "fwd") + Decimal(b.loopAddr) + tb;
    NamesSplit(a, b, ta, tb);
    if a.kind == FWD {
      ParenInjective(a.fwdsel, b.fwdsel);
    }
  }

  lemma ParenStrip(f: string)
    ensures ("(" + f + ")")[1..] == f + ")"
  {
  }

  /** "(<x>)" names x. */
  lemma ParenInjective(x: nat, y: nat)
    requires "(" + Decimal(x) + ")" == "(" + Decimal(y) + ")"
    ensures x == y
  {
    var fx, fy := Decimal(x), Decimal(y);
    ParenStrip(fx);
    ParenStrip(fy);
    DecimalDigits(x);
    DecimalDigits(y);
    DigitsSplit(fx, ")", fy, ")");
    DecimalInjective(x, y);
  }

  /** The same holds of the FSM state names. */
  lemma PrintDataTaskFsmInjective(a: Task, b: Task)
    requires Nameable(a) && Nameable(b)
    requires PrintDataTaskFsm(a) == PrintDataTaskFsm(b)
    ensures a.kind == b.kind && a.loopAddr == b.loopAddr
    ensures a.kind == FWD ==> a.fwdsel == b.fwdsel
  {
    var fa, fb := Decimal(a.fwdsel), Decimal(b.fwdsel);
    var ta: string := if a.kind == FWD then "_" + fa else "";
    var tb: string := if b.kind == FWD then "_" + fb else "";
    NamesSplit(a, b, ta, tb);
    if a.kind == FWD {
      assert ta[1..] == fa && tb[1..] == fb;
      DecimalInjective(a.fwdsel, b.fwdsel);
    }
  }

  /** For classified tasks `sprint_data_task` names exactly as `print_data_task`. */
  lemma SprintMatchesPrint(x: Task)
    requires Printable(x) && x.kind in {BWD, FWD}
    ensures SprintDataTask(x) == PrintDataTask(x)
  {
  }

  // ---------------------------------------------------------------------------
  // The ROM word
  // ---------------------------------------------------------------------------

  /** `log2(max + 1)` in unsigned arithmetic: the field width for values up to max. */
  function Width(max: nat): (w: nat)
    requires max < WORD
    ensures max + 1 < WORD ==> max < Pow2(w) && (w == 0 || Pow2(w - 1) <= max)
    ensures max + 1 == WORD ==> w == 32
  {
    Log2Of((max + 1) % WORD)
  }

  /** The `fwdsel` field: widths 1 to 5 print `dectobin` zero-padded to the width;
      any other width prints nothing. */
  function FwdselField(fwdsel: nat, w: nat): (r: string)
    ensures 1 <= w <= 5 ==> r == Itob(fwdsel, w)
    ensures !(1 <= w <= 5) ==> r == ""
    ensures AllDigits(r)
  {
    if 1 <= w <= 5 then
      PrintedDecToBinIsItob(fwdsel, w);
      Padded(DecDigits(fwdsel, w), w)
    else ""
  }

  /** The `loop_addr` field: widths 0 and 1 print `dectobin` with "%d" (at width 0
      both loops of `dectobin` are skipped and 0 is printed), widths 2 to 5
      zero-padded; any other width prints nothing. */
  function LoopAddrField(loopAddr: nat, w: nat): (r: string)
    ensures 1 <= w <= 5 ==> r == Itob(loopAddr, w)
    ensures w == 0 ==> r == "0"
    ensures w > 5 ==> r == ""
    ensures AllDigits(r)
  {
    if 1 <= w <= 5 then
      PrintedDecToBinIsItob(loopAddr, w);
      Padded(DecDigits(loopAddr, w), w)
    else if w == 0 then
      assert Decimal(0) == "0";
      Padded(DecDigits(loopAddr, w), w)
    else ""
  }

  /** `print_rom_data`: the kind with "%d", then the two fields. */
  function RomData(x: Task, fwdselMax: nat, nlp: nat): (r: string)
    requires fwdselMax < WORD && nlp < WORD
    ensures 1 <= |r| && (x.kind in {BWD, FWD} ==> r[0] == (if x.kind == FWD then '1' else '0'))
    ensures Numeral(r)
  {
    var k := SignedDecimal(x.kind);
    assert 1 <= |k| && Numeral(k) && (x.kind in {BWD, FWD} ==> k[0] == (if x.kind == FWD then '1' else '0'));
    var f, l := FwdselField(x.fwdsel, Width(fwdselMax)), LoopAddrField(x.loopAddr, Width(nlp));
    assert Numeral(f) && Numeral(l);
    k + f + l
  }

  /** The reference decoder of a ROM word with field widths wf and wl. */
  function DecodeRom(s: string, wf: nat, wl: nat): (int, nat, nat)
    requires |s| >= 1 + wf
  {
    (if s[0] == '1' then FWD else BWD, BitsValue(s[1..1 + wf]), BitsValue(s[1 + wf..]))
  }

  /** With widths up to five bits each field is the binary string `itob` writes,
      most significant bit first; a zero-width address still prints one "0". */
  lemma RomDataBits(x: Task, fwdselMax: nat, nlp: nat)
    requires fwdselMax < WORD && nlp < WORD
    requires x.kind in {BWD, FWD} && Width(fwdselMax) <= 5 && Width(nlp) <= 5
    ensures var wl := Width(nlp);
      RomData(x, fwdselMax, nlp)
      == (if x.kind == FWD then "1" else "0") + Itob(x.fwdsel, Width(fwdselMax))
         + (if wl == 0 then "0" else Itob(x.loopAddr, wl))
  {
    var wf, wl := Width(fwdselMax), Width(nlp);
    if wf >= 1 {
      PrintedDecToBinIsItob(x.fwdsel, wf);
    }
    if wl >= 1 {
      PrintedDecToBinIsItob(x.loopAddr, wl);
    }
  }

  /** A field width taken from a maximum holds every value up to that maximum. */
  lemma WidthHolds(max: nat, v: nat)
    requires max + 1 < WORD && v <= max
    ensures v < Pow2(Width(max))
    ensures Width(max) == 0 ==> v == 0
  {
    assert (max + 1) % WORD == max + 1;
    FieldWidthMinimal(max);
  }

  /** Decoding the ROM word gives back the kind, `fwdsel` and loop address of every
      classified task whose fields lie within the maxima the widths were taken
      from. */
  lemma RomRoundTrip(x: Task, fwdselMax: nat, nlp: nat)
    requires fwdselMax + 1 < WORD && nlp + 1 < WORD
    requires x.kind in {BWD, FWD} && x.fwdsel <= fwdselMax && x.loopAddr <= nlp
    requires Width(fwdselMax) <= 5 && Width(nlp) <= 5
    ensures |RomData(x, fwdselMax, nlp)| >= 1 + Width(fwdselMax)
    ensures DecodeRom(RomData(x, fwdselMax, nlp), Width(fwdselMax), Width(nlp)) == (x.kind, x.fwdsel, x.loopAddr)
  {
    var wf, wl := Width(fwdselMax), Width(nlp);
    RomDataBits(x, fwdselMax, nlp);
    WidthHolds(fwdselMax, x.fwdsel);
    WidthHolds(nlp, x.loopAddr);
    var k: string := if x.kind == FWD then "1" else "0";
    var f := Itob(x.fwdsel, wf);
    var l: string := if wl == 0 then "0" else Itob(x.loopAddr, wl);
    var s := k + f + l;
    assert RomData(x, fwdselMax, nlp) == s;
    assert s[1..1 + wf] == f && s[1 + wf..] == l;
    ItobDecodes(x.fwdsel, wf);
    if wl == 0 {
      assert BitsValue("0") == 0 by {
        assert "0"[1..] == [];
      }
    } else {
      ItobDecodes(x.loopAddr, wl);
    }
  }
}
