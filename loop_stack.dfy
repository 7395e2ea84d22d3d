/** The linked-list stack of loop addresses the partitioner scans with
    (lcugen.cpp:614-685). The list nodes are represented by the sequence of the
    addresses they hold, bottom first, so the top of stack is the last element. */
module LoopStack {

  /** `push`: the new node becomes the top of stack. */
  function PushSeq(s: seq<nat>, item: nat): (r: seq<nat>)
    ensures |r| == |s| + 1 && r[|s|] == item && r[..|s|] == s
  {
    s + [item]
  }

  /** `pop`: the item removed and the stack left behind. Popping an empty stack
      reports an error, yields the character constant '\0', that is 0, and leaves
      the stack empty. */
  function PopSeq(s: seq<nat>): (r: (nat, seq<nat>))
    ensures s == [] ==> r == (0, [])
    ensures s != [] ==> s == r.1 + [r.0]
  {
    if s == [] then (0, []) else (s[|s| - 1], s[..|s| - 1])
  }

  /** `pop` after `push(x)` hands back x and the stack as it was. */
  lemma PopAfterPush(s: seq<nat>, x: nat)
    ensures PopSeq(PushSeq(s, x)) == (x, s)
  {
    assert PushSeq(s, x)[..|s|] == s;
  }

  /** `get_item`: the address at the top of stack; on an empty stack the source
      returns an uninitialised value, so the stack must hold something. */
  function Top(s: seq<nat>): (top: nat)
    requires s != []
    ensures top in s
    ensures PopSeq(s).0 == top
  {
    s[|s| - 1]
  }

  class AddressStack {
    /** The addresses held by the nodes, bottom first. */
    var items: seq<nat>

    /** `LNODE *stacka = NULL`. */
    constructor ()
      ensures items == []
    {
      items := [];
    }

    /** `empty`: TRUE (1) exactly when no node is linked. */
    function Empty(): (e: nat)
      reads this
      ensures e <= 1
      ensures e == 1 <==> items == []
    {
      if items == [] then 1 else 0
    }

    /** `get_item`. */
    function GetItem(): (top: nat)
      reads this
      requires items != []
      ensures top in items && top == PopSeq(items).0
    {
      Top(items)
    }

    /** `push`. The allocation failure branch (which only prints) is not modelled. */
    method Push(item: nat)
      modifies this
      ensures items == PushSeq(old(items), item)
    {
      items := items + [item];
    }

    /** `pop`. */
    method Pop() returns (item: nat)
      modifies this
      ensures (item, items) == PopSeq(old(items))
    {
      if Empty() == 1 {
        item := 0;
      } else {
        item := items[|items| - 1];
        items := items[..|items| - 1];
      }
    }
  }
}
