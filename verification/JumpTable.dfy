/**
 The jump table as the interpreter reads it, and the final pass that links each slot to the
 next slot met after its jump.
 */
module JumpTable {
  import opened Validation

  // `jump` is relative to `pc`; `next` is the table index after the jump, a 16-bit number.
  datatype Entry = Entry(pc: nat, jump: int, offset: nat, arity: nat, next: nat)

  const NO_NEXT := 65535

  function Offset(s: Slot): int {
    if s.target.At? then s.target.pc - s.pc else 0
  }

  // The table before linking. A slot that never learned its target keeps a zero offset.
  function Entries(s: seq<Slot>): (r: seq<Entry>)
    ensures |r| == |s|
  {
    seq(|s|, k requires 0 <= k < |s| => Entry(s[k].pc, Offset(s[k]), s[k].offset, s[k].arity, NO_NEXT))
  }

  // The first index from j upwards whose slot lies beyond t, cut to 16 bits.
  function ScanUp(jt: seq<Entry>, t: int, j: nat): nat
    decreases |jt| - j
  {
    if j >= |jt| then NO_NEXT
    else if jt[j].pc > t then j % 0x1_0000
    else ScanUp(jt, t, j + 1)
  }

  // The last index met going down from j - 1 while slots lie beyond t, cut to 16 bits.
  function ScanDown(jt: seq<Entry>, t: int, j: nat, found: nat): nat
    requires j <= |jt|
  {
    if j == 0 || jt[j - 1].pc <= t then found
    else ScanDown(jt, t, j - 1, (j - 1) % 0x1_0000)
  }

  function NextOf(jt: seq<Entry>, i: nat): nat
    requires i < |jt|
  {
    var t := jt[i].pc + jt[i].jump;
    if jt[i].jump > 0 then ScanUp(jt, t, i + 1) else ScanDown(jt, t, i + 1, jt[i].next)
  }

  function Link(jt: seq<Entry>): (r: seq<Entry>)
    ensures |r| == |jt|
  {
    seq(|jt|, i requires 0 <= i < |jt| => jt[i].(next := NextOf(jt, i)))
  }

  // ----- What linking is for -----

  // The least index whose slot lies beyond t, or the size of the table.
  function FirstAfter(jt: seq<Entry>, t: int): (k: nat)
    ensures k <= |jt|
    ensures forall i :: 0 <= i < k ==> jt[i].pc <= t
    ensures k < |jt| ==> jt[k].pc > t
  {
    if jt == [] then 0
    else if jt[0].pc > t then 0
    else 1 + FirstAfter(jt[1..], t)
  }

  // The link of entry k is the first slot beyond its target, or the mark for "none".
  predicate LinkOk(jt: seq<Entry>, k: nat)
    requires k < |jt|
  {
    var first := FirstAfter(jt, jt[k].pc + jt[k].jump);
    jt[k].next == if first == |jt| then NO_NEXT else first % 0x1_0000
  }

  predicate Sorted(jt: seq<Entry>) {
    forall i, j :: 0 <= i < j < |jt| ==> jt[i].pc <= jt[j].pc
  }

  lemma FirstAfterUnique(jt: seq<Entry>, t: int, k: nat)
    requires k <= |jt| && (forall i :: 0 <= i < k ==> jt[i].pc <= t) && (k < |jt| ==> jt[k].pc > t)
    ensures FirstAfter(jt, t) == k
  {
  }

  lemma {:induction false} ScanUpFinds(jt: seq<Entry>, t: int, j: nat)
    requires j <= |jt| && forall i :: 0 <= i < j ==> jt[i].pc <= t
    ensures ScanUp(jt, t, j) == if FirstAfter(jt, t) < |jt| then FirstAfter(jt, t) % 0x1_0000 else 65535
    decreases |jt| - j
  {
    if j == |jt| || jt[j].pc > t {
      FirstAfterUnique(jt, t, j);
    } else {
      ScanUpFinds(jt, t, j + 1);
    }
  }

  lemma {:induction false} ScanDownFinds(jt: seq<Entry>, t: int, j: nat, found: nat)
    requires Sorted(jt) && j < |jt| && jt[j].pc > t && found == j % 0x1_0000
    ensures ScanDown(jt, t, j, found) == FirstAfter(jt, t) % 0x1_0000 && FirstAfter(jt, t) <= j
  {
    if j == 0 || jt[j - 1].pc <= t {
      FirstAfterUnique(jt, t, j);
    } else {
      ScanDownFinds(jt, t, j - 1, (j - 1) % 0x1_0000);
    }
  }

  // A slot that jumps to its own position looks only at itself, and so misses any later slot.
  predicate SelfJump(jt: seq<Entry>, i: nat)
    requires i < |jt|
  {
    jt[i].jump == 0 && FirstAfter(jt, jt[i].pc) < |jt|
  }

  // In a sorted table linking finds the first slot beyond the target, cut to 16 bits, or reports
  // that there is none; except for a self-jump, where it always reports none.
  lemma LinkFinds(jt: seq<Entry>, i: nat)
    requires Sorted(jt) && i < |jt| && jt[i].next == NO_NEXT
    ensures var first := FirstAfter(jt, jt[i].pc + jt[i].jump);
            Link(jt)[i].next
            == if SelfJump(jt, i) || first == |jt| then 65535 else first % 0x1_0000
  {
    hide FirstAfter, ScanUp, Sorted;
    LinkAt(jt, i);
    hide Link;
    var t := jt[i].pc + jt[i].jump;
    if jt[i].jump > 0 {
      ScanUpFinds(jt, t, i + 1);
    } else if jt[i].pc > t {
      assert ScanDown(jt, t, i + 1, NO_NEXT) == ScanDown(jt, t, i, i % 0x1_0000);
      ScanDownFinds(jt, t, i, i % 0x1_0000);
    } else {
      assert jt[i].jump == 0;
    }
  }

  lemma LinkAt(jt: seq<Entry>, i: nat)
    requires Sorted(jt) && i < |jt|
    ensures Link(jt)[i].next == NextOf(jt, i) && forall k :: 0 <= k <= i ==> jt[k].pc <= jt[i].pc
  {
    hide NextOf;
  }

  // So the link is the index the interpreter needs if and only if that index exists, fits 16
  // bits, and the slot is not a self-jump.
  lemma LinkRight(jt: seq<Entry>, i: nat)
    requires Sorted(jt) && i < |jt| && jt[i].next == NO_NEXT
    ensures var first := FirstAfter(jt, jt[i].pc + jt[i].jump);
            first < |jt| ==>
              (Link(jt)[i].next == first <==> first < 0x1_0000 && (SelfJump(jt, i) ==> first == 65535))
  {
    hide FirstAfter, Link;
    LinkFinds(jt, i);
  }
}
