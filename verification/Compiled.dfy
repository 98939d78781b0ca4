/**
 What validation leaves with a function: its linked jump table and its peak stack size; and
 what that table satisfies for accepted, well-nested code.
 */
module Compiled {
  import opened Basics
  import opened Wasm
  import opened Decoder
  import opened Validation
  import opened Invariants
  import opened JumpTable
  import opened Nesting

  datatype Prepared = Prepared(jt: seq<Entry>, peak: nat)

  function PreparedOf(v: VState): Prepared {
    Prepared(Link(Entries(v.slots)), v.peak)
  }

  function Compile(m: Module, f: Func): Option<Prepared> {
    var v :- Validate(Ctx(m, f, false, false));
    Some(PreparedOf(v))
  }

  // ----- The final table -----

  // The function is accepted, its brackets close at its last byte, and its labels take one byte each.
  ghost predicate Accepted(c: Ctx, b: Body) {
    Encodes(c.m, c.f.code, b) && OneByteLabels(b) && Validate(c).Some?
  }

  // The state in which the function's last `end` is met.
  function Final(c: Ctx, b: Body): Option<VState> {
    Run(c, b, 0, Begin(c))
  }

  lemma BeginShape(c: Ctx)
    ensures Shape(Begin(c)) && Begin(c).slots == [] && Begin(c).vals == []
    ensures Begin(c).ctrl == [Frame(FuncK, c.f.ftype, 0, false, 0)]
  {
  }

  // The slots of an accepted function lie in order inside its code, and wait for nothing but the function's end.
  lemma AcceptedSlots(c: Ctx, b: Body)
    requires Accepted(c, b)
    ensures Final(c, b).Some? && Runs(c, b, 0, Begin(c), Final(c, b).value)
    ensures var v1 := Final(c, b).value;
            && Evolves(Begin(c), v1, 0, Size(b)) && Shape(v1) && |v1.ctrl| == 1
            && Top(v1).kind.FuncK? && Top(v1).height == 0 && Top(v1).ftype == c.f.ftype
            && Step(c, v1, EndOp, Size(b), 1) == Validate(c)
            && Within(v1.slots, 0, Size(b))
            && Validate(c).value.slots == ResolveAll(v1.slots, 0, Size(b))
  {
    hide Run, Laid, Decode, Step, Validate, ResolveAll;
    ValidateRun(c, b);
    BeginShape(c);
    var v1 := Final(c, b).value;
    RunEvolves(c, b, 0, Begin(c), v1);
    EndTable(c, v1, Size(b), Validate(c).value);
    assert v1.slots == v1.slots[|Begin(c).slots|..];
  }

  // Every slot of the final table has been given its target.
  lemma AllPatched(c: Ctx, b: Body)
    requires Accepted(c, b)
    ensures forall k :: 0 <= k < |Validate(c).value.slots| ==> Validate(c).value.slots[k].target.At?
  {
    hide Run, Laid, Decode, Validate, Evolves;
    AcceptedSlots(c, b);
  }

  // The link of every slot is the first slot beyond its target, or the mark for "none".
  lemma AllLinked(c: Ctx, b: Body, k: nat)
    requires Accepted(c, b) && k < |PreparedOf(Validate(c).value).jt|
    ensures Sorted(PreparedOf(Validate(c).value).jt) && LinkOk(PreparedOf(Validate(c).value).jt, k)
  {
    hide Run, Laid, Decode, Validate, Evolves, Link, FirstAfter, Entries;
    AcceptedSlots(c, b);
    var slots := Validate(c).value.slots;
    var jt0 := Entries(slots);
    FinalTable(c, b);
    LinkFinds(jt0, k);
    LinkKeeps(jt0, jt0[k].pc + jt0[k].jump);
    assert !SelfJump(jt0, k) by {
      FirstAfterFacts(jt0, jt0[k].pc);
    }
  }

  lemma FirstAfterFacts(jt: seq<Entry>, t: int)
    ensures FirstAfter(jt, t) <= |jt|
    ensures FirstAfter(jt, t) < |jt| ==> jt[FirstAfter(jt, t)].pc > t
  {
  }

  // The table before linking is sorted; a slot that jumps to itself sits on the function's last end.
  lemma FinalTable(c: Ctx, b: Body)
    requires Accepted(c, b)
    ensures var jt0 := Entries(Validate(c).value.slots);
            && Sorted(jt0)
            && forall k :: 0 <= k < |jt0| ==>
                 && jt0[k].next == NO_NEXT
                 && 0 < jt0[k].pc <= Size(b)
                 && (jt0[k].jump == 0 ==> jt0[k].pc == Size(b))
  {
    hide Run, Laid, Decode, Validate, Evolves;
    AcceptedSlots(c, b);
  }

  // Linking touches nothing that the search for a slot looks at.
  lemma LinkKeeps(jt: seq<Entry>, t: int)
    ensures FirstAfter(Link(jt), t) == FirstAfter(jt, t)
    ensures Sorted(jt) ==> Sorted(Link(jt))
    ensures forall k :: 0 <= k < |jt| ==> Link(jt)[k] == jt[k].(next := Link(jt)[k].next)
  {
    hide NextOf;
    FirstAfterUnique(Link(jt), t, FirstAfter(jt, t));
  }
}
