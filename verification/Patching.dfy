/**
 When a slot of the jump table learns its target: once, when the frame it waits for is closed (or,
 for the slot of an `if`, split), and that frame's target.
 */
module Patching {
  import opened Basics
  import opened Wasm
  import opened Decoder
  import opened Validation
  import opened Control

  // The target of a waiting slot after one instruction.
  function Patched(v: VState, op: Op, pos: nat, t: Target): Target {
    if v.ctrl == [] || t.At? || t.d != |v.ctrl| - 1 then t
    else if op.EndOp? then At(EndTarget(Top(v), pos + 1))
    else if op.ElseOp? && t.ToElse? then At(pos + 1)
    else t
  }

  // One instruction keeps every slot but for its target, and that target changes only when the
  // frame it names is the innermost one and ends or, for the slot of an `if`, meets its `else`.
  lemma StepPatches(c: Ctx, v: VState, op: Op, pos: nat, len: nat, w: VState)
    requires Step(c, v, op, pos, len) == Some(w)
    ensures |v.slots| <= |w.slots|
    ensures forall k :: 0 <= k < |v.slots| ==>
            w.slots[k] == v.slots[k].(target := Patched(v, op, pos, v.slots[k].target))
  {
    hide Step, OnEnd, OnElse;
    if op.EndOp? {
      EndPatches(c, v, pos, w) by { StepEnd(c, v, op, pos, len); }
    } else if op.ElseOp? {
      ElsePatches(c, v, pos, w) by { StepElse(c, v, op, pos, len); }
    } else {
      StepKeeps(c, v, op, pos, len, w);
      forall k | 0 <= k < |v.slots| ensures w.slots[k] == v.slots[k] {
        assert w.slots[..|v.slots|][k] == v.slots[k];
      }
    }
  }

  lemma StepEnd(c: Ctx, v: VState, op: Op, pos: nat, len: nat)
    requires op.EndOp?
    ensures Step(c, v, op, pos, len) == OnEnd(c, v, pos + 1)
  {
    hide OnEnd;
  }

  lemma StepElse(c: Ctx, v: VState, op: Op, pos: nat, len: nat)
    requires op.ElseOp?
    ensures Step(c, v, op, pos, len) == OnElse(c, v, pos + 1)
  {
    hide OnElse;
  }

  lemma EndPatches(c: Ctx, v: VState, pos: nat, w: VState)
    requires OnEnd(c, v, pos + 1) == Some(w)
    ensures |v.slots| == |w.slots|
    ensures forall k :: 0 <= k < |v.slots| ==>
            w.slots[k] == v.slots[k].(target := Patched(v, EndOp, pos, v.slots[k].target))
  {
    hide PopTypes;
  }

  lemma ElsePatches(c: Ctx, v: VState, pos: nat, w: VState)
    requires OnElse(c, v, pos + 1) == Some(w)
    ensures |v.slots| < |w.slots|
    ensures forall k :: 0 <= k < |v.slots| ==>
            w.slots[k] == v.slots[k].(target := Patched(v, ElseOp, pos, v.slots[k].target))
  {
    hide PopTypes;
  }

  // Every other instruction only adds slots.
  lemma StepKeeps(c: Ctx, v: VState, op: Op, pos: nat, len: nat, w: VState)
    requires !op.EndOp? && !op.ElseOp? && Step(c, v, op, pos, len) == Some(w)
    ensures |v.slots| <= |w.slots| && w.slots[..|v.slots|] == v.slots
  {
    hide PopTypes, PopExpect;
    if !IsBracket(op) {
      hide Step;
      StepEmits(c, v, op, pos, len, w);
    }
  }

  // Over the rest of a function: a slot keeps its position, offset and arity, and a target once
  // known; the slots in between change as StepPatches says.
  lemma {:induction false} WalkPatches(c: Ctx, pos: nat, v: VState, w: VState)
    requires Walk(c, pos, v) == Some(w)
    ensures |v.slots| <= |w.slots|
    ensures forall k :: 0 <= k < |v.slots| ==>
              && w.slots[k] == v.slots[k].(target := w.slots[k].target)
              && (v.slots[k].target.At? ==> w.slots[k] == v.slots[k])
    decreases |c.f.code| - pos
  {
    hide Step, Decode;
    var i := Decode(c.m, c.f.code, pos).value;
    var v1 := Step(c, v, i.op, pos, i.len).value;
    StepPatches(c, v, i.op, pos, i.len, v1);
    if !(i.op.EndOp? && pos + i.len >= |c.f.code|) {
      WalkPatches(c, pos + i.len, v1, w);
    }
  }
}
