/**
 The stack size that validation leaves with a function is attained: it is the largest of the heights
 that some callback of the walk asks for, and nothing is added to them.
 */
module StackSize {
  import opened Basics
  import opened Wasm
  import opened Decoder
  import opened Validation
  import opened Invariants

  // ----- Heights -----

  lemma {:induction false} PopShorter(v: VState, ts: seq<ValType>)
    requires PopTypes(v, ts).Some?
    ensures var v1 := PopTypes(v, ts).value.0; |v1.vals| <= |v.vals| && v1.peak == v.peak && v1.ctrl == v.ctrl
    decreases |ts|
  {
    if ts != [] {
      PopShorter(PopExpect(v, ts[|ts| - 1]).value.0, ts[..|ts| - 1]);
    }
  }

  // Popping goes down to the frame's height and no further.
  lemma {:induction false} PopHeight(v: VState, ts: seq<ValType>)
    requires v.ctrl != [] && Top(v).height <= |v.vals| && PopTypes(v, ts).Some?
    ensures |PopTypes(v, ts).value.0.vals| == Max(Top(v).height, |v.vals| - |ts|)
    decreases |ts|
  {
    if ts != [] {
      PopHeight(PopExpect(v, ts[|ts| - 1]).value.0, ts[..|ts| - 1]);
    }
  }

  // How many operands there are while the labels of a br_table are checked.
  function TableTop(v: VState, ls: seq<nat>, pc: nat): nat {
    match PopExpect(v, I32)
    case None => 0
    case Some((v0, _)) =>
      if ls == [] || ls[|ls| - 1] >= |v0.ctrl| then 0
      else
        match TableSlots(v0, ls, |LabelTypes(v0.ctrl[|v0.ctrl| - ls[|ls| - 1] - 1])|, pc)
        case None => 0
        case Some(w) => |w.vals|
  }

  lemma {:induction false} TablePeak(v: VState, ls: seq<nat>, arity: nat, pc: nat)
    requires |v.vals| <= v.peak && TableSlots(v, ls, arity, pc).Some?
    ensures var w := TableSlots(v, ls, arity, pc).value;
            w.ctrl == v.ctrl && w.peak == Max(v.peak, |w.vals|) && |v.vals| <= |w.vals|
    decreases |ls|
  {
    hide PopTypes;
    if ls != [] {
      var d := |v.ctrl| - ls[0] - 1;
      var a := AddSlot(v, BranchSlot(v, pc, d));
      var (v1, popped) := PopTypes(a, LabelTypes(v.ctrl[d])).value;
      PopShorter(a, LabelTypes(v.ctrl[d]));
      PopBelow(a, LabelTypes(v.ctrl[d]));
      TablePeak(PushVals(v1, popped), ls[1..], arity, pc);
    }
  }

  lemma {:induction false} PopBelow(v: VState, ts: seq<ValType>)
    requires PopTypes(v, ts).Some?
    ensures |v.vals| <= |PopTypes(v, ts).value.0.vals| + |ts|
    decreases |ts|
  {
    if ts != [] {
      PopBelow(PopExpect(v, ts[|ts| - 1]).value.0, ts[..|ts| - 1]);
    }
  }

  // In a frame of a given height: the operands there are without the index, or as many as the labels
  // take on top of that height, whichever is more.
  lemma {:induction false} TableHeight(v: VState, ls: seq<nat>, arity: nat, pc: nat)
    requires v.ctrl != [] && Top(v).height <= |v.vals| && ls != [] && TableSlots(v, ls, arity, pc).Some?
    ensures |TableSlots(v, ls, arity, pc).value.vals| == Max(|v.vals|, Top(v).height + arity)
    decreases |ls|
  {
    hide PopTypes, PushVals, LabelTypes;
    var next := LabelChecked(v, ls, arity, pc);
    if ls[1..] != [] {
      TableHeight(next, ls[1..], arity, pc);
    }
  }

  lemma LabelChecked(v: VState, ls: seq<nat>, arity: nat, pc: nat) returns (next: VState)
    requires v.ctrl != [] && Top(v).height <= |v.vals| && ls != [] && TableSlots(v, ls, arity, pc).Some?
    ensures TableSlots(v, ls, arity, pc) == TableSlots(next, ls[1..], arity, pc)
    ensures next.ctrl == v.ctrl && |next.vals| == Max(|v.vals|, Top(v).height + arity)
  {
    hide PopTypes, LabelTypes;
    var d := |v.ctrl| - ls[0] - 1;
    var a := AddSlot(v, BranchSlot(v, pc, d));
    var (v1, popped) := PopTypes(a, LabelTypes(v.ctrl[d])).value;
    PopHeight(a, LabelTypes(v.ctrl[d]));
    next := PushVals(v1, popped);
  }

  lemma TableTopIs(c: Ctx, v: VState, ls: seq<nat>, pc: nat)
    requires v.ctrl != [] && Top(v).height <= |v.vals| && OnBrTable(c, v, ls, pc).Some?
    ensures ls != [] && ls[|ls| - 1] < |v.ctrl|
    ensures var arity := |LabelTypes(v.ctrl[|v.ctrl| - ls[|ls| - 1] - 1])|;
            TableTop(v, ls, pc) == Max(Max(Top(v).height, |v.vals| - 1), Top(v).height + arity)
  {
    hide PopTypes, TableSlots, LabelTypes, SetUnreachable;
    var v0 := PopExpect(v, I32).value.0;
    TableHeight(v0, ls, |LabelTypes(v0.ctrl[|v0.ctrl| - ls[|ls| - 1] - 1])|, pc);
  }

  // ----- One instruction -----

  // What an instruction asks for beyond the operands after it: a call the operands left below its
  // arguments and all of the callee's locals, a br_table what its labels take.
  function Extra(c: Ctx, v: VState, op: Op, pos: nat, len: nat, after: seq<ValType>): int {
    if op.Call? && op.func < |c.m.funcs| then
      var g := c.m.funcs[op.func];
      |after| - |g.ftype.results| + |g.ftype.params| + |g.localTypes|
    else if op.BrTable? then TableTop(v, op.depths, pos + len + op.skew)
    else |after|
  }

  // h is a height that this callback asks for, w being the state after it.
  predicate Asks(c: Ctx, v: VState, op: Op, pos: nat, len: nat, w: VState, h: int) {
    h == |w.vals| || h == Extra(c, v, op, pos, len, w.vals)
  }

  lemma CallPeak(c: Ctx, v: VState, g: nat, w: VState)
    requires |v.vals| <= v.peak && OnCall(c, v, g) == Some(w)
    ensures g < |c.m.funcs| && |w.vals| >= |c.m.funcs[g].ftype.results|
    ensures var callee := c.m.funcs[g];
            var asked := |w.vals| - |callee.ftype.results| + |callee.ftype.params| + |callee.localTypes|;
            w.peak == Max(Max(v.peak, asked), |w.vals|)
  {
    hide PopTypes;
    PopShorter(v, c.m.funcs[g].ftype.params);
  }

  lemma BrTablePeak(c: Ctx, v: VState, ls: seq<nat>, pc: nat, w: VState)
    requires |v.vals| <= v.peak && OnBrTable(c, v, ls, pc) == Some(w)
    ensures w.peak == Max(v.peak, TableTop(v, ls, pc)) && |w.vals| <= TableTop(v, ls, pc)
  {
    hide PopTypes, TableSlots;
    var v0 := PopExpect(v, I32).value.0;
    var last := LabelTypes(v0.ctrl[|v0.ctrl| - ls[|ls| - 1] - 1]);
    TablePeak(v0, ls, |last|, pc);
    PopShorter(TableSlots(v0, ls, |last|, pc).value, last);
  }

  lemma BrPeak(c: Ctx, v: VState, n: nat, imm: nat, w: VState)
    requires |v.vals| <= v.peak && OnBr(c, v, n, imm) == Some(w)
    ensures w.peak == v.peak && |w.vals| <= |v.vals|
  {
    hide PopTypes, LabelTypes;
    var d := |v.ctrl| - n - 1;
    PopShorter(AddSlot(v, BranchSlot(v, imm, d)), LabelTypes(v.ctrl[d]));
  }

  lemma BrIfPeak(c: Ctx, v: VState, n: nat, imm: nat, w: VState)
    requires |v.vals| <= v.peak && OnBrIf(c, v, n, imm) == Some(w)
    ensures w.peak == Max(v.peak, |w.vals|)
  {
    hide PopTypes, LabelTypes;
    var v0 := PopExpect(v, I32).value.0;
    var d := |v.ctrl| - n - 1;
    PopShorter(AddSlot(v0, BranchSlot(v0, imm, d)), LabelTypes(v.ctrl[d]));
  }

  lemma SimplePeak(c: Ctx, v: VState, op: Op, w: VState)
    requires |v.vals| <= v.peak && OnSimple(c, v, op) == Some(w)
    ensures w.peak == Max(v.peak, |w.vals|)
  {
    hide PopTypes, Signature;
    if !op.Drop? && !op.Select? {
      PopShorter(v, Signature(c, op).value.params);
    }
  }

  lemma OpenPeak(c: Ctx, v: VState, op: Op, pos: nat, len: nat, w: VState)
    requires |v.vals| <= v.peak && (op.BlockOp? || op.LoopOp? || op.IfOp?) && Step(c, v, op, pos, len) == Some(w)
    ensures w.peak == Max(v.peak, |w.vals|)
  {
    hide PopTypes;
    if op.IfOp? {
      PopShorter(PopExpect(v, I32).value.0, op.ft.params);
    } else {
      PopShorter(v, op.ft.params);
    }
  }

  lemma ClosePeak(c: Ctx, v: VState, op: Op, pos: nat, len: nat, w: VState)
    requires |v.vals| <= v.peak && (op.EndOp? || op.ElseOp?) && Step(c, v, op, pos, len) == Some(w)
    ensures w.peak == Max(v.peak, |w.vals|)
  {
    hide PopTypes, ResolveAll, ResolveElse;
    PopShorter(v, Top(v).ftype.results);
  }

  // The peak after an instruction, from the peak before and the operands after: only a call and a
  // br_table ask for more than is there afterwards.
  lemma StepPeak(c: Ctx, v: VState, op: Op, pos: nat, len: nat, w: VState)
    requires |v.vals| <= v.peak && Step(c, v, op, pos, len) == Some(w)
    ensures w.peak == Max(Max(v.peak, Extra(c, v, op, pos, len, w.vals)), |w.vals|)
  {
    hide OnBlock, OnLoop, OnIf, OnElse, OnEnd, OnBr, OnBrIf, OnBrTable, OnReturn, OnCall, OnSimple, SetUnreachable,
      PopTypes, TableTop;
    if op.BlockOp? || op.LoopOp? || op.IfOp? {
      OpenPeak(c, v, op, pos, len, w);
    } else if op.EndOp? || op.ElseOp? {
      ClosePeak(c, v, op, pos, len, w);
    } else if op.Br? {
      BrPeak(c, v, op.depth, pos + 1, w);
    } else if op.BrIf? {
      BrIfPeak(c, v, op.depth, pos + 1, w);
    } else if op.BrTable? {
      BrTablePeak(c, v, op.depths, pos + len + op.skew, w);
    } else if op.Call? {
      CallPeak(c, v, op.func, w);
    } else if op.Return? {
      ReturnPeak(c, v, w);
    } else if op.Unreachable? {
      CutPeak(v, w);
    } else {
      SimplePeak(c, v, op, w);
    }
  }

  lemma ReturnPeak(c: Ctx, v: VState, w: VState)
    requires |v.vals| <= v.peak && OnReturn(c, v) == Some(w)
    ensures w.peak == v.peak && |w.vals| <= |v.vals|
  {
    hide PopTypes;
    PopShorter(v, LabelTypes(v.ctrl[0]));
  }

  lemma CutPeak(v: VState, w: VState)
    requires |v.vals| <= v.peak && SetUnreachable(v) == Some(w)
    ensures w.peak == v.peak && |w.vals| <= |v.vals|
  {
  }

  // ----- Whole functions -----

  // Some callback of the walk from pos asks for h.
  predicate AskedFrom(c: Ctx, pos: nat, v: VState, h: int)
    decreases |c.f.code| - pos
  {
    var i := Decode(c.m, c.f.code, pos);
    && i.Some?
    && var w := Step(c, v, i.value.op, pos, i.value.len);
    && w.Some?
    && (Asks(c, v, i.value.op, pos, i.value.len, w.value, h)
        || (!(i.value.op.EndOp? && pos + i.value.len >= |c.f.code|) && AskedFrom(c, pos + i.value.len, w.value, h)))
  }

  // The greatest of what there was and what is asked for.
  lemma {:induction false} WalkPeak(c: Ctx, pos: nat, v: VState)
    requires |v.vals| <= v.peak && Walk(c, pos, v).Some?
    ensures var peak := Walk(c, pos, v).value.peak;
            v.peak <= peak && (peak == v.peak || AskedFrom(c, pos, v, peak))
    ensures forall h :: AskedFrom(c, pos, v, h) ==> h <= Walk(c, pos, v).value.peak
    decreases |c.f.code| - pos
  {
    hide Step, Decode, Asks;
    var Instr(op, len) := Decode(c.m, c.f.code, pos).value;
    var w := Step(c, v, op, pos, len).value;
    StepAsks(c, v, op, pos, len, w);
    if !(op.EndOp? && pos + len >= |c.f.code|) {
      WalkPeak(c, pos + len, w);
    }
  }

  lemma StepAsks(c: Ctx, v: VState, op: Op, pos: nat, len: nat, w: VState)
    requires |v.vals| <= v.peak && Step(c, v, op, pos, len) == Some(w)
    ensures v.peak <= w.peak && |w.vals| <= w.peak
    ensures w.peak == v.peak || Asks(c, v, op, pos, len, w, w.peak)
    ensures forall h :: Asks(c, v, op, pos, len, w, h) ==> h <= w.peak
  {
    hide Step, Extra;
    StepPeak(c, v, op, pos, len, w);
  }

  // The validated stack size is the number of parameters, with which the walk begins, or the largest
  // height that one of its callbacks asks for: never less, and never more.
  lemma StackSizeAttained(c: Ctx)
    requires Validate(c).Some?
    ensures var size := Validate(c).value.peak;
            && |c.f.ftype.params| <= size && (size == |c.f.ftype.params| || AskedFrom(c, 0, Begin(c), size))
            && forall h :: AskedFrom(c, 0, Begin(c), h) ==> h <= size
  {
    hide Walk, AskedFrom;
    WalkPeak(c, 0, Begin(c));
  }
}
