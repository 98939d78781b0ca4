/**
 What validation keeps. Running the validator over a nested body changes nothing outside the
 body's own frame: not the operands below it, not the other control frames, and not one slot
 emitted before. The slots it adds lie, in order, inside the body's bytes.
 */
module Invariants {
  import opened Basics
  import opened Wasm
  import opened Decoder
  import opened Validation

  ghost predicate Below(s: seq<Slot>, n: nat) {
    forall k :: 0 <= k < |s| ==> s[k].target.At? || s[k].target.d < n
  }

  // Slots lie in order after position lo, up to position hi, and none jumps to itself.
  ghost predicate Within(s: seq<Slot>, lo: int, hi: int) {
    && (forall k :: 0 <= k < |s| ==> lo < s[k].pc <= hi && s[k].target != At(s[k].pc))
    && (forall j, k :: 0 <= j < k < |s| ==> s[j].pc <= s[k].pc)
  }

  ghost predicate Heights(v: VState) {
    && (forall i, j :: 0 <= i < j < |v.ctrl| ==> v.ctrl[i].height <= v.ctrl[j].height)
    && (v.ctrl != [] ==> Top(v).height <= |v.vals|)
  }

  ghost predicate Shape(v: VState) {
    v.ctrl != [] && Heights(v) && |v.vals| <= v.peak && Below(v.slots, |v.ctrl|)
  }

  // v1 is reached from v inside v's innermost frame, by code between lo and hi.
  ghost predicate Evolves(v: VState, v1: VState, lo: int, hi: int) {
    && v.ctrl != [] && |v1.ctrl| == |v.ctrl|
    && v1.ctrl[..|v.ctrl| - 1] == v.ctrl[..|v.ctrl| - 1]
    && Top(v1) == Top(v).(dead := Top(v1).dead) && (Top(v).dead ==> Top(v1).dead)
    && Top(v).height <= |v1.vals| && Top(v).height <= |v.vals|
    && v1.vals[..Top(v).height] == v.vals[..Top(v).height]
    && v.peak <= v1.peak
    && |v.slots| <= |v1.slots| && v1.slots[..|v.slots|] == v.slots
    && Within(v1.slots[|v.slots|..], lo, hi)
  }

  lemma WithinConcat(a: seq<Slot>, b: seq<Slot>, lo: int, mid: int, hi: int)
    requires Within(a, lo, mid) && Within(b, mid, hi) && lo <= mid <= hi
    ensures Within(a + b, lo, hi)
  {
  }

  lemma EvolvesTrans(v: VState, v1: VState, v2: VState, lo: int, mid: int, hi: int)
    requires lo <= mid <= hi
    requires Evolves(v, v1, lo, mid) && Evolves(v1, v2, mid, hi)
    ensures Evolves(v, v2, lo, hi)
  {
    hide Within;
    var a, b := v1.slots[|v.slots|..], v2.slots[|v1.slots|..];
    WithinConcat(a, b, lo, mid, hi);
    assert v2.slots[|v.slots|..] == a + b;
    assert v2.slots[..|v.slots|] == v1.slots[..|v.slots|];
  }

  // ----- Popping -----

  // The operands of v1 are those of v cut down, not below v's innermost frame.
  ghost predicate Cut(v: VState, v1: VState)
    requires v.ctrl != []
  {
    && v1 == v.(vals := v1.vals)
    && Top(v).height <= |v1.vals| <= |v.vals|
    && v1.vals == v.vals[..|v1.vals|]
  }

  lemma PopExpectCut(v: VState, t: ValType)
    requires Shape(v) && PopExpect(v, t).Some?
    ensures Cut(v, PopExpect(v, t).value.0)
  {
  }

  lemma {:induction false} PopTypesCut(v: VState, ts: seq<ValType>)
    requires Shape(v) && PopTypes(v, ts).Some?
    ensures Cut(v, PopTypes(v, ts).value.0)
    decreases |ts|
  {
    if ts != [] {
      PopExpectCut(v, ts[|ts| - 1]);
      var v1 := PopExpect(v, ts[|ts| - 1]).value.0;
      PopTypesCut(v1, ts[..|ts| - 1]);
    }
  }

  // ----- Instructions that stay in their frame -----

  lemma SetUnreachableEvolves(v: VState, v0: VState, v1: VState, lo: int, hi: int)
    requires v.ctrl != [] && Evolves(v, v0, lo, hi) && Shape(v0) && SetUnreachable(v0) == Some(v1)
    ensures Evolves(v, v1, lo, hi) && Shape(v1)
  {
  }

  lemma AddSlotEvolves(v: VState, v0: VState, s: Slot, lo: int, hi: int)
    requires Shape(v) && Evolves(v, v0, lo, hi) && Shape(v0)
    requires lo < s.pc <= hi && !s.target.At? && s.target.d < |v.ctrl|
    requires forall k :: |v.slots| <= k < |v0.slots| ==> v0.slots[k].pc <= s.pc
    ensures Evolves(v, AddSlot(v0, s), lo, hi) && Shape(AddSlot(v0, s))
  {
    var v1 := AddSlot(v0, s);
    assert v1.slots[|v.slots|..] == v0.slots[|v.slots|..] + [s];
    assert v1.slots[..|v.slots|] == v0.slots[..|v.slots|];
  }

  // Popping, then pushing.
  lemma PopPushEvolves(v: VState, v0: VState, v1: VState, ts: seq<ValType>, lo: int, hi: int)
    requires Shape(v) && Evolves(v, v0, lo, hi) && Shape(v0) && Cut(v0, v1)
    ensures Evolves(v, v1, lo, hi) && Shape(v1)
    ensures Evolves(v, PushVals(v1, ts), lo, hi) && Shape(PushVals(v1, ts))
  {
  }

  lemma EvolvesSelf(v: VState, lo: int, hi: int)
    requires Shape(v)
    ensures Evolves(v, v, lo, hi)
  {
  }

  lemma SimpleEvolves(c: Ctx, v: VState, op: Op, v1: VState, lo: int, hi: int)
    requires Shape(v) && OnSimple(c, v, op) == Some(v1)
    ensures Evolves(v, v1, lo, hi) && Shape(v1)
  {
    EvolvesSelf(v, lo, hi);
    if op.Drop? {
      PopPushEvolves(v, v, v1, [], lo, hi);
    } else if op.Select? {
      SelectEvolves(v, v1, lo, hi);
    } else {
      var sig := Signature(c, op).value;
      PopTypesCut(v, sig.params);
      PopPushEvolves(v, v, PopVals(v, sig.params).value, sig.results, lo, hi);
    }
  }

  lemma SelectEvolves(v: VState, v1: VState, lo: int, hi: int)
    requires Shape(v) && OnSelect(v) == Some(v1)
    ensures Evolves(v, v1, lo, hi) && Shape(v1)
  {
    var (a, _) := PopExpect(v, I32).value;
    var (b, t1) := PopVal(a).value;
    var (d, t2) := PopVal(b).value;
    EvolvesSelf(v, lo, hi);
    PopPushEvolves(v, v, d, [], lo, hi);
    assert PushVals(d, [if t1.Unknown? then t2 else t1]) == v1;
    PopPushEvolves(v, v, d, [if t1.Unknown? then t2 else t1], lo, hi);
  }

  lemma CallEvolves(c: Ctx, v: VState, g: nat, v1: VState, lo: int, hi: int)
    requires Shape(v) && OnCall(c, v, g) == Some(v1)
    ensures Evolves(v, v1, lo, hi) && Shape(v1)
  {
    var callee := c.m.funcs[g];
    EvolvesSelf(v, lo, hi);
    PopTypesCut(v, callee.ftype.params);
    var a := PopVals(v, callee.ftype.params).value;
    var b := v.(peak := Max(v.peak, |a.vals| + |callee.Locals()|));
    assert Evolves(v, b, lo, hi);
    hide PopTypes, Evolves;
    PopPushEvolves(v, b, a.(peak := b.peak), callee.ftype.results, lo, hi);
  }

  // A branch: its slot, its operands, and then nothing or everything.
  lemma BranchEvolves(v: VState, v0: VState, d: nat, pc: nat, v1: VState, lo: int, hi: int)
    requires Shape(v) && Cut(v, v0) && d < |v.ctrl| && lo < pc <= hi
    requires PopVals(AddSlot(v0, BranchSlot(v0, pc, d)), LabelTypes(v.ctrl[d])) == Some(v1)
    ensures Evolves(v, v1, lo, hi) && Shape(v1)
    ensures forall ts :: Evolves(v, PushVals(v1, ts), lo, hi) && Shape(PushVals(v1, ts))
  {
    EvolvesSelf(v, lo, hi);
    PopPushEvolves(v, v, v0, [], lo, hi);
    var s := BranchSlot(v0, pc, d);
    AddSlotEvolves(v, v0, s, lo, hi);
    var a := AddSlot(v0, s);
    PopTypesCut(a, LabelTypes(v.ctrl[d]));
    PopPushEvolves(v, a, v1, [], lo, hi);
    forall ts ensures Evolves(v, PushVals(v1, ts), lo, hi) && Shape(PushVals(v1, ts)) {
      PopPushEvolves(v, a, v1, ts, lo, hi);
    }
  }

  lemma BrEvolves(c: Ctx, v: VState, n: nat, imm: nat, v1: VState, lo: int, hi: int)
    requires Shape(v) && OnBr(c, v, n, imm) == Some(v1) && lo < imm <= hi
    ensures Evolves(v, v1, lo, hi) && Shape(v1)
  {
    var d := |v.ctrl| - n - 1;
    var a := PopVals(AddSlot(v, BranchSlot(v, imm, d)), LabelTypes(v.ctrl[d])).value;
    BranchEvolves(v, v, d, imm, a, lo, hi);
    SetUnreachableEvolves(v, a, v1, lo, hi);
  }

  lemma BrIfEvolves(c: Ctx, v: VState, n: nat, imm: nat, v1: VState, lo: int, hi: int)
    requires Shape(v) && OnBrIf(c, v, n, imm) == Some(v1) && lo < imm <= hi
    ensures Evolves(v, v1, lo, hi) && Shape(v1)
  {
    PopExpectCut(v, I32);
    var v0 := PopExpect(v, I32).value.0;
    var d := |v.ctrl| - n - 1;
    var a := PopVals(AddSlot(v0, BranchSlot(v0, imm, d)), LabelTypes(v.ctrl[d])).value;
    BranchEvolves(v, v0, d, imm, a, lo, hi);
  }

  lemma {:induction false} TableEvolves(v: VState, v0: VState, ls: seq<nat>, arity: nat, pc: nat, v1: VState, lo: int)
    requires Shape(v) && Evolves(v, v0, lo, pc) && Shape(v0) && lo < pc
    requires TableSlots(v0, ls, arity, pc) == Some(v1)
    ensures Evolves(v, v1, lo, pc) && Shape(v1)
    decreases |ls|
  {
    hide Evolves, Within, PopTypes, Below;
    if ls != [] {
      var d := |v0.ctrl| - ls[0] - 1;
      var s := BranchSlot(v0, pc, d);
      EvolvesLast(v, v0, lo, pc);
      AddSlotEvolves(v, v0, s, lo, pc);
      var a := AddSlot(v0, s);
      PopTypesCut(a, LabelTypes(v0.ctrl[d]));
      var (b, popped) := PopTypes(a, LabelTypes(v0.ctrl[d])).value;
      PopPushEvolves(v, a, b, popped, lo, pc);
      TableEvolves(v, PushVals(b, popped), ls[1..], arity, pc, v1, lo);
    }
  }

  lemma EvolvesLast(v: VState, v0: VState, lo: int, hi: int)
    requires Evolves(v, v0, lo, hi)
    ensures |v0.ctrl| == |v.ctrl|
    ensures forall k :: |v.slots| <= k < |v0.slots| ==> v0.slots[k].pc <= hi
  {
    forall k | |v.slots| <= k < |v0.slots| ensures v0.slots[k].pc <= hi {
      assert v0.slots[k] == v0.slots[|v.slots|..][k - |v.slots|];
    }
  }

  lemma BrTableEvolves(c: Ctx, v: VState, ls: seq<nat>, pc: nat, v1: VState, lo: int)
    requires Shape(v) && OnBrTable(c, v, ls, pc) == Some(v1) && lo < pc
    ensures Evolves(v, v1, lo, pc) && Shape(v1)
  {
    PopExpectCut(v, I32);
    var v0 := PopExpect(v, I32).value.0;
    EvolvesSelf(v, lo, pc);
    PopPushEvolves(v, v, v0, [], lo, pc);
    var last := LabelTypes(v0.ctrl[|v0.ctrl| - ls[|ls| - 1] - 1]);
    var a := TableSlots(v0, ls, |last|, pc).value;
    TableEvolves(v, v0, ls, |last|, pc, a, lo);
    PopTypesCut(a, last);
    var b := PopVals(a, last).value;
    PopPushEvolves(v, a, b, [], lo, pc);
    SetUnreachableEvolves(v, b, v1, lo, pc);
  }

  lemma ReturnEvolves(c: Ctx, v: VState, v1: VState, lo: int, hi: int)
    requires Shape(v) && OnReturn(c, v) == Some(v1)
    ensures Evolves(v, v1, lo, hi) && Shape(v1)
  {
    EvolvesSelf(v, lo, hi);
    PopTypesCut(v, LabelTypes(v.ctrl[0]));
    var a := PopVals(v, LabelTypes(v.ctrl[0])).value;
    PopPushEvolves(v, v, a, [], lo, hi);
    SetUnreachableEvolves(v, a, v1, lo, hi);
  }

  // Whatever is not a bracket stays in its frame; its slots lie inside its own bytes.
  lemma StepEvolves(c: Ctx, v: VState, op: Op, pos: nat, len: nat, v1: VState)
    requires Shape(v) && !IsBracket(op) && Step(c, v, op, pos, len) == Some(v1) && len > 0
    ensures Evolves(v, v1, pos, pos + len + Skew(op)) && Shape(v1)
  {
    hide Evolves, Shape, OnSimple, OnBr, OnBrIf, OnBrTable, OnReturn, OnCall, SetUnreachable, OnBlock, OnLoop, OnIf,
      OnElse, OnEnd;
    var hi := pos + len + Skew(op);
    match op
    case Unreachable =>
      EvolvesSelf(v, pos, hi);
      SetUnreachableEvolves(v, v, v1, pos, hi);
    case Br(n) => BrEvolves(c, v, n, pos + 1, v1, pos, hi);
    case BrIf(n) => BrIfEvolves(c, v, n, pos + 1, v1, pos, hi);
    case BrTable(ls, skew) => BrTableEvolves(c, v, ls, hi, v1, pos);
    case Return => ReturnEvolves(c, v, v1, pos, hi);
    case Call(g) => CallEvolves(c, v, g, v1, pos, hi);
    case _ => SimpleEvolves(c, v, op, v1, pos, hi);
  }

  function Skew(op: Op): nat {
    if op.BrTable? then op.skew else 0
  }

  // ----- Brackets -----

  // w is v with one more frame, and whatever has happened inside that frame.
  ghost predicate Opens(v: VState, w: VState, lo: int, hi: int) {
    && v.ctrl != [] && |w.ctrl| == |v.ctrl| + 1 && w.ctrl[..|v.ctrl|] == v.ctrl
    && Top(v).height <= Top(w).height <= |w.vals|
    && Top(v).height <= |v.vals| && w.vals[..Top(v).height] == v.vals[..Top(v).height]
    && v.peak <= w.peak && |w.vals| <= w.peak
    && |v.slots| <= |w.slots| && w.slots[..|v.slots|] == v.slots
    && Within(w.slots[|v.slots|..], lo, hi)
    && Below(w.slots, |w.ctrl|)
    && !Top(w).kind.FuncK?
    && (Top(w).kind.LoopK? ==>
          Top(w).pc <= hi && forall k :: |v.slots| <= k < |w.slots| ==> Top(w).pc < w.slots[k].pc)
  }

  lemma OpensShape(v: VState, w: VState, lo: int, hi: int)
    requires Shape(v) && Opens(v, w, lo, hi)
    ensures Shape(w)
  {
    forall i, j | 0 <= i < j < |w.ctrl| ensures w.ctrl[i].height <= w.ctrl[j].height {
      assert w.ctrl[i] == v.ctrl[i];
      if j < |v.ctrl| {
        assert w.ctrl[j] == v.ctrl[j];
      }
    }
  }

  lemma PushCtrlOpens(v: VState, v1: VState, kind: Kind, ft: FuncType, pc: nat, lo: int, hi: int)
    requires Shape(v) && Cut(v, v1) && !kind.FuncK? && (kind.LoopK? ==> pc <= hi)
    ensures Opens(v, PushCtrl(v1, kind, ft, pc), lo, hi)
  {
    assert PushCtrl(v1, kind, ft, pc).slots[|v.slots|..] == [];
  }

  lemma IfOpens(c: Ctx, v: VState, ft: FuncType, imm: nat, w: VState, hi: int)
    requires Shape(v) && OnIf(c, v, ft, imm) == Some(w) && 0 < imm <= hi
    ensures Opens(v, w, imm - 1, hi)
  {
    PopExpectCut(v, I32);
    var v0 := PopExpect(v, I32).value.0;
    PopTypesCut(v0, ft.params);
    var v1 := PopVals(v0, ft.params).value;
    var w0 := PushCtrl(v1, IfK, ft, 0);
    assert Cut(v, v1);
    PushCtrlOpens(v, v1, IfK, ft, 0, imm - 1, hi);
    assert w.slots[|v.slots|..] == [Slot(imm, 0, 0, ToElse(|v1.ctrl|))];
  }

  lemma BracketOpens(c: Ctx, v: VState, op: Op, pos: nat, len: nat, w: VState)
    requires Shape(v) && len == 2 && (op.BlockOp? || op.LoopOp? || op.IfOp?)
    requires Step(c, v, op, pos, len) == Some(w)
    ensures Opens(v, w, pos, pos + len) && Shape(w)
  {
    if op.IfOp? {
      IfOpens(c, v, op.ft, pos + 1, w, pos + len);
    } else {
      PopTypesCut(v, op.ft.params);
      var v1 := PopVals(v, op.ft.params).value;
      PushCtrlOpens(v, v1, if op.BlockOp? then BlockK else LoopK, op.ft, if op.LoopOp? then pos + 2
          else 0, pos, pos + len);
    }
    OpensShape(v, w, pos, pos + len);
  }

  // Running on inside the new frame leaves it as open as it was.
  lemma OpensThenEvolves(v: VState, w: VState, x: VState, lo: int, mid: int, hi: int)
    requires Shape(v) && Opens(v, w, lo, mid) && Shape(w) && Evolves(w, x, mid, hi) && Shape(x) && lo <= mid <= hi
    ensures Opens(v, x, lo, hi)
  {
    LaterSlots(w, x, mid, hi);
    hide Within, Heights;
    WithinConcat(w.slots[|v.slots|..], x.slots[|w.slots|..], lo, mid, hi);
    assert x.slots[|v.slots|..] == w.slots[|v.slots|..] + x.slots[|w.slots|..];
    assert x.slots[..|v.slots|] == w.slots[..|v.slots|];
    OuterFrame(v, w, x);
    assert x.ctrl[..|v.ctrl|] == w.ctrl[..|v.ctrl|];
  }

  // The slots added lie after mid; those before are the same.
  lemma LaterSlots(w: VState, x: VState, mid: int, hi: int)
    requires Evolves(w, x, mid, hi)
    ensures forall k :: 0 <= k < |x.slots| ==> if k < |w.slots| then x.slots[k] == w.slots[k] else mid < x.slots[k].pc
  {
    forall k | 0 <= k < |x.slots| ensures if k < |w.slots| then x.slots[k] == w.slots[k] else mid < x.slots[k].pc {
      if k < |w.slots| {
        assert x.slots[k] == x.slots[..|w.slots|][k];
      } else {
        assert x.slots[k] == x.slots[|w.slots|..][k - |w.slots|];
      }
    }
  }

  // The operands below the outer frame.
  lemma OuterFrame(v: VState, w: VState, x: VState)
    requires v.ctrl != [] && w.ctrl != [] && Top(v).height <= Top(w).height <= |w.vals| && Top(w).height <= |x.vals|
    requires Top(v).height <= |v.vals| && w.vals[..Top(v).height] == v.vals[..Top(v).height]
    requires x.vals[..Top(w).height] == w.vals[..Top(w).height]
    ensures x.vals[..Top(v).height] == v.vals[..Top(v).height]
  {
    var h := Top(v).height;
    assert x.vals[..h] == x.vals[..Top(w).height][..h];
    assert w.vals[..h] == w.vals[..Top(w).height][..h];
  }

  // Slots below frame d do not change when frame d resolves.
  lemma ResolveKeeps(s: seq<Slot>, n: nat, d: nat, pc: nat)
    requires n <= |s| && Below(s[..n], d)
    ensures ResolveAll(s, d, pc)[..n] == s[..n] && ResolveElse(s, d, pc)[..n] == s[..n]
  {
    forall k | 0 <= k < n
      ensures ResolveAll(s, d, pc)[k] == s[k] && ResolveElse(s, d, pc)[k] == s[k]
    {
      assert s[..n][k] == s[k];
    }
  }

  lemma ResolveWithin(s: seq<Slot>, n: nat, d: nat, pc: nat, lo: int, hi: int)
    requires n <= |s| && Within(s[n..], lo, hi)
    requires pc > hi || forall k :: n <= k < |s| ==> pc < s[k].pc
    ensures Within(ResolveAll(s, d, pc)[n..], lo, hi) && Within(ResolveElse(s, d, pc)[n..], lo, hi)
  {
    var a, b := ResolveAll(s, d, pc)[n..], ResolveElse(s, d, pc)[n..];
    assert |a| == |b| == |s[n..]|;
    forall k | 0 <= k < |s[n..]|
      ensures a[k].pc == b[k].pc == s[n..][k].pc && a[k].target != At(a[k].pc) && b[k].target != At(b[k].pc)
    {
      assert s[n..][k] == s[n + k];
    }
  }

  lemma PopCtrlCut(c: Ctx, v: VState)
    requires Shape(v) && PopCtrl(c, v).Some?
    ensures var v1 := PopCtrl(c, v).value;
            && v1 == v.(ctrl := v.ctrl[..|v.ctrl| - 1], vals := v1.vals)
            && Top(v).height <= |v1.vals| <= |v.vals| && v1.vals == v.vals[..|v1.vals|]
  {
    PopTypesCut(v, Top(v).ftype.results);
  }

  lemma WithinWider(s: seq<Slot>, lo: int, hi: int)
    requires Within(s, lo, hi)
    ensures Within(s, lo, hi + 1)
  {
  }

  // What closing a frame does to the table and the control stack.
  lemma EndTable(c: Ctx, x: VState, e: nat, y: VState)
    requires Step(c, x, EndOp, e, 1) == Some(y)
    ensures x.ctrl != [] && y.ctrl == x.ctrl[..|x.ctrl| - 1]
    ensures y.slots == ResolveAll(x.slots, |x.ctrl| - 1, EndTarget(Top(x), e + 1))
  {
    hide PopTypes, ResolveAll;
  }

  // Closing the frame brings validation back to where it was opened, further on.
  lemma EndEvolves(c: Ctx, v: VState, x: VState, e: nat, y: VState, lo: int)
    requires Shape(v) && Shape(x) && Opens(v, x, lo, e) && Step(c, x, EndOp, e, 1) == Some(y)
    ensures Evolves(v, y, lo, e + 1) && Shape(y)
  {
    hide PopTypes, Within;
    PopCtrlCut(c, x);
    var t, hi := EndTarget(Top(x), e + 1), e;
    var d := |v.ctrl|;
    ResolveKeeps(x.slots, |v.slots|, d, t);
    ResolveWithin(x.slots, |v.slots|, d, t, lo, hi);
    WithinWider(y.slots[|v.slots|..], lo, hi);
    assert y.ctrl == v.ctrl;
    assert y.vals[..Top(v).height] == x.vals[..Top(v).height];
    assert Below(y.slots, d);
  }

  lemma ElseTable(c: Ctx, x: VState, imm: nat, y: VState)
    requires OnElse(c, x, imm) == Some(y)
    ensures |y.slots| == |x.slots| + 1 && y.slots == ResolveElse(x.slots, |x.ctrl| - 1, imm) + [y.slots[|x.slots|]]
    ensures y.slots[|x.slots|].pc == imm && y.slots[|x.slots|].target == ToEnd(|x.ctrl| - 1)
  {
    hide PopTypes, ResolveElse;
  }

  lemma OneSlot(s: Slot, lo: int, hi: int, n: nat)
    requires lo < s.pc <= hi && !s.target.At? && s.target.d < n
    ensures Within([s], lo, hi) && Below([s], n)
  {
  }

  lemma BelowConcat(a: seq<Slot>, b: seq<Slot>, n: nat)
    requires Below(a, n) && Below(b, n)
    ensures Below(a + b, n)
  {
  }

  lemma ResolveElseBelow(s: seq<Slot>, n: nat, d: nat, pc: nat)
    requires Below(s, n)
    ensures Below(ResolveElse(s, d, pc), n)
  {
  }

  lemma ElseSlots(c: Ctx, v: VState, x: VState, imm: nat, y: VState, lo: int, hi: int)
    requires v.ctrl != [] && Below(v.slots, |v.ctrl|) && |x.ctrl| == |v.ctrl| + 1 && Below(x.slots, |x.ctrl|)
    requires |v.slots| <= |x.slots| && x.slots[..|v.slots|] == v.slots && Within(x.slots[|v.slots|..], lo, hi)
    requires OnElse(c, x, imm) == Some(y) && lo <= hi < imm
    ensures |y.slots| == |x.slots| + 1 && y.slots[..|v.slots|] == v.slots
    ensures Within(y.slots[|v.slots|..], lo, imm) && Below(y.slots, |x.ctrl|)
  {
    hide OnElse, ResolveElse, Below, Within;
    var d := |v.ctrl|;
    assert |v.slots| <= |x.slots|;
    ResolveKeeps(x.slots, |v.slots|, d, imm);
    ResolveWithin(x.slots, |v.slots|, d, imm, lo, hi);
    ResolveElseBelow(x.slots, d + 1, d, imm);
    ElseTable(c, x, imm, y);
    var prior := ResolveElse(x.slots, d, imm);
    var last := y.slots[|x.slots|];
    LastSlot(prior, last, |v.slots|);
    OneSlot(last, hi, imm, d + 1);
    BelowConcat(prior, [last], d + 1);
    WithinConcat(prior[|v.slots|..], [last], lo, hi, imm);
  }

  lemma LastSlot(a: seq<Slot>, last: Slot, n: nat)
    requires n <= |a|
    ensures (a + [last])[n..] == a[n..] + [last] && (a + [last])[..n] == a[..n]
  {
  }

  // `else` replaces the frame of the `if` by its own.
  lemma ElseOpens(c: Ctx, v: VState, x: VState, e: nat, y: VState, lo: int)
    requires Shape(v) && Shape(x) && Opens(v, x, lo, e) && Step(c, x, ElseOp, e, 1) == Some(y) && lo <= e
    ensures Opens(v, y, lo, e + 1) && Shape(y)
  {
    hide PopTypes, Within, Below, ResolveElse;
    PopCtrlCut(c, x);
    var d := |v.ctrl|;
    ElseSlots(c, v, x, e + 1, y, lo, e);
    assert y.ctrl[..d] == v.ctrl;
    assert y.vals[..Top(v).height] == x.vals[..Top(v).height];
    OpensShape(v, y, lo, e + 1);
  }

  // ----- Whole bodies -----

  // Labels of br_table take one byte each, as both the decoder and the interpreters assume when they skip them.
  predicate OneByteLabels(b: Body) {
    match b
    case Stop => true
    case Plain(op, _, rest) => Skew(op) == 0 && OneByteLabels(rest)
    case Block(_, body, rest) => OneByteLabels(body) && OneByteLabels(rest)
    case Loop(_, body, rest) => OneByteLabels(body) && OneByteLabels(rest)
    case If(_, thn, rest) => OneByteLabels(thn) && OneByteLabels(rest)
    case IfElse(_, thn, els, rest) => OneByteLabels(thn) && OneByteLabels(els) && OneByteLabels(rest)
  }

  // A bracketed body, up to and including its `end`.
  lemma NestEvolves(c: Ctx, v: VState, op: Op, pos: nat, body: Body, w: VState, x: VState, y: VState)
    requires Shape(v) && (op.BlockOp? || op.LoopOp? || op.IfOp?) && Step(c, v, op, pos, 2) == Some(w)
    requires Shape(x) && Evolves(w, x, pos + 2, pos + 2 + Size(body))
    requires Step(c, x, EndOp, pos + 2 + Size(body), 1) == Some(y)
    ensures Evolves(v, y, pos, pos + 2 + Size(body) + 1) && Shape(y)
  {
    hide Evolves, Shape, Step, Opens;
    var e := pos + 2 + Size(body);
    BracketOpens(c, v, op, pos, 2, w);
    OpensThenEvolves(v, w, x, pos, pos + 2, e);
    EndEvolves(c, v, x, e, y, pos);
  }

  // Running a laid-out body from v succeeds with v1; the laid-out shape goes with it.
  ghost predicate Runs(c: Ctx, b: Body, pos: nat, v: VState, v1: VState) {
    Laid(c.m, c.f.code, pos, b) && OneByteLabels(b) && Run(c, b, pos, v) == Some(v1)
  }

  // One instruction, then the rest.
  ghost predicate PlainRuns(c: Ctx, op: Op, len: nat, rest: Body, pos: nat, v: VState, v1: VState) {
    var w := Step(c, v, op, pos, len);
    && !IsBracket(op) && OpAt(c.m, c.f.code, pos, op, len) && Skew(op) == 0
    && w.Some? && Runs(c, rest, pos + len, w.value, v1)
  }

  // Opening, running the body, closing, and running the rest.
  ghost predicate NestRuns(c: Ctx, op: Op, body: Body, rest: Body, pos: nat, v: VState, v1: VState) {
    var e := pos + 2 + Size(body);
    var w := Step(c, v, op, pos, 2);
    && OpAt(c.m, c.f.code, pos, op, 2) && OpAt(c.m, c.f.code, e, EndOp, 1)
    && w.Some?
    && var x := Run(c, body, pos + 2, w.value);
    && x.Some? && Runs(c, body, pos + 2, w.value, x.value)
    && var y := Step(c, x.value, EndOp, e, 1);
    && y.Some? && Runs(c, rest, e + 1, y.value, v1)
  }

  // The same with two bodies.
  ghost predicate ElseRuns(c: Ctx, ft: FuncType, thn: Body, els: Body, rest: Body, pos: nat, v: VState, v1: VState) {
    var e := pos + 2 + Size(thn);
    var e2 := e + 1 + Size(els);
    var w := Step(c, v, IfOp(ft), pos, 2);
    && OpAt(c.m, c.f.code, pos, IfOp(ft), 2) && OpAt(c.m, c.f.code, e, ElseOp, 1) && OpAt(c.m, c.f.code, e2, EndOp, 1)
    && w.Some?
    && var x := Run(c, thn, pos + 2, w.value);
    && x.Some? && Runs(c, thn, pos + 2, w.value, x.value)
    && var y := Step(c, x.value, ElseOp, e, 1);
    && y.Some?
    && var z := Run(c, els, e + 1, y.value);
    && z.Some? && Runs(c, els, e + 1, y.value, z.value)
    && var u := Step(c, z.value, EndOp, e2, 1);
    && u.Some? && Runs(c, rest, e2 + 1, u.value, v1)
  }

  lemma RunsUnfold(c: Ctx, b: Body, pos: nat, v: VState, v1: VState)
    requires Runs(c, b, pos, v, v1)
    ensures match b
            case Stop => v1 == v
            case Plain(op, len, rest) => PlainRuns(c, op, len, rest, pos, v, v1)
            case Block(ft, body, rest) => NestRuns(c, BlockOp(ft), body, rest, pos, v, v1)
            case Loop(ft, body, rest) => NestRuns(c, LoopOp(ft), body, rest, pos, v, v1)
            case If(ft, thn, rest) => NestRuns(c, IfOp(ft), thn, rest, pos, v, v1)
            case IfElse(ft, thn, els, rest) => ElseRuns(c, ft, thn, els, rest, pos, v, v1)
  {
    hide Step, Decode;
  }

  // Running over a body keeps everything outside the body's frame.
  lemma {:induction false} RunEvolves(c: Ctx, b: Body, pos: nat, v: VState, v1: VState)
    requires Shape(v) && Runs(c, b, pos, v, v1)
    ensures Evolves(v, v1, pos, pos + Size(b)) && Shape(v1)
    decreases Size(b), 1
  {
    hide Evolves, Shape, Step, Decode, Runs, NestRuns, ElseRuns;
    RunsUnfold(c, b, pos, v, v1);
    match b
    case Stop => EvolvesSelf(v, pos, pos);
    case Plain(op, len, rest) =>
      var w := Step(c, v, op, pos, len).value;
      StepEvolves(c, v, op, pos, len, w);
      RunEvolves(c, rest, pos + len, w, v1);
      EvolvesTrans(v, w, v1, pos, pos + len, pos + Size(b));
    case Block(ft, body, rest) => NestRunEvolves(c, BlockOp(ft), body, rest, pos, v, v1);
    case Loop(ft, body, rest) => NestRunEvolves(c, LoopOp(ft), body, rest, pos, v, v1);
    case If(ft, thn, rest) => NestRunEvolves(c, IfOp(ft), thn, rest, pos, v, v1);
    case IfElse(ft, thn, els, rest) => ElseRunEvolves(c, ft, thn, els, rest, pos, v, v1);
  }

  lemma {:induction false} NestRunEvolves(c: Ctx, op: Op, body: Body, rest: Body, pos: nat, v: VState, v1: VState)
    requires Shape(v) && (op.BlockOp? || op.LoopOp? || op.IfOp?) && NestRuns(c, op, body, rest, pos, v, v1)
    ensures Evolves(v, v1, pos, pos + 2 + Size(body) + 1 + Size(rest)) && Shape(v1)
    decreases 2 + Size(body) + 1 + Size(rest), 0
  {
    hide Evolves, Shape, Step, Opens, Run, Runs;
    var e := pos + 2 + Size(body);
    var w := Step(c, v, op, pos, 2).value;
    BracketOpens(c, v, op, pos, 2, w);
    var x := Run(c, body, pos + 2, w).value;
    RunEvolves(c, body, pos + 2, w, x);
    var y := Step(c, x, EndOp, e, 1).value;
    NestEvolves(c, v, op, pos, body, w, x, y);
    RunEvolves(c, rest, e + 1, y, v1);
    EvolvesTrans(v, y, v1, pos, e + 1, e + 1 + Size(rest));
  }

  lemma {:induction false} ElseRunEvolves(c: Ctx, ft: FuncType, thn: Body, els: Body, rest: Body, pos: nat, v: VState,
        v1: VState)
    requires Shape(v) && ElseRuns(c, ft, thn, els, rest, pos, v, v1)
    ensures Evolves(v, v1, pos, pos + Size(IfElse(ft, thn, els, rest))) && Shape(v1)
    decreases Size(IfElse(ft, thn, els, rest)), 0
  {
    hide Evolves, Shape, Step, Opens, Run, Runs, OpAt, Size;
    SizeElse(ft, thn, els, rest);
    var e := pos + 2 + Size(thn);
    var e2 := e + 1 + Size(els);
    var w := Step(c, v, IfOp(ft), pos, 2).value;
    BracketOpens(c, v, IfOp(ft), pos, 2, w);
    var x := Run(c, thn, pos + 2, w).value;
    RunEvolves(c, thn, pos + 2, w, x);
    OpensThenEvolves(v, w, x, pos, pos + 2, e);
    var y := Step(c, x, ElseOp, e, 1).value;
    ElseOpens(c, v, x, e, y, pos);
    var z := Run(c, els, e + 1, y).value;
    RunEvolves(c, els, e + 1, y, z);
    OpensThenEvolves(v, y, z, pos, e + 1, e2);
    var u := Step(c, z, EndOp, e2, 1).value;
    EndEvolves(c, v, z, e2, u, pos);
    RunEvolves(c, rest, e2 + 1, u, v1);
    EvolvesTrans(v, u, v1, pos, e2 + 1, e2 + 1 + Size(rest));
  }

  lemma SizeElse(ft: FuncType, thn: Body, els: Body, rest: Body)
    ensures Size(IfElse(ft, thn, els, rest)) == 2 + Size(thn) + 1 + Size(els) + 1 + Size(rest)
  {
  }
}
