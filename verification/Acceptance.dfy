/**
 The validator with all checks accepts exactly the bodies that the declarative rules type. From
 acceptance to a typing one goes backwards, giving the stacks below a jump as many operands as the
 code after it takes; from a typing to acceptance forwards, the validator's operands being at most
 less known than the typing's.
 */
module Acceptance {
  import opened Basics
  import opened Leb128
  import opened Wasm
  import opened Decoder
  import opened Validation
  import opened Nesting
  import opened Typing
  import opened Strictness
  import opened Declarative

  // ----- The validator's state, seen from inside its innermost frame -----

  predicate Good(v: VState) {
    v.ctrl != [] && Top(v).height <= |v.vals| && forall i :: 0 <= i < |v.ctrl| ==> ProperType(v.ctrl[i].ftype)
  }

  function Local(v: VState): seq<ValType>
    requires Good(v)
  {
    v.vals[Top(v).height..]
  }

  function LabelLists(ctrl: seq<Frame>): (r: seq<seq<ValType>>)
    ensures |r| == |ctrl|
  {
    seq(|ctrl|, i requires 0 <= i < |ctrl| => LabelTypes(ctrl[i]))
  }

  function ScopeOf(c: Ctx, ctrl: seq<Frame>): Scope {
    Scope(c.m, c.f.Locals(), LabelLists(ctrl))
  }

  // These operands are the validator's; in unreachable code there may be others below.
  predicate Stands(v: VState, t: seq<ValType>) {
    && Good(v) && |Local(v)| <= |t| && t[|t| - |Local(v)|..] == Local(v)
    && (Top(v).dead || |t| == |Local(v)|)
  }

  // The same, the validator knowing less of some.
  predicate Covers(v: VState, t: seq<ValType>) {
    && Good(v) && |Local(v)| <= |t| && Under(Local(v), t[|t| - |Local(v)|..])
    && (Top(v).dead || |t| == |Local(v)|)
  }

  // What code inside the frame keeps.
  predicate Kept(v: VState, w: VState) {
    && Good(v) && Good(w) && |w.ctrl| == |v.ctrl| && w.ctrl[..|v.ctrl| - 1] == v.ctrl[..|v.ctrl| - 1]
    && Top(w) == Top(v).(dead := Top(w).dead)
    && w.vals[..Top(v).height] == v.vals[..Top(v).height]
  }

  lemma KeptTrans(u: VState, v: VState, w: VState)
    requires Kept(u, v) && Kept(v, w)
    ensures Kept(u, w)
  {
  }

  lemma KeptScope(c: Ctx, v: VState, w: VState)
    requires Kept(v, w)
    ensures ScopeOf(c, w.ctrl) == ScopeOf(c, v.ctrl)
  {
    var n := |v.ctrl|;
    forall i | 0 <= i < n ensures LabelTypes(w.ctrl[i]) == LabelTypes(v.ctrl[i]) {
      if i < n - 1 {
        assert w.ctrl[i] == w.ctrl[..n - 1][i] == v.ctrl[..n - 1][i] == v.ctrl[i];
      }
    }
    assert LabelLists(w.ctrl) == LabelLists(v.ctrl);
  }

  // Only frames and operands matter.
  lemma Resembles(v: VState, u: VState, t: seq<ValType>)
    requires u.ctrl == v.ctrl && u.vals == v.vals
    ensures Stands(v, t) == Stands(u, t) && Covers(v, t) == Covers(u, t) && (Good(v) ==> Kept(v, u))
  {
  }

  // ----- Popping -----

  lemma PopOneKept(v: VState, t: ValType)
    requires Good(v) && PopExpect(v, t).Some?
    ensures var v1 := PopExpect(v, t).value.0; v1.ctrl == v.ctrl && Kept(v, v1)
  {
  }

  lemma {:induction false} PopKept(v: VState, ts: seq<ValType>)
    requires Good(v) && PopTypes(v, ts).Some?
    ensures var v1 := PopTypes(v, ts).value.0; v1.ctrl == v.ctrl && Kept(v, v1)
    decreases |ts|
  {
    hide PopExpect, Kept, Good;
    if ts == [] {
      Resembles(v, v, []);
    } else {
      PopOneKept(v, ts[|ts| - 1]);
      var v1 := PopExpect(v, ts[|ts| - 1]).value.0;
      KeptGood(v, v1);
      PopKept(v1, ts[..|ts| - 1]);
      KeptTrans(v, v1, PopTypes(v1, ts[..|ts| - 1]).value.0);
    }
  }

  lemma KeptGood(v: VState, w: VState)
    requires Kept(v, w)
    ensures Good(v) && Good(w)
  {
  }

  // Suffixes of longer sequences.
  lemma SuffixMore(x: seq<ValType>, y: seq<ValType>, l: nat)
    requires l <= |x|
    ensures (x + y)[|x| - l..] == x[|x| - l..] + y
  {
  }

  lemma SuffixSplit(t: seq<ValType>, a: seq<ValType>, b: seq<ValType>)
    requires |a| + |b| <= |t| && t[|t| - |a| - |b|..] == a + b
    ensures var x := t[..|t| - |b|]; t == x + b && x[|x| - |a|..] == a
  {
    var x, end := t[..|t| - |b|], t[|t| - |a| - |b|..];
    assert x[|x| - |a|..] == end[..|a|] == a;
    assert t[|t| - |b|..] == end[|a|..] == b;
  }

  // What a pop does to the operands of the innermost frame.
  lemma PopLocal(v: VState)
    requires Good(v) && (Top(v).dead || Local(v) != [])
    ensures PopVal(v).Some? && Good(PopVal(v).value.0)
    ensures var (v1, t) := PopVal(v).value;
            && v1.ctrl == v.ctrl
            && if Local(v) == [] then Local(v1) == [] && t.Unknown? else Local(v) == Local(v1) + [t]
  {
    hide ProperType;
  }

  // Popping one, whatever it is: backwards.
  lemma PopBack(v: VState, x: seq<ValType>)
    requires Good(v) && PopVal(v).Some? && Stands(PopVal(v).value.0, x)
    ensures Stands(v, x + [PopVal(v).value.1])
  {
    hide PopVal, Good, Local;
    PopsNothing(v);
    PopLocal(v);
    var (v1, t) := PopVal(v).value;
    if Local(v) != [] {
      SuffixMore(x, [t], |Local(v1)|);
    }
  }

  lemma PopsNothing(v: VState)
    requires Good(v) && PopVal(v).Some?
    ensures Top(v).dead || Local(v) != []
  {
    hide ProperType;
  }

  lemma {:induction false} PopsBack(v: VState, ts: seq<ValType>, x: seq<ValType>)
    requires Good(v) && ProperAll(ts) && PopTypes(v, ts).Some? && Stands(PopTypes(v, ts).value.0, x)
    ensures var popped := PopTypes(v, ts).value.1; Stands(v, x + popped) && Under(popped, ts)
    decreases |ts|
  {
    hide Stands, PopVal;
    if ts == [] {
      assert x + [] == x;
    } else {
      var n := |ts| - 1;
      var (v1, t) := PopExpect(v, ts[n]).value;
      var popped := PopTypes(v1, ts[..n]).value.1;
      PopOneKept(v, ts[n]);
      PopsBack(v1, ts[..n], x);
      PopBack(v, x + popped);
      assert (x + popped) + [t] == x + (popped + [t]);
    }
  }

  // Forwards: what a typing takes, the validator can pop.
  lemma PopForth(v: VState, x: seq<ValType>, y: ValType)
    requires Covers(v, x + [y])
    ensures PopVal(v).Some?
    ensures var (v1, t) := PopVal(v).value; Covers(v1, x) && (t == y || t.Unknown?)
  {
    hide PopVal, Good, Local;
    PopLocal(v);
    if Local(v) != [] {
      UnderLast(Local(PopVal(v).value.0), PopVal(v).value.1, x, y);
    }
  }

  lemma UnderLast(ts: seq<ValType>, t: ValType, x: seq<ValType>, y: ValType)
    requires |ts| <= |x| && Under(ts + [t], (x + [y])[|x| - |ts|..])
    ensures Under(ts, x[|x| - |ts|..]) && (t == y || t.Unknown?)
  {
    var z := (x + [y])[|x| - |ts|..];
    assert z[..|ts|] == x[|x| - |ts|..] && z[|ts|] == y;
    assert (ts + [t])[|ts|] == t;
    assert forall i :: 0 <= i < |ts| ==> (ts + [t])[i] == ts[i] && z[i] == x[|x| - |ts|..][i];
  }

  lemma {:induction false} PopsForth(v: VState, ts: seq<ValType>, x: seq<ValType>, y: seq<ValType>)
    requires Covers(v, x + y) && Under(y, ts)
    ensures PopTypes(v, ts).Some?
    ensures var (v1, popped) := PopTypes(v, ts).value; Covers(v1, x) && Under(popped, y)
    decreases |ts|
  {
    hide Covers, PopVal;
    if ts == [] {
      assert x + y == x;
    } else {
      var n := |ts| - 1;
      assert x + y == (x + y[..n]) + [y[n]];
      PopForth(v, x + y[..n], y[n]);
      var v1 := PopVal(v).value.0;
      PopsForth(v1, ts[..n], x, y[..n]);
    }
  }

  // ----- Pushing -----

  lemma PushLocal(v: VState, ts: seq<ValType>, w: VState)
    requires Good(v) && w.ctrl == v.ctrl && w.vals == v.vals + ts
    ensures Kept(v, w) && Good(w) && Top(w) == Top(v) && Local(w) == Local(v) + ts
  {
  }

  lemma PushBack(v: VState, ts: seq<ValType>, w: VState, t: seq<ValType>)
    requires Good(v) && w.ctrl == v.ctrl && w.vals == v.vals + ts && Stands(w, t)
    ensures |ts| <= |t| && t == t[..|t| - |ts|] + ts && Stands(v, t[..|t| - |ts|]) && Kept(v, w)
  {
    hide Good, Local, Kept;
    PushLocal(v, ts, w);
    SuffixSplit(t, Local(v), ts);
  }

  lemma PushForth(v: VState, ts: seq<ValType>, w: VState, x: seq<ValType>, y: seq<ValType>)
    requires Covers(v, x) && w.ctrl == v.ctrl && w.vals == v.vals + ts && Under(ts, y)
    ensures Covers(w, x + y) && Kept(v, w)
  {
    hide Good, Local, Kept, Under;
    PushLocal(v, ts, w);
    SuffixMore(x, y, |Local(v)|);
    UnderMore(Local(v), x[|x| - |Local(v)|..], ts, y);
    UnderSize(ts, y);
  }

  lemma UnderMore(a: seq<ValType>, b: seq<ValType>, ts: seq<ValType>, y: seq<ValType>)
    requires Under(a, b) && Under(ts, y)
    ensures Under(a + ts, b + y)
  {
  }

  lemma AppliesAbove(x: seq<ValType>, popped: seq<ValType>, ins: seq<ValType>, outs: seq<ValType>)
    requires Under(popped, ins)
    ensures Applies(x + popped, ins, outs, x + outs)
  {
    assert (x + popped)[|x|..] == popped && (x + popped)[..|x|] == x;
  }

  lemma UnderSelf(ts: seq<ValType>)
    ensures Under(ts, ts)
  {
  }

  // An instruction of one type, backwards and forwards. v1 is the state between popping and pushing.
  lemma MoveBack(v: VState, ins: seq<ValType>, outs: seq<ValType>, w: VState, t: seq<ValType>)
    returns (have: seq<ValType>)
    requires Good(v) && ProperAll(ins) && PopTypes(v, ins).Some?
    requires var v1 := PopTypes(v, ins).value.0; w.ctrl == v1.ctrl && w.vals == v1.vals + outs
    requires Stands(w, t)
    ensures Stands(v, have) && Applies(have, ins, outs, t)
  {
    hide Stands, Good, Applies, PopTypes, Kept;
    var (v1, popped) := PopTypes(v, ins).value;
    PopKept(v, ins);
    KeptGood(v, v1);
    PushBack(v1, outs, w, t);
    var x := t[..|t| - |outs|];
    PopsBack(v, ins, x);
    AppliesAbove(x, popped, ins, outs);
    have := x + popped;
  }

  lemma MoveForth(v: VState, ins: seq<ValType>, outs: seq<ValType>, have: seq<ValType>, left: seq<ValType>)
    requires Covers(v, have) && Applies(have, ins, outs, left)
    ensures PopTypes(v, ins).Some?
    ensures var v1 := PopTypes(v, ins).value.0;
            forall w: VState :: w.ctrl == v1.ctrl && w.vals == v1.vals + outs ==> Covers(w, left)
  {
    hide Covers, PopTypes;
    var x, y := have[..|have| - |ins|], have[|have| - |ins|..];
    assert have == x + y;
    PopsForth(v, ins, x, y);
    var v1 := PopTypes(v, ins).value.0;
    UnderSelf(outs);
    forall w: VState | w.ctrl == v1.ctrl && w.vals == v1.vals + outs ensures Covers(w, left) {
      PushForth(v1, outs, w, x, outs);
    }
  }

  lemma MoveKept(v: VState, ins: seq<ValType>, outs: seq<ValType>, w: VState)
    requires Good(v) && PopTypes(v, ins).Some?
    requires var v1 := PopTypes(v, ins).value.0; w.ctrl == v1.ctrl && w.vals == v1.vals + outs
    ensures Kept(v, w)
  {
    hide PopTypes;
    PopKept(v, ins);
  }

  // ----- Jumps -----

  lemma JumpBack(v: VState, ins: seq<ValType>, w: VState) returns (have: seq<ValType>)
    requires Good(v) && ProperAll(ins) && PopTypes(v, ins).Some? && SetUnreachable(PopTypes(v, ins).value.0) == Some(w)
    ensures Stands(v, have) && EndsUnder(have, ins)
  {
    hide PopTypes, SetUnreachable;
    var (v1, popped) := PopTypes(v, ins).value;
    PopKept(v, ins);
    PopsBack(v, ins, Local(v1));
    have := Local(v1) + popped;
    assert have[|have| - |ins|..] == popped;
  }

  lemma JumpForth(v: VState, ins: seq<ValType>, have: seq<ValType>)
    requires Covers(v, have) && EndsUnder(have, ins)
    ensures PopTypes(v, ins).Some? && SetUnreachable(PopTypes(v, ins).value.0).Some?
    ensures forall left :: Covers(SetUnreachable(PopTypes(v, ins).value.0).value, left)
  {
    hide PopTypes, SetUnreachable, Covers;
    var x, y := have[..|have| - |ins|], have[|have| - |ins|..];
    assert have == x + y;
    PopsForth(v, ins, x, y);
    var v1 := PopTypes(v, ins).value.0;
    CoversGood(v1, x);
    forall left ensures SetUnreachable(v1).Some? && Covers(SetUnreachable(v1).value, left) {
      DeadCovers(v1, left);
    }
    DeadCovers(v1, []);
  }

  lemma CoversGood(v: VState, t: seq<ValType>)
    requires Covers(v, t)
    ensures Good(v)
  {
  }

  lemma DeadCovers(v: VState, left: seq<ValType>)
    requires Good(v)
    ensures SetUnreachable(v).Some? && Covers(SetUnreachable(v).value, left) && Kept(v, SetUnreachable(v).value)
  {
    var w := SetUnreachable(v).value;
    assert w.ctrl[..|v.ctrl| - 1] == v.ctrl[..|v.ctrl| - 1];
    assert Local(w) == [];
  }

  // Where nothing below the frame's operands is asked for, they stand for themselves.
  lemma StandsSelf(v: VState)
    requires Good(v)
    ensures Stands(v, Local(v))
  {
  }

  // ----- Instructions of one type -----

  // What the decoder makes of a load or store touches no more than its type has.
  predicate AccessOk(op: Op) {
    op.Load? || op.Save? ==> op.acc.width in {1, 2, 4, 8} && (Is32(op.acc.ty) ==> op.acc.width <= 4)
  }

  lemma DecodedAccess(m: Module, code: seq<byte>, pos: nat, op: Op, len: nat)
    requires OpAt(m, code, pos, op, len)
    ensures AccessOk(op)
  {
    hide Unsigned, Signed, Labels, Table, BlockType, Reserved;
  }

  lemma AlignedPow(width: nat, align: nat)
    requires width <= 8
    ensures AlignedTo(width, align) <==> Pow2(align) <= width
  {
    Pow2Values();
    assert Pow2(2) == 4;
    if align >= 4 {
      Pow2Monotone(4, align);
    }
  }

  // The validator that makes all checks.
  predicate Full(c: Ctx) {
    c.strict && c.full && ProperModule(c.m) && ProperAll(c.f.Locals()) && ProperType(c.f.ftype)
  }

  lemma AlignedRule(c: Ctx, op: Op)
    requires Full(c) && (op.Load? || op.Save?) && AccessOk(op)
    ensures Aligned(c, op.acc, op.align) <==> Pow2(op.align) <= op.acc.width
  {
    hide Pow2;
    AlignedPow(op.acc.width, op.align);
  }

  lemma SignatureRule(c: Ctx, s: Scope, op: Op)
    requires Full(c) && s.m == c.m && s.locals == c.f.Locals() && IsSimple(op) && AccessOk(op)
    ensures Signature(c, op).Some? ==> Monomorphic(s, op, Signature(c, op).value.params, Signature(c, op).value.results)
    ensures forall ins, outs :: Monomorphic(s, op, ins, outs) ==> Signature(c, op) == Some(FuncType(ins, outs))
  {
    hide Aligned, Pow2;
    if op.Load? || op.Save? {
      AlignedRule(c, op);
    }
  }

  lemma SimpleBack(c: Ctx, v: VState, op: Op, w: VState, t: seq<ValType>) returns (have: seq<ValType>)
    requires Full(c) && Good(v) && IsSimple(op) && !op.Drop? && !op.Select? && AccessOk(op)
    requires OnSimple(c, v, op) == Some(w) && Stands(w, t)
    ensures Stands(v, have) && OpType(ScopeOf(c, v.ctrl), op, have, t)
  {
    hide Signature, Monomorphic, PopTypes, Stands, Good, Applies;
    var s := ScopeOf(c, v.ctrl);
    var sig := Signature(c, op).value;
    SignatureProper(c, op);
    SignatureRule(c, s, op);
    have := MoveBack(v, sig.params, sig.results, w, t);
    assert Monomorphic(s, op, sig.params, sig.results) && Applies(have, sig.params, sig.results, t);
  }

  lemma SimpleForth(c: Ctx, v: VState, op: Op, have: seq<ValType>, left: seq<ValType>)
    requires Full(c) && IsSimple(op) && !op.Drop? && !op.Select? && AccessOk(op)
    requires Covers(v, have) && OpType(ScopeOf(c, v.ctrl), op, have, left)
    ensures OnSimple(c, v, op).Some? && Covers(OnSimple(c, v, op).value, left)
  {
    hide Signature, Monomorphic, PopTypes, Covers, Applies;
    var s := ScopeOf(c, v.ctrl);
    SignatureRule(c, s, op);
    var ins, outs :| Monomorphic(s, op, ins, outs) && Applies(have, ins, outs, left);
    MoveForth(v, ins, outs, have, left);
    var v1 := PopTypes(v, ins).value.0;
    assert PushVals(v1, outs).vals == v1.vals + outs;
  }

  lemma SimpleKept(c: Ctx, v: VState, op: Op, w: VState)
    requires Good(v) && IsSimple(op) && OnSimple(c, v, op) == Some(w)
    ensures Kept(v, w)
  {
    hide Signature, PopTypes;
    if op.Drop? {
    } else if op.Select? {
      SelectKept(v, w);
    } else {
      var sig := Signature(c, op).value;
      MoveKept(v, sig.params, sig.results, w);
    }
  }

  lemma SelectKept(v: VState, w: VState)
    requires Good(v) && OnSelect(v) == Some(w)
    ensures Kept(v, w)
  {
  }

  lemma CallBack(c: Ctx, v: VState, g: nat, w: VState, t: seq<ValType>) returns (have: seq<ValType>)
    requires Full(c) && Good(v) && OnCall(c, v, g) == Some(w) && Stands(w, t)
    ensures Stands(v, have) && OpType(ScopeOf(c, v.ctrl), Call(g), have, t)
  {
    hide PopTypes, Stands, Good, Applies;
    var ft := c.m.funcs[g].ftype;
    have := MoveBack(v, ft.params, ft.results, w, t);
    assert Monomorphic(ScopeOf(c, v.ctrl), Call(g), ft.params, ft.results) && Applies(have, ft.params, ft.results, t);
  }

  lemma CallForth(c: Ctx, v: VState, g: nat, have: seq<ValType>, left: seq<ValType>)
    requires Covers(v, have) && OpType(ScopeOf(c, v.ctrl), Call(g), have, left)
    ensures OnCall(c, v, g).Some? && Covers(OnCall(c, v, g).value, left)
  {
    hide PopTypes, Covers, Applies;
    var ft := c.m.funcs[g].ftype;
    assert Applies(have, ft.params, ft.results, left);
    MoveForth(v, ft.params, ft.results, have, left);
    var v1 := PopTypes(v, ft.params).value.0;
    assert OnCall(c, v, g).value.vals == v1.vals + ft.results;
  }

  lemma CallKept(c: Ctx, v: VState, g: nat, w: VState)
    requires Good(v) && OnCall(c, v, g) == Some(w)
    ensures Kept(v, w)
  {
    hide PopTypes;
    var ft := c.m.funcs[g].ftype;
    MoveKept(v, ft.params, ft.results, w);
  }

  // ----- drop and select -----

  lemma DropBack(c: Ctx, v: VState, w: VState, t: seq<ValType>) returns (have: seq<ValType>)
    requires Good(v) && OnSimple(c, v, Drop) == Some(w) && Stands(w, t)
    ensures Stands(v, have) && OpType(ScopeOf(c, v.ctrl), Drop, have, t)
  {
    hide Stands, PopVal;
    PopBack(v, t);
    have := t + [PopVal(v).value.1];
  }

  lemma DropForth(c: Ctx, v: VState, have: seq<ValType>, left: seq<ValType>)
    requires Covers(v, have) && OpType(ScopeOf(c, v.ctrl), Drop, have, left)
    ensures OnSimple(c, v, Drop).Some? && Covers(OnSimple(c, v, Drop).value, left)
  {
    hide Covers, PopVal;
    assert have == left + [have[|have| - 1]];
    PopForth(v, left, have[|have| - 1]);
  }

  // The three pops of a select.
  lemma SelectPops(v: VState)
    requires Good(v) && OnSelect(v).Some?
    ensures PopVal(v).Some? && Matches(PopVal(v).value.1, I32) && Good(PopVal(v).value.0)
    ensures var v0 := PopVal(v).value.0;
            && PopVal(v0).Some? && Good(PopVal(v0).value.0)
            && var (v1, t1) := PopVal(v0).value;
            && PopVal(v1).Some? && Good(PopVal(v1).value.0)
            && var (v2, t2) := PopVal(v1).value;
            && ((IsNum(t1) && IsNum(t2)) || (IsVec(t1) && IsVec(t2))) && (t1 == t2 || t1.Unknown? || t2.Unknown?)
            && OnSelect(v) == Some(PushVal(v2, if t1.Unknown? then t2 else t1))
  {
  }

  lemma SelectBack(c: Ctx, v: VState, w: VState, t: seq<ValType>) returns (have: seq<ValType>)
    requires Good(v) && OnSelect(v) == Some(w) && Stands(w, t)
    ensures Stands(v, have) && OpType(ScopeOf(c, v.ctrl), Select, have, t)
  {
    hide Stands, PopVal, OnSelect, Good, SelectType;
    SelectPops(v);
    var (v0, t0) := PopVal(v).value;
    var (v1, t1) := PopVal(v0).value;
    var (v2, t2) := PopVal(v1).value;
    var r := if t1.Unknown? then t2 else t1;
    var x := SelectStands(v, v0, t0, v1, t1, v2, t2, r, t);
    have := x + [t2] + [t1] + [t0];
    SelectTyped(x, t2, t1, t0);
    assert SelectType(have, t, r);
  }

  lemma SelectStands(v: VState, v0: VState, t0: ValType, v1: VState, t1: ValType, v2: VState, t2: ValType, r: ValType,
        t: seq<ValType>)
      returns (x: seq<ValType>)
    requires Good(v) && Good(v0) && Good(v1) && Good(v2)
    requires PopVal(v) == Some((v0, t0)) && PopVal(v0) == Some((v1, t1)) && PopVal(v1) == Some((v2, t2))
    requires Stands(PushVal(v2, r), t)
    ensures t == x + [r] && Stands(v, x + [t2] + [t1] + [t0])
  {
    hide Stands, PopVal, Good, Kept;
    PushBack(v2, [r], PushVal(v2, r), t);
    x := t[..|t| - 1];
    PopBack(v1, x);
    PopBack(v0, x + [t2]);
    PopBack(v, x + [t2] + [t1]);
  }

  lemma SelectTyped(x: seq<ValType>, t2: ValType, t1: ValType, t0: ValType)
    requires ((IsNum(t1) && IsNum(t2)) || (IsVec(t1) && IsVec(t2))) && (t1 == t2 || t1.Unknown? || t2.Unknown?)
    requires t0 == I32 || t0.Unknown?
    ensures var r := if t1.Unknown? then t2 else t1; SelectType(x + [t2] + [t1] + [t0], x + [r], r)
  {
    var r := if t1.Unknown? then t2 else t1;
    assert x + [t2] + [t1] + [t0] == x + [t2, t1, t0];
    AppliesAbove(x, [t2, t1, t0], [r, r, I32], [r]);
  }

  lemma SelectForth(c: Ctx, v: VState, have: seq<ValType>, left: seq<ValType>)
    requires Covers(v, have) && OpType(ScopeOf(c, v.ctrl), Select, have, left)
    ensures OnSelect(v).Some? && Covers(OnSelect(v).value, left)
  {
    hide Covers, PopVal, OnSelect, PushVal;
    var t :| SelectType(have, left, t);
    var x, y2, y1, y0 := SelectSplit(have, left, t);
    hide SelectType;
    PopForth(v, x + [y2] + [y1], y0);
    var (v0, t0) := PopVal(v).value;
    PopForth(v0, x + [y2], y1);
    var (v1, t1) := PopVal(v0).value;
    PopForth(v1, x, y2);
    var (v2, t2) := PopVal(v1).value;
    var r := if t1.Unknown? then t2 else t1;
    SelectPushes(v, v0, t0, v1, t1, v2, t2);
    PushOne(v2, r, x, t);
  }

  lemma PushOne(v: VState, r: ValType, x: seq<ValType>, t: ValType)
    requires Covers(v, x) && (r == t || r.Unknown?)
    ensures Covers(PushVal(v, r), x + [t])
  {
    hide Covers;
    PushForth(v, [r], PushVal(v, r), x, [t]);
  }

  lemma SelectSplit(have: seq<ValType>, left: seq<ValType>, t: ValType)
      returns (x: seq<ValType>, y2: ValType, y1: ValType, y0: ValType)
    requires SelectType(have, left, t)
    ensures have == x + [y2] + [y1] + [y0] && left == x + [t]
    ensures (y2 == t || y2.Unknown?) && (y1 == t || y1.Unknown?) && (y0 == I32 || y0.Unknown?) && (IsNum(t) || IsVec(t))
  {
    var n := |have|;
    x, y2, y1, y0 := have[..n - 3], have[n - 3], have[n - 2], have[n - 1];
    assert have[n - 3..] == [y2, y1, y0];
  }

  lemma SelectPushes(v: VState, v0: VState, t0: ValType, v1: VState, t1: ValType, v2: VState, t2: ValType)
    requires PopVal(v) == Some((v0, t0)) && PopVal(v0) == Some((v1, t1)) && PopVal(v1) == Some((v2, t2))
    requires t0 == I32 || t0.Unknown?
    requires ((IsNum(t1) && IsNum(t2)) || (IsVec(t1) && IsVec(t2))) && (t1 == t2 || t1.Unknown? || t2.Unknown?)
    ensures OnSelect(v) == Some(PushVal(v2, if t1.Unknown? then t2 else t1))
  {
    hide PopVal, PushVal;
  }

  // ----- Branches -----

  lemma LabelIs(c: Ctx, ctrl: seq<Frame>, n: nat)
    requires n < |ctrl|
    ensures LabelAt(ScopeOf(c, ctrl), n) == LabelTypes(ctrl[|ctrl| - n - 1])
  {
  }

  lemma LabelProper(v: VState, d: nat)
    requires Good(v) && d < |v.ctrl|
    ensures ProperAll(LabelTypes(v.ctrl[d]))
  {
  }

  lemma BrBack(c: Ctx, v: VState, n: nat, imm: nat, w: VState) returns (have: seq<ValType>)
    requires Good(v) && OnBr(c, v, n, imm) == Some(w)
    ensures Stands(v, have) && forall t :: OpType(ScopeOf(c, v.ctrl), Br(n), have, t)
  {
    hide PopTypes, SetUnreachable, Stands, LabelTypes, EndsUnder, Good;
    var d := |v.ctrl| - n - 1;
    var ts := LabelTypes(v.ctrl[d]);
    var a := AddSlot(v, BranchSlot(v, imm, d));
    Resembles(v, a, []);
    KeptGood(v, a) by { AddSlotKept(v, a); }
    LabelProper(v, d);
    have := JumpBack(a, ts, w);
    Resembles(v, a, have);
    LabelIs(c, v.ctrl, n);
  }

  lemma AddSlotKept(v: VState, a: VState)
    requires Good(v) && a == v.(slots := a.slots)
    ensures Kept(v, a)
  {
  }

  lemma BrForth(c: Ctx, v: VState, n: nat, imm: nat, have: seq<ValType>, left: seq<ValType>)
    requires Covers(v, have) && OpType(ScopeOf(c, v.ctrl), Br(n), have, left)
    ensures OnBr(c, v, n, imm).Some? && Covers(OnBr(c, v, n, imm).value, left)
  {
    hide PopTypes, SetUnreachable, Covers, LabelTypes, EndsUnder;
    var d := |v.ctrl| - n - 1;
    LabelIs(c, v.ctrl, n);
    var a := AddSlot(v, BranchSlot(v, imm, d));
    Resembles(v, a, have);
    JumpForth(a, LabelTypes(v.ctrl[d]), have);
  }

  // Operands popped, and then everything else: the frame is dead, nothing outside has changed.
  lemma JumpKept(v: VState, ins: seq<ValType>, w: VState)
    requires Good(v) && PopTypes(v, ins).Some? && SetUnreachable(PopTypes(v, ins).value.0) == Some(w)
    ensures Kept(v, w)
  {
    hide PopTypes, SetUnreachable;
    PopKept(v, ins);
    var v1 := PopTypes(v, ins).value.0;
    DeadCovers(v1, []);
    KeptTrans(v, v1, w);
  }

  lemma ReturnBack(c: Ctx, v: VState, w: VState) returns (have: seq<ValType>)
    requires Good(v) && OnReturn(c, v) == Some(w)
    ensures Stands(v, have) && forall t :: OpType(ScopeOf(c, v.ctrl), Return, have, t)
  {
    hide PopTypes, SetUnreachable, Stands, LabelTypes, EndsUnder;
    LabelProper(v, 0);
    have := JumpBack(v, LabelTypes(v.ctrl[0]), w);
  }

  lemma ReturnForth(c: Ctx, v: VState, have: seq<ValType>, left: seq<ValType>)
    requires Covers(v, have) && OpType(ScopeOf(c, v.ctrl), Return, have, left)
    ensures OnReturn(c, v).Some? && Covers(OnReturn(c, v).value, left)
  {
    hide PopTypes, SetUnreachable, Covers, LabelTypes, EndsUnder;
    JumpForth(v, LabelTypes(v.ctrl[0]), have);
  }

  // Popping does not look at slots.
  lemma {:induction false} PopSlots(v: VState, u: VState, ts: seq<ValType>)
    requires u == v.(slots := u.slots)
    ensures PopTypes(v, ts).Some? <==> PopTypes(u, ts).Some?
    ensures PopTypes(v, ts).Some? ==>
              var (v1, u1) := (PopTypes(v, ts).value.0, PopTypes(u, ts).value.0);
              u1.ctrl == v1.ctrl && u1.vals == v1.vals && PopTypes(u, ts).value.1 == PopTypes(v, ts).value.1
    decreases |ts|
  {
    if ts != [] {
      var a, b := PopExpect(v, ts[|ts| - 1]), PopExpect(u, ts[|ts| - 1]);
      assert a.Some? == b.Some?;
      if a.Some? {
        assert b.value.0 == a.value.0.(slots := u.slots);
        PopSlots(a.value.0, b.value.0, ts[..|ts| - 1]);
      }
    }
  }

  // br_if pops its label's types and a condition, and pushes the types again.
  lemma BrIfMoves(c: Ctx, v: VState, n: nat, imm: nat)
    requires n < |v.ctrl|
    ensures var ts := LabelTypes(v.ctrl[|v.ctrl| - n - 1]);
            var p, w := PopTypes(v, ts + [I32]), OnBrIf(c, v, n, imm);
            && (p.Some? <==> w.Some?)
            && (w.Some? ==> w.value.ctrl == p.value.0.ctrl && w.value.vals == p.value.0.vals + ts)
  {
    hide PopExpect, LabelTypes, BranchSlot;
    var d := |v.ctrl| - n - 1;
    var ts := LabelTypes(v.ctrl[d]);
    var all := ts + [I32];
    assert all[|all| - 1] == I32 && all[..|all| - 1] == ts;
    LastPopped(v, all);
    var p := PopExpect(v, I32);
    if p.Some? {
      var v0 := p.value.0;
      PopSlots(v0, AddSlot(v0, BranchSlot(v0, imm, d)), ts);
    }
  }

  lemma LastPopped(v: VState, ts: seq<ValType>)
    requires ts != []
    ensures var p := PopExpect(v, ts[|ts| - 1]);
            && (PopTypes(v, ts).Some? <==> p.Some? && PopTypes(p.value.0, ts[..|ts| - 1]).Some?)
            && (PopTypes(v, ts).Some? ==> PopTypes(v, ts).value.0 == PopTypes(p.value.0, ts[..|ts| - 1]).value.0)
  {
    hide PopExpect;
  }

  lemma BrIfInside(c: Ctx, v: VState, n: nat, imm: nat)
    requires OnBrIf(c, v, n, imm).Some?
    ensures n < |v.ctrl|
  {
  }

  lemma BrIfBack(c: Ctx, v: VState, n: nat, imm: nat, w: VState, t: seq<ValType>) returns (have: seq<ValType>)
    requires Good(v) && OnBrIf(c, v, n, imm) == Some(w) && Stands(w, t)
    ensures Stands(v, have) && OpType(ScopeOf(c, v.ctrl), BrIf(n), have, t)
  {
    hide PopTypes, Stands, LabelTypes, Applies, OnBrIf, Good, LabelAt, OpType, ProperAll, ScopeOf, LabelLists;
    BrIfInside(c, v, n, imm);
    BrIfMoves(c, v, n, imm);
    var d := |v.ctrl| - n - 1;
    var ts := LabelTypes(v.ctrl[d]);
    LabelProper(v, d);
    ProperMore(ts);
    have := MoveBack(v, ts + [I32], ts, w, t);
    BrIfRule(c, v.ctrl, n, have, t);
  }

  lemma ProperMore(ts: seq<ValType>)
    requires ProperAll(ts)
    ensures ProperAll(ts + [I32])
  {
  }

  lemma BrIfRule(c: Ctx, ctrl: seq<Frame>, n: nat, have: seq<ValType>, left: seq<ValType>)
    requires n < |ctrl|
    ensures var ts := LabelTypes(ctrl[|ctrl| - n - 1]);
            OpType(ScopeOf(c, ctrl), BrIf(n), have, left) <==> Applies(have, ts + [I32], ts, left)
  {
    hide Applies, LabelTypes, LabelAt;
    LabelIs(c, ctrl, n);
    var ts := LabelTypes(ctrl[|ctrl| - n - 1]);
    assert Monomorphic(ScopeOf(c, ctrl), BrIf(n), ts + [I32], ts);
  }

  lemma BrIfForth(c: Ctx, v: VState, n: nat, imm: nat, have: seq<ValType>, left: seq<ValType>)
    requires Covers(v, have) && OpType(ScopeOf(c, v.ctrl), BrIf(n), have, left)
    ensures OnBrIf(c, v, n, imm).Some? && Covers(OnBrIf(c, v, n, imm).value, left)
  {
    hide PopTypes, Covers, LabelTypes, Applies, OnBrIf, LabelAt;
    assert n < |v.ctrl|;
    hide OpType;
    BrIfMoves(c, v, n, imm);
    var ts := LabelTypes(v.ctrl[|v.ctrl| - n - 1]);
    BrIfRule(c, v.ctrl, n, have, left);
    MoveForth(v, ts + [I32], ts, have, left);
  }

  lemma BrIfKept(c: Ctx, v: VState, n: nat, imm: nat, w: VState)
    requires Good(v) && OnBrIf(c, v, n, imm) == Some(w)
    ensures Kept(v, w)
  {
    hide PopTypes, LabelTypes, OnBrIf, Good, Kept;
    BrIfInside(c, v, n, imm);
    BrIfMoves(c, v, n, imm);
    var ts := LabelTypes(v.ctrl[|v.ctrl| - n - 1]);
    MoveKept(v, ts + [I32], ts, w);
  }

  // ----- br_table -----

  // The operands on top will do for every label.
  predicate AllLabels(ctrl: seq<Frame>, ls: seq<nat>, arity: nat, t: seq<ValType>) {
    && arity <= |t|
    && forall i :: 0 <= i < |ls| ==> ls[i] < |ctrl| && Under(t[|t| - arity..], LabelTypes(ctrl[|ctrl| - ls[i] - 1]))
  }

  lemma {:induction false} TableBack(v: VState, ls: seq<nat>, arity: nat, pc: nat, t: seq<ValType>)
    requires Good(v) && TableSlots(v, ls, arity, pc).Some? && arity <= |t|
    requires Stands(TableSlots(v, ls, arity, pc).value, t)
    ensures Stands(v, t) && AllLabels(v.ctrl, ls, arity, t)
    decreases |ls|
  {
    hide PopTypes, Stands, LabelTypes, TableSlots, Under, Good, Kept;
    TableOnce(v, ls, arity, pc);
    if ls != [] {
      var d := |v.ctrl| - ls[0] - 1;
      var ts := LabelTypes(v.ctrl[d]);
      var a := AddSlot(v, BranchSlot(v, pc, d));
      KeptGood(v, a) by { AddSlotKept(v, a); }
      var (v1, popped) := PopTypes(a, ts).value;
      PopKept(a, ts);
      KeptGood(a, v1);
      var u := PushVals(v1, popped);
      KeptGood(v1, u) by { PushKept(v1, popped, u); }
      TableBack(u, ls[1..], arity, pc, t);
      PushBack(v1, popped, u, t);
      LabelProper(v, d);
      PopsBack(a, ts, t[..|t| - |popped|]);
      Resembles(v, a, t);
      OneMoreLabel(v.ctrl, ls, arity, t);
    }
  }

  lemma PushKept(v: VState, ts: seq<ValType>, w: VState)
    requires Good(v) && w.ctrl == v.ctrl && w.vals == v.vals + ts
    ensures Kept(v, w)
  {
  }

  lemma OneMoreLabel(ctrl: seq<Frame>, ls: seq<nat>, arity: nat, t: seq<ValType>)
    requires ls != [] && ls[0] < |ctrl| && arity <= |t|
    requires Under(t[|t| - arity..], LabelTypes(ctrl[|ctrl| - ls[0] - 1]))
    ensures AllLabels(ctrl, ls[1..], arity, t) <==> AllLabels(ctrl, ls, arity, t)
  {
    hide Under, LabelTypes;
    if AllLabels(ctrl, ls[1..], arity, t) {
      forall i | 0 <= i < |ls| ensures ls[i] < |ctrl| && Under(t[|t| - arity..], LabelTypes(ctrl[|ctrl| - ls[i] - 1])) {
        assert i > 0 ==> ls[i] == ls[1..][i - 1];
      }
    }
    if AllLabels(ctrl, ls, arity, t) {
      forall i | 0 <= i < |ls| - 1
        ensures ls[1..][i] < |ctrl| && Under(t[|t| - arity..], LabelTypes(ctrl[|ctrl| - ls[1..][i] - 1]))
      {
        assert ls[1..][i] == ls[i + 1];
      }
    }
  }

  lemma TableOnce(v: VState, ls: seq<nat>, arity: nat, pc: nat)
    ensures ls == [] ==> TableSlots(v, ls, arity, pc) == Some(v)
    ensures ls != [] && ls[0] >= |v.ctrl| ==> TableSlots(v, ls, arity, pc) == None
    ensures ls != [] && ls[0] < |v.ctrl| ==>
              var d := |v.ctrl| - ls[0] - 1;
              var ts := LabelTypes(v.ctrl[d]);
              var p := PopTypes(AddSlot(v, BranchSlot(v, pc, d)), ts);
              TableSlots(v, ls, arity, pc)
              == if |ts| != arity || p.None? then None
                  else TableSlots(PushVals(p.value.0, p.value.1), ls[1..], arity, pc)
  {
    hide PopTypes, LabelTypes;
  }

  lemma {:induction false} TableForth(v: VState, ls: seq<nat>, arity: nat, pc: nat, t: seq<ValType>)
    requires Covers(v, t) && AllLabels(v.ctrl, ls, arity, t)
    ensures TableSlots(v, ls, arity, pc).Some? && Covers(TableSlots(v, ls, arity, pc).value, t)
    decreases |ls|
  {
    hide PopTypes, Covers, LabelTypes, TableSlots, Under, Good, Kept;
    TableOnce(v, ls, arity, pc);
    if ls != [] {
      var d := |v.ctrl| - ls[0] - 1;
      var ts := LabelTypes(v.ctrl[d]);
      var a := AddSlot(v, BranchSlot(v, pc, d));
      Resembles(v, a, t);
      var x, y := t[..|t| - arity], t[|t| - arity..];
      assert t == x + y;
      UnderSize(y, ts);
      PopsForth(a, ts, x, y);
      CoversGood(a, t);
      PopKept(a, ts);
      var (v1, popped) := PopTypes(a, ts).value;
      var u := PushVals(v1, popped);
      PushForth(v1, popped, u, x, y);
      OneMoreLabel(v.ctrl, ls, arity, t);
      TableForth(u, ls[1..], arity, pc, t);
    }
  }

  lemma UnderSize(y: seq<ValType>, ts: seq<ValType>)
    requires Under(y, ts)
    ensures |y| == |ts|
  {
  }

  lemma {:induction false} TableKept(v: VState, ls: seq<nat>, arity: nat, pc: nat)
    requires Good(v) && TableSlots(v, ls, arity, pc).Some?
    ensures var w := TableSlots(v, ls, arity, pc).value; w.ctrl == v.ctrl && Kept(v, w)
    decreases |ls|
  {
    hide PopTypes, LabelTypes, TableSlots, Good, Kept;
    TableOnce(v, ls, arity, pc);
    if ls == [] {
      Resembles(v, v, []);
    } else {
      var d := |v.ctrl| - ls[0] - 1;
      var ts := LabelTypes(v.ctrl[d]);
      var a := AddSlot(v, BranchSlot(v, pc, d));
      AddSlotKept(v, a);
      KeptGood(v, a);
      var (v1, popped) := PopTypes(a, ts).value;
      PopKept(a, ts);
      KeptGood(a, v1);
      var u := PushVals(v1, popped);
      PushKept(v1, popped, u);
      KeptGood(v1, u);
      TableKept(u, ls[1..], arity, pc);
      KeptTrans(v, a, v1);
      KeptTrans(v, v1, u);
      KeptTrans(v, u, TableSlots(u, ls[1..], arity, pc).value);
    }
  }

  // The parts of a br_table.
  lemma TableParts(c: Ctx, v: VState, ls: seq<nat>, pc: nat)
    ensures var p := PopExpect(v, I32);
            if p.None? || ls == [] || exists i :: 0 <= i < |ls| && ls[i] >= |p.value.0.ctrl|
                then OnBrTable(c, v, ls, pc) == None
            else
              var v0 := p.value.0;
              var last := LabelTypes(v0.ctrl[|v0.ctrl| - ls[|ls| - 1] - 1]);
              var v1 := TableSlots(v0, ls, |last|, pc);
              if v1.None? || PopTypes(v1.value, last).None? then OnBrTable(c, v, ls, pc) == None
              else OnBrTable(c, v, ls, pc) == SetUnreachable(PopTypes(v1.value, last).value.0)
  {
    hide PopTypes, PopExpect, TableSlots, SetUnreachable, LabelTypes;
  }

  lemma BrTableBack(c: Ctx, v: VState, ls: seq<nat>, skew: nat, pc: nat, w: VState) returns (have: seq<ValType>)
    requires Good(v) && OnBrTable(c, v, ls, pc) == Some(w)
    ensures Stands(v, have) && forall t :: OpType(ScopeOf(c, v.ctrl), BrTable(ls, skew), have, t)
  {
    hide PopTypes, Stands, LabelTypes, TableSlots, Under, Good, Kept, OnBrTable, PopVal, SetUnreachable, AllLabels,
      TableType;
    TableParts(c, v, ls, pc);
    var (v0, t0) := PopExpect(v, I32).value;
    PopOneKept(v, I32);
    KeptGood(v, v0);
    var last := LabelTypes(v0.ctrl[|v0.ctrl| - ls[|ls| - 1] - 1]);
    var v1 := TableSlots(v0, ls, |last|, pc).value;
    TableKept(v0, ls, |last|, pc);
    KeptGood(v0, v1);
    LabelProper(v0, |v0.ctrl| - ls[|ls| - 1] - 1);
    var t1 := JumpBack(v1, last, w);
    TableBack(v0, ls, |last|, pc, t1);
    PopBack(v, t1);
    have := t1 + [t0];
    TableTyped(c, v.ctrl, ls, t1, t0);
  }

  lemma UnderOne(have: ValType, want: ValType)
    ensures Under([have], [want]) <==> have == want || have.Unknown?
  {
    assert [have][0] == have && [want][0] == want;
  }

  lemma TableTyped(c: Ctx, ctrl: seq<Frame>, ls: seq<nat>, t: seq<ValType>, t0: ValType)
    requires ls != [] && (forall i :: 0 <= i < |ls| ==> ls[i] < |ctrl|)
    ensures TableType(ScopeOf(c, ctrl), ls, t + [t0])
       <==> (t0 == I32 || t0.Unknown?) && AllLabels(ctrl, ls, |LabelTypes(ctrl[|ctrl| - ls[|ls| - 1] - 1])|, t)
  {
    hide LabelTypes;
    var s, have := ScopeOf(c, ctrl), t + [t0];
    var n := |LabelAt(s, ls[|ls| - 1])|;
    forall i | 0 <= i < |ls| ensures LabelAt(s, ls[i]) == LabelTypes(ctrl[|ctrl| - ls[i] - 1]) {
      LabelIs(c, ctrl, ls[i]);
    }
    assert have[|have| - 1..] == [t0];
    UnderOne(t0, I32);
    if n <= |t| {
      assert have[|have| - 1 - n..|have| - 1] == t[|t| - n..];
      assert forall i :: 0 <= i < |ls| ==>
        Under(have[|have| - 1 - n..|have| - 1], LabelAt(s, ls[i]))
            == Under(t[|t| - n..], LabelTypes(ctrl[|ctrl| - ls[i] - 1]));
    }
  }

  lemma BrTableForth(c: Ctx, v: VState, ls: seq<nat>, skew: nat, pc: nat, have: seq<ValType>, left: seq<ValType>)
    requires Covers(v, have) && OpType(ScopeOf(c, v.ctrl), BrTable(ls, skew), have, left)
    ensures OnBrTable(c, v, ls, pc).Some? && Covers(OnBrTable(c, v, ls, pc).value, left)
  {
    hide PopTypes, Covers, LabelTypes, TableSlots, Under, Good, Kept, OnBrTable, PopVal, SetUnreachable, AllLabels;
    var t, t0 := have[..|have| - 1], have[|have| - 1];
    assert have == t + [t0];
    TableTyped(c, v.ctrl, ls, t, t0);
    hide TableType;
    PopForth(v, t, t0);
    CoversGood(v, have);
    PopOneKept(v, I32);
    var v0 := PopVal(v).value.0;
    var last := LabelTypes(v0.ctrl[|v0.ctrl| - ls[|ls| - 1] - 1]);
    TableForth(v0, ls, |last|, pc, t);
    CoversGood(v0, t);
    TableKept(v0, ls, |last|, pc);
    var v1 := TableSlots(v0, ls, |last|, pc).value;
    LastLabel(v.ctrl, ls, |last|, t);
    JumpForth(v1, last, t);
    TableParts(c, v, ls, pc);
  }

  lemma LastLabel(ctrl: seq<Frame>, ls: seq<nat>, arity: nat, t: seq<ValType>)
    requires ls != [] && AllLabels(ctrl, ls, arity, t)
    ensures EndsUnder(t, LabelTypes(ctrl[|ctrl| - ls[|ls| - 1] - 1]))
  {
    hide LabelTypes;
  }

  lemma BrTableKept(c: Ctx, v: VState, ls: seq<nat>, pc: nat, w: VState)
    requires Good(v) && OnBrTable(c, v, ls, pc) == Some(w)
    ensures Kept(v, w)
  {
    hide PopTypes, LabelTypes, TableSlots, Good, Kept, OnBrTable, SetUnreachable;
    TableParts(c, v, ls, pc);
    var v0 := PopExpect(v, I32).value.0;
    PopOneKept(v, I32);
    KeptGood(v, v0);
    var last := LabelTypes(v0.ctrl[|v0.ctrl| - ls[|ls| - 1] - 1]);
    TableKept(v0, ls, |last|, pc);
    var v1 := TableSlots(v0, ls, |last|, pc).value;
    KeptGood(v0, v1);
    JumpKept(v1, last, w);
    KeptTrans(v, v0, v1);
    KeptTrans(v, v1, w);
  }

  // ----- Every instruction that is no bracket -----

  lemma PlainBack(c: Ctx, v: VState, op: Op, pos: nat, len: nat, w: VState, t: seq<ValType>)
    returns (have: seq<ValType>)
    requires Full(c) && Good(v) && !IsBracket(op) && AccessOk(op) && Step(c, v, op, pos, len) == Some(w) && Stands(w, t)
    ensures Stands(v, have) && OpType(ScopeOf(c, v.ctrl), op, have, t)
  {
    hide OnSimple, OnBr, OnBrIf, OnBrTable, OnReturn, OnCall, OnSelect, SetUnreachable, Stands, Good, OpType,
      ScopeOf, AccessOk, Full;
    if op.Unreachable? {
      StandsSelf(v);
      have := Local(v);
      AnyType(ScopeOf(c, v.ctrl), have, t);
    } else if op.Br? {
      have := BrBack(c, v, op.depth, pos + 1, w);
    } else if op.BrIf? {
      have := BrIfBack(c, v, op.depth, pos + 1, w, t);
    } else if op.BrTable? {
      have := BrTableBack(c, v, op.depths, op.skew, pos + len + op.skew, w);
    } else if op.Return? {
      have := ReturnBack(c, v, w);
    } else if op.Call? {
      have := CallBack(c, v, op.func, w, t);
    } else if op.Drop? {
      have := DropBack(c, v, w, t);
    } else if op.Select? {
      SelectSimple(c, v);
      have := SelectBack(c, v, w, t);
    } else {
      have := SimpleBack(c, v, op, w, t);
    }
  }

  lemma AnyType(s: Scope, have: seq<ValType>, left: seq<ValType>)
    ensures OpType(s, Unreachable, have, left)
  {
  }

  lemma SelectSimple(c: Ctx, v: VState)
    ensures OnSimple(c, v, Select) == OnSelect(v)
  {
    hide OnSelect;
  }

  lemma PlainForth(c: Ctx, v: VState, op: Op, pos: nat, len: nat, have: seq<ValType>, left: seq<ValType>)
    requires Full(c) && !IsBracket(op) && AccessOk(op) && Covers(v, have) && OpType(ScopeOf(c, v.ctrl), op, have, left)
    ensures Step(c, v, op, pos, len).Some? && Covers(Step(c, v, op, pos, len).value, left)
  {
    hide OnSimple, OnBr, OnBrIf, OnBrTable, OnReturn, OnCall, OnSelect, SetUnreachable, Covers, OpType, ScopeOf,
      AccessOk, Full;
    CoversGood(v, have);
    if op.Unreachable? {
      DeadCovers(v, left);
    } else if op.Br? {
      BrForth(c, v, op.depth, pos + 1, have, left);
    } else if op.BrIf? {
      BrIfForth(c, v, op.depth, pos + 1, have, left);
    } else if op.BrTable? {
      BrTableForth(c, v, op.depths, op.skew, pos + len + op.skew, have, left);
    } else if op.Return? {
      ReturnForth(c, v, have, left);
    } else if op.Call? {
      CallForth(c, v, op.func, have, left);
    } else if op.Drop? {
      DropForth(c, v, have, left);
    } else if op.Select? {
      SelectSimple(c, v);
      SelectForth(c, v, have, left);
    } else {
      SimpleForth(c, v, op, have, left);
    }
  }

  lemma PlainKept(c: Ctx, v: VState, op: Op, pos: nat, len: nat, w: VState)
    requires Good(v) && !IsBracket(op) && Step(c, v, op, pos, len) == Some(w)
    ensures Kept(v, w)
  {
    hide OnSimple, OnBrIf, OnBrTable, OnCall, SetUnreachable, PopTypes, Kept, Good;
    if op.Unreachable? {
      DeadCovers(v, []);
    } else if op.Br? {
      var d := |v.ctrl| - op.depth - 1;
      var a := AddSlot(v, BranchSlot(v, pos + 1, d));
      AddSlotKept(v, a);
      KeptGood(v, a);
      JumpKept(a, LabelTypes(v.ctrl[d]), w);
      KeptTrans(v, a, w);
    } else if op.BrIf? {
      BrIfKept(c, v, op.depth, pos + 1, w);
    } else if op.BrTable? {
      BrTableKept(c, v, op.depths, pos + len + op.skew, w);
    } else if op.Return? {
      JumpKept(v, LabelTypes(v.ctrl[0]), w);
    } else if op.Call? {
      CallKept(c, v, op.func, w);
    } else {
      SimpleKept(c, v, op, w);
    }
  }

  // ----- Brackets -----

  function Ins(op: Op): seq<ValType>
    requires op.BlockOp? || op.LoopOp? || op.IfOp?
  {
    if op.IfOp? then op.ft.params + [I32] else op.ft.params
  }

  function KindOf(op: Op): Kind {
    if op.BlockOp? then BlockK else if op.LoopOp? then LoopK else IfK
  }

  // A frame of this type has been opened on top of u, holding its parameters.
  predicate OpenedOn(u: VState, kind: Kind, ft: FuncType, v1: VState) {
    && v1.ctrl != [] && v1.ctrl == u.ctrl + [Frame(kind, ft, |u.vals|, false, Top(v1).pc)]
    && v1.vals == u.vals + ft.params
  }

  lemma OpenMoves(c: Ctx, v: VState, op: Op, pos: nat)
    requires op.BlockOp? || op.LoopOp? || op.IfOp?
    ensures var p, v1 := PopTypes(v, Ins(op)), Step(c, v, op, pos, 2);
            (p.Some? <==> v1.Some?) && (v1.Some? ==> OpenedOn(p.value.0, KindOf(op), op.ft, v1.value))
  {
    hide PopExpect;
    if op.IfOp? {
      var all := Ins(op);
      assert all[|all| - 1] == I32 && all[..|all| - 1] == op.ft.params;
      LastPopped(v, all);
    }
    hide PopTypes;
  }

  // Inside it nothing is unreachable yet, and there are just the parameters.
  lemma OpenedGood(u: VState, kind: Kind, ft: FuncType, v1: VState)
    requires Good(u) && ProperType(ft) && OpenedOn(u, kind, ft, v1)
    ensures Good(v1) && Local(v1) == ft.params && Covers(v1, ft.params)
    ensures forall t :: Stands(v1, t) <==> t == ft.params
  {
    hide ProperType;
    assert Local(v1) == ft.params;
    UnderSelf(ft.params);
    assert ft.params[0..] == ft.params;
    forall t | Stands(v1, t) ensures t == ft.params {
      assert t[0..] == t;
    }
  }

  lemma OpenedScope(c: Ctx, u: VState, kind: Kind, ft: FuncType, v1: VState)
    requires OpenedOn(u, kind, ft, v1)
    ensures ScopeOf(c, v1.ctrl) == Inner(ScopeOf(c, u.ctrl), if kind.LoopK? then ft.params else ft.results)
  {
    assert LabelLists(v1.ctrl) == LabelLists(u.ctrl) + [if kind.LoopK? then ft.params else ft.results];
  }

  // `end`: exactly the results are left, and if nothing else is to be pushed there was no missing arm.
  predicate Emptied(v2: VState, x: VState) {
    Good(v2) && x.ctrl == v2.ctrl && |x.vals| == Top(v2).height && x.vals == v2.vals[..Top(v2).height]
  }

  lemma CloseMoves(c: Ctx, v2: VState, e: nat)
    requires Full(c) && Good(v2)
    ensures var ft := Top(v2).ftype;
            var p, v3 := PopTypes(v2, ft.results), Step(c, v2, EndOp, e, 1);
            && (v3.Some? <==> p.Some? && Emptied(v2, p.value.0) && (Top(v2).kind.IfK? ==> ft.params == ft.results))
            && (v3.Some? ==>
                  v3.value.ctrl == v2.ctrl[..|v2.ctrl| - 1] && v3.value.vals == v2.vals[..Top(v2).height] + ft.results)
  {
    hide PopTypes, ProperType, ResolveAll;
    if PopTypes(v2, Top(v2).ftype.results).Some? {
      PopKept(v2, Top(v2).ftype.results);
      ShortVals(v2, PopTypes(v2, Top(v2).ftype.results).value.0);
    }
  }

  lemma ShortVals(v: VState, x: VState)
    requires Kept(v, x) && x.ctrl == v.ctrl
    ensures Emptied(v, x) <==> |x.vals| == Top(v).height
  {
    if |x.vals| == Top(v).height {
      assert x.vals == x.vals[..Top(v).height];
    }
  }

  lemma ElseMoves(c: Ctx, v2: VState, e: nat)
    requires Full(c) && Good(v2)
    ensures var ft := Top(v2).ftype;
            var p, v3 := PopTypes(v2, ft.results), Step(c, v2, ElseOp, e, 1);
            && (v3.Some? <==> Top(v2).kind.IfK? && p.Some? && Emptied(v2, p.value.0))
            && (v3.Some? ==>
                  && v3.value.ctrl == v2.ctrl[..|v2.ctrl| - 1] + [Frame(ElseK, ft, Top(v2).height, false, 0)]
                  && v3.value.vals == v2.vals[..Top(v2).height] + ft.params)
  {
    hide PopTypes, ProperType, ResolveElse;
    if PopTypes(v2, Top(v2).ftype.results).Some? {
      PopKept(v2, Top(v2).ftype.results);
      ShortVals(v2, PopTypes(v2, Top(v2).ftype.results).value.0);
    }
  }

  // What a closed body leaves will do for its results; and what does, lets it be closed.
  lemma EndsBack(v2: VState) returns (t: seq<ValType>)
    requires Good(v2) && PopTypes(v2, Top(v2).ftype.results).Some?
    requires Emptied(v2, PopTypes(v2, Top(v2).ftype.results).value.0)
    ensures Stands(v2, t) && Under(t, Top(v2).ftype.results)
  {
    hide PopTypes, Under;
    var ts := Top(v2).ftype.results;
    assert ProperType(Top(v2).ftype);
    var (x, popped) := PopTypes(v2, ts).value;
    PopKept(v2, ts);
    StandsSelf(x);
    assert Local(x) == [];
    PopsBack(v2, ts, []);
    assert [] + popped == popped;
    t := popped;
  }

  lemma EndsForth(v2: VState, t: seq<ValType>)
    requires Covers(v2, t) && Under(t, Top(v2).ftype.results)
    ensures PopTypes(v2, Top(v2).ftype.results).Some? && Emptied(v2, PopTypes(v2, Top(v2).ftype.results).value.0)
  {
    hide PopTypes, Under;
    var ts := Top(v2).ftype.results;
    assert [] + t == t;
    PopsForth(v2, ts, [], t);
    PopKept(v2, ts);
    ShortVals(v2, PopTypes(v2, ts).value.0);
  }

  // ----- Whole bodies -----

  // Closing what was opened on u, and nothing outside has changed: as if the results had been pushed on u.
  lemma Around(c: Ctx, u: VState, kind: Kind, ft: FuncType, v1: VState, v2: VState)
    requires Good(u) && OpenedOn(u, kind, ft, v1) && Kept(v1, v2)
    ensures v2.ctrl[..|v2.ctrl| - 1] == u.ctrl && v2.vals[..Top(v2).height] == u.vals
    ensures Top(v2).kind == kind && Top(v2).ftype == ft && Top(v2).height == |u.vals|
  {
    assert v1.ctrl[..|v1.ctrl| - 1] == u.ctrl;
    assert v1.vals[..|u.vals|] == u.vals;
  }

  lemma {:induction false} RunKept(c: Ctx, b: Body, pos: nat, v: VState, w: VState)
    requires Full(c) && Good(v) && Laid(c.m, c.f.code, pos, b) && Run(c, b, pos, v) == Some(w)
    ensures Kept(v, w)
    decreases Size(b), 1
  {
    hide Run, Laid, Step, Kept, Good, Full, OpAt, NestRun, ElseRun, NestLaid, ElseLaid;
    RunCases(c, b, pos, v);
    LaidCases(c.m, c.f.code, pos, b);
    match b
    case Stop => Resembles(v, v, []);
    case Plain(op, len, rest) =>
      var v1 := Step(c, v, op, pos, len).value;
      PlainKept(c, v, op, pos, len, v1);
      KeptGood(v, v1);
      RunKept(c, rest, pos + len, v1, w);
      KeptTrans(v, v1, w);
    case Block(ft, body, rest) => NestKept(c, BlockOp(ft), body, rest, pos, v, w);
    case Loop(ft, body, rest) => NestKept(c, LoopOp(ft), body, rest, pos, v, w);
    case If(ft, thn, rest) => NestKept(c, IfOp(ft), thn, rest, pos, v, w);
    case IfElse(ft, thn, els, rest) => ElseKept(c, ft, thn, els, rest, pos, v, w);
  }

  lemma ProperDecoded(c: Ctx, pos: nat, op: Op)
    requires Full(c) && OpAt(c.m, c.f.code, pos, op, 2) && (op.BlockOp? || op.LoopOp? || op.IfOp?)
    ensures ProperType(op.ft)
  {
    hide OpAt, ProperType, ProperModule, ProperAll;
    DecodedType(c.m, c.f.code, pos, op, 2);
  }

  // Its innermost frame, of this kind and type on top of u, holds what its results take.
  predicate Closable(u: VState, kind: Kind, ft: FuncType, v: VState) {
    && Good(v) && v.ctrl[..|v.ctrl| - 1] == u.ctrl && v.vals[..Top(v).height] == u.vals
    && Top(v).kind == kind && Top(v).ftype == ft
    && PopTypes(v, ft.results).Some? && Emptied(v, PopTypes(v, ft.results).value.0)
  }

  lemma {:induction false} RunInside(c: Ctx, u: VState, kind: Kind, ft: FuncType, body: Body, pos: nat, v1: VState,
        v2: VState)
    requires Full(c) && Good(u) && ProperType(ft) && OpenedOn(u, kind, ft, v1)
    requires Laid(c.m, c.f.code, pos, body) && Run(c, body, pos, v1) == Some(v2)
    ensures Good(v2) && v2.ctrl[..|v2.ctrl| - 1] == u.ctrl && v2.vals[..Top(v2).height] == u.vals
    ensures Top(v2).kind == kind && Top(v2).ftype == ft && Top(v2).height == |u.vals|
    decreases Size(body), 2
  {
    hide Run, Laid, Kept, Good, ProperType, OpenedOn, Full;
    OpenedGood(u, kind, ft, v1);
    RunKept(c, body, pos, v1, v2);
    KeptGood(v1, v2);
    Around(c, u, kind, ft, v1, v2);
  }

  lemma {:induction false} RunElse(c: Ctx, u: VState, ft: FuncType, body: Body, pos: nat, v1: VState, v2: VState,
        v3: VState)
    requires Full(c) && Good(u) && ProperType(ft) && OpenedOn(u, IfK, ft, v1)
    requires Laid(c.m, c.f.code, pos, body) && Run(c, body, pos, v1) == Some(v2)
    requires Step(c, v2, ElseOp, pos + Size(body), 1) == Some(v3)
    ensures Closable(u, IfK, ft, v2) && OpenedOn(u, ElseK, ft, v3)
    decreases Size(body), 3
  {
    hide Run, Laid, Good, ProperType, Full, PopTypes, Emptied, Step;
    RunInside(c, u, IfK, ft, body, pos, v1, v2);
    ElseMoves(c, v2, pos + Size(body));
    ElseOpened(u, ft, v3);
  }

  lemma {:induction false} RunEnd(c: Ctx, u: VState, kind: Kind, ft: FuncType, body: Body, pos: nat, v1: VState,
        v2: VState, v3: VState)
    requires Full(c) && Good(u) && ProperType(ft) && OpenedOn(u, kind, ft, v1)
    requires Laid(c.m, c.f.code, pos, body) && Run(c, body, pos, v1) == Some(v2)
    requires Step(c, v2, EndOp, pos + Size(body), 1) == Some(v3)
    ensures Closable(u, kind, ft, v2) && v3.ctrl == u.ctrl && v3.vals == u.vals + ft.results && Good(v3)
    ensures kind.IfK? ==> ft.params == ft.results
    decreases Size(body), 3
  {
    hide Run, Laid, Good, ProperType, OpenedOn, Full, PopTypes, Emptied, Kept, Step;
    RunInside(c, u, kind, ft, body, pos, v1, v2);
    CloseMoves(c, v2, pos + Size(body));
    PushKept(u, ft.results, v3);
    KeptGood(u, v3);
  }

  lemma {:induction false} NestKept(c: Ctx, op: Op, body: Body, rest: Body, pos: nat, v: VState, w: VState)
    requires Full(c) && Good(v) && NestLaid(c.m, c.f.code, op, body, rest, pos)
    requires NestRun(c, op, body, rest, pos, v) == Some(w)
    ensures Kept(v, w)
    decreases 2 + Size(body) + 1 + Size(rest), 0
  {
    hide Run, Laid, Step, Kept, Good, OpAt, Full, ProperType, OpenedOn, PopTypes, Closable, Ins;
    var e := pos + 2 + Size(body);
    var v1 := Step(c, v, op, pos, 2).value;
    var v2 := Run(c, body, pos + 2, v1).value;
    var v3 := Step(c, v2, EndOp, e, 1).value;
    ProperDecoded(c, pos, op);
    OpenMoves(c, v, op, pos);
    PopKept(v, Ins(op));
    var u := PopTypes(v, Ins(op)).value.0;
    KeptGood(v, u);
    RunEnd(c, u, KindOf(op), op.ft, body, pos + 2, v1, v2, v3);
    PushKept(u, op.ft.results, v3);
    RunKept(c, rest, e + 1, v3, w);
    KeptTrans(v, u, v3);
    KeptTrans(v, v3, w);
  }

  lemma {:induction false} ElseKept(c: Ctx, ft: FuncType, thn: Body, els: Body, rest: Body, pos: nat,
      v: VState, w: VState)
    requires Full(c) && Good(v) && ElseLaid(c.m, c.f.code, ft, thn, els, rest, pos)
    requires ElseRun(c, ft, thn, els, rest, pos, v) == Some(w)
    ensures Kept(v, w)
    decreases 2 + Size(thn) + 1 + Size(els) + 1 + Size(rest), 0
  {
    hide Run, Laid, Step, Kept, Good, OpAt, Full, ProperType, OpenedOn, PopTypes, Closable, Ins;
    var op := IfOp(ft);
    var e := pos + 2 + Size(thn);
    var e2 := e + 1 + Size(els);
    var v1 := Step(c, v, op, pos, 2).value;
    var v2 := Run(c, thn, pos + 2, v1).value;
    var v3 := Step(c, v2, ElseOp, e, 1).value;
    var v4 := Run(c, els, e + 1, v3).value;
    var v5 := Step(c, v4, EndOp, e2, 1).value;
    ProperDecoded(c, pos, op);
    OpenMoves(c, v, op, pos);
    PopKept(v, Ins(op));
    var u := PopTypes(v, Ins(op)).value.0;
    KeptGood(v, u);
    RunElse(c, u, ft, thn, pos + 2, v1, v2, v3);
    RunEnd(c, u, ElseK, ft, els, e + 1, v3, v4, v5);
    PushKept(u, ft.results, v5);
    RunKept(c, rest, e2 + 1, v5, w);
    KeptTrans(v, u, v5);
    KeptTrans(v, v5, w);
  }

  lemma ElseOpened(u: VState, ft: FuncType, v: VState)
    requires v.ctrl == u.ctrl + [Frame(ElseK, ft, |u.vals|, false, 0)] && v.vals == u.vals + ft.params
    ensures OpenedOn(u, ElseK, ft, v)
  {
  }

  // From the operands after a body that the validator has passed, back to a typing of the body.
  lemma {:induction false} BodyBack(c: Ctx, b: Body, pos: nat, v: VState, w: VState, t: seq<ValType>,
        want: seq<ValType>)
    returns (have: seq<ValType>)
    requires Full(c) && Good(v) && Laid(c.m, c.f.code, pos, b) && Run(c, b, pos, v) == Some(w)
    requires Stands(w, t) && Under(t, want)
    ensures Stands(v, have) && BodyType(ScopeOf(c, v.ctrl), b, have, want)
    decreases Size(b), 1
  {
    hide Run, Laid, Step, Kept, Good, Full, OpAt, NestRun, ElseRun, NestLaid, ElseLaid, Stands, Under, OpType,
      ScopeOf, Continues;
    RunCases(c, b, pos, v);
    LaidCases(c.m, c.f.code, pos, b);
    match b
    case Stop => have := t;
    case Plain(op, len, rest) =>
      var v1 := Step(c, v, op, pos, len).value;
      PlainKept(c, v, op, pos, len, v1);
      KeptGood(v, v1);
      KeptScope(c, v, v1);
      var left := BodyBack(c, rest, pos + len, v1, w, t, want);
      DecodedAccess(c.m, c.f.code, pos, op, len);
      have := PlainBack(c, v, op, pos, len, v1, left);
    case Block(ft, body, rest) => have := NestBack(c, BlockOp(ft), body, rest, pos, v, w, t, want);
    case Loop(ft, body, rest) => have := NestBack(c, LoopOp(ft), body, rest, pos, v, w, t, want);
    case If(ft, thn, rest) => have := NestBack(c, IfOp(ft), thn, rest, pos, v, w, t, want);
    case IfElse(ft, thn, els, rest) => have := ElseBack(c, ft, thn, els, rest, pos, v, w, t, want);
  }

  function Targeted(op: Op): seq<ValType>
    requires op.BlockOp? || op.LoopOp? || op.IfOp?
  {
    if op.LoopOp? then op.ft.params else op.ft.results
  }

  lemma InsProper(op: Op)
    requires (op.BlockOp? || op.LoopOp? || op.IfOp?) && ProperType(op.ft)
    ensures ProperAll(Ins(op))
  {
  }

  // A body between its brackets.
  lemma {:induction false} ArmBack(c: Ctx, u: VState, kind: Kind, ft: FuncType, body: Body, pos: nat, v1: VState,
        v2: VState)
    requires Full(c) && Good(u) && ProperType(ft) && OpenedOn(u, kind, ft, v1)
    requires Laid(c.m, c.f.code, pos, body) && Run(c, body, pos, v1) == Some(v2) && Closable(u, kind, ft, v2)
    ensures BodyType(Inner(ScopeOf(c, u.ctrl), if kind.LoopK? then ft.params else ft.results), body, ft.params,
            ft.results)
    decreases Size(body), 2
  {
    hide Run, Laid, Good, ProperType, OpenedOn, Full, PopTypes, Emptied, BodyType, Stands, Under, Inner, ScopeOf;
    OpenedGood(u, kind, ft, v1);
    OpenedScope(c, u, kind, ft, v1);
    var t2 := EndsBack(v2);
    var t1 := BodyBack(c, body, pos, v1, v2, t2, ft.results);
  }

  // The instruction as a whole, seen from outside.
  lemma BracketBack(c: Ctx, v: VState, op: Op, u: VState, w: VState, left: seq<ValType>, rest: Body, want: seq<ValType>)
    returns (have: seq<ValType>)
    requires (op.BlockOp? || op.LoopOp? || op.IfOp?) && Good(v) && ProperType(op.ft)
    requires PopTypes(v, Ins(op)).Some? && u == PopTypes(v, Ins(op)).value.0
    requires w.ctrl == u.ctrl && w.vals == u.vals + op.ft.results && Stands(w, left)
    requires BodyType(ScopeOf(c, w.ctrl), rest, left, want)
    ensures Stands(v, have) && Continues(ScopeOf(c, v.ctrl), Ins(op), op.ft.results, rest, have, want)
  {
    hide Good, ProperType, PopTypes, Stands, BodyType, ScopeOf, Ins, Applies, Kept;
    PopKept(v, Ins(op));
    InsProper(op);
    have := MoveBack(v, Ins(op), op.ft.results, w, left);
  }

  lemma {:induction false} NestBack(c: Ctx, op: Op, body: Body, rest: Body, pos: nat,
      v: VState, w: VState, t: seq<ValType>, want: seq<ValType>)
    returns (have: seq<ValType>)
    requires Full(c) && Good(v) && NestLaid(c.m, c.f.code, op, body, rest, pos)
    requires NestRun(c, op, body, rest, pos, v) == Some(w) && Stands(w, t) && Under(t, want)
    ensures Stands(v, have) && Continues(ScopeOf(c, v.ctrl), Ins(op), op.ft.results, rest, have, want)
    ensures BodyType(Inner(ScopeOf(c, v.ctrl), Targeted(op)), body, op.ft.params, op.ft.results)
    ensures op.IfOp? ==> Under(op.ft.params, op.ft.results)
    decreases 2 + Size(body) + 1 + Size(rest), 0
  {
    hide Run, Laid, Step, Kept, Good, OpAt, Full, ProperType, OpenedOn, PopTypes, Stands, Under, ScopeOf, Closable,
      BodyType, Inner, Continues, Ins;
    var e := pos + 2 + Size(body);
    var v1 := Step(c, v, op, pos, 2).value;
    var v2 := Run(c, body, pos + 2, v1).value;
    var v3 := Step(c, v2, EndOp, e, 1).value;
    ProperDecoded(c, pos, op);
    OpenMoves(c, v, op, pos);
    PopKept(v, Ins(op));
    var u := PopTypes(v, Ins(op)).value.0;
    KeptGood(v, u);
    RunEnd(c, u, KindOf(op), op.ft, body, pos + 2, v1, v2, v3);
    var left := BodyBack(c, rest, e + 1, v3, w, t, want);
    ArmBack(c, u, KindOf(op), op.ft, body, pos + 2, v1, v2);
    UnderSelf(op.ft.params);
    have := BracketBack(c, v, op, u, v3, left, rest, want);
  }

  lemma {:induction false} ElseBack(c: Ctx, ft: FuncType, thn: Body, els: Body, rest: Body, pos: nat,
      v: VState, w: VState, t: seq<ValType>, want: seq<ValType>)
    returns (have: seq<ValType>)
    requires Full(c) && Good(v) && ElseLaid(c.m, c.f.code, ft, thn, els, rest, pos)
    requires ElseRun(c, ft, thn, els, rest, pos, v) == Some(w) && Stands(w, t) && Under(t, want)
    ensures Stands(v, have) && Continues(ScopeOf(c, v.ctrl), Ins(IfOp(ft)), ft.results, rest, have, want)
    ensures BodyType(Inner(ScopeOf(c, v.ctrl), ft.results), thn, ft.params, ft.results)
    ensures BodyType(Inner(ScopeOf(c, v.ctrl), ft.results), els, ft.params, ft.results)
    decreases 2 + Size(thn) + 1 + Size(els) + 1 + Size(rest), 0
  {
    hide Run, Laid, Step, Kept, Good, OpAt, Full, ProperType, OpenedOn, PopTypes, Stands, Under, ScopeOf, Closable,
      BodyType, Inner, Continues, Ins;
    var op := IfOp(ft);
    var e := pos + 2 + Size(thn);
    var e2 := e + 1 + Size(els);
    var v1 := Step(c, v, op, pos, 2).value;
    var v2 := Run(c, thn, pos + 2, v1).value;
    var v3 := Step(c, v2, ElseOp, e, 1).value;
    var v4 := Run(c, els, e + 1, v3).value;
    var v5 := Step(c, v4, EndOp, e2, 1).value;
    ProperDecoded(c, pos, op);
    OpenMoves(c, v, op, pos);
    PopKept(v, Ins(op));
    var u := PopTypes(v, Ins(op)).value.0;
    KeptGood(v, u);
    RunElse(c, u, ft, thn, pos + 2, v1, v2, v3);
    RunEnd(c, u, ElseK, ft, els, e + 1, v3, v4, v5);
    var left := BodyBack(c, rest, e2 + 1, v5, w, t, want);
    ArmBack(c, u, IfK, ft, thn, pos + 2, v1, v2);
    ArmBack(c, u, ElseK, ft, els, e + 1, v3, v4);
    have := BracketBack(c, v, op, u, v5, left, rest, want);
  }

  // From a typing of a body on to the operands that the validator is left with.
  lemma {:induction false} BodyForth(c: Ctx, b: Body, pos: nat, v: VState, have: seq<ValType>, want: seq<ValType>)
    returns (t: seq<ValType>)
    requires Full(c) && Covers(v, have) && Laid(c.m, c.f.code, pos, b) && BodyType(ScopeOf(c, v.ctrl), b, have, want)
    ensures Run(c, b, pos, v).Some? && Covers(Run(c, b, pos, v).value, t) && Under(t, want)
    decreases Size(b), 1
  {
    hide Run, Laid, Step, Kept, Good, Full, OpAt, NestRun, ElseRun, NestLaid, ElseLaid, Covers, Under, OpType,
      ScopeOf, Continues, Inner;
    RunCases(c, b, pos, v);
    LaidCases(c.m, c.f.code, pos, b);
    match b
    case Stop => t := have;
    case Plain(op, len, rest) =>
      var left :| OpType(ScopeOf(c, v.ctrl), op, have, left) && BodyType(ScopeOf(c, v.ctrl), rest, left, want);
      DecodedAccess(c.m, c.f.code, pos, op, len);
      PlainForth(c, v, op, pos, len, have, left);
      var v1 := Step(c, v, op, pos, len).value;
      CoversGood(v, have);
      PlainKept(c, v, op, pos, len, v1);
      KeptScope(c, v, v1);
      t := BodyForth(c, rest, pos + len, v1, left, want);
    case Block(ft, body, rest) => t := NestForth(c, BlockOp(ft), body, rest, pos, v, have, want);
    case Loop(ft, body, rest) => t := NestForth(c, LoopOp(ft), body, rest, pos, v, have, want);
    case If(ft, thn, rest) => t := NestForth(c, IfOp(ft), thn, rest, pos, v, have, want);
    case IfElse(ft, thn, els, rest) => t := ElseForth(c, ft, thn, els, rest, pos, v, have, want);
  }

  lemma {:induction false} ArmForth(c: Ctx, u: VState, kind: Kind, ft: FuncType, body: Body, pos: nat, v1: VState)
    requires Full(c) && Good(u) && ProperType(ft) && OpenedOn(u, kind, ft, v1) && Laid(c.m, c.f.code, pos, body)
    requires BodyType(Inner(ScopeOf(c, u.ctrl), if kind.LoopK? then ft.params else ft.results), body, ft.params,
             ft.results)
    ensures Run(c, body, pos, v1).Some? && Closable(u, kind, ft, Run(c, body, pos, v1).value)
    decreases Size(body), 2
  {
    hide Run, Laid, Good, ProperType, OpenedOn, Full, PopTypes, Emptied, BodyType, Covers, Under, Inner, ScopeOf;
    OpenedGood(u, kind, ft, v1);
    OpenedScope(c, u, kind, ft, v1);
    var t := BodyForth(c, body, pos, v1, ft.params, ft.results);
    var v2 := Run(c, body, pos, v1).value;
    RunInside(c, u, kind, ft, body, pos, v1, v2);
    EndsForth(v2, t);
  }

  // The header, and what will follow the bracket.
  lemma BracketForth(c: Ctx, v: VState, op: Op, pos: nat, have: seq<ValType>, left: seq<ValType>) returns (u: VState)
    requires (op.BlockOp? || op.LoopOp? || op.IfOp?) && Covers(v, have) && Applies(have, Ins(op), op.ft.results, left)
    ensures Step(c, v, op, pos, 2).Some? && OpenedOn(u, KindOf(op), op.ft, Step(c, v, op, pos, 2).value)
    ensures Good(u) && u.ctrl == v.ctrl
    ensures forall w: VState :: w.ctrl == u.ctrl && w.vals == u.vals + op.ft.results ==> Covers(w, left)
  {
    hide Good, PopTypes, Covers, Ins, Applies, Kept, OpenedOn, Step;
    MoveForth(v, Ins(op), op.ft.results, have, left);
    u := PopTypes(v, Ins(op)).value.0;
    CoversGood(v, have);
    PopKept(v, Ins(op));
    KeptGood(v, u);
    OpenMoves(c, v, op, pos);
  }

  lemma CloseForth(c: Ctx, u: VState, kind: Kind, ft: FuncType, v2: VState, e: nat)
    requires Full(c) && Closable(u, kind, ft, v2) && (kind.IfK? ==> ft.params == ft.results)
    ensures Step(c, v2, EndOp, e, 1).Some?
    ensures var v3 := Step(c, v2, EndOp, e, 1).value; v3.ctrl == u.ctrl && v3.vals == u.vals + ft.results
  {
    hide Full, PopTypes, Emptied, Step, Good;
    CloseMoves(c, v2, e);
  }

  lemma CrossForth(c: Ctx, u: VState, ft: FuncType, v2: VState, e: nat)
    requires Full(c) && Closable(u, IfK, ft, v2) && Good(u)
    ensures Step(c, v2, ElseOp, e, 1).Some? && OpenedOn(u, ElseK, ft, Step(c, v2, ElseOp, e, 1).value)
  {
    hide Full, PopTypes, Step, ProperType;
    ElseMoves(c, v2, e);
    ElseOpened(u, ft, Step(c, v2, ElseOp, e, 1).value);
  }

  // Known types that will do for each other are the same.
  lemma UnderProper(have: seq<ValType>, want: seq<ValType>)
    requires ProperAll(have) && Under(have, want)
    ensures have == want
  {
  }

  lemma {:induction false} NestForth(c: Ctx, op: Op, body: Body, rest: Body, pos: nat,
      v: VState, have: seq<ValType>, want: seq<ValType>)
    returns (t: seq<ValType>)
    requires Full(c) && Covers(v, have) && NestLaid(c.m, c.f.code, op, body, rest, pos)
    requires Continues(ScopeOf(c, v.ctrl), Ins(op), op.ft.results, rest, have, want)
    requires BodyType(Inner(ScopeOf(c, v.ctrl), Targeted(op)), body, op.ft.params, op.ft.results)
    requires op.IfOp? ==> Under(op.ft.params, op.ft.results)
    ensures var r := NestRun(c, op, body, rest, pos, v); r.Some? && Covers(r.value, t) && Under(t, want)
    decreases 2 + Size(body) + 1 + Size(rest), 0
  {
    hide Run, Laid, Step, Good, OpAt, Full, OpenedOn, PopTypes, Covers, Under, ScopeOf, Closable, BodyType, Inner,
      Ins, Applies, ProperAll;
    var left :| Applies(have, Ins(op), op.ft.results, left) && BodyType(ScopeOf(c, v.ctrl), rest, left, want);
    var u := BracketForth(c, v, op, pos, have, left);
    var v1 := Step(c, v, op, pos, 2).value;
    var e := pos + 2 + Size(body);
    ProperDecoded(c, pos, op);
    if op.IfOp? {
      UnderProper(op.ft.params, op.ft.results);
    }
    ArmForth(c, u, KindOf(op), op.ft, body, pos + 2, v1);
    var v2 := Run(c, body, pos + 2, v1).value;
    CloseForth(c, u, KindOf(op), op.ft, v2, e);
    t := BodyForth(c, rest, e + 1, Step(c, v2, EndOp, e, 1).value, left, want);
  }

  lemma {:induction false} ElseForth(c: Ctx, ft: FuncType, thn: Body, els: Body, rest: Body, pos: nat,
      v: VState, have: seq<ValType>, want: seq<ValType>)
    returns (t: seq<ValType>)
    requires Full(c) && Covers(v, have) && ElseLaid(c.m, c.f.code, ft, thn, els, rest, pos)
    requires Continues(ScopeOf(c, v.ctrl), Ins(IfOp(ft)), ft.results, rest, have, want)
    requires BodyType(Inner(ScopeOf(c, v.ctrl), ft.results), thn, ft.params, ft.results)
    requires BodyType(Inner(ScopeOf(c, v.ctrl), ft.results), els, ft.params, ft.results)
    ensures var r := ElseRun(c, ft, thn, els, rest, pos, v); r.Some? && Covers(r.value, t) && Under(t, want)
    decreases 2 + Size(thn) + 1 + Size(els) + 1 + Size(rest), 0
  {
    hide Run, Laid, Step, Good, OpAt, Full, OpenedOn, PopTypes, Covers, Under, ScopeOf, Closable, BodyType, Inner,
      Ins, Applies, ProperType;
    var op := IfOp(ft);
    var left :| Applies(have, Ins(op), ft.results, left) && BodyType(ScopeOf(c, v.ctrl), rest, left, want);
    var u := BracketForth(c, v, op, pos, have, left);
    var v1 := Step(c, v, op, pos, 2).value;
    var e := pos + 2 + Size(thn);
    var e2 := e + 1 + Size(els);
    ProperDecoded(c, pos, op);
    ArmForth(c, u, IfK, ft, thn, pos + 2, v1);
    var v2 := Run(c, thn, pos + 2, v1).value;
    CrossForth(c, u, ft, v2, e);
    var v3 := Step(c, v2, ElseOp, e, 1).value;
    ArmForth(c, u, ElseK, ft, els, e + 1, v3);
    var v4 := Run(c, els, e + 1, v3).value;
    CloseForth(c, u, ElseK, ft, v4, e2);
    t := BodyForth(c, rest, e2 + 1, Step(c, v4, EndOp, e2, 1).value, left, want);
  }

  // ----- Whole functions -----

  lemma BeginGood(c: Ctx)
    requires Full(c)
    ensures var v := Begin(c);
            && Good(v) && Local(v) == [] && Covers(v, []) && Top(v).kind.FuncK? && Top(v).ftype == c.f.ftype
            && ScopeOf(c, v.ctrl) == Scope(c.m, c.f.Locals(), [c.f.ftype.results])
            && forall t :: Stands(v, t) ==> t == []
  {
    hide ProperType, ProperAll, ProperModule;
    assert LabelLists(Begin(c).ctrl) == [c.f.ftype.results];
  }

  lemma AcceptedTyped(c: Ctx, b: Body)
    requires Full(c) && Encodes(c.m, c.f.code, b) && Validate(c).Some?
    ensures FunctionType(c.m, c.f, b)
  {
    hide Validate, Run, Begin, Step, Good, Local, Stands, Covers, Full, PopTypes, Laid, OpAt, Kept, Emptied,
      BodyType, Under;
    ValidateRun(c, b);
    BeginGood(c);
    var v := Run(c, b, 0, Begin(c)).value;
    RunKept(c, b, 0, Begin(c), v);
    FrameKept(Begin(c), v);
    CloseMoves(c, v, Size(b));
    var t := EndsBack(v);
    var have := BodyBack(c, b, 0, Begin(c), v, t, c.f.ftype.results);
  }

  lemma FrameKept(v: VState, w: VState)
    requires Kept(v, w)
    ensures Good(w) && Top(w).kind == Top(v).kind && Top(w).ftype == Top(v).ftype
  {
  }

  lemma TypedAccepted(c: Ctx, b: Body)
    requires Full(c) && Encodes(c.m, c.f.code, b) && FunctionType(c.m, c.f, b)
    ensures Validate(c).Some?
  {
    hide Validate, Run, Begin, Step, Good, Local, Stands, Covers, Full, PopTypes, Laid, OpAt, Kept, Emptied,
      BodyType, Under;
    ValidateRun(c, b);
    BeginGood(c);
    var t := BodyForth(c, b, 0, Begin(c), [], c.f.ftype.results);
    var v := Run(c, b, 0, Begin(c)).value;
    RunKept(c, b, 0, Begin(c), v);
    FrameKept(Begin(c), v);
    EndsForth(v, t);
    CloseMoves(c, v, Size(b));
  }

  // Code that spells a nested body is accepted exactly when the body has the function's type.
  lemma TypedExactly(c: Ctx, b: Body)
    requires Full(c) && Encodes(c.m, c.f.code, b)
    ensures Validate(c).Some? <==> FunctionType(c.m, c.f, b)
  {
    hide *;
    if Validate(c).Some? {
      AcceptedTyped(c, b);
    }
    if FunctionType(c.m, c.f, b) {
      TypedAccepted(c, b);
    }
  }

  // And so the source, whose missing checks are the guards, accepts a typed body, and any other
  // only where a guard fails.
  lemma SourceTyped(c: Ctx, b: Body)
    requires Full(c) && Encodes(c.m, c.f.code, b)
    ensures FunctionType(c.m, c.f, b) <==> Validate(SourceRules(c)).Some? && Guarded(c, 0, Begin(c))
  {
    hide *;
    TypedExactly(c, b);
    ValidateAgrees(c);
  }

  // From bytes: the brackets close at the last byte and the validator accepts, exactly when the code
  // spells a body of the function's type.
  lemma BytesTyped(c: Ctx)
    requires Full(c)
    ensures Validate(c).Some? && Closes(c.m, c.f.code, 0, 1)
       <==> exists b :: Encodes(c.m, c.f.code, b) && FunctionType(c.m, c.f, b)
  {
    hide *;
    if Validate(c).Some? && Closes(c.m, c.f.code, 0, 1) {
      var b := ParseAll(c);
      AcceptedTyped(c, b);
    }
    forall b | Encodes(c.m, c.f.code, b) && FunctionType(c.m, c.f, b)
      ensures Validate(c).Some? && Closes(c.m, c.f.code, 0, 1)
    {
      TypedAccepted(c, b);
      EncodesCloses(c, b);
    }
  }
}
