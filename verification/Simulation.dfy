/**
 Data correspondence: on code that the strict validator accepts, one step of the interpreter on
 operands, locals and memory is one step of the reference machine, and neither is ever undefined.
 */
module Simulation {
  import opened Basics
  import opened Wasm
  import opened Decoder
  import opened Validation
  import opened Invariants
  import opened JumpTable
  import opened Reference
  import opened InPlace
  import opened Control
  import opened Typing

  // A function accepted by the strict validator, in a module of proper types, whose table and
  // stack fit the interpreter's 16- and 32-bit fields.
  ghost predicate Setting(c: Ctx, jt: seq<Entry>) {
    && c.strict && ProperModule(c.m) && ProperType(c.f.ftype) && ProperAll(c.f.localTypes)
    && Validate(c).Some? && Validate(c).value.peak < 0x1_0000_0000 && Linked(jt)
  }

  // Both machines are at p, and the operand stack is the validator's.
  ghost predicate Meets(c: Ctx, jt: seq<Entry>, g: Cfg, p: Point, ks: seq<Nest>, at: Pc, s: State) {
    Tracks(c, jt, g, p, ks, at.pc, at.idx) && Live(c, g, p.v, s)
  }

  lemma HereShape(c: Ctx, jt: seq<Entry>, p: Point, ks: seq<Nest>)
    requires Here(c, jt, p, ks)
    ensures Shape(p.v) && Validate(c).Some? && p.v.peak <= Validate(c).value.peak
  {
    hide Chain, Runs, Run, Validate;
    ChainPeak(c, jt, ks, EndOf(c, p), EndPos(p));
    RunEvolves(c, p.b, p.pos, p.v, EndOf(c, p));
  }

  // Each enclosing frame, seen from a point.
  lemma Frames(c: Ctx, jt: seq<Entry>, p: Point, ks: seq<Nest>, d: nat)
    requires c.strict && Here(c, jt, p, ks) && 0 < d <= |ks|
    ensures FrameLeads(p.v, ks[d - 1], d)
  {
    hide Chain, Runs, Run, Validate, FrameLeads, Evolves, Shape;
    OuterFrames(c, jt, ks, EndOf(c, p), EndPos(p), d);
    RunEvolves(c, p.b, p.pos, p.v, EndOf(c, p));
    LeadsBack(p.v, EndOf(c, p), p.pos, EndPos(p), ks[d - 1], d);
  }

  // ----- Branches -----

  lemma LeadsCut(v: VState, v0: VState, k: Nest, d: nat)
    requires FrameLeads(v, k, d) && Heights(v0) && v0.ctrl == v.ctrl && v0.vals <= v.vals
    ensures FrameLeads(v0, k, d)
  {
    var h := v.ctrl[d].height;
    assert h <= |v0.vals|;
    assert v0.vals[..h] == v.vals[..h];
  }

  // The target state of a branch: what lies below the frame, then the label's types.
  ghost predicate BranchState(v: VState, d: nat, w: VState) {
    && d < |v.ctrl| && v.ctrl[d].height <= |v.vals|
    && w.vals == v.vals[..v.ctrl[d].height] + LabelTypes(v.ctrl[d])
    && if d == 0 then |w.ctrl| == 1 && w.ctrl[0] == v.ctrl[0].(pc := w.ctrl[0].pc)
       else w.ctrl == if v.ctrl[d].kind.LoopK? then v.ctrl[..d + 1] else v.ctrl[..d]
  }

  lemma LandsState(c: Ctx, jt: seq<Entry>, p: Point, ks: seq<Nest>, v0: VState, n: nat, p2: Point, ks2: seq<Nest>)
    requires c.strict && Here(c, jt, p, ks) && LandsOn(c, ks, n, p2, ks2)
    requires Shape(v0) && Reachable(v0) && v0.ctrl == p.v.ctrl && v0.vals <= p.v.vals && FunctionFrame(c, v0)
    ensures |v0.ctrl| == |ks| + 1 && BranchState(v0, |ks| - n, p2.v)
  {
    hide Here, Shape;
    HereDepth(c, jt, p, ks);
    var d := |ks| - n;
    if d > 0 {
      Frames(c, jt, p, ks, d);
      LeadsCut(p.v, v0, ks[d - 1], d) by { ShapeHeights(v0); }
      assert v0.ctrl[..d + 1] == v0.ctrl[..d] + [v0.ctrl[d]];
    }
  }

  lemma ShapeHeights(v: VState)
    requires Shape(v)
    ensures Heights(v)
  {
  }

  // A taken branch: unwinding to the label's height is moving the top down by the slot's distance.
  lemma BranchMoves(c: Ctx, g: Cfg, v: VState, s: State, n: nat, slot: Slot, e: Entry)
    requires Live(c, g, v, s) && n <= |g.labels| && BranchFrom(v, slot, |g.labels| - n)
    requires e.offset == slot.offset && e.arity == slot.arity
    ensures BranchTo(c.f, g, s, n).Some? && Shuffle(s, e) == BranchTo(c.f, g, s, n)
    ensures var fr := v.ctrl[|g.labels| - n];
            fr.height + |LabelTypes(fr)| <= |s.stack|
            && BranchTo(c.f, g, s, n).value == s.(stack := s.stack[..fr.height]
                  + s.stack[|s.stack| - |LabelTypes(fr)|..])
  {
    hide Reachable, DataOk, Shuffle, Unwind;
    var d := |g.labels| - n;
    assert |s.stack| == |TypesOf(s.stack)| == |v.vals|;
    if d > 0 {
      assert LabelOk(g.labels[d - 1], v.ctrl[d]);
    }
    ShuffleUnwinds(s, e, v.ctrl[d].height, |LabelTypes(v.ctrl[d])|);
  }

  lemma ShuffleUnwinds(s: State, e: Entry, h: nat, k: nat)
    requires h + k <= |s.stack| && e.offset == |s.stack| - k - h && e.arity == k
    ensures Shuffle(s, e) == Unwind(s, k, h) == Some(s.(stack := s.stack[..h] + s.stack[|s.stack| - k..]))
  {
    if e.offset == 0 {
      assert s.stack == s.stack[..h] + s.stack[h..];
    }
  }

  lemma TypesSlice(vs: seq<Value>, ts: seq<ValType>, a: nat, b: nat)
    requires TypesOf(vs) == ts && a <= b <= |ts|
    ensures |vs| == |ts| && TypesOf(vs[a..b]) == ts[a..b]
  {
    assert |TypesOf(vs)| == |vs|;
    forall i | 0 <= i < b - a ensures TypesOf(vs[a..b])[i] == ts[a..b][i] {
      assert TypesOf(vs)[a + i] == ts[a + i];
    }
  }

  // After it everything is as validated.
  lemma BranchLive(c: Ctx, g: Cfg, v: VState, s: State, n: nat, slot: Slot, e: Entry, w: VState)
    requires Live(c, g, v, s) && Heights(v) && n <= |g.labels| && BranchFrom(v, slot, |g.labels| - n)
    requires e.offset == slot.offset && e.arity == slot.arity
    requires BranchState(v, |g.labels| - n, w) && Jump(g, n).Go?
    requires forall i :: 0 <= i < |g.labels| ==> g.labels[i].again.Some? == v.ctrl[i + 1].kind.LoopK?
    ensures BranchTo(c.f, g, s, n).Some? && Shuffle(s, e) == BranchTo(c.f, g, s, n)
    ensures Live(c, Jump(g, n).to, w, BranchTo(c.f, g, s, n).value)
  {
    hide FunctionFrame, LabelOk, Reachable, BranchTo, Shuffle, BranchFrom, BranchState, TypesOf, Jump, Heights, DataOk;
    BranchMoves(c, g, v, s, n, slot, e);
    var d := |g.labels| - n;
    var t := BranchTo(c.f, g, s, n).value;
    assert TypesOf(t.stack) == w.vals && t == s.(stack := t.stack) by { BranchTypes(c, g, v, s, n, slot, w, t); }
    BranchData(c, s, t);
    BranchReachable(v, d, w);
    BranchLabels(g, v, n, w);
    BranchFunction(c, v, d, w);
  }

  // The types of what is left below the frame and of what the label takes.
  lemma BranchTypes(c: Ctx, g: Cfg, v: VState, s: State, n: nat, slot: Slot, w: VState, t: State)
    requires n <= |g.labels| && |g.labels| < |v.ctrl| && TypesOf(s.stack) == v.vals
    requires BranchFrom(v, slot, |g.labels| - n) && BranchState(v, |g.labels| - n, w)
    requires var fr := v.ctrl[|g.labels| - n];
             && fr.height + |LabelTypes(fr)| <= |s.stack|
             && t == s.(stack := s.stack[..fr.height] + s.stack[|s.stack| - |LabelTypes(fr)|..])
    ensures TypesOf(t.stack) == w.vals
  {
    hide TypesOf;
    var fr := v.ctrl[|g.labels| - n];
    var h, k := fr.height, |LabelTypes(fr)|;
    TypesSlice(s.stack, v.vals, 0, h);
    TypesSlice(s.stack, v.vals, |v.vals| - k, |v.vals|);
    assert s.stack[0..h] == s.stack[..h] && v.vals[0..h] == v.vals[..h];
    assert s.stack[|v.vals| - k..|v.vals|] == s.stack[|s.stack| - k..];
    TypesJoin(s.stack[..h], s.stack[|s.stack| - k..]);
  }

  lemma BranchData(c: Ctx, s: State, t: State)
    requires DataOk(c, s) && t == s.(stack := t.stack)
    ensures DataOk(c, t)
  {
  }

  lemma BranchReachable(v: VState, d: nat, w: VState)
    requires Reachable(v) && BranchState(v, d, w)
    ensures Reachable(w)
  {
    assert ProperType(v.ctrl[d].ftype);
  }

  lemma BranchFunction(c: Ctx, v: VState, d: nat, w: VState)
    requires FunctionFrame(c, v) && BranchState(v, d, w)
    ensures FunctionFrame(c, w)
  {
  }

  lemma BranchLabels(g: Cfg, v: VState, n: nat, w: VState)
    requires LabelsOk(g.labels, v.ctrl) && n <= |g.labels| && BranchState(v, |g.labels| - n, w) && Jump(g, n).Go?
    requires forall i :: 0 <= i < |g.labels| ==> g.labels[i].again.Some? == v.ctrl[i + 1].kind.LoopK?
    ensures LabelsOk(Jump(g, n).to.labels, w.ctrl)
  {
    hide LabelOk;
    if n == |g.labels| {
    } else {
      assert g.labels[|g.labels| - n - 1].again.Some? == v.ctrl[|g.labels| - n].kind.LoopK?;
    }
  }

  // ----- One step -----

  // The caller waits at p for the results of function fi.
  ghost predicate Awaits(c: Ctx, jt: seq<Entry>, fi: nat, args: seq<Value>, g: Cfg, p: Point, ks: seq<Nest>, at: Pc,
        s: State) {
    && fi < |c.m.funcs| && Validate(c).Some?
    && var ft := c.m.funcs[fi].ftype;
    && TypesOf(args) == ft.params && Tracks(c, jt, g, p, ks, at.pc, at.idx)
    && Reachable(p.v) && p.v.vals == TypesOf(s.stack) + ft.results
    && LabelsOk(g.labels, p.v.ctrl) && DataOk(c, s) && FunctionFrame(c, p.v)
    && |s.stack| + |c.m.funcs[fi].Locals()| <= Validate(c).value.peak
  }

  lemma Resumes(c: Ctx, jt: seq<Entry>, fi: nat, args: seq<Value>, g: Cfg, p: Point, ks: seq<Nest>, at: Pc, s: State,
                vals: seq<Value>, store: Store)
    requires Awaits(c, jt, fi, args, g, p, ks, at, s)
    requires TypesOf(vals) == c.m.funcs[fi].ftype.results && TypesOf(store.globals) == c.m.GlobalTypes()
    ensures Meets(c, jt, g, p, ks, at, Push(s, vals).(store := store))
  {
    hide Validate, Tracks, Reachable, LabelsOk;
    TypesJoin(s.stack, vals);
  }

  // The two machines take the same step, it is defined, and they go on together.
  ghost predicate SameStep(c: Ctx, jt: seq<Entry>, a: Act<Cfg>, b: Act<Pc>, p: Point, ks: seq<Nest>) {
    if a.Next? then b.Next? && b.s == a.s && Meets(c, jt, a.at, p, ks, b.at, a.s)
    else if a.Invoke? then
      && b.Invoke? && b.callee == a.callee && b.args == a.args && b.s == a.s
      && Awaits(c, jt, a.callee, a.args, a.at, p, ks, b.at, a.s)
    else if a.Finish? then
      b == Finish(a.results, a.store) && TypesOf(a.results) == c.f.ftype.results
          && TypesOf(a.store.globals) == c.m.GlobalTypes()
    else a.Fault? && b.Fault?
  }

  lemma SimpleStep(c: Ctx, jt: seq<Entry>, g: Cfg, p: Point, ks: seq<Nest>, at: Pc, s: State) returns (p2: Point)
    requires Setting(c, jt) && Meets(c, jt, g, p, ks, at, s) && p.b.Plain? && IsSimple(p.b.op)
    ensures SameStep(c, jt, RefStep(c.m, c.f, g, s), FlatStep(ImageFor(c, jt), c.f, at, s), p2, ks)
  {
    hide Here, Decode, Step, Linked, Reachable, LabelsOk, DataOk, SimpleAct, MirrorsLabel;
    p2 := OnwardStep(c, jt, g, p, ks, at.idx, 0, 0);
    var op := p.b.op;
    StepSimple(c, p.v, op, p.pos, p.b.len);
    HereShape(c, jt, p, ks);
    SimpleTyped(c, p.v, op, p2.v, s, g.(cur := p.b.rest));
    SimpleTyped(c, p.v, op, p2.v, s, Pc(p2.pos, at.idx));
    SimpleActs(c.m, op, s, g.(cur := p.b.rest), Pc(p2.pos, at.idx));
    SimpleCtrl(c, p.v, op, p2.v);
  }

  lemma StepSimple(c: Ctx, v: VState, op: Op, pos: nat, len: nat)
    requires IsSimple(op)
    ensures Step(c, v, op, pos, len) == OnSimple(c, v, op)
  {
    hide OnSimple;
  }

  lemma SimpleCtrl(c: Ctx, v: VState, op: Op, w: VState)
    requires OnSimple(c, v, op) == Some(w)
    ensures w.ctrl == v.ctrl
  {
    hide PopTypes, Signature;
  }

  // A simple instruction does the same whatever positions are.
  lemma SimpleActs<C, D>(m: Module, op: Op, s: State, x: C, y: D)
    requires IsSimple(op)
    ensures var a, b := SimpleAct(m, op, s, x), SimpleAct(m, op, s, y);
            && (a.Next? <==> b.Next?) && (a.Next? ==> a.s == b.s && a.at == x && b.at == y)
            && (a.Fault? <==> b.Fault?) && (a.Undefined? <==> b.Undefined?) && !a.Invoke? && !b.Invoke? && !a.Finish?
            && !b.Finish?
  {
    hide Exec;
  }

  lemma StepCall(c: Ctx, v: VState, g: nat, pos: nat, len: nat)
    ensures Step(c, v, Call(g), pos, len) == OnCall(c, v, g)
  {
    hide OnCall;
  }

  lemma CallStep(c: Ctx, jt: seq<Entry>, g: Cfg, p: Point, ks: seq<Nest>, at: Pc, s: State) returns (p2: Point)
    requires Setting(c, jt) && Meets(c, jt, g, p, ks, at, s) && p.b.Plain? && p.b.op.Call?
    ensures SameStep(c, jt, RefStep(c.m, c.f, g, s), FlatStep(ImageFor(c, jt), c.f, at, s), p2, ks)
  {
    hide Here, Decode, Step, Linked, Reachable, DataOk, MirrorsLabel, LabelOk, Validate, OnCall;
    p2 := OnwardStep(c, jt, g, p, ks, at.idx, 0, 0);
    var fi := p.b.op.func;
    StepCall(c, p.v, fi, p.pos, p.b.len);
    HereShape(c, jt, p, ks);
    HereShape(c, jt, p2, ks);
    var low := CallTyped(c, p.v, fi, p2.v);
    TypesSplit(s.stack, low, c.m.funcs[fi].ftype.params);
    DataIgnoresStack(c, s, s.stack[..|low|]);
  }

  // ----- Leaving the function -----

  lemma FinishSame(c: Ctx, v: VState, s: State)
    requires TypesOf(s.stack) == v.vals && DataOk(c, s)
    requires |c.f.ftype.results| <= |v.vals| && v.vals[|v.vals| - |c.f.ftype.results|..] == c.f.ftype.results
    ensures |c.f.ftype.results| <= |s.stack|
    ensures TypesOf(TopN(s, |c.f.ftype.results|)) == c.f.ftype.results && TypesOf(s.store.globals) == c.m.GlobalTypes()
  {
    TypesSlice(s.stack, v.vals, |v.vals| - |c.f.ftype.results|, |v.vals|);
  }

  // Where both machines leave, with an operand stack that ends with the results.
  lemma LeaveBoth(c: Ctx, jt: seq<Entry>, g: Cfg, at: Pc, s: State, v: VState, op: Op, len: nat, p: Point,
        ks: seq<Nest>)
    requires (g.cur.Stop? && g.labels == [] && op.EndOp? && at.pc + len == |c.f.code|)
             || (g.cur.Plain? && g.cur.op == op && op.Return?)
    requires OpAt(c.m, c.f.code, at.pc, op, len)
    requires TypesOf(s.stack) == v.vals && DataOk(c, s)
    requires |c.f.ftype.results| <= |v.vals| && v.vals[|v.vals| - |c.f.ftype.results|..] == c.f.ftype.results
    ensures SameStep(c, jt, RefStep(c.m, c.f, g, s), FlatStep(ImageFor(c, jt), c.f, at, s), p, ks)
  {
    hide Decode, DataOk, Meets, Awaits, RefStep, FlatStep, TypesOf;
    FinishSame(c, v, s);
    RefLeaves(c, g, s);
    FlatLeaves(c, jt, at, s, op, len);
  }

  lemma RefLeaves(c: Ctx, g: Cfg, s: State)
    requires (g.cur.Stop? && g.labels == []) || (g.cur.Plain? && g.cur.op.Return?)
    ensures RefStep(c.m, c.f, g, s) == FinishAct(c.f, s)
  {
    hide SimpleAct, CallAct, FinishAct, BranchTo, Jump;
  }

  lemma FlatLeaves(c: Ctx, jt: seq<Entry>, at: Pc, s: State, op: Op, len: nat)
    requires OpAt(c.m, c.f.code, at.pc, op, len) && (op.Return? || (op.EndOp? && at.pc + len == |c.f.code|))
    ensures FlatStep(ImageFor(c, jt), c.f, at, s) == FinishAct(c.f, s)
  {
    hide Decode, SimpleAct, CallAct, FinishAct, Shuffle, U32;
  }

  // At the end of the function, and at a return, both machines stop with the same results.
  lemma LeaveStep(c: Ctx, jt: seq<Entry>, g: Cfg, p: Point, ks: seq<Nest>, at: Pc, s: State)
    requires Setting(c, jt) && Meets(c, jt, g, p, ks, at, s)
    requires (p.b.Stop? && ks == []) || (p.b.Plain? && p.b.op.Return?)
    ensures SameStep(c, jt, RefStep(c.m, c.f, g, s), FlatStep(ImageFor(c, jt), c.f, at, s), p, ks)
  {
    hide Here, Decode, Step, Linked, Reachable, MirrorsLabel, LabelOk, Validate, DataOk, Chain, SameStep, RefStep,
      FlatStep;
    HereShape(c, jt, p, ks);
    if p.b.Stop? {
      StopState(c, jt, p);
      CloseTyped(c, p.v, EndOp, p.pos);
      LeaveBoth(c, jt, g, at, s, p.v, EndOp, 1, p, ks);
    } else {
      var p3 := PlainHere(c, jt, p, ks, p.b.op, p.b.len, p.b.rest);
      StepReturn(c, p.v, p.pos, p.b.len);
      ReturnTyped(c, p.v);
      LeaveBoth(c, jt, g, at, s, p.v, Return, p.b.len, p, ks);
    }
  }

  lemma StopState(c: Ctx, jt: seq<Entry>, p: Point)
    requires Here(c, jt, p, []) && p.b.Stop?
    ensures Shape(p.v) && Step(c, p.v, EndOp, p.pos, 1).Some? && |p.v.ctrl| == 1 && Top(p.v).ftype == c.f.ftype
    ensures Top(p.v).height == 0
    ensures OpAt(c.m, c.f.code, p.pos, EndOp, 1) && p.pos + 1 == |c.f.code|
  {
    hide Step, Decode, Validate;
  }

  lemma StepReturn(c: Ctx, v: VState, pos: nat, len: nat)
    ensures Step(c, v, Return, pos, len) == OnReturn(c, v)
  {
    hide OnReturn;
  }

  // ----- Going on -----

  // Neither simple nor a call, and the same operand is tested.
  ghost predicate Alike(c: Ctx, g: Cfg, pc: nat, op: Op, len: nat, s: State) {
    && OpAt(c.m, c.f.code, pc, op, len) && !IsSimple(op) && !op.Call? && (g.cur.Plain? ==> g.cur.op == op)
    && Tests(g.cur) == FlatTests(op) && (FlatTests(op) ==> s.stack != [])
  }

  // The operands after a step that goes on: as they were, or moved by a branch.
  ghost predicate Moves(c: Ctx, jt: seq<Entry>, g: Cfg, at: Pc, op: Op, len: nat, a: nat, s: State, s2: State) {
    var slot := Slots(Instr(op, len), at.pc, at.idx, a);
    if g.cur.Plain? && Taken(op, a).Some? then
      && Shuffles(op) && slot.Some? && slot.value.0 < |jt|
      && BranchTo(c.f, g, s, Taken(op, a).value) == Some(s2) && Shuffle(s, jt[slot.value.0]) == Some(s2)
    else s2 == s && (Shuffles(op) ==> slot.None?)
  }

  lemma GoBoth(c: Ctx, jt: seq<Entry>, g: Cfg, at: Pc, s: State, op: Op, len: nat, s2: State, p: Point, ks: seq<Nest>)
    requires Alike(c, g, at.pc, op, len, s)
    requires var a, s1 := Tested(s, FlatTests(op)), AfterTest(s, FlatTests(op));
             var r, t := Advance(g, a, |s1.stack|), FlatControl(ImageFor(c, jt), at.pc, at.idx, a);
             && r.Go? && t.FGo? && Moves(c, jt, g, at, op, len, a, s1, s2)
             && Tracks(c, jt, r.to, p, ks, t.pc, t.idx) && Live(c, r.to, p.v, s2)
    ensures SameStep(c, jt, RefStep(c.m, c.f, g, s), FlatStep(ImageFor(c, jt), c.f, at, s), p, ks)
  {
    hide Decode, Tracks, Live, Shuffle, BranchTo, Advance, FlatControl, Taken, Slots, Awaits;
  }

  // The branch state's operands are the stack without the tested one.
  lemma AfterTestLive(c: Ctx, g: Cfg, v: VState, op: Op, s: State)
    requires Live(c, g, v, s) && (FlatTests(op) ==> v.vals != []) && Reachable(Branching(v, op))
    ensures (FlatTests(op) ==> s.stack != []) && Live(c, g, Branching(v, op), AfterTest(s, FlatTests(op)))
  {
    hide Reachable, LabelOk;
    assert |s.stack| == |v.vals|;
    if FlatTests(op) {
      TypesSlice(s.stack, v.vals, 0, |v.vals| - 1);
      DataIgnoresStack(c, s, s.stack[..|s.stack| - 1]);
    }
  }

  lemma LiveSame(c: Ctx, g: Cfg, v: VState, s: State, g2: Cfg, w: VState)
    requires Live(c, g, v, s) && w.vals == v.vals && w.ctrl == v.ctrl && g2.labels == g.labels
    ensures Live(c, g2, w, s)
  {
  }

  lemma MatchedGo(c: Ctx, jt: seq<Entry>, r: Move, t: FlatMove, p: Point, ks: seq<Nest>)
    requires Matched(c, jt, r, t, p, ks) && r.Go?
    ensures t.FGo? && Tracks(c, jt, r.to, p, ks, t.pc, t.idx)
  {
  }

  // br_if that falls through.
  lemma FallThrough(c: Ctx, jt: seq<Entry>, g: Cfg, p: Point, ks: seq<Nest>, at: Pc, s: State) returns (p2: Point)
    requires Setting(c, jt) && Meets(c, jt, g, p, ks, at, s) && p.b.Plain? && p.b.op.BrIf?
    requires s.stack != [] && Tested(s, true) == 0
    ensures SameStep(c, jt, RefStep(c.m, c.f, g, s), FlatStep(ImageFor(c, jt), c.f, at, s), p2, ks)
  {
    hide Here, Decode, Step, Linked, MirrorsLabel, Validate, SameStep, RefStep, FlatStep, IndexOk, Matched,
      FlatControl, AllFrom;
    MeetsReachable(c, jt, g, p, ks, at, s);
    HereShape(c, jt, p, ks);
    p2 := OnwardStep(c, jt, g, p, ks, at.idx, 0, |s.stack| - 1);
    BranchTyped(c, p.v, p.b.op, p.pos, p.b.len, p2.v);
    hide Live, Tracks, Shape, Reachable;
    AfterTestLive(c, g, p.v, p.b.op, s);
    var r := Advance(g, 0, |s.stack| - 1);
    MatchedGo(c, jt, r, FlatControl(ImageFor(c, jt), p.pos, at.idx, 0), p2, ks);
    LiveSame(c, g, Branching(p.v, p.b.op), AfterTest(s, true), r.to, p2.v);
    GoBoth(c, jt, g, at, s, p.b.op, p.b.len, AfterTest(s, true), p2, ks);
  }

  lemma MeetsReachable(c: Ctx, jt: seq<Entry>, g: Cfg, p: Point, ks: seq<Nest>, at: Pc, s: State)
    requires Meets(c, jt, g, p, ks, at, s)
    ensures Reachable(p.v) && g.cur == p.b && at.pc == p.pos
  {
  }

  lemma HaltStep(c: Ctx, jt: seq<Entry>, g: Cfg, p: Point, ks: seq<Nest>, at: Pc, s: State)
    requires Setting(c, jt) && Meets(c, jt, g, p, ks, at, s) && p.b.Plain? && p.b.op.Unreachable?
    ensures SameStep(c, jt, RefStep(c.m, c.f, g, s), FlatStep(ImageFor(c, jt), c.f, at, s), p, ks)
  {
    hide Here, Decode, Step, Linked, Live;
    var p2 := OnwardStep(c, jt, g, p, ks, at.idx, 0, |s.stack|);
  }

  // ----- A taken branch -----

  // A label leads back into a loop exactly when its frame is a loop's.
  ghost predicate AgainLoops(g: Cfg, v: VState) {
    |g.labels| + 1 == |v.ctrl| && forall i :: 0 <= i < |g.labels| ==>
        g.labels[i].again.Some? == v.ctrl[i + 1].kind.LoopK?
  }

  lemma LabelsAgain(c: Ctx, jt: seq<Entry>, g: Cfg, p: Point, ks: seq<Nest>)
    requires c.strict && Here(c, jt, p, ks) && Mirrors(g, p, ks)
    ensures AgainLoops(g, p.v)
  {
    hide Here;
    HereDepth(c, jt, p, ks);
    forall i | 0 <= i < |g.labels| ensures g.labels[i].again.Some? == p.v.ctrl[i + 1].kind.LoopK? {
      Frames(c, jt, p, ks, i + 1);
      assert MirrorsLabel(g.labels[i], ks[i]);
    }
  }

  // The slot of the branch that is taken, in the table.
  lemma TakenEntry(c: Ctx, jt: seq<Entry>, p: Point, ks: seq<Nest>, a: nat) returns (slot: Slot)
    requires Setting(c, jt) && Here(c, jt, p, ks) && Reachable(p.v)
    requires p.b.Plain? && Taken(p.b.op, a).Some?
    ensures FlatTests(p.b.op) ==> p.v.vals != []
    ensures var v0 := Branching(p.v, p.b.op);
            var i := |p.v.slots| + Choice(p.b.op, a);
            && Shape(v0) && Reachable(v0) && i < |jt| && Taken(p.b.op, a).value < |p.v.ctrl|
            && BranchFrom(v0, slot, |p.v.ctrl| - 1 - Taken(p.b.op, a).value)
            && jt[i].offset == slot.offset && jt[i].arity == slot.arity
  {
    hide Here, Decode, Step, Linked, Validate, Reachable, Shape, BranchFrom, Landing, Choice;
    HereShape(c, jt, p, ks);
    var op := p.b.op;
    var p2 := PlainHere(c, jt, p, ks, op, p.b.len, p.b.rest);
    BranchTyped(c, p.v, op, p.pos, p.b.len, p2.v);
    HereTable(c, jt, p2, ks);
    ChoiceTaken(op, a);
    var i := |p.v.slots| + Choice(op, a);
    assert Agrees(c, ks, jt[i], p2.v.slots[i]);
    slot := p2.v.slots[i];
  }

  lemma BranchStep(c: Ctx, jt: seq<Entry>, g: Cfg, p: Point, ks: seq<Nest>, at: Pc, s: State)
    returns (p2: Point, ks2: seq<Nest>)
    requires Setting(c, jt) && Meets(c, jt, g, p, ks, at, s)
    requires p.b.Plain? && Shuffles(p.b.op) && (FlatTests(p.b.op) ==> s.stack != [])
    requires Taken(p.b.op, Tested(s, FlatTests(p.b.op))).Some?
    ensures SameStep(c, jt, RefStep(c.m, c.f, g, s), FlatStep(ImageFor(c, jt), c.f, at, s), p2, ks2)
  {
    hide Here, Decode, Step, Linked, MirrorsLabel, Validate, SameStep, RefStep, FlatStep, IndexOk, Matched,
      FlatControl, Reachable,
         Shape, LandsOn, FunctionFrame, DataOk, LabelOk, BranchFrom, BranchTo, Shuffle, Slots, Choice;
    var op := p.b.op;
    var a := Tested(s, FlatTests(op));
    var v0, s0 := Branching(p.v, op), AfterTest(s, FlatTests(op));
    var n := Taken(op, a).value;
    var slot := TakenEntry(c, jt, p, ks, a);
    HereDepth(c, jt, p, ks);
    p2, ks2 := TakenStep(c, jt, g, p, ks, at.idx, a, |s0.stack|);
    AfterTestLive(c, g, p.v, op, s);
    LandsState(c, jt, p, ks, v0, n, p2, ks2);
    LabelsAgain(c, jt, g, p, ks);
    var e := jt[at.idx + Choice(op, a)];
    var r, t := Advance(g, a, |s0.stack|), FlatControl(ImageFor(c, jt), p.pos, at.idx, a);
    assert r == Jump(g, n);
    MatchedGo(c, jt, r, t, p2, ks2);
    BranchLive(c, g, v0, s0, n, slot, e, p2.v) by { ShapeHeights(v0); }
    var p3 := PlainHere(c, jt, p, ks, op, p.b.len, p.b.rest);
    GoBoth(c, jt, g, at, s, op, p.b.len, BranchTo(c.f, g, s0, n).value, p2, ks2);
  }

  // ----- Into and out of brackets -----

  // Leaving a body inside the function: through its `end`, or over the other arm.
  lemma CloseStep(c: Ctx, jt: seq<Entry>, g: Cfg, p: Point, ks: seq<Nest>, at: Pc, s: State)
    returns (p2: Point, ks2: seq<Nest>)
    requires Setting(c, jt) && Meets(c, jt, g, p, ks, at, s) && p.b.Stop? && ks != []
    ensures SameStep(c, jt, RefStep(c.m, c.f, g, s), FlatStep(ImageFor(c, jt), c.f, at, s), p2, ks2)
  {
    hide Here, Decode, Step, Linked, MirrorsLabel, Validate, SameStep, RefStep, FlatStep, IndexOk, Matched,
      FlatControl, Reachable,
         Shape, FunctionFrame, DataOk, LabelOk, FrameLeads;
    p2, ks2 := StopStep(c, jt, g, p, ks, at.idx, 0, |s.stack|);
    var op := CloseOp(c, jt, p, ks);
    HereDepth(c, jt, p, ks);
    Frames(c, jt, p, ks, |ks|);
    CloseLive(c, g, p.v, op, p.pos, ks[|ks| - 1], s);
    MatchedGo(c, jt, Advance(g, 0, |s.stack|), FlatControl(ImageFor(c, jt), p.pos, at.idx, 0), p2, ks2);
    LiveSame(c, Cfg(Stop, g.labels[..|g.labels| - 1]), p2.v, s, Advance(g, 0, |s.stack|).to, p2.v);
    GoBoth(c, jt, g, at, s, op, 1, s, p2, ks2);
  }

  lemma CloseOp(c: Ctx, jt: seq<Entry>, p: Point, ks: seq<Nest>) returns (op: Op)
    requires Here(c, jt, p, ks) && p.b.Stop? && ks != []
    ensures (op.EndOp? || op.ElseOp?) && OpAt(c.m, c.f.code, p.pos, op, 1) && Step(c, p.v, op, p.pos, 1).Some?
    ensures Shape(p.v)
  {
    hide Step, Decode, Validate, LoopOk;
    op := if ks[|ks| - 1].els.None? then EndOp else ElseOp;
  }

  lemma CloseLive(c: Ctx, g: Cfg, v: VState, op: Op, pos: nat, k: Nest, s: State)
    requires c.strict && Shape(v) && (op.EndOp? || op.ElseOp?) && Step(c, v, op, pos, 1).Some?
    requires Live(c, g, v, s) && |v.ctrl| > 1 && FrameLeads(v, k, |v.ctrl| - 1)
    ensures Live(c, Cfg(Stop, g.labels[..|g.labels| - 1]), k.after.v, s)
  {
    hide Step, LabelOk, DataOk;
    CloseTyped(c, v, op, pos);
  }

  // A new label and a new frame.
  lemma OpenLive(c: Ctx, g: Cfg, v: VState, s: State, l: Label, fr: Frame, g2: Cfg, w: VState)
    requires Live(c, g, v, s) && LabelOk(l, fr) && w.ctrl == v.ctrl + [fr] && w.vals == v.vals && Reachable(w)
    requires g2.labels == g.labels + [l]
    ensures Live(c, g2, w, s)
  {
    hide LabelOk, Reachable;
  }

  // The bracket at p opens in the same way in all three machines.
  lemma OpenBoth(c: Ctx, g: Cfg, p: Point, op: Op, again: Option<Body>, body: Body, rest: Body, s: State, inner: Point)
    requires c.strict && ProperModule(c.m) && Shape(p.v) && Live(c, g, p.v, s)
    requires (op.BlockOp? || op.LoopOp? || op.IfOp?) && again.Some? == op.LoopOp?
    requires OpAt(c.m, c.f.code, p.pos, op, 2) && Step(c, p.v, op, p.pos, 2) == Some(inner.v)
    ensures FlatTests(op) ==> s.stack != [] && p.v.vals != []
    ensures var s0 := AfterTest(s, FlatTests(op));
            && Live(c, g, Branching(p.v, op), s0)
            && Live(c, Enter(g, again, op.ft, body, rest, |s0.stack|).to, inner.v, s0)
    ensures inner.v.vals == Branching(p.v, op).vals && |inner.v.ctrl| == |p.v.ctrl| + 1
    ensures inner.v.ctrl[..|p.v.ctrl|] == p.v.ctrl && Top(inner.v).ftype == op.ft
    ensures (op.IfOp? ==> Top(inner.v).kind == IfK)
    ensures Top(inner.v).height + |op.ft.params| == |inner.v.vals|
    ensures inner.v.vals[Top(inner.v).height..] == op.ft.params
  {
    hide Decode, Step, Shape, Reachable, FunctionFrame, DataOk;
    LiveReachable(c, g, p.v, s);
    DecodedType(c.m, c.f.code, p.pos, op, 2);
    OpenTyped(c, p.v, op, p.pos, inner.v);
    AfterTestLive(c, g, p.v, op, s);
    var s0 := AfterTest(s, FlatTests(op));
    var g2 := Enter(g, again, op.ft, body, rest, |s0.stack|).to;
    OpenLive(c, g, Branching(p.v, op), s0, g2.labels[|g.labels|], Top(inner.v), g2, inner.v);
    OpenParams(c, p.v, op, p.pos, inner.v);
  }

  lemma LiveReachable(c: Ctx, g: Cfg, v: VState, s: State)
    requires Live(c, g, v, s)
    ensures Reachable(v)
  {
  }

  lemma OpenParams(c: Ctx, v: VState, op: Op, pos: nat, w: VState)
    requires (op.BlockOp? || op.LoopOp? || op.IfOp?) && Step(c, v, op, pos, 2) == Some(w)
    ensures w.ctrl != [] && Top(w).height <= |w.vals| && w.vals[Top(w).height..] == op.ft.params
  {
    hide PopTypes, PopExpect;
  }

  lemma EnterBlock(c: Ctx, jt: seq<Entry>, g: Cfg, p: Point, ks: seq<Nest>, at: Pc, s: State)
    returns (p2: Point, ks2: seq<Nest>)
    requires Setting(c, jt) && Meets(c, jt, g, p, ks, at, s) && (p.b.Block? || p.b.Loop?)
    ensures SameStep(c, jt, RefStep(c.m, c.f, g, s), FlatStep(ImageFor(c, jt), c.f, at, s), p2, ks2)
  {
    hide Here, Decode, Step, Linked, MirrorsLabel, Validate, SameStep, RefStep, FlatStep, IndexOk, Matched,
      FlatControl, Live, Shape, PointOk;
    HereShape(c, jt, p, ks);
    var (op, body, rest) := BodyOf(p.b).value;
    NestHere(c, jt, p, ks, op, body, rest);
    p2, ks2 := BlockStep(c, jt, g, p, ks, at.idx, 0, |s.stack|);
    OpenBoth(c, g, p, op, if p.b.Loop? then Some(body) else None, body, rest, s, p2);
    MatchedGo(c, jt, Advance(g, 0, |s.stack|), FlatControl(ImageFor(c, jt), p.pos, at.idx, 0), p2, ks2);
    GoBoth(c, jt, g, at, s, op, 2, s, p2, ks2);
  }

  // An `if` without an other arm, skipped: its results are its parameters, so nothing moves.
  lemma SkipState(c: Ctx, jt: seq<Entry>, p: Point, ks: seq<Nest>, inner: Point, after: Point, ft: FuncType)
    requires c.strict && Shape(p.v) && Here(c, jt, inner, ks + [Nest(after, None, after.pos, None)])
    requires |inner.v.ctrl| == |ks| + 2
    requires Top(EndOf(c, inner)).kind == IfK
    requires |p.v.ctrl| == |ks| + 1 && inner.v.ctrl[..|p.v.ctrl|] == p.v.ctrl && Top(inner.v).ftype == ft
    requires Top(inner.v).height <= |inner.v.vals| && inner.v.vals[Top(inner.v).height..] == ft.params
    ensures after.v.vals == inner.v.vals && after.v.ctrl == p.v.ctrl
  {
    hide Here, Shape;
    var k := Nest(after, None, after.pos, None);
    Frames(c, jt, inner, ks + [k], |ks| + 1);
    SkipResults(c, jt, inner, ks + [k]);
  }

  lemma SkipResults(c: Ctx, jt: seq<Entry>, inner: Point, ks: seq<Nest>)
    requires c.strict && Here(c, jt, inner, ks) && ks != [] && ks[|ks| - 1].els.None?
    requires Top(EndOf(c, inner)).kind == IfK
    ensures inner.v.ctrl != [] && Top(inner.v).ftype.params == Top(inner.v).ftype.results
  {
    hide Step, Decode, Run, Runs, LoopOk, Validate;
    var x := EndOf(c, inner);
    StrictEnd(c, x, EndPos(inner), ks[|ks| - 1].after.v);
    RunEvolves(c, inner.b, inner.pos, inner.v, x);
  }

  lemma IfBoth(c: Ctx, jt: seq<Entry>, g: Cfg, p: Point, ks: seq<Nest>, at: Pc, s: State)
    returns (p2: Point, ks2: seq<Nest>)
    requires Setting(c, jt) && Meets(c, jt, g, p, ks, at, s) && p.b.If?
    ensures SameStep(c, jt, RefStep(c.m, c.f, g, s), FlatStep(ImageFor(c, jt), c.f, at, s), p2, ks2)
  {
    hide Here, Decode, Step, Linked, MirrorsLabel, Validate, SameStep, RefStep, FlatStep, IndexOk, Matched,
      FlatControl, Live, Shape, PointOk,
         Beyond, FrameLeads;
    HereShape(c, jt, p, ks);
    HereDepth(c, jt, p, ks);
    var op, body, rest := IfOp(p.b.ft), p.b.thn, p.b.rest;
    NestHere(c, jt, p, ks, op, body, rest);
    var inner := Inside(c, p, op, body);
    OpenBoth(c, g, p, op, None, body, rest, s, inner);
    var a, s0 := Tested(s, true), AfterTest(s, true);
    var h := |s0.stack|;
    p2, ks2 := IfStep(c, jt, g, p, ks, at.idx, a, h);
    var r := Advance(g, a, h);
    if a == 0 {
      SkipState(c, jt, p, ks, inner, p2, p.b.ft);
      LiveSame(c, g, Branching(p.v, op), s0, r.to, p2.v);
    }
    MatchedGo(c, jt, r, FlatControl(ImageFor(c, jt), p.pos, at.idx, a), p2, ks2);
    GoBoth(c, jt, g, at, s, op, 2, s0, p2, ks2);
  }

  // The other arm starts as the first one did.
  lemma ArmState(c: Ctx, jt: seq<Entry>, first: Point, ks: seq<Nest>, els: Body)
    requires c.strict && Here(c, jt, first, ks) && ks != [] && ks[|ks| - 1].els == Some(els)
    ensures first.v.ctrl != [] && Top(first.v).height <= |first.v.vals|
    ensures var y := StateAfter(c, EndOf(c, first), ElseOp, EndPos(first));
            && y.ctrl == first.v.ctrl[..|first.v.ctrl| - 1]
                  + [Frame(ElseK, Top(first.v).ftype, Top(first.v).height, false, 0)]
            && y.vals == first.v.vals[..Top(first.v).height] + Top(first.v).ftype.params
  {
    hide Step, Decode, Run, Runs, LoopOk, Validate;
    var x := EndOf(c, first);
    var y := StateAfter(c, x, ElseOp, EndPos(first));
    StrictElse(c, x, EndPos(first), y);
    RunEvolves(c, first.b, first.pos, first.v, x);
  }

  // The label of an if-else fits the frame of either arm.
  lemma ArmLive(c: Ctx, g: Cfg, first: VState, s: State, arm: VState, g2: Cfg)
    requires Live(c, g, first, s) && first.ctrl != [] && Top(first).height <= |first.vals| && Top(first).kind == IfK
    requires first.vals[Top(first).height..] == Top(first).ftype.params
    requires arm.ctrl == first.ctrl[..|first.ctrl| - 1] + [Frame(ElseK, Top(first).ftype, Top(first).height, false, 0)]
    requires arm.vals == first.vals[..Top(first).height] + Top(first).ftype.params && |first.ctrl| > 1
    requires g2.labels == g.labels
    ensures Live(c, g2, arm, s)
  {
    hide DataOk;
    assert arm.vals == first.vals;
  }

  lemma IfElseBoth(c: Ctx, jt: seq<Entry>, g: Cfg, p: Point, ks: seq<Nest>, at: Pc, s: State)
    returns (p2: Point, ks2: seq<Nest>)
    requires Setting(c, jt) && Meets(c, jt, g, p, ks, at, s) && p.b.IfElse?
    ensures SameStep(c, jt, RefStep(c.m, c.f, g, s), FlatStep(ImageFor(c, jt), c.f, at, s), p2, ks2)
  {
    hide Here, Decode, Step, Linked, MirrorsLabel, Validate, SameStep, RefStep, FlatStep, IndexOk, Matched,
      FlatControl, Live, Shape, PointOk,
         Beyond, EndOf, Inside, StateAfter;
    HereShape(c, jt, p, ks);
    HereDepth(c, jt, p, ks);
    var ft, thn, els, rest := p.b.ft, p.b.thn, p.b.els, p.b.rest;
    ElseHere(c, jt, p, ks, ft, thn, els, rest);
    var first, arm := Inside(c, p, IfOp(ft), thn), ArmOf(c, p, ft, thn, els);
    OpenBoth(c, g, p, IfOp(ft), None, thn, rest, s, first);
    var a, s0 := Tested(s, true), AfterTest(s, true);
    var h := |s0.stack|;
    p2, ks2 := IfElseStep(c, jt, g, p, ks, at.idx, a, h);
    var r := Advance(g, a, h);
    if a == 0 {
      ArmState(c, jt, first, ks + [Nest(Beyond(c, arm, rest), Some(els), arm.pos, None)], els);
      ArmLive(c, Enter(g, None, ft, thn, rest, h).to, first.v, s0, arm.v, r.to);
    } else {
      LiveSame(c, Enter(g, None, ft, thn, rest, h).to, first.v, s0, r.to, p2.v);
    }
    MatchedGo(c, jt, r, FlatControl(ImageFor(c, jt), p.pos, at.idx, a), p2, ks2);
    GoBoth(c, jt, g, at, s, IfOp(ft), 2, s0, p2, ks2);
  }

  // The step theorem: reference machine and interpreter take the same step, which is defined,
  // and the operand stack stays what the validator computed.
  lemma StepSame(c: Ctx, jt: seq<Entry>, g: Cfg, p: Point, ks: seq<Nest>, at: Pc, s: State)
    returns (p2: Point, ks2: seq<Nest>)
    requires Setting(c, jt) && Meets(c, jt, g, p, ks, at, s)
    ensures SameStep(c, jt, RefStep(c.m, c.f, g, s), FlatStep(ImageFor(c, jt), c.f, at, s), p2, ks2)
  {
    hide SameStep, RefStep, FlatStep, Meets, Setting;
    MeetsReachable(c, jt, g, p, ks, at, s);
    p2, ks2 := p, ks;
    if p.b.Stop? {
      if ks == [] { LeaveStep(c, jt, g, p, ks, at, s); } else { p2, ks2 := CloseStep(c, jt, g, p, ks, at, s); }
    } else if p.b.Plain? {
      p2, ks2 := PlainStep(c, jt, g, p, ks, at, s);
    } else if p.b.If? {
      p2, ks2 := IfBoth(c, jt, g, p, ks, at, s);
    } else if p.b.IfElse? {
      p2, ks2 := IfElseBoth(c, jt, g, p, ks, at, s);
    } else {
      p2, ks2 := EnterBlock(c, jt, g, p, ks, at, s);
    }
  }

  lemma PlainStep(c: Ctx, jt: seq<Entry>, g: Cfg, p: Point, ks: seq<Nest>, at: Pc, s: State)
    returns (p2: Point, ks2: seq<Nest>)
    requires Setting(c, jt) && Meets(c, jt, g, p, ks, at, s) && p.b.Plain?
    ensures SameStep(c, jt, RefStep(c.m, c.f, g, s), FlatStep(ImageFor(c, jt), c.f, at, s), p2, ks2)
  {
    hide SameStep, RefStep, FlatStep, Meets, Setting, Taken;
    var op := p.b.op;
    p2, ks2 := p, ks;
    PlainNoBracket(c, jt, g, p, ks, at, s);
    if IsSimple(op) {
      p2 := SimpleStep(c, jt, g, p, ks, at, s);
    } else if op.Call? {
      p2 := CallStep(c, jt, g, p, ks, at, s);
    } else if op.Return? {
      LeaveStep(c, jt, g, p, ks, at, s);
    } else if op.Unreachable? {
      HaltStep(c, jt, g, p, ks, at, s);
    } else {
      BranchTests(c, jt, g, p, ks, at, s);
      if Taken(op, Tested(s, FlatTests(op))).Some? {
        p2, ks2 := BranchStep(c, jt, g, p, ks, at, s);
      } else {
        p2 := FallThrough(c, jt, g, p, ks, at, s);
      }
    }
  }

  lemma PlainNoBracket(c: Ctx, jt: seq<Entry>, g: Cfg, p: Point, ks: seq<Nest>, at: Pc, s: State)
    requires Meets(c, jt, g, p, ks, at, s) && p.b.Plain?
    ensures !IsBracket(p.b.op)
  {
    hide Chain, Decode, Step, Live, Run;
  }

  // Branch instructions find their operand, and only br_if can fall through.
  lemma BranchTests(c: Ctx, jt: seq<Entry>, g: Cfg, p: Point, ks: seq<Nest>, at: Pc, s: State)
    requires Setting(c, jt) && Meets(c, jt, g, p, ks, at, s) && p.b.Plain? && Shuffles(p.b.op)
    ensures FlatTests(p.b.op) ==> s.stack != []
    ensures var a := Tested(s, FlatTests(p.b.op)); Taken(p.b.op, a).None? ==> p.b.op.BrIf? && a == 0
  {
    hide Here, Decode, Step, Linked, Validate, MirrorsLabel, DataOk, LabelOk, AllFrom, Reachable, Shape;
    HereShape(c, jt, p, ks);
    var p2 := PlainHere(c, jt, p, ks, p.b.op, p.b.len, p.b.rest);
    BranchTyped(c, p.v, p.b.op, p.pos, p.b.len, p2.v);
    StepEmits(c, p.v, p.b.op, p.pos, p.b.len, p2.v);
    assert |s.stack| == |p.v.vals|;
  }
}
