/**
 Stack discipline: on code that the strict validator accepts, the run-time operand stack at
 every instruction reached has exactly the types the validator computed for that point, and
 the labels have its heights.
 */
module Typing {
  import opened Basics
  import opened Leb128
  import opened LittleEndian
  import opened Wasm
  import opened Decoder
  import opened Validation
  import opened Invariants
  import opened JumpTable
  import opened Reference
  import opened InPlace
  import opened Control

  // ----- Proper types: those of the specification, not the validator's own -----

  predicate Proper(t: ValType) {
    !t.Unknown? && !t.AnyRef?
  }

  predicate ProperAll(ts: seq<ValType>) {
    forall i :: 0 <= i < |ts| ==> Proper(ts[i])
  }

  // Arities fit the 16 bits that the parser allows.
  predicate ProperType(ft: FuncType) {
    ProperAll(ft.params) && ProperAll(ft.results) && |ft.params| < 0x1_0000 && |ft.results| < 0x1_0000
  }

  predicate ProperModule(m: Module) {
    && (forall i :: 0 <= i < |m.types| ==> ProperType(m.types[i]))
    && (forall i :: 0 <= i < |m.funcs| ==> ProperType(m.funcs[i].ftype) && ProperAll(m.funcs[i].localTypes))
    && ProperAll(m.GlobalTypes())
  }

  function TypesOf(vs: seq<Value>): (ts: seq<ValType>)
    ensures |ts| == |vs|
  {
    seq(|vs|, i requires 0 <= i < |vs| => vs[i].ty)
  }

  // ----- What the strict validator makes of reachable code -----

  // No frame is unreachable; operands and frames have proper types.
  ghost predicate Reachable(v: VState) {
    && ProperAll(v.vals)
    && forall i :: 0 <= i < |v.ctrl| ==> !v.ctrl[i].dead && ProperType(v.ctrl[i].ftype)
  }

  lemma PopOneReachable(v: VState, t: ValType)
    requires v.ctrl != [] && Heights(v) && !Top(v).dead && ProperAll(v.vals) && Proper(t) && PopExpect(v, t).Some?
    ensures var (v0, actual) := PopExpect(v, t).value;
            v0 == v.(vals := v0.vals) && v.vals == v0.vals + [t] && actual == t && Heights(v0) && ProperAll(v0.vals)
  {
  }

  // In reachable code popping proper types takes exactly those types off the top.
  lemma {:induction false} PopReachable(v: VState, ts: seq<ValType>)
    requires v.ctrl != [] && Heights(v) && !Top(v).dead && ProperAll(v.vals) && ProperAll(ts) && PopTypes(v, ts).Some?
    ensures var (v1, popped) := PopTypes(v, ts).value;
            && v1 == v.(vals := v1.vals) && v.vals == v1.vals + ts && popped == ts && Top(v).height <= |v1.vals|
    decreases |ts|
  {
    hide PopExpect;
    if ts == [] {
      assert v.vals + ts == v.vals;
    } else {
      var n := |ts| - 1;
      var v0 := PopExpect(v, ts[n]).value.0;
      PopOneReachable(v, ts[n]);
      PopReachable(v0, ts[..n]);
      var v1 := PopTypes(v0, ts[..n]).value.0;
      assert ts == ts[..n] + [ts[n]];
      assert v.vals == v1.vals + ts[..n] + [ts[n]] == v1.vals + (ts[..n] + [ts[n]]);
    }
  }

  // ----- What a branch finds -----

  // Seen from v, frame d closes to k.after with its results on what lay below it; a loop starts
  // again with its parameters there.
  ghost predicate FrameLeads(v: VState, k: Nest, d: nat) {
    && 0 < d < |v.ctrl|
    && var fr := v.ctrl[d];
    && fr.height <= |v.vals|
    && k.after.v.ctrl == v.ctrl[..d] && k.after.v.vals == v.vals[..fr.height] + fr.ftype.results
    && if k.loop.None? then !fr.kind.LoopK?
       else
         && fr.kind.LoopK? && k.loop.value.v.ctrl == v.ctrl[..d] + [fr.(dead := false)]
         && k.loop.value.v.vals == v.vals[..fr.height] + fr.ftype.params
  }

  // The strict check leaves exactly the results above what lay below the frame.
  lemma StrictEnd(c: Ctx, x: VState, e: nat, y: VState)
    requires c.strict && Shape(x) && Step(c, x, EndOp, e, 1) == Some(y)
    ensures y.ctrl == x.ctrl[..|x.ctrl| - 1]
    ensures y.vals == x.vals[..Top(x).height] + Top(x).ftype.results
    ensures Top(x).kind.IfK? ==> Top(x).ftype.params == Top(x).ftype.results
  {
    hide PopTypes, ResolveAll;
    PopCtrlCut(c, x);
  }

  lemma StrictElse(c: Ctx, x: VState, e: nat, y: VState)
    requires c.strict && Shape(x) && Step(c, x, ElseOp, e, 1) == Some(y)
    ensures y.ctrl == x.ctrl[..|x.ctrl| - 1] + [Frame(ElseK, Top(x).ftype, Top(x).height, false, 0)]
    ensures y.vals == x.vals[..Top(x).height] + Top(x).ftype.params
  {
    hide PopTypes, ResolveElse;
    PopCtrlCut(c, x);
  }

  // The frames of v as seen after running on from v.
  lemma LeadsBack(v: VState, w: VState, lo: int, hi: int, k: Nest, d: nat)
    requires Shape(v) && Evolves(v, w, lo, hi) && FrameLeads(w, k, d)
    ensures FrameLeads(v, k, d)
  {
    var n := |v.ctrl| - 1;
    assert w.ctrl[..d] == w.ctrl[..n][..d] == v.ctrl[..d];
    if d < n {
      assert w.ctrl[d] == w.ctrl[..n][d];
      assert v.ctrl[d] == v.ctrl[..n][d];
    }
    var h := v.ctrl[d].height;
    assert w.vals[..h] == w.vals[..Top(v).height][..h];
    assert v.vals[..h] == v.vals[..Top(v).height][..h];
  }

  // The innermost frame.
  lemma InnerFrame(c: Ctx, k: Nest, fin: VState, e: nat)
    requires c.strict && Shape(fin) && |fin.ctrl| > 1 && Closing(c, k, fin, e) && LoopOk(c, k, fin, e)
    ensures FrameLeads(fin, k, |fin.ctrl| - 1)
  {
    hide Step, Run, Runs, OpAt;
    var d := |fin.ctrl| - 1;
    if k.els.None? {
      StrictEnd(c, fin, e, k.after.v);
    } else {
      var y := Step(c, fin, ElseOp, e, 1).value;
      var arm := Point(e + 1, k.els.value, y);
      var z := EndOf(c, arm);
      StrictElse(c, fin, e, y);
      RunEvolves(c, arm.b, arm.pos, y, z);
      StrictEnd(c, z, EndPos(arm), k.after.v);
      assert z.ctrl[..d] == y.ctrl[..d] == fin.ctrl[..d];
      assert y.vals[..Top(fin).height] == fin.vals[..Top(fin).height];
    }
    if k.loop.Some? {
      var p := k.loop.value;
      RunEvolves(c, p.b, p.pos, p.v, fin);
      assert p.v.ctrl == p.v.ctrl[..d] + [Top(p.v)];
    }
  }

  // A frame further out, seen from inside the innermost one.
  lemma LeadsOut(fin: VState, k: Nest, outer: Nest, d: nat)
    requires Shape(fin) && FrameLeads(fin, k, |fin.ctrl| - 1) && FrameLeads(k.after.v, outer, d)
    ensures FrameLeads(fin, outer, d)
  {
    var n := |fin.ctrl| - 1;
    var v := k.after.v;
    assert v.ctrl[..d] == fin.ctrl[..d];
    assert v.ctrl[d] == fin.ctrl[d];
    var h := fin.ctrl[d].height;
    assert v.vals[..h] == fin.vals[..fin.ctrl[n].height][..h] == fin.vals[..h];
  }

  lemma {:induction false} OuterFrames(c: Ctx, jt: seq<Entry>, ks: seq<Nest>, fin: VState, e: nat, d: nat)
    requires c.strict && Chain(c, jt, ks, fin, e) && 0 < d <= |ks|
    ensures FrameLeads(fin, ks[d - 1], d)
    decreases |ks|
  {
    hide FrameLeads, LoopOk, Validate, Step, OpAt, Shape, Evolves;
    var k := ks[|ks| - 1];
    if d == |ks| {
      InnerFrame(c, k, fin, e);
    } else {
      hide Closing, Run, Runs;
      var fin2 := EndOf(c, k.after);
      OuterFrames(c, jt, ks[..|ks| - 1], fin2, EndPos(k.after), d);
      RunEvolves(c, k.after.b, k.after.pos, k.after.v, fin2);
      LeadsBack(k.after.v, fin2, k.after.pos, EndPos(k.after), ks[d - 1], d);
      InnerFrame(c, k, fin, e);
      LeadsOut(fin, k, ks[d - 1], d);
    }
  }

  // ----- Run-time state against validator state -----

  ghost predicate LabelOk(l: Label, f: Frame) {
    l.height == f.height && l.arity == |LabelTypes(f)|
  }

  ghost predicate LabelsOk(ls: seq<Label>, ctrl: seq<Frame>) {
    |ls| + 1 == |ctrl| && forall i :: 0 <= i < |ls| ==> LabelOk(ls[i], ctrl[i + 1])
  }

  // Locals and globals hold values of their declared types.
  ghost predicate DataOk(c: Ctx, s: State) {
    TypesOf(s.locals) == c.f.Locals() && TypesOf(s.store.globals) == c.m.GlobalTypes()
  }

  // The operand stack is the validator's, type for type; the labels are its frames; nothing is unreachable.
  ghost predicate Live(c: Ctx, g: Cfg, v: VState, s: State) {
    Reachable(v) && TypesOf(s.stack) == v.vals && LabelsOk(g.labels, v.ctrl) && DataOk(c, s) && FunctionFrame(c, v)
  }

  // The outermost frame is the function's.
  ghost predicate FunctionFrame(c: Ctx, v: VState) {
    v.ctrl != [] && v.ctrl[0].ftype == c.f.ftype && v.ctrl[0].height == 0 && v.ctrl[0].kind.FuncK?
  }

  // ----- Simple instructions -----

  // The monomorphic ones: operands of the signature's types give results of its types.
  lemma ExecTyped(c: Ctx, op: Op, a: seq<Value>, s: State)
    requires c.strict && IsSimple(op) && Signature(c, op).Some? && DataOk(c, s)
    requires |Signature(c, op).value.params| == |a| && TypesOf(a) == Signature(c, op).value.params
    ensures Pops(op) == |a|
    ensures match Exec(c.m, op, a, s.locals, s.store)
            case Done(push, locals, store) => TypesOf(push) == Signature(c, op).value.results
                && DataOk(c, State([], locals, store))
            case Trapped => true
            case Crashed => false
  {
    hide ReadAt, WriteAt, FillAt, CopyAt, Widened, Grow, U32, Int32, Int64, AlignedTo;
    assert forall i :: 0 <= i < |s.locals| ==> s.locals[i].ty == c.f.Locals()[i] by {
      assert forall i :: 0 <= i < |s.locals| ==> s.locals[i].ty == TypesOf(s.locals)[i];
    }
    assert forall i :: 0 <= i < |s.store.globals| ==> s.store.globals[i].ty == c.m.GlobalTypes()[i] by {
      assert forall i :: 0 <= i < |s.store.globals| ==> s.store.globals[i].ty == TypesOf(s.store.globals)[i];
    }
    assert forall i :: 0 <= i < |a| ==> a[i].ty == Signature(c, op).value.params[i] by {
      assert forall i :: 0 <= i < |a| ==> a[i].ty == TypesOf(a)[i];
    }
  }

  lemma TypesSplit(vs: seq<Value>, low: seq<ValType>, ts: seq<ValType>)
    requires TypesOf(vs) == low + ts
    ensures |vs| == |low| + |ts| && TypesOf(vs[..|low|]) == low && TypesOf(vs[|low|..]) == ts
  {
    assert |TypesOf(vs)| == |low| + |ts|;
    forall i | 0 <= i < |low| ensures vs[i].ty == low[i] {
      assert TypesOf(vs)[i] == (low + ts)[i];
    }
    forall i | 0 <= i < |ts| ensures vs[|low| + i].ty == ts[i] {
      assert TypesOf(vs)[|low| + i] == (low + ts)[|low| + i];
    }
  }

  lemma TypesJoin(a: seq<Value>, b: seq<Value>)
    ensures TypesOf(a + b) == TypesOf(a) + TypesOf(b)
  {
  }

  // Operand types a simple instruction pops and pushes at v, and what is left below them.
  datatype Change = Change(low: seq<ValType>, pops: seq<ValType>, pushes: seq<ValType>)

  // What the validator did at a simple instruction in reachable code.
  lemma SimpleChange(c: Ctx, v: VState, op: Op, w: VState) returns (e: Change)
    requires c.strict && ProperModule(c.m) && ProperAll(c.f.Locals())
    requires Shape(v) && Reachable(v) && IsSimple(op) && OnSimple(c, v, op) == Some(w)
    ensures v.vals == e.low + e.pops && w.vals == e.low + e.pushes && w.ctrl == v.ctrl && ProperAll(e.pushes)
    ensures |e.pops| == Pops(op)
    ensures match op
            case Drop => e.pushes == []
            case Select => e.pops == [e.pushes[0], e.pushes[0], I32] && |e.pushes| == 1
            case _ => Signature(c, op) == Some(FuncType(e.pops, e.pushes))
  {
    if op.Drop? {
      e := Change(w.vals, [v.vals[|v.vals| - 1]], []);
    } else if op.Select? {
      var n := |v.vals|;
      e := Change(v.vals[..n - 3], v.vals[n - 3..], [v.vals[n - 2]]);
      assert e.pops == [v.vals[n - 3], v.vals[n - 2], v.vals[n - 1]];
    } else {
      var sig := Signature(c, op).value;
      SignatureProper(c, op);
      PopReachable(v, sig.params);
      e := Change(PopVals(v, sig.params).value.vals, sig.params, sig.results);
    }
  }

  lemma SignatureProper(c: Ctx, op: Op)
    requires ProperModule(c.m) && ProperAll(c.f.Locals()) && IsSimple(op) && Signature(c, op).Some?
    requires !op.Drop? && !op.Select?
    ensures var sig := Signature(c, op).value;
            ProperAll(sig.params) && ProperAll(sig.results) && |sig.params| == Pops(op)
  {
    hide AlignedTo;
    if op.Load? || op.Save? {
      var t: NumType := op.acc.ty;
      assert Proper(t);
    } else if op.GlobalGet? || op.GlobalSet? {
      assert Proper(c.m.GlobalTypes()[op.idx]);
    }
  }

  // The machine's step at a simple instruction is defined and keeps the correspondence.
  lemma SimpleTyped<C>(c: Ctx, v: VState, op: Op, w: VState, s: State, next: C)
    requires c.strict && ProperModule(c.m) && ProperAll(c.f.Locals())
    requires Shape(v) && Reachable(v) && IsSimple(op) && OnSimple(c, v, op) == Some(w)
    requires TypesOf(s.stack) == v.vals && DataOk(c, s)
    ensures Reachable(w)
    ensures match SimpleAct(c.m, op, s, next)
            case Next(at, s2) => at == next && TypesOf(s2.stack) == w.vals && DataOk(c, s2)
            case Fault => true
            case _ => false
  {
    hide OnSimple, DataOk, Reachable;
    var e := SimpleChange(c, v, op, w);
    ReachableStep(v, w, e);
    TypesSplit(s.stack, e.low, e.pops);
    var a := TopN(s, Pops(op));
    assert a == s.stack[|e.low|..];
    assert Drop1(s, Pops(op)).stack == s.stack[..|e.low|];
    SimpleExec(c, op, a, s, e);
    if Exec(c.m, op, a, s.locals, s.store).Done? {
      TypesJoin(s.stack[..|e.low|], Exec(c.m, op, a, s.locals, s.store).push);
      DataIgnoresStack(c, State([], Exec(c.m, op, a, s.locals, s.store).locals,
          Exec(c.m, op, a, s.locals, s.store).store), s.stack[..|e.low|] + Exec(c.m, op, a, s.locals, s.store).push);
    }
  }

  lemma DataIgnoresStack(c: Ctx, s: State, stack: seq<Value>)
    requires DataOk(c, s)
    ensures DataOk(c, s.(stack := stack))
  {
  }

  lemma ReachableStep(v: VState, w: VState, e: Change)
    requires Reachable(v) && v.vals == e.low + e.pops && w.vals == e.low + e.pushes && w.ctrl == v.ctrl
    requires ProperAll(e.pushes)
    ensures Reachable(w)
  {
    forall i | 0 <= i < |e.low| ensures Proper(e.low[i]) {
      assert v.vals[i] == e.low[i];
    }
  }

  lemma SimpleExec(c: Ctx, op: Op, a: seq<Value>, s: State, e: Change)
    requires c.strict && IsSimple(op) && DataOk(c, s) && |a| == Pops(op) && TypesOf(a) == e.pops
    requires match op
             case Drop => e.pushes == []
             case Select => |e.pushes| == 1 && e.pops == [e.pushes[0], e.pushes[0], I32]
             case _ => Signature(c, op) == Some(FuncType(e.pops, e.pushes))
    ensures match Exec(c.m, op, a, s.locals, s.store)
            case Done(push, locals, store) => TypesOf(push) == e.pushes && DataOk(c, State([], locals, store))
            case Trapped => true
            case Crashed => false
  {
    if op.Select? {
      assert TypesOf(a)[0] == a[0].ty && TypesOf(a)[1] == a[1].ty;
    } else if !op.Drop? {
      ExecTyped(c, op, a, s);
    }
  }

  // ----- Branches -----

  lemma PopExact2(v: VState, ts: seq<ValType>)
    requires Shape(v) && Reachable(v) && ProperAll(ts) && PopVals(v, ts).Some?
    ensures var v1 := PopVals(v, ts).value;
            v1 == v.(vals := v1.vals) && v.vals == v1.vals + ts && Top(v).height <= |v1.vals|
  {
    PopReachable(v, ts);
  }

  // Popping a tested operand.
  lemma TestPopped(v: VState)
    requires Shape(v) && Reachable(v) && PopExpect(v, I32).Some?
    ensures var v0 := PopExpect(v, I32).value.0;
            && v.vals != [] && v0 == Untested(v) && v.vals == v0.vals + [I32] && Shape(v0) && Reachable(v0)
  {
  }

  // The state without its top operand.
  function Untested(v: VState): VState
    requires v.vals != []
  {
    v.(vals := v.vals[..|v.vals| - 1])
  }

  // What a branch from v to frame d needs: its label's types on top, and a slot with the exact
  // distance that they move down.
  ghost predicate BranchFrom(v: VState, s: Slot, d: nat) {
    && d < |v.ctrl|
    && var ts := LabelTypes(v.ctrl[d]);
    && v.ctrl[d].height + |ts| <= |v.vals| && v.vals[|v.vals| - |ts|..] == ts
    && s.offset == |v.vals| - |ts| - v.ctrl[d].height && s.arity == |ts|
  }

  lemma BranchExact(v: VState, pc: nat, d: nat)
    requires Shape(v) && Reachable(v) && d < |v.ctrl| && v.peak < 0x1_0000_0000
    requires PopVals(AddSlot(v, BranchSlot(v, pc, d)), LabelTypes(v.ctrl[d])).Some?
    ensures BranchFrom(v, BranchSlot(v, pc, d), d)
    ensures var v1 := PopVals(AddSlot(v, BranchSlot(v, pc, d)), LabelTypes(v.ctrl[d])).value;
            v1 == AddSlot(v, BranchSlot(v, pc, d)).(vals := v1.vals) && v.vals == v1.vals + LabelTypes(v.ctrl[d])
  {
    hide PopTypes;
    var ts := LabelTypes(v.ctrl[d]);
    PopReachable(AddSlot(v, BranchSlot(v, pc, d)), ts);
    assert v.ctrl[d].height <= Top(v).height;
  }

  // In reachable code br_table puts back what it pops: one label leaves nothing but its slot.
  lemma TableRound(v: VState, u: VState, ls: seq<nat>, arity: nat, pc: nat)
    requires Shape(v) && Reachable(v) && v.peak < 0x1_0000_0000
    requires u == v.(slots := u.slots) && Below(u.slots, |v.ctrl|) && ls != [] && TableSlots(u, ls, arity, pc).Some?
    ensures ls[0] < |v.ctrl|
    ensures var d := |v.ctrl| - 1 - ls[0];
            var a := AddSlot(u, BranchSlot(v, pc, d));
            && BranchFrom(v, BranchSlot(v, pc, d), d)
            && TableSlots(u, ls, arity, pc) == TableSlots(a, ls[1..], arity, pc)
            && a == v.(slots := a.slots) && Below(a.slots, |v.ctrl|)
  {
    hide PopTypes, BranchFrom, TableSlots, PushVals;
    TableUnrolls(u, ls, arity, pc);
    var d := |v.ctrl| - 1 - ls[0];
    var ts := LabelTypes(v.ctrl[d]);
    var a := AddSlot(u, BranchSlot(u, pc, d));
    assert BranchSlot(u, pc, d) == BranchSlot(v, pc, d);
    hide BranchSlot;
    BranchExact(v, pc, d) by { PopIgnoresSlots(a, AddSlot(v, BranchSlot(v, pc, d)), ts); }
    PopAndPush(a, ts);
  }

  lemma TableUnrolls(v: VState, ls: seq<nat>, arity: nat, pc: nat)
    requires ls != [] && TableSlots(v, ls, arity, pc).Some?
    ensures ls[0] < |v.ctrl|
    ensures var d := |v.ctrl| - 1 - ls[0];
            var ts := LabelTypes(v.ctrl[d]);
            var popped := PopTypes(AddSlot(v, BranchSlot(v, pc, d)), ts);
            popped.Some? && TableSlots(v, ls, arity, pc)
                == TableSlots(PushVals(popped.value.0, popped.value.1), ls[1..], arity, pc)
  {
    hide PopTypes, BranchSlot, PushVals, LabelTypes;
  }

  // In reachable code what has been popped can be put back.
  lemma PopAndPush(v: VState, ts: seq<ValType>)
    requires Shape(v) && Reachable(v) && ProperAll(ts) && PopTypes(v, ts).Some?
    ensures var (b, popped) := PopTypes(v, ts).value; PushVals(b, popped) == v
  {
    hide PopTypes;
    PopReachable(v, ts);
    var (b, popped) := PopTypes(v, ts).value;
    assert b.vals + popped == v.vals;
  }

  lemma {:induction false} PopIgnoresSlots(v: VState, u: VState, ts: seq<ValType>)
    requires u == v.(slots := u.slots)
    ensures PopTypes(v, ts).Some? <==> PopTypes(u, ts).Some?
    decreases |ts|
  {
    if ts != [] && PopExpect(v, ts[|ts| - 1]).Some? {
      PopIgnoresSlots(PopExpect(v, ts[|ts| - 1]).value.0, PopExpect(u, ts[|ts| - 1]).value.0, ts[..|ts| - 1]);
    }
  }

  // The first n labels branch from v through the slots s.
  ghost predicate AllFrom(v: VState, s: seq<Slot>, ls: seq<nat>, n: nat)
    requires n <= |ls|
  {
    |s| == |v.slots| + n && forall j :: 0 <= j < n ==>
        ls[j] < |v.ctrl| && BranchFrom(v, s[|v.slots| + j], |v.ctrl| - 1 - ls[j])
  }

  lemma OneMoreFrom(v: VState, s: seq<Slot>, ls: seq<nat>, n: nat, slot: Slot)
    requires n < |ls| && AllFrom(v, s, ls, n) && ls[n] < |v.ctrl| && BranchFrom(v, slot, |v.ctrl| - 1 - ls[n])
    ensures AllFrom(v, s + [slot], ls, n + 1)
  {
    hide BranchFrom;
  }

  // So every slot of a br_table is taken from the same state.
  lemma {:induction false} TableExact(v: VState, u: VState, ls: seq<nat>, rest: seq<nat>, arity: nat, pc: nat,
        w: VState)
    requires Shape(v) && Reachable(v) && v.peak < 0x1_0000_0000
    requires |rest| <= |ls| && rest == ls[|ls| - |rest|..]
    requires u == v.(slots := u.slots) && Below(u.slots, |v.ctrl|) && AllFrom(v, u.slots, ls, |ls| - |rest|)
    requires TableSlots(u, rest, arity, pc) == Some(w)
    ensures w == v.(slots := w.slots) && AllFrom(v, w.slots, ls, |ls|)
    decreases |rest|
  {
    hide BranchFrom, Below, Shape, Reachable, BranchSlot, AllFrom, TableSlots;
    if rest == [] {
      NoMoreLabels(u, arity, pc);
    } else {
      TableRound(v, u, rest, arity, pc);
      var slot := BranchSlot(v, pc, |v.ctrl| - 1 - rest[0]);
      OneMoreFrom(v, u.slots, ls, |ls| - |rest|, slot);
      TableExact(v, AddSlot(u, slot), ls, rest[1..], arity, pc, w);
    }
  }

  lemma NoMoreLabels(u: VState, arity: nat, pc: nat)
    ensures TableSlots(u, [], arity, pc) == Some(u)
  {
  }

  // The state in which a branch instruction branches.
  function Branching(v: VState, op: Op): VState
    requires FlatTests(op) ==> v.vals != []
  {
    if FlatTests(op) then Untested(v) else v
  }

  // A branch instruction in reachable code.
  lemma BranchTyped(c: Ctx, v: VState, op: Op, pos: nat, len: nat, w: VState)
    requires Shape(v) && Reachable(v) && v.peak < 0x1_0000_0000 && Shuffles(op)
    requires Step(c, v, op, pos, len) == Some(w)
    ensures FlatTests(op) ==> v.vals != [] && v.vals[|v.vals| - 1] == I32
    ensures var v0 := Branching(v, op);
            var ls := LabelsOf(op);
            && Shape(v0) && Reachable(v0) && v0.ctrl == v.ctrl && v0.slots == v.slots && AllFrom(v0, w.slots, ls, |ls|)
            && (op.BrIf? ==> w.vals == v0.vals && w.ctrl == v.ctrl)
  {
    hide BranchFrom, Shape, Reachable, PopTypes, PopExpect, TableSlots;
    if op.BrTable? {
      BrTableTyped(c, v, op.depths, pos + len + op.skew, w);
    } else if op.BrIf? {
      TestPopped(v);
      BranchExact(Untested(v), pos + 1, |v.ctrl| - 1 - op.depth);
    } else {
      BranchExact(v, pos + 1, |v.ctrl| - 1 - op.depth);
    }
  }

  lemma BrTableTyped(c: Ctx, v: VState, ls: seq<nat>, pc: nat, w: VState)
    requires Shape(v) && Reachable(v) && v.peak < 0x1_0000_0000 && OnBrTable(c, v, ls, pc) == Some(w)
    ensures v.vals != [] && v.vals[|v.vals| - 1] == I32
    ensures Shape(Untested(v)) && Reachable(Untested(v)) && AllFrom(Untested(v), w.slots, ls, |ls|)
  {
    hide BranchFrom, PopTypes, PopExpect, TableSlots;
    TestPopped(v);
    var v0 := Untested(v);
    var last := LabelTypes(v0.ctrl[|v0.ctrl| - ls[|ls| - 1] - 1]);
    TableExact(v0, v0, ls, ls, |last|, pc, TableSlots(v0, ls, |last|, pc).value);
  }

  // ----- Brackets -----

  lemma DecodedType(m: Module, code: seq<byte>, pos: nat, op: Op, len: nat)
    requires ProperModule(m) && OpAt(m, code, pos, op, len) && (op.BlockOp? || op.LoopOp? || op.IfOp?)
    ensures ProperType(op.ft)
  {
    hide Unsigned, Signed, Labels, Table, BlockType, ProperType;
    assert BlockType(m, code, pos + 1) == Some(op.ft);
    ProperBlockType(m, code, pos + 1);
  }

  lemma ProperBlockType(m: Module, code: seq<byte>, p: nat)
    requires ProperModule(m) && BlockType(m, code, p).Some?
    ensures ProperType(BlockType(m, code, p).value)
  {
    hide Signed;
  }

  // Opening a bracket moves its parameters into the new frame.
  lemma OpenTyped(c: Ctx, v: VState, op: Op, pos: nat, w: VState)
    requires Shape(v) && Reachable(v) && (op.BlockOp? || op.LoopOp? || op.IfOp?) && ProperType(op.ft)
    requires Step(c, v, op, pos, 2) == Some(w)
    ensures FlatTests(op) ==> v.vals != [] && v.vals[|v.vals| - 1] == I32
    ensures var v0 := Branching(v, op);
            && Shape(v0) && Reachable(v0) && v0.ctrl == v.ctrl && |op.ft.params| <= |v0.vals| && Reachable(w)
            && w.vals == v0.vals
            && w.ctrl == v.ctrl + [Frame(if op.BlockOp? then BlockK else if op.LoopOp? then LoopK else IfK, op.ft,
                                         |v0.vals| - |op.ft.params|, false, Top(w).pc)]
  {
    hide PopTypes, PopExpect;
    if op.IfOp? {
      TestPopped(v);
    }
    PopExact2(Branching(v, op), op.ft.params);
  }

  // Closing one in reachable code finds exactly its results.
  lemma CloseTyped(c: Ctx, x: VState, op: Op, e: nat)
    requires c.strict && Shape(x) && Reachable(x) && (op.EndOp? || op.ElseOp?) && Step(c, x, op, e, 1).Some?
    ensures x.vals == x.vals[..Top(x).height] + Top(x).ftype.results
  {
    hide PopTypes, ResolveAll, ResolveElse;
    PopExact2(x, Top(x).ftype.results);
  }

  // Returning.
  lemma ReturnTyped(c: Ctx, v: VState)
    requires Shape(v) && Reachable(v) && OnReturn(c, v).Some? && v.ctrl[0].kind.FuncK?
    ensures |v.ctrl[0].ftype.results| <= |v.vals|
    ensures v.vals[|v.vals| - |v.ctrl[0].ftype.results|..] == v.ctrl[0].ftype.results
  {
    hide PopTypes;
    PopExact2(v, v.ctrl[0].ftype.results);
  }

  // Calling: the arguments are on top, the callee's locals fit where they lie, and the results replace them.
  lemma CallTyped(c: Ctx, v: VState, g: nat, w: VState) returns (low: seq<ValType>)
    requires Shape(v) && Reachable(v) && ProperModule(c.m) && OnCall(c, v, g) == Some(w)
    ensures g < |c.m.funcs|
    ensures var callee := c.m.funcs[g];
            && v.vals == low + callee.ftype.params && w.vals == low + callee.ftype.results && w.ctrl == v.ctrl
            && Reachable(w)
            && |low| + |callee.Locals()| <= w.peak
  {
    hide PopTypes, Reachable;
    var callee := c.m.funcs[g];
    PopExact2(v, callee.ftype.params);
    low := PopVals(v, callee.ftype.params).value.vals;
    ReachableStep(v, w, Change(low, callee.ftype.params, callee.ftype.results));
  }
}
