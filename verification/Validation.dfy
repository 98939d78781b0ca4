/**
 The validator as a function on abstract states. A jump-table slot that still waits for its
 target names the control frame whose `end` (or whose `else`) will give it one; the class in
 Validator.dfy keeps the same information in per-frame pending lists.

 With `strict` and `full` the function also makes the checks that the appendix "Validation
 Algorithm" and section 3.3 of the WebAssembly Core Specification ask for and the source leaves
 out. `strict` adds those that execution relies on, `full` alignment and mutability.
 */
module Validation {
  import opened Basics
  import opened Wasm
  import opened Decoder

  datatype Kind = FuncK | BlockK | LoopK | IfK | ElseK

  // `pc` is the branch target of a loop and 0 for the other kinds.
  datatype Frame = Frame(kind: Kind, ftype: FuncType, height: nat, dead: bool, pc: nat)

  // Where a slot jumps: a known position, the end of frame d, or the `else` (failing that, the end) of frame d.
  datatype Target = At(pc: nat) | ToEnd(d: nat) | ToElse(d: nat)

  datatype Slot = Slot(pc: nat, offset: nat, arity: nat, target: Target)

  datatype VState = VState(ctrl: seq<Frame>, vals: seq<ValType>, slots: seq<Slot>, peak: nat)

  // The function being validated, and which of the checks that the source leaves out are made:
  // those that execution relies on, and the rest.
  datatype Ctx = Ctx(m: Module, f: Func, strict: bool, full: bool)

  function Top(v: VState): Frame
    requires v.ctrl != []
  {
    v.ctrl[|v.ctrl| - 1]
  }

  // ----- Operand stack -----

  function PushVal(v: VState, t: ValType): VState {
    v.(vals := v.vals + [t], peak := Max(v.peak, |v.vals| + 1))
  }

  function PushVals(v: VState, ts: seq<ValType>): (r: VState)
    ensures r == v.(vals := v.vals + ts, peak := r.peak)
    ensures r.peak == if ts == [] then v.peak else Max(v.peak, |v.vals| + |ts|)
    decreases |ts|
  {
    if ts == [] then v else PushVals(PushVal(v, ts[0]), ts[1..])
  }

  // Popping stops at the frame's height, where unreachable code yields Unknown for ever.
  function PopVal(v: VState): (r: Option<(VState, ValType)>)
    ensures r.Some? ==> r.value.0 == v.(vals := r.value.0.vals)
  {
    if v.ctrl == [] then None
    else if |v.vals| == Top(v).height then
      if Top(v).dead then Some((v, Unknown)) else None
    else if v.vals == [] then None
    else Some((v.(vals := v.vals[..|v.vals| - 1]), v.vals[|v.vals| - 1]))
  }

  predicate Matches(actual: ValType, expected: ValType) {
    actual == expected || actual.Unknown? || expected.Unknown? || (expected.AnyRef? && IsRef(actual))
  }

  function PopExpect(v: VState, t: ValType): (r: Option<(VState, ValType)>)
    ensures r.Some? ==> r.value.0 == v.(vals := r.value.0.vals)
  {
    var (v', actual) :- PopVal(v);
    if Matches(actual, t) then Some((v', actual)) else None
  }

  // Pops the types from last to first; also gives what was popped, first to last.
  function PopTypes(v: VState, ts: seq<ValType>): (r: Option<(VState, seq<ValType>)>)
    ensures r.Some? ==> r.value.0 == v.(vals := r.value.0.vals) && |r.value.1| == |ts|
    decreases |ts|
  {
    if ts == [] then Some((v, []))
    else
      var (v1, t) :- PopExpect(v, ts[|ts| - 1]);
      var (v2, popped) :- PopTypes(v1, ts[..|ts| - 1]);
      Some((v2, popped + [t]))
  }

  function PopVals(v: VState, ts: seq<ValType>): (r: Option<VState>)
    ensures r.Some? ==> r.value == v.(vals := r.value.vals)
  {
    var (v', _) :- PopTypes(v, ts);
    Some(v')
  }

  // ----- Control stack -----

  function LabelTypes(f: Frame): seq<ValType> {
    if f.kind.LoopK? then f.ftype.params else f.ftype.results
  }

  function PushCtrl(v: VState, kind: Kind, ft: FuncType, pc: nat): VState {
    PushVals(v.(ctrl := v.ctrl + [Frame(kind, ft, |v.vals|, false, pc)]), ft.params)
  }

  // Pops the results. The strict form also insists that nothing else is left in the frame.
  function PopCtrl(c: Ctx, v: VState): Option<VState> {
    if v.ctrl == [] then None
    else
      var v' :- PopVals(v, Top(v).ftype.results);
      if c.strict && |v'.vals| != Top(v).height then None
      else Some(v'.(ctrl := v'.ctrl[..|v'.ctrl| - 1]))
  }

  function SetUnreachable(v: VState): Option<VState> {
    if v.ctrl == [] || |v.vals| < Top(v).height then None
    else
      Some(v.(vals := v.vals[..Top(v).height], ctrl := v.ctrl[|v.ctrl| - 1 := Top(v).(dead := true)]))
  }

  // ----- Slots -----

  // The 32-bit stack offset and 16-bit arity of a branch to frame d, taken before anything is popped.
  function BranchSlot(v: VState, pc: nat, d: nat): Slot
    requires d < |v.ctrl|
  {
    var arity := |LabelTypes(v.ctrl[d])|;
    Slot(pc, (|v.vals| - arity - v.ctrl[d].height) % 0x1_0000_0000, arity % 0x1_0000, ToEnd(d))
  }

  function AddSlot(v: VState, s: Slot): VState {
    v.(slots := v.slots + [s])
  }

  // Every slot waiting for frame d learns its target.
  function Resolved(t: Target, d: nat, pc: nat): Target {
    if t == ToEnd(d) || t == ToElse(d) then At(pc) else t
  }

  function ResolveAll(s: seq<Slot>, d: nat, pc: nat): (r: seq<Slot>)
    ensures |r| == |s|
  {
    seq(|s|, i requires 0 <= i < |s| => s[i].(target := Resolved(s[i].target, d, pc)))
  }

  // Only the `if` itself learns its target.
  function ResolveElse(s: seq<Slot>, d: nat, pc: nat): (r: seq<Slot>)
    ensures |r| == |s|
  {
    seq(|s|, i requires 0 <= i < |s| => if s[i].target == ToElse(d) then s[i].(target := At(pc)) else s[i])
  }

  // ----- Callbacks: `imm` is the position after the opcode byte -----

  function Begin(c: Ctx): VState {
    PushCtrl(VState([], [], [], 0), FuncK, c.f.ftype, 0).(vals := [])
  }

  function OnBlock(c: Ctx, v: VState, ft: FuncType): Option<VState> {
    var v1 :- PopVals(v, ft.params);
    Some(PushCtrl(v1, BlockK, ft, 0))
  }

  function OnLoop(c: Ctx, v: VState, ft: FuncType, imm: nat): Option<VState> {
    var v1 :- PopVals(v, ft.params);
    Some(PushCtrl(v1, LoopK, ft, imm + 1))
  }

  function OnIf(c: Ctx, v: VState, ft: FuncType, imm: nat): Option<VState> {
    var (v0, _) :- PopExpect(v, I32);
    var v1 :- PopVals(v0, ft.params);
    Some(AddSlot(PushCtrl(v1, IfK, ft, 0), Slot(imm, 0, 0, ToElse(|v1.ctrl|))))
  }

  // The slot of an `else` is that of a branch out of the frame. Its offset is never used.
  function OnElse(c: Ctx, v: VState, imm: nat): Option<VState> {
    if v.ctrl == [] || !Top(v).kind.IfK? then None
    else
      var v1 :- PopCtrl(c, v);
      var d := |v1.ctrl|;
      var v2 := PushCtrl(v1, ElseK, Top(v).ftype, 0);
      Some(AddSlot(v2.(slots := ResolveElse(v2.slots, d, imm)),
                   Slot(imm, (|v2.vals| - |Top(v).ftype.results| - |v1.vals|) % 0x1_0000_0000,
                        |Top(v).ftype.results| % 0x1_0000, ToEnd(d))))
  }

  // Where branches to the frame go: after a loop's header, on the function's last end, after any other end.
  function EndTarget(f: Frame, imm: nat): nat
    requires imm > 0
  {
    if f.kind.LoopK? then f.pc else if f.kind.FuncK? then imm - 1 else imm
  }

  function OnEnd(c: Ctx, v: VState, imm: nat): Option<VState>
    requires imm > 0
  {
    var v1 :- PopCtrl(c, v);
    var f := Top(v);
    if c.strict && f.kind.IfK? && f.ftype.params != f.ftype.results then None
    else
      Some(PushVals(v1.(slots := ResolveAll(v1.slots, |v1.ctrl|, EndTarget(f, imm))), f.ftype.results))
  }

  function OnBr(c: Ctx, v: VState, n: nat, imm: nat): Option<VState> {
    if n >= |v.ctrl| then None
    else
      var d := |v.ctrl| - n - 1;
      var v1 :- PopVals(AddSlot(v, BranchSlot(v, imm, d)), LabelTypes(v.ctrl[d]));
      SetUnreachable(v1)
  }

  function OnBrIf(c: Ctx, v: VState, n: nat, imm: nat): Option<VState> {
    if n >= |v.ctrl| then None
    else
      var (v0, _) :- PopExpect(v, I32);
      var d := |v.ctrl| - n - 1;
      var v1 :- PopVals(AddSlot(v0, BranchSlot(v0, imm, d)), LabelTypes(v.ctrl[d]));
      Some(PushVals(v1, LabelTypes(v.ctrl[d])))
  }

  // One slot per label; each label's types are popped and put back as found.
  function TableSlots(v: VState, ls: seq<nat>, arity: nat, pc: nat): Option<VState>
    decreases |ls|
  {
    if ls == [] then Some(v)
    else if ls[0] >= |v.ctrl| then None
    else
      var d := |v.ctrl| - ls[0] - 1;
      if |LabelTypes(v.ctrl[d])| != arity then None
      else
        var (v1, popped) :- PopTypes(AddSlot(v, BranchSlot(v, pc, d)), LabelTypes(v.ctrl[d]));
        TableSlots(PushVals(v1, popped), ls[1..], arity, pc)
  }

  function OnBrTable(c: Ctx, v: VState, ls: seq<nat>, pc: nat): Option<VState> {
    var (v0, _) :- PopExpect(v, I32);
    if ls == [] || exists i :: 0 <= i < |ls| && ls[i] >= |v0.ctrl| then None
    else
      var last := LabelTypes(v0.ctrl[|v0.ctrl| - ls[|ls| - 1] - 1]);
      var v1 :- TableSlots(v0, ls, |last|, pc);
      var v2 :- PopVals(v1, last);
      SetUnreachable(v2)
  }

  function OnReturn(c: Ctx, v: VState): Option<VState> {
    if v.ctrl == [] then None
    else
      var v1 :- PopVals(v, LabelTypes(v.ctrl[0]));
      SetUnreachable(v1)
  }

  // The callee's locals start where its arguments lie, so the peak covers them.
  function OnCall(c: Ctx, v: VState, g: nat): Option<VState> {
    if g >= |c.m.funcs| then None
    else
      var callee := c.m.funcs[g];
      var v1 :- PopVals(v, callee.ftype.params);
      var v2 := v1.(peak := Max(v1.peak, |v1.vals| + |callee.Locals()|));
      Some(PushVals(v2, callee.ftype.results))
  }

  function OnSelect(v: VState): Option<VState> {
    var (v0, _) :- PopExpect(v, I32);
    var (v1, t1) :- PopVal(v0);
    var (v2, t2) :- PopVal(v1);
    if !((IsNum(t1) && IsNum(t2)) || (IsVec(t1) && IsVec(t2))) then None
    else if t1 != t2 && !t1.Unknown? && !t2.Unknown? then None
    else Some(PushVal(v2, if t1.Unknown? then t2 else t1))
  }

  // The source compares the exponent with the size of the operand's type, the specification two to
  // that power with the bytes touched.
  predicate Aligned(c: Ctx, acc: Access, align: nat) {
    && align <= (if Is32(acc.ty) then 4 else 8)
    && (c.full ==> AlignedTo(acc.width, align))
  }

  predicate AlignedTo(width: nat, align: nat) {
    (if align == 0 then 1 else if align == 1 then 2 else if align == 2 then 4 else if align == 3 then 8
        else 16) <= width
  }

  // Operand and result types of the monomorphic simple instructions, where their indices and immediates are right.
  function Signature(c: Ctx, op: Op): Option<FuncType> {
    var locals := c.f.Locals();
    match op
    case Nop => Some(FuncType([], []))
    case LocalGet(x) => if x < |locals| then Some(FuncType([], [locals[x]])) else None
    case LocalSet(x) => if x < |locals| then Some(FuncType([locals[x]], [])) else None
    case LocalTee(x) => if x < |locals| then Some(FuncType([locals[x]], [locals[x]])) else None
    case GlobalGet(x) => if x < |c.m.globals| then Some(FuncType([], [c.m.globals[x].ty])) else None
    // the source does not look at mutability
    case GlobalSet(x) =>
      if x < |c.m.globals| && (c.full ==> c.m.globals[x].mutable) then Some(FuncType([c.m.globals[x].ty], [])) else None
    case Load(acc, align, _) => if c.m.memMax.Some? && Aligned(c, acc, align) then Some(FuncType([I32], [acc.ty]))
        else None
    case Save(acc, align, _) => if c.m.memMax.Some? && Aligned(c, acc, align) then Some(FuncType([I32, acc.ty], []))
        else None
    case MemoryFill | MemoryCopy => if c.m.memMax.Some? then Some(FuncType([I32, I32, I32], [])) else None
    // the source accepts these two without a memory
    case MemorySize => if c.strict && c.m.memMax.None? then None else Some(FuncType([], [I32]))
    case MemoryGrow => if c.strict && c.m.memMax.None? then None else Some(FuncType([I32], [I32]))
    case I32Const(_) => Some(FuncType([], [I32]))
    case I64Const(_) => Some(FuncType([], [I64]))
    case I32Eqz => Some(FuncType([I32], [I32]))
    case I32Add | I32DivU => Some(FuncType([I32, I32], [I32]))
    case I64Add => Some(FuncType([I64, I64], [I64]))
    case I32WrapI64 => Some(FuncType([I64], [I32]))
    case I64ExtendI32U => Some(FuncType([I32], [I64]))
    case _ => None
  }

  function OnSimple(c: Ctx, v: VState, op: Op): Option<VState> {
    if op.Drop? then
      var (v', _) :- PopVal(v);
      Some(v')
    else if op.Select? then OnSelect(v)
    else
      var sig :- Signature(c, op);
      var v1 :- PopVals(v, sig.params);
      Some(PushVals(v1, sig.results))
  }

  // One callback of the decoder, for the instruction at pos.
  function Step(c: Ctx, v: VState, op: Op, pos: nat, len: nat): Option<VState> {
    var imm := pos + 1;
    match op
    case Unreachable => SetUnreachable(v)
    case BlockOp(ft) => OnBlock(c, v, ft)
    case LoopOp(ft) => OnLoop(c, v, ft, imm)
    case IfOp(ft) => OnIf(c, v, ft, imm)
    case ElseOp => OnElse(c, v, imm)
    case EndOp => OnEnd(c, v, imm)
    case Br(n) => OnBr(c, v, n, imm)
    case BrIf(n) => OnBrIf(c, v, n, imm)
    case BrTable(ls, skew) => OnBrTable(c, v, ls, pos + len + skew)
    case Return => OnReturn(c, v)
    case Call(g) => OnCall(c, v, g)
    case _ => OnSimple(c, v, op)
  }

  // The decoder's loop: it stops at an `end` with nothing left.
  function Walk(c: Ctx, pos: nat, v: VState): Option<VState>
    decreases |c.f.code| - pos
  {
    var i :- Decode(c.m, c.f.code, pos);
    var v1 :- Step(c, v, i.op, pos, i.len);
    if i.op.EndOp? && pos + i.len >= |c.f.code| then Some(v1) else Walk(c, pos + i.len, v1)
  }

  function Validate(c: Ctx): Option<VState> {
    Walk(c, 0, Begin(c))
  }

  // The same fold over a nested body that starts at pos.
  function Run(c: Ctx, b: Body, pos: nat, v: VState): Option<VState>
    decreases b
  {
    match b
    case Stop => Some(v)
    case Plain(op, len, rest) =>
      var v1 :- Step(c, v, op, pos, len);
      Run(c, rest, pos + len, v1)
    case Block(ft, body, rest) =>
      var v1 :- Step(c, v, BlockOp(ft), pos, 2);
      var v2 :- Run(c, body, pos + 2, v1);
      var e := pos + 2 + Size(body);
      var v3 :- Step(c, v2, EndOp, e, 1);
      Run(c, rest, e + 1, v3)
    case Loop(ft, body, rest) =>
      var v1 :- Step(c, v, LoopOp(ft), pos, 2);
      var v2 :- Run(c, body, pos + 2, v1);
      var e := pos + 2 + Size(body);
      var v3 :- Step(c, v2, EndOp, e, 1);
      Run(c, rest, e + 1, v3)
    case If(ft, thn, rest) =>
      var v1 :- Step(c, v, IfOp(ft), pos, 2);
      var v2 :- Run(c, thn, pos + 2, v1);
      var e := pos + 2 + Size(thn);
      var v3 :- Step(c, v2, EndOp, e, 1);
      Run(c, rest, e + 1, v3)
    case IfElse(ft, thn, els, rest) =>
      var v1 :- Step(c, v, IfOp(ft), pos, 2);
      var v2 :- Run(c, thn, pos + 2, v1);
      var e := pos + 2 + Size(thn);
      var v3 :- Step(c, v2, ElseOp, e, 1);
      var v4 :- Run(c, els, e + 1, v3);
      var e2 := e + 1 + Size(els);
      var v5 :- Step(c, v4, EndOp, e2, 1);
      Run(c, rest, e2 + 1, v5)
  }
}
