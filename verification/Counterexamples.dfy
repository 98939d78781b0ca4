/**
 Functions that the source's validator accepts although the checks it leaves out would refuse
 them, and what becomes of them.
 */
module Counterexamples {
  import opened Basics
  import opened Leb128
  import opened Wasm
  import opened Acts
  import opened Decoder
  import opened Validation
  import opened JumpTable
  import opened Compiled
  import opened InPlace
  import opened Strictness

  function OneFunction(ft: FuncType, code: seq<byte>): Module {
    Module([], [Func(ft, [], code)], [], None)
  }

  function CtxOf(m: Module): Ctx
    requires m.funcs != []
  {
    Ctx(m, m.funcs[0], false, false)
  }

  // ----- Reading the examples -----

  lemma Reads(m: Module, code: seq<byte>, pos: nat)
    requires pos < |code|
    ensures code[pos] == 0x00 ==> Decode(m, code, pos) == Some(Instr(Unreachable, 1))
    ensures code[pos] == 0x05 ==> Decode(m, code, pos) == Some(Instr(ElseOp, 1))
    ensures code[pos] == 0x0b ==> Decode(m, code, pos) == Some(Instr(EndOp, 1))
    ensures code[pos] == 0x1a ==> Decode(m, code, pos) == Some(Instr(Drop, 1))
    ensures pos + 1 < |code| && code[pos] == 0x0c ==> Decode(m, code, pos) == Some(Instr(Br(code[pos + 1]), 2))
  {
    hide Unsigned, Signed, Labels, BlockType;
  }

  lemma ReadsConst(m: Module, code: seq<byte>, pos: nat)
    requires pos + 1 < |code| && code[pos] == 0x41 && code[pos + 1] < 64
    ensures Decode(m, code, pos) == Some(Instr(I32Const(code[pos + 1]), 2))
  {
    Pow2Values();
  }

  // 0x40 is the empty block type, 0x7f the type with one i32 result.
  lemma ReadsBlock(m: Module, code: seq<byte>, pos: nat)
    requires pos + 1 < |code| && code[pos] in {0x02, 0x04} && code[pos + 1] in {0x40, 0x7f}
    ensures var ft := FuncType([], if code[pos + 1] == 0x40 then [] else [I32]);
            Decode(m, code, pos) == Some(Instr(if code[pos] == 0x02 then BlockOp(ft) else IfOp(ft), 2))
  {
    Pow2Values();
    assert Signed(code, pos + 1, 7) == Some(Num(code[pos + 1] as int - 128, 1));
  }

  // With the check for balanced frames and typed `if`s on top.
  function StrictOf(c: Ctx): Ctx {
    c.(strict := true)
  }

  lemma WalkOn(c: Ctx, pos: nat, v: VState, op: Op, len: nat, w: VState)
    requires Decode(c.m, c.f.code, pos) == Some(Instr(op, len)) && Step(c, v, op, pos, len) == Some(w)
    requires pos + len < |c.f.code|
    ensures Walk(c, pos, v) == Walk(c, pos + len, w)
    ensures c == SourceRules(c) && Guarded(StrictOf(c), pos, v) ==>
            Guard(StrictOf(c), v, op) && Guarded(StrictOf(c), pos + len, w)
  {
    hide Decode, Step, Guard;
    assert SourceRules(StrictOf(c)) == SourceRules(c);
  }

  lemma WalkStops(c: Ctx, pos: nat, v: VState, op: Op, len: nat)
    requires Decode(c.m, c.f.code, pos) == Some(Instr(op, len)) && Step(c, v, op, pos, len) == None
    ensures Walk(c, pos, v) == None
  {
    hide Decode, Step;
  }

  lemma WalkEnd(c: Ctx, pos: nat, v: VState, w: VState)
    requires Decode(c.m, c.f.code, pos) == Some(Instr(EndOp, 1)) && Step(c, v, EndOp, pos, 1) == Some(w)
    requires pos + 1 == |c.f.code|
    ensures Walk(c, pos, v) == Some(w)
  {
    hide Decode, Step;
  }

  lemma FlatOn(q: Program, at: Pc, s: State, u: Usage, fuel: nat, at2: Pc, s2: State)
    requires |q.m.funcs| == |q.prepared| == 1 && fuel > 0
    requires FlatStep(ImageOf(q, 0), q.m.funcs[0], at, s) == Next(at2, s2)
    ensures FlatRun(q, 0, at, s, u, fuel) == FlatRun(q, 0, at2, s2, u, fuel - 1)
  {
    hide FlatStep;
  }

  lemma FlatStuck(q: Program, at: Pc, s: State, u: Usage, fuel: nat)
    requires |q.m.funcs| == |q.prepared| == 1 && fuel > 0
    requires FlatStep(ImageOf(q, 0), q.m.funcs[0], at, s).Undefined?
    ensures FlatRun(q, 0, at, s, u, fuel) == Broken
  {
    hide FlatStep;
  }

  // ----- An `if` with a result and no `else` -----

  // i32.const 0, if (result i32), i32.const 5, end, end
  const IF_CODE: seq<byte> := [0x41, 0x00, 0x04, 0x7f, 0x41, 0x05, 0x0b, 0x0b]

  function IfModule(): Module {
    OneFunction(FuncType([], [I32]), IF_CODE)
  }

  lemma IfReads()
    ensures var m := IfModule();
            && |IF_CODE| == 8 && m.funcs[0].code == IF_CODE
            && OpAt(m, IF_CODE, 0, I32Const(0), 2) && OpAt(m, IF_CODE, 2, IfOp(FuncType([], [I32])), 2)
            && OpAt(m, IF_CODE, 4, I32Const(5), 2) && OpAt(m, IF_CODE, 6, EndOp, 1) && OpAt(m, IF_CODE, 7, EndOp, 1)
  {
    hide Decode;
    var m := IfModule();
    ReadsConst(m, IF_CODE, 0);
    ReadsBlock(m, IF_CODE, 2);
    ReadsConst(m, IF_CODE, 4);
    Reads(m, IF_CODE, 6);
    Reads(m, IF_CODE, 7);
  }

  lemma IfAccepted()
    ensures Validate(CtxOf(IfModule())) == Some(VState([], [I32], [Slot(3, 0, 0, At(7))], 1))
    ensures !Guarded(StrictOf(CtxOf(IfModule())), 0, Begin(CtxOf(IfModule())))
  {
    hide Decode, Step, Walk, ResolveAll, Guard, Guarded, IF_CODE;
    var m := IfModule();
    var c := CtxOf(m);
    IfReads();
    var ft := FuncType([], [I32]);
    var fr, inner := Frame(FuncK, ft, 0, false, 0), Frame(IfK, ft, 0, false, 0);
    var v1 := VState([fr], [I32], [], 1);
    var v2 := VState([fr, inner], [], [Slot(3, 0, 0, ToElse(1))], 1);
    var v3 := VState([fr, inner], [I32], [Slot(3, 0, 0, ToElse(1))], 1);
    var v4 := VState([fr], [I32], [Slot(3, 0, 0, At(7))], 1);
    ConstStep(c, Begin(c), 0, 0, v1);
    WalkOn(c, 0, Begin(c), I32Const(0), 2, v1);
    IfChecks(c, v1, ft, 2, v2);
    WalkOn(c, 2, v1, IfOp(ft), 2, v2);
    ConstStep(c, v2, 5, 4, v3);
    WalkOn(c, 4, v2, I32Const(5), 2, v3);
    ResolveOne(Slot(3, 0, 0, ToElse(1)), 1, 7);
    EndStep(c, v3, 6, v4);
    IfGuard(StrictOf(c), v3);
    WalkOn(c, 6, v3, EndOp, 1, v4);
    ResolveOne(Slot(3, 0, 0, At(7)), 0, 7);
    EndStep(c, v4, 7, v4.(ctrl := []));
    WalkEnd(c, 7, v4, v4.(ctrl := []));
  }

  lemma IfGuard(c: Ctx, v: VState)
    requires c.strict && v.ctrl != [] && Top(v).kind.IfK? && Top(v).ftype == FuncType([], [I32])
    ensures !Guard(c, v, EndOp)
  {
    hide NothingLeft;
  }

  lemma ResolveOne(s: Slot, d: nat, pc: nat)
    ensures ResolveAll([s], d, pc) == [s.(target := Resolved(s.target, d, pc))]
  {
  }

  lemma ConstStep(c: Ctx, v: VState, n: int, pos: nat, w: VState)
    requires w == v.(vals := v.vals + [I32], peak := Max(v.peak, |v.vals| + 1))
    ensures Step(c, v, I32Const(n), pos, 2) == Some(w)
  {
    assert [I32][1..] == [];
  }

  // An `if` without parameters, its condition on top of an empty frame.
  lemma IfChecks(c: Ctx, v: VState, ft: FuncType, pos: nat, w: VState)
    requires |v.ctrl| == 1 && Top(v).height == 0 && v.vals == [I32] && ft.params == []
    requires w == VState(v.ctrl + [Frame(IfK, ft, 0, false, 0)], [], v.slots + [Slot(pos + 1, 0, 0, ToElse(1))], v.peak)
    ensures Step(c, v, IfOp(ft), pos, 2) == Some(w)
  {
    var v0 := v.(vals := []);
    assert PopExpect(v, I32) == Some((v0, I32));
    assert PopVals(v0, []) == Some(v0);
  }

  // An `end` of a frame whose results are all it holds or that has none.
  lemma EndStep(c: Ctx, v: VState, pos: nat, w: VState)
    requires v.ctrl != [] && (c.strict ==> !Top(v).kind.IfK? && |v.vals| == Top(v).height + |Top(v).ftype.results|)
    requires v.ctrl != [] && Top(v).height <= |v.vals|
    requires (Top(v).ftype.results == [I32] && |v.vals| == Top(v).height + 1 && v.vals[|v.vals| - 1] == I32
             && |v.vals| <= v.peak)
          || Top(v).ftype.results == []
    requires w == VState(v.ctrl[..|v.ctrl| - 1], v.vals,
             ResolveAll(v.slots, |v.ctrl| - 1, EndTarget(Top(v), pos + 1)), v.peak)
    ensures Step(c, v, EndOp, pos, 1) == Some(w)
  {
    hide ResolveAll;
    if Top(v).ftype.results == [I32] {
      var v0 := v.(vals := v.vals[..|v.vals| - 1]);
      assert PopExpect(v, I32) == Some((v0, I32));
      assert [I32][..0] == [] && PopTypes(v0, []) == Some((v0, []));
      assert PopTypes(v, [I32]).value.0 == v0;
      assert [I32][1..] == [] && v0.vals + [I32] == v.vals;
      assert PushVals(w.(vals := v0.vals), [I32]) == w;
    } else {
      assert PopTypes(v, []) == Some((v, []));
    }
  }

  // The function is a well-nested body with one-byte labels, the source compiles it, and its first
  // run takes its result from below the operand stack. Only the check for equal parameters and
  // results is missing.
  lemma IfWithoutElse(fuel: nat)
    requires fuel >= 3
    ensures var m := IfModule();
            var c := Compile(m, m.funcs[0]);
            && (exists b :: Encodes(m, IF_CODE, b)) && c.Some?
            && FlatCall(Program(m, [c.value]), 0, [], Store([], [], []), Usage(0, 0), fuel) == Broken
            && Validate(Ctx(m, m.funcs[0], true, false)).None?
  {
    hide Decode, Validate, FlatRun, FlatCall, Guarded, Walk, Laid, PreparedOf, Link, IF_CODE;
    var m := IfModule();
    IfAccepted();
    IfReads();
    var ft := FuncType([], [I32]);
    IfNested(m, ft);
    var q := Program(m, [Prepared([Entry(3, 4, 0, 0, NO_NEXT)], 1)]);
    IfLinked();
    IfRuns(q, fuel);
    FirstCall(q, fuel);
    ValidateAgrees(StrictOf(CtxOf(m)));
  }

  lemma IfNested(m: Module, ft: FuncType)
    requires m == IfModule() && ft == FuncType([], [I32])
    ensures Encodes(m, IF_CODE, Plain(I32Const(0), 2, If(ft, Plain(I32Const(5), 2, Stop), Stop)))
  {
    hide Decode, IF_CODE;
    IfReads();
    var thn := Plain(I32Const(5), 2, Stop);
    assert Laid(m, IF_CODE, 4, thn);
    assert Laid(m, IF_CODE, 2, If(ft, thn, Stop));
  }

  lemma IfLinked()
    ensures PreparedOf(VState([], [I32], [Slot(3, 0, 0, At(7))], 1)) == Prepared([Entry(3, 4, 0, 0, NO_NEXT)], 1)
  {
    var jt := [Entry(3, 4, 0, 0, NO_NEXT)];
    assert Entries([Slot(3, 0, 0, At(7))]) == jt;
    assert NextOf(jt, 0) == NO_NEXT;
    assert Link(jt) == jt;
  }

  lemma IfRuns(q: Program, fuel: nat)
    requires q == Program(IfModule(), [Prepared([Entry(3, 4, 0, 0, NO_NEXT)], 1)]) && fuel >= 3
    ensures FlatRun(q, 0, Pc(0, 0), State([], [], Store([], [], [])), Usage(1, 1), fuel) == Broken
  {
    hide Decode, FlatRun, FlatStep, IF_CODE;
    IfReads();
    var s := State([], [], Store([], [], []));
    var s1 := s.(stack := [Value(I32, 0)]);
    var f, im := q.m.funcs[0], ImageOf(q, 0);
    ConstFlat(im, f, Pc(0, 0), s, 0);
    FlatOn(q, Pc(0, 0), s, Usage(1, 1), fuel, Pc(2, 0), s1);
    SkipFlat(im, f, Pc(2, 0), s1);
    FlatOn(q, Pc(2, 0), s1, Usage(1, 1), fuel - 1, Pc(7, NO_NEXT), s);
    EmptyFinish(im, f, Pc(7, NO_NEXT), s);
    FlatStuck(q, Pc(7, NO_NEXT), s, Usage(1, 1), fuel - 2);
  }

  // ----- An operand left over in an arm -----

  // i32.const 0, if, i32.const 2, else, end, drop, end
  const LEFT_CODE: seq<byte> := [0x41, 0x00, 0x04, 0x40, 0x41, 0x02, 0x05, 0x0b, 0x1a, 0x0b]

  function LeftModule(): Module {
    OneFunction(FuncType([], []), LEFT_CODE)
  }

  lemma LeftReads()
    ensures var m := LeftModule();
            && |LEFT_CODE| == 10 && m.funcs[0].code == LEFT_CODE
            && OpAt(m, LEFT_CODE, 0, I32Const(0), 2) && OpAt(m, LEFT_CODE, 2, IfOp(FuncType([], [])), 2)
            && OpAt(m, LEFT_CODE, 4, I32Const(2), 2) && OpAt(m, LEFT_CODE, 6, ElseOp, 1)
            && OpAt(m, LEFT_CODE, 7, EndOp, 1)
            && OpAt(m, LEFT_CODE, 8, Drop, 1) && OpAt(m, LEFT_CODE, 9, EndOp, 1)
  {
    hide Decode;
    var m := LeftModule();
    ReadsConst(m, LEFT_CODE, 0);
    ReadsBlock(m, LEFT_CODE, 2);
    ReadsConst(m, LEFT_CODE, 4);
    Reads(m, LEFT_CODE, 6);
    Reads(m, LEFT_CODE, 7);
    Reads(m, LEFT_CODE, 8);
    Reads(m, LEFT_CODE, 9);
  }

  function LeftSlots(): seq<Slot> {
    [Slot(3, 0, 0, At(7)), Slot(7, 0, 0, At(8))]
  }

  lemma LeftAccepted()
    ensures Validate(CtxOf(LeftModule())) == Some(VState([], [], LeftSlots(), 1))
    ensures !Guarded(StrictOf(CtxOf(LeftModule())), 0, Begin(CtxOf(LeftModule())))
  {
    hide Decode, Step, Walk, ResolveAll, Guard, Guarded, LEFT_CODE;
    var m := LeftModule();
    var c := CtxOf(m);
    LeftReads();
    var ft := FuncType([], []);
    var fr, thn, els := Frame(FuncK, ft, 0, false, 0), Frame(IfK, ft, 0, false, 0), Frame(ElseK, ft, 1, false, 0);
    var v1 := VState([fr], [I32], [], 1);
    var v2 := VState([fr, thn], [], [Slot(3, 0, 0, ToElse(1))], 1);
    var v3 := VState([fr, thn], [I32], [Slot(3, 0, 0, ToElse(1))], 1);
    var v4 := VState([fr, els], [I32], [Slot(3, 0, 0, At(7)), Slot(7, 0, 0, ToEnd(1))], 1);
    var v5 := VState([fr], [I32], LeftSlots(), 1);
    var v6 := VState([fr], [], LeftSlots(), 1);
    ConstStep(c, Begin(c), 0, 0, v1);
    WalkOn(c, 0, Begin(c), I32Const(0), 2, v1);
    IfChecks(c, v1, ft, 2, v2);
    WalkOn(c, 2, v1, IfOp(ft), 2, v2);
    ConstStep(c, v2, 2, 4, v3);
    WalkOn(c, 4, v2, I32Const(2), 2, v3);
    ElseStep(c, v3, v4);
    LeftGuard(StrictOf(c), v3);
    WalkOn(c, 6, v3, ElseOp, 1, v4);
    ResolveTwo(Slot(3, 0, 0, At(7)), Slot(7, 0, 0, ToEnd(1)), 1, 8);
    EndStep(c, v4, 7, v5);
    WalkOn(c, 7, v4, EndOp, 1, v5);
    DropStep(c, v5, 8, v6);
    WalkOn(c, 8, v5, Drop, 1, v6);
    ResolveTwo(Slot(3, 0, 0, At(7)), Slot(7, 0, 0, At(8)), 0, 9);
    EndStep(c, v6, 9, v6.(ctrl := []));
    WalkEnd(c, 9, v6, v6.(ctrl := []));
  }

  lemma ResolveTwo(s: Slot, t: Slot, d: nat, pc: nat)
    ensures ResolveAll([s, t], d, pc) == [s.(target := Resolved(s.target, d, pc)),
            t.(target := Resolved(t.target, d, pc))]
  {
  }

  lemma DropStep(c: Ctx, v: VState, pos: nat, w: VState)
    requires v.ctrl != [] && |v.vals| > Top(v).height && w == v.(vals := v.vals[..|v.vals| - 1])
    ensures Step(c, v, Drop, pos, 1) == Some(w)
  {
  }

  lemma LeftGuard(c: Ctx, v: VState)
    requires c.strict && v.ctrl != [] && Top(v).ftype.results == [] && |v.vals| != Top(v).height
    ensures !Guard(c, v, ElseOp)
  {
    assert PopTypes(v, []) == Some((v, []));
  }

  lemma ElseStep(c: Ctx, v: VState, w: VState)
    requires !c.strict
    requires v.ctrl == [Frame(FuncK, FuncType([], []), 0, false, 0), Frame(IfK, FuncType([], []), 0, false, 0)]
    requires v.vals == [I32] && v.slots == [Slot(3, 0, 0, ToElse(1))]
    requires w == VState([v.ctrl[0], Frame(ElseK, FuncType([], []), 1, false, 0)], [I32],
                         [Slot(3, 0, 0, At(7)), Slot(7, 0, 0, ToEnd(1))], v.peak)
    ensures Step(c, v, ElseOp, 6, 1) == Some(w)
  {
    assert PopTypes(v, []) == Some((v, []));
    var v1 := v.(ctrl := [v.ctrl[0]]);
    assert v.ctrl[..|v.ctrl| - 1] == v1.ctrl;
    assert PopCtrl(c, v) == Some(v1);
    var v2 := PushCtrl(v1, ElseK, FuncType([], []), 0);
    assert v2 == v1.(ctrl := w.ctrl);
    assert ResolveElse(v2.slots, 1, 7) == [Slot(3, 0, 0, At(7))];
    assert [Slot(3, 0, 0, At(7))] + [Slot(7, 0, 0, ToEnd(1))] == w.slots;
  }

  lemma LeftLinked()
    ensures PreparedOf(VState([], [], LeftSlots(), 1))
         == Prepared([Entry(3, 4, 0, 0, NO_NEXT), Entry(7, 1, 0, 0, NO_NEXT)], 1)
  {
    var jt := [Entry(3, 4, 0, 0, NO_NEXT), Entry(7, 1, 0, 0, NO_NEXT)];
    assert Entries(LeftSlots()) == jt;
    assert NextOf(jt, 0) == NO_NEXT by { assert ScanUp(jt, 7, 2) == NO_NEXT; }
    assert NextOf(jt, 1) == NO_NEXT;
    assert Link(jt) == jt;
  }

  lemma LeftRuns(q: Program, fuel: nat)
    requires q == Program(LeftModule(), [Prepared([Entry(3, 4, 0, 0, NO_NEXT), Entry(7, 1, 0, 0, NO_NEXT)], 1)])
    requires fuel >= 4
    ensures FlatRun(q, 0, Pc(0, 0), State([], [], Store([], [], [])), Usage(1, 1), fuel) == Broken
  {
    hide Decode, FlatRun, FlatStep, LEFT_CODE;
    LeftReads();
    var s := State([], [], Store([], [], []));
    var s1 := s.(stack := [Value(I32, 0)]);
    var f, im := q.m.funcs[0], ImageOf(q, 0);
    ConstFlat(im, f, Pc(0, 0), s, 0);
    FlatOn(q, Pc(0, 0), s, Usage(1, 1), fuel, Pc(2, 0), s1);
    SkipFlat(im, f, Pc(2, 0), s1);
    FlatOn(q, Pc(2, 0), s1, Usage(1, 1), fuel - 1, Pc(7, NO_NEXT), s);
    EndFlat(im, f, Pc(7, NO_NEXT), s);
    FlatOn(q, Pc(7, NO_NEXT), s, Usage(1, 1), fuel - 2, Pc(8, NO_NEXT), s);
    EmptyDrop(im, f, Pc(8, NO_NEXT), s);
    FlatStuck(q, Pc(8, NO_NEXT), s, Usage(1, 1), fuel - 3);
  }

  lemma LeftNested(m: Module, ft: FuncType)
    requires m == LeftModule() && ft == FuncType([], [])
    ensures Encodes(m, LEFT_CODE, Plain(I32Const(0), 2,
            IfElse(ft, Plain(I32Const(2), 2, Stop), Stop, Plain(Drop, 1, Stop))))
  {
    hide Decode, LEFT_CODE;
    LeftReads();
    var thn := Plain(I32Const(2), 2, Stop);
    assert Laid(m, LEFT_CODE, 4, thn);
    assert Laid(m, LEFT_CODE, 8, Plain(Drop, 1, Stop));
    assert Laid(m, LEFT_CODE, 2, IfElse(ft, thn, Stop, Plain(Drop, 1, Stop)));
  }

  // The same again; here only the comparison with the frame's height is missing.
  lemma OperandLeftOver(fuel: nat)
    requires fuel >= 4
    ensures var m := LeftModule();
            var c := Compile(m, m.funcs[0]);
            && (exists b :: Encodes(m, LEFT_CODE, b)) && c.Some?
            && FlatCall(Program(m, [c.value]), 0, [], Store([], [], []), Usage(0, 0), fuel) == Broken
            && Validate(Ctx(m, m.funcs[0], true, false)).None?
  {
    hide Decode, Validate, FlatRun, FlatCall, Guarded, Walk, Laid, PreparedOf, Link, LEFT_CODE;
    var m := LeftModule();
    LeftAccepted();
    LeftReads();
    LeftNested(m, FuncType([], []));
    var q := Program(m, [Prepared([Entry(3, 4, 0, 0, NO_NEXT), Entry(7, 1, 0, 0, NO_NEXT)], 1)]);
    LeftLinked();
    LeftRuns(q, fuel);
    FirstCall(q, fuel);
    ValidateAgrees(StrictOf(CtxOf(m)));
  }

  // ----- Code that stops at an inner `end` -----

  // block, br 1, end
  const EARLY_CODE: seq<byte> := [0x02, 0x40, 0x0c, 0x01, 0x0b]

  // It is accepted, but its branch never learns where to go: the walk ended before the function's
  // own frame did.
  lemma EarlyEnd()
    ensures var m := OneFunction(FuncType([], []), EARLY_CODE);
            && Validate(CtxOf(m)).Some? && Validate(CtxOf(m)).value.slots == [Slot(3, 0, 0, ToEnd(0))]
            && !Closes(m, EARLY_CODE, 0, 1)
  {
    hide Decode, Step, Walk, ResolveAll, Validate;
    var m := OneFunction(FuncType([], []), EARLY_CODE);
    var c := CtxOf(m);
    ReadsBlock(m, EARLY_CODE, 0);
    Reads(m, EARLY_CODE, 2);
    Reads(m, EARLY_CODE, 4);
    EarlyWalk(c);
    assert !Closes(m, EARLY_CODE, 4, 2);
    assert !Closes(m, EARLY_CODE, 2, 2);
  }

  lemma EarlyWalk(c: Ctx)
    requires c == CtxOf(OneFunction(FuncType([], []), EARLY_CODE))
    requires OpAt(c.m, EARLY_CODE, 0, BlockOp(FuncType([], [])), 2) && OpAt(c.m, EARLY_CODE, 2, Br(1), 2)
    requires OpAt(c.m, EARLY_CODE, 4, EndOp, 1)
    ensures Validate(c).Some? && Validate(c).value.slots == [Slot(3, 0, 0, ToEnd(0))]
  {
    hide Decode, Step, Walk, ResolveAll, Guard, Guarded;
    var ft := FuncType([], []);
    var fr, inner := Frame(FuncK, ft, 0, false, 0), Frame(BlockK, ft, 0, false, 0);
    var v0 := VState([fr], [], [], 0);
    var v1 := VState([fr, inner], [], [], 0);
    var v2 := VState([fr, inner.(dead := true)], [], [Slot(3, 0, 0, ToEnd(0))], 0);
    var v3 := VState([fr], [], [Slot(3, 0, 0, ToEnd(0))], 0);
    assert Begin(c) == v0;
    BlockChecks(c, v0, v1);
    WalkOn(c, 0, v0, BlockOp(ft), 2, v1);
    BrStep(c, v1, v2);
    WalkOn(c, 2, v1, Br(1), 2, v2);
    ResolveOne(Slot(3, 0, 0, ToEnd(0)), 1, 5);
    EndStep(c, v2, 4, v3);
    WalkEnd(c, 4, v2, v3);
  }

  lemma BlockChecks(c: Ctx, v: VState, w: VState)
    requires v == VState([Frame(FuncK, FuncType([], []), 0, false, 0)], [], [], 0)
    requires w == v.(ctrl := v.ctrl + [Frame(BlockK, FuncType([], []), 0, false, 0)])
    ensures Step(c, v, BlockOp(FuncType([], [])), 0, 2) == Some(w)
  {
    assert PopTypes(v, []) == Some((v, []));
  }

  lemma BrStep(c: Ctx, v: VState, w: VState)
    requires v == VState([Frame(FuncK, FuncType([], []), 0, false, 0), Frame(BlockK, FuncType([], []), 0, false, 0)],
             [], [], 0)
    requires w == VState([v.ctrl[0], v.ctrl[1].(dead := true)], [], [Slot(3, 0, 0, ToEnd(0))], 0)
    ensures Step(c, v, Br(1), 2, 2) == Some(w)
  {
    var v1 := AddSlot(v, BranchSlot(v, 3, 0));
    assert PopTypes(v1, []) == Some((v1, []));
    assert v1.ctrl[1 := v1.ctrl[1].(dead := true)] == w.ctrl;
    assert v1.slots == w.slots && v1.vals[..0] == [];
    assert SetUnreachable(v1) == Some(w);
  }

  // ----- A label of two bytes -----

  // i32.const 0, br_table with the single label 0 spelled 0x80 0x00, end
  const TABLE_CODE: seq<byte> := [0x41, 0x00, 0x0e, 0x00, 0x80, 0x00, 0x0b]

  function TableModule(): Module {
    OneFunction(FuncType([], []), TABLE_CODE)
  }

  lemma TableReads()
    ensures var m := TableModule();
            && |TABLE_CODE| == 7 && m.funcs[0].code == TABLE_CODE
            && OpAt(m, TABLE_CODE, 0, I32Const(0), 2) && OpAt(m, TABLE_CODE, 2, BrTable([0], 1), 3)
            && OpAt(m, TABLE_CODE, 5, Unreachable, 1) && OpAt(m, TABLE_CODE, 6, EndOp, 1)
  {
    hide Decode, Table;
    var m := TableModule();
    ReadsConst(m, TABLE_CODE, 0);
    ReadsLabel();
    ReadsTable(m, TABLE_CODE, 2);
    Reads(m, TABLE_CODE, 5);
    Reads(m, TABLE_CODE, 6);
  }

  lemma ReadsTable(m: Module, code: seq<byte>, pos: nat)
    requires pos < |code| && code[pos] == 0x0e
    ensures Decode(m, code, pos) == Table(code, pos)
  {
    hide Table;
  }

  lemma ReadsLabel()
    ensures Table(TABLE_CODE, 2) == Some(Instr(BrTable([0], 1), 3))
  {
    Pow2Values();
    assert Pow2(25) > 0 by { Pow2Monotone(0, 25); }
    assert Unsigned(TABLE_CODE, 5, 25) == Some(Num(0, 1));
    assert Unsigned(TABLE_CODE, 4, 32) == Some(Num(0, 2));
    assert Unsigned(TABLE_CODE, 3, 32) == Some(Num(0, 1));
    assert Labels(TABLE_CODE, 6, 0) == Some(([], 6));
    assert Index(TABLE_CODE, 4) == Some(Num(0, 2));
    var zero: seq<nat> := [0];
    assert zero + [] == zero;
    assert Labels(TABLE_CODE, 4, 1) == Some((zero, 6));
  }

  lemma TableAccepted()
    ensures Validate(CtxOf(TableModule())) == Some(VState([], [], [Slot(6, 0, 0, At(6))], 1))
  {
    hide Decode, Step, Walk, ResolveAll, Guard, Guarded, TABLE_CODE;
    var c := CtxOf(TableModule());
    TableReads();
    var ft := FuncType([], []);
    var fr := Frame(FuncK, ft, 0, false, 0);
    var v1 := VState([fr], [I32], [], 1);
    var v2 := VState([fr.(dead := true)], [], [Slot(6, 0, 0, ToEnd(0))], 1);
    var v3 := VState([], [], [Slot(6, 0, 0, At(6))], 1);
    ConstStep(c, Begin(c), 0, 0, v1);
    WalkOn(c, 0, Begin(c), I32Const(0), 2, v1);
    TableStep(c, v1, v2);
    WalkOn(c, 2, v1, BrTable([0], 1), 3, v2);
    UnreachableStep(c, v2);
    WalkOn(c, 5, v2, Unreachable, 1, v2);
    ResolveOne(Slot(6, 0, 0, ToEnd(0)), 0, 6);
    EndStep(c, v2, 6, v3);
    WalkEnd(c, 6, v2, v3);
  }

  // The function is accepted, but the slot of its br_table lies one byte further on than the
  // interpreter's position when it looks for it. The condition for that is TableSkew's.
  lemma TwoByteLabel()
    ensures var m := TableModule();
            && Validate(CtxOf(m)).Some?
            && FlatControl(Image(m, TABLE_CODE, PreparedOf(Validate(CtxOf(m)).value).jt), 2, 0, 0) == FWrong
  {
    hide Decode, Validate, TABLE_CODE;
    TableAccepted();
    TableReads();
    assert PreparedOf(VState([], [], [Slot(6, 0, 0, At(6))], 1)).jt[0].pc == 6;
  }

  lemma TableStep(c: Ctx, v: VState, w: VState)
    requires v == VState([Frame(FuncK, FuncType([], []), 0, false, 0)], [I32], [], 1)
    requires w == VState([v.ctrl[0].(dead := true)], [], [Slot(6, 0, 0, ToEnd(0))], 1)
    ensures Step(c, v, BrTable([0], 1), 2, 3) == Some(w)
  {
    hide PopTypes, TableSlots, SetUnreachable;
    var v0 := v.(vals := []);
    assert PopExpect(v, I32) == Some((v0, I32));
    hide PopExpect;
    var v1 := v0.(slots := [Slot(6, 0, 0, ToEnd(0))]);
    ZeroLabel(v0, v1);
    EmptyPop(v1);
    TableEnds(v1, w);
  }

  lemma EmptyPop(v: VState)
    ensures PopTypes(v, []) == Some((v, []))
  {
  }

  lemma ZeroLabel(v: VState, w: VState)
    requires v == VState([Frame(FuncK, FuncType([], []), 0, false, 0)], [], [], 1)
    requires w == v.(slots := [Slot(6, 0, 0, ToEnd(0))])
    ensures var ls: seq<nat> := [0]; TableSlots(v, ls, 0, 6) == Some(w)
  {
    hide PopTypes;
    var ls: seq<nat> := [0];
    assert ls[1..] == [];
    assert AddSlot(v, BranchSlot(v, 6, 0)) == w;
    EmptyPop(w);
    assert TableSlots(w, [], 0, 6) == Some(w);
  }

  lemma TableEnds(v: VState, w: VState)
    requires |v.ctrl| == 1 && v.ctrl[0].height == 0 && v.vals == [] && w == v.(ctrl := [v.ctrl[0].(dead := true)])
    ensures SetUnreachable(v) == Some(w)
  {
    assert v.ctrl[0 := v.ctrl[0].(dead := true)] == w.ctrl;
    assert v.vals[..0] == [];
  }

  lemma UnreachableStep(c: Ctx, v: VState)
    requires |v.ctrl| == 1 && v.ctrl[0].height == 0 && v.ctrl[0].dead && v.vals == []
    ensures Step(c, v, Unreachable, 5, 1) == Some(v)
  {
    assert v.ctrl[0 := v.ctrl[0]] == v.ctrl;
  }

  // ----- A longer label on a br -----

  // br 0 with its label in two bytes, end
  const LONG_CODE: seq<byte> := [0x0c, 0x80, 0x00, 0x0b]

  // There is no label 128: refused, though the label is 0.
  lemma LongLabelRefused(c: Ctx)
    requires c.m == OneFunction(FuncType([], []), LONG_CODE) && c.f == c.m.funcs[0]
    ensures Index(LONG_CODE, 1) == Some(Num(0, 2)) && Validate(c) == None
  {
    hide Decode, Step, Walk;
    LongLabel(LONG_CODE, 0);
    Reads(c.m, LONG_CODE, 0);
    OutOfRange(c, Begin(c), 128, 0);
    WalkStops(c, 0, Begin(c), Br(128), 2);
  }

  lemma LongLabel(code: seq<byte>, pos: nat)
    requires pos + 2 < |code| && code[pos + 1] == 0x80 && code[pos + 2] == 0x00
    ensures Index(code, pos + 1) == Some(Num(0, 2))
  {
    Pow2Values();
    assert Unsigned(code, pos + 2, 25) == Some(Num(0, 1));
  }

  lemma OutOfRange(c: Ctx, v: VState, n: nat, pos: nat)
    requires n >= |v.ctrl|
    ensures Step(c, v, Br(n), pos, 2) == None
  {
  }

  // 128 blocks; the same br; the end of the innermost block, unreachable, and the other ends
  function NestCode(): (r: seq<byte>)
    ensures |r| == 389 && forall k :: 0 <= k < 128 ==> r[2 * k] == 0x02 && r[2 * k + 1] == 0x40
    ensures r[256] == 0x0c && r[257] == 0x80 && r[258] == 0x00 && r[259] == 0x0b && r[260] == 0x00
    ensures forall i :: 261 <= i < 389 ==> r[i] == 0x0b
  {
    seq(389, i requires 0 <= i < 389 =>
      if i < 256 then if i % 2 == 0 then 0x02 else 0x40
      else if i == 256 then 0x0c else if i == 257 then 0x80 else if i == 258 || i == 260 then 0x00 else 0x0b)
  }

  function NestModule(): Module {
    OneFunction(FuncType([], []), NestCode())
  }

  const NEST_SLOT := Slot(257, 0, 0, ToEnd(0))

  // Inside k blocks.
  function NestState(k: nat, dead: bool, slots: seq<Slot>): VState {
    var ft := FuncType([], []);
    var ctrl := seq(k + 1, i requires 0 <= i <= k => Frame(if i == 0 then FuncK else BlockK, ft, 0, dead && i == k, 0));
    VState(ctrl, [], slots, 0)
  }

  lemma NestBlock(c: Ctx, k: nat)
    requires c.m == NestModule() && c.f == c.m.funcs[0] && k < 128
    ensures Walk(c, 2 * k, NestState(k, false, [])) == Walk(c, 2 * k + 2, NestState(k + 1, false, []))
  {
    hide Decode, Walk, NestCode, Guarded, Guard;
    ReadsBlock(c.m, NestCode(), 2 * k);
    var v, w, ft := NestState(k, false, []), NestState(k + 1, false, []), FuncType([], []);
    assert PopTypes(v, []) == Some((v, []));
    assert w.ctrl == v.ctrl + [Frame(BlockK, ft, 0, false, 0)];
    WalkOn(c, 2 * k, v, BlockOp(ft), 2, w);
  }

  lemma {:induction false} NestIn(c: Ctx, k: nat)
    requires c.m == NestModule() && c.f == c.m.funcs[0] && k <= 128
    ensures Walk(c, 0, NestState(0, false, [])) == Walk(c, 2 * k, NestState(k, false, []))
  {
    hide Walk, NestCode, NestState;
    if k > 0 {
      NestIn(c, k - 1);
      NestBlock(c, k - 1);
    }
  }

  lemma NestJump(c: Ctx, w: VState)
    requires w == NestState(128, true, [NEST_SLOT])
    ensures Step(c, NestState(128, false, []), Br(128), 256, 2) == Some(w)
  {
    var v := NestState(128, false, []);
    var v1 := v.(slots := [NEST_SLOT]);
    assert AddSlot(v, BranchSlot(v, 257, 0)) == v1;
    assert PopTypes(v1, []) == Some((v1, []));
    assert v1.ctrl[128 := v1.ctrl[128].(dead := true)] == w.ctrl;
    assert v1.vals[..0] == [];
  }

  lemma NestUnreachable(c: Ctx, k: nat, dead: bool, pos: nat)
    ensures Step(c, NestState(k, dead, [NEST_SLOT]), Unreachable, pos, 1) == Some(NestState(k, true, [NEST_SLOT]))
  {
    var v, w := NestState(k, dead, [NEST_SLOT]), NestState(k, true, [NEST_SLOT]);
    assert v.ctrl[k := v.ctrl[k].(dead := true)] == w.ctrl;
    assert v.vals[..0] == [];
  }

  lemma NestClose(c: Ctx, k: nat, dead: bool, pos: nat)
    requires k > 0
    ensures Step(c, NestState(k, dead, [NEST_SLOT]), EndOp, pos, 1) == Some(NestState(k - 1, false, [NEST_SLOT]))
  {
    hide ResolveAll, Step;
    var v, w := NestState(k, dead, [NEST_SLOT]), NestState(k - 1, false, [NEST_SLOT]);
    ResolveOne(NEST_SLOT, k, EndTarget(Top(v), pos + 1));
    assert v.ctrl[..k] == w.ctrl;
    EndStep(c, v, pos, w);
  }

  lemma {:induction false} NestOut(c: Ctx, k: nat)
    requires c.m == NestModule() && c.f == c.m.funcs[0] && k <= 126
    ensures Walk(c, 388 - k, NestState(k, false, [NEST_SLOT])) == Walk(c, 388, NestState(0, false, [NEST_SLOT]))
  {
    hide Walk, NestCode, NestState, Decode, Step, Guarded, Guard;
    if k > 0 {
      Reads(c.m, NestCode(), 388 - k);
      NestClose(c, k, false, 388 - k);
      WalkOn(c, 388 - k, NestState(k, false, [NEST_SLOT]), EndOp, 1, NestState(k - 1, false, [NEST_SLOT]));
      NestOut(c, k - 1);
    }
  }

  lemma NestMiddle(c: Ctx)
    requires c.m == NestModule() && c.f == c.m.funcs[0]
    ensures Walk(c, 256, NestState(128, false, [])) == Walk(c, 388, NestState(0, false, [NEST_SLOT]))
  {
    hide Walk, NestCode, NestState, Decode, Step, Guarded, Guard;
    var code, slots := NestCode(), [NEST_SLOT];
    Reads(c.m, code, 256);
    NestJump(c, NestState(128, true, slots));
    WalkOn(c, 256, NestState(128, false, []), Br(128), 2, NestState(128, true, slots));
    Reads(c.m, code, 258);
    NestUnreachable(c, 128, true, 258);
    WalkOn(c, 258, NestState(128, true, slots), Unreachable, 1, NestState(128, true, slots));
    Reads(c.m, code, 259);
    NestClose(c, 128, true, 259);
    WalkOn(c, 259, NestState(128, true, slots), EndOp, 1, NestState(127, false, slots));
    Reads(c.m, code, 260);
    NestUnreachable(c, 127, false, 260);
    WalkOn(c, 260, NestState(127, false, slots), Unreachable, 1, NestState(127, true, slots));
    Reads(c.m, code, 261);
    NestClose(c, 127, true, 261);
    WalkOn(c, 261, NestState(127, true, slots), EndOp, 1, NestState(126, false, slots));
    NestOut(c, 126);
  }

  // The label is 0, the innermost block, behind which is an unreachable at 260. Every validator accepts
  // the function, and its table sends the branch to the function's last end at 388 instead.
  lemma LongLabelMisread(c: Ctx)
    requires c.m == NestModule() && c.f == c.m.funcs[0]
    ensures Index(NestCode(), 257) == Some(Num(0, 2))
    ensures Validate(c) == Some(VState([], [], [NEST_SLOT.(target := At(388))], 0))
    ensures OpAt(c.m, NestCode(), 259, EndOp, 1) && OpAt(c.m, NestCode(), 260, Unreachable, 1)
  {
    hide Walk, NestCode, Decode, Step, Guarded, Guard, ResolveAll;
    var code, v := NestCode(), NestState(0, false, [NEST_SLOT]);
    assert Begin(c) == NestState(0, false, []);
    LongLabel(code, 256);
    NestIn(c, 128);
    NestMiddle(c);
    Reads(c.m, code, 259);
    Reads(c.m, code, 260);
    Reads(c.m, code, 388);
    ResolveOne(NEST_SLOT, 0, 388);
    var w := VState([], [], [NEST_SLOT.(target := At(388))], 0);
    EndStep(c, v, 388, w);
    WalkEnd(c, 388, v, w);
  }

  // ----- A branch over many operands -----

  // n times i32.const 0, then br 0, end
  function DeepCode(n: nat): (r: seq<byte>)
    ensures |r| == 2 * n + 3 && r[2 * n] == 0x0c && r[2 * n + 1] == 0x00 && r[2 * n + 2] == 0x0b
    ensures forall k :: 0 <= k < n ==> r[2 * k] == 0x41 && r[2 * k + 1] == 0x00
  {
    seq(2 * n + 3, i requires 0 <= i < 2 * n + 3 =>
      if i < 2 * n then if i % 2 == 0 then 0x41 else 0x00
      else if i == 2 * n then 0x0c else if i == 2 * n + 1 then 0x00 else 0x0b)
  }

  function DeepModule(n: nat): Module {
    OneFunction(FuncType([], []), DeepCode(n))
  }

  // The validator's operands, and the interpreter's.
  function Ints(k: nat): (r: seq<ValType>)
    ensures |r| == k
  {
    seq(k, _ => I32)
  }

  function Zeros(k: nat): (r: seq<Value>)
    ensures |r| == k
  {
    seq(k, _ => Value(I32, 0))
  }

  function DeepState(k: nat): VState {
    VState([Frame(FuncK, FuncType([], []), 0, false, 0)], Ints(k), [], k)
  }

  lemma DeepReads(n: nat, k: nat)
    requires k < n
    ensures OpAt(DeepModule(n), DeepCode(n), 2 * k, I32Const(0), 2)
  {
    hide DeepCode;
    ReadsConst(DeepModule(n), DeepCode(n), 2 * k);
  }

  lemma DeepConst(c: Ctx, n: nat, k: nat)
    requires c.m == DeepModule(n) && c.f == c.m.funcs[0] && k < n
    ensures Walk(c, 2 * k, DeepState(k)) == Walk(c, 2 * k + 2, DeepState(k + 1))
  {
    hide Decode, Step, Walk, DeepCode, Guarded, Guard;
    DeepReads(n, k);
    assert Ints(k + 1) == Ints(k) + [I32];
    ConstStep(c, DeepState(k), 0, 2 * k, DeepState(k + 1));
    WalkOn(c, 2 * k, DeepState(k), I32Const(0), 2, DeepState(k + 1));
  }

  lemma {:induction false} DeepWalk(c: Ctx, n: nat, k: nat)
    requires c.m == DeepModule(n) && c.f == c.m.funcs[0] && k <= n
    ensures Walk(c, 0, DeepState(0)) == Walk(c, 2 * k, DeepState(k))
  {
    hide Walk, DeepCode, DeepState;
    if k > 0 {
      DeepWalk(c, n, k - 1);
      DeepConst(c, n, k - 1);
    }
  }

  lemma DeepJump(c: Ctx, n: nat, w: VState)
    requires n < 0x1_0000_0000
    requires w == VState([DeepState(n).ctrl[0].(dead := true)], [], [Slot(2 * n + 1, n, 0, ToEnd(0))], n)
    ensures Step(c, DeepState(n), Br(0), 2 * n, 2) == Some(w)
  {
    var v := DeepState(n);
    var v1 := v.(slots := w.slots);
    assert AddSlot(v, BranchSlot(v, 2 * n + 1, 0)) == v1;
    assert PopTypes(v1, []) == Some((v1, []));
    assert v1.ctrl[0 := v1.ctrl[0].(dead := true)] == w.ctrl;
    assert v1.vals[..0] == [];
  }

  // Every validator accepts it, whatever it checks. The branch is to move nothing down by n cells.
  lemma DeepAccepted(c: Ctx, n: nat)
    requires c.m == DeepModule(n) && c.f == c.m.funcs[0] && n < 0x1_0000_0000
    ensures Validate(c) == Some(VState([], [], [Slot(2 * n + 1, n, 0, At(2 * n + 2))], n))
  {
    hide Decode, Step, Walk, DeepCode, ResolveAll, Guarded, Guard;
    var w := VState([DeepState(n).ctrl[0].(dead := true)], [], [Slot(2 * n + 1, n, 0, ToEnd(0))], n);
    var end := VState([], [], [Slot(2 * n + 1, n, 0, At(2 * n + 2))], n);
    assert Begin(c) == DeepState(0);
    DeepWalk(c, n, n);
    Reads(c.m, DeepCode(n), 2 * n);
    DeepJump(c, n, w);
    WalkOn(c, 2 * n, DeepState(n), Br(0), 2, w);
    Reads(c.m, DeepCode(n), 2 * n + 2);
    ResolveOne(w.slots[0], 0, 2 * n + 2);
    EndStep(c, w, 2 * n + 2, end);
    WalkEnd(c, 2 * n + 2, w, end);
  }

  function DeepProgram(n: nat): Program
    requires n < 0x1_0000_0000
  {
    Program(DeepModule(n), [PreparedOf(VState([], [], [Slot(2 * n + 1, n, 0, At(2 * n + 2))], n))])
  }

  lemma DeepPush(n: nat, k: nat, fuel: nat)
    requires k < n < 0x1_0000_0000 && fuel > 0
    ensures var q, s := DeepProgram(n), State(Zeros(k), [], Store([], [], []));
            FlatRun(q, 0, Pc(2 * k, 0), s, Usage(1, n), fuel) ==
            FlatRun(q, 0, Pc(2 * k + 2, 0), s.(stack := Zeros(k + 1)), Usage(1, n), fuel - 1)
  {
    hide Decode, SimpleAct, FlatRun, DeepCode, PreparedOf;
    var q, s := DeepProgram(n), State(Zeros(k), [], Store([], [], []));
    DeepReads(n, k);
    ConstAct(q.m, I32Const(0), s, Pc(2 * k + 2, 0));
    assert Zeros(k) + [Int32(0)] == Zeros(k + 1);
    FlatOn(q, Pc(2 * k, 0), s, Usage(1, n), fuel, Pc(2 * k + 2, 0), s.(stack := Zeros(k + 1)));
  }

  lemma {:induction false} DeepRun(n: nat, k: nat, fuel: nat)
    requires k <= n < 0x1_0000_0000 && fuel >= k
    ensures var q, store := DeepProgram(n), Store([], [], []);
            FlatRun(q, 0, Pc(0, 0), State([], [], store), Usage(1, n), fuel) ==
            FlatRun(q, 0, Pc(2 * k, 0), State(Zeros(k), [], store), Usage(1, n), fuel - k)
  {
    hide FlatRun, DeepProgram;
    if k > 0 {
      DeepRun(n, k - 1, fuel);
      DeepPush(n, k - 1, fuel - k + 1);
    } else {
      assert Zeros(0) == [];
    }
  }

  // The source asserts that a taken branch drops fewer than 32767 cells. Every accepted function that
  // pushes n cells first comes to a branch that drops n.
  lemma DeepBranch(n: nat, fuel: nat)
    requires n < 0x1_0000_0000 && fuel >= n
    ensures var m, q, store := DeepModule(n), DeepProgram(n), Store([], [], []);
            && Compile(m, m.funcs[0]) == Some(q.prepared[0])
            && FlatCall(q, 0, [], store, Usage(0, 0), fuel)
            == FlatRun(q, 0, Pc(2 * n, 0), State(Zeros(n), [], store), Usage(1, n), fuel - n)
            && OpAt(m, m.funcs[0].code, 2 * n, Br(0), 2)
            && q.prepared[0].jt[0].pc == 2 * n + 1 && q.prepared[0].jt[0].offset == n
  {
    hide Decode, FlatRun, FlatCall, DeepCode, Validate;
    var q := DeepProgram(n);
    DeepAccepted(CtxOf(q.m), n);
    FirstCall(q, fuel);
    DeepRun(n, n, fuel);
    Reads(q.m, DeepCode(n), 2 * n);
  }

  // And a branch drops no more than the operands there are: below 32767 cells the assertion holds.
  lemma DropsWithin(im: Image, f: Func, at: Pc, s: State, i: Instr, slot: (nat, nat))
    requires Decode(im.m, im.code, at.pc) == Some(i) && Shuffles(i.op) && !FlatStep(im, f, at, s).Undefined?
    requires Slots(i, at.pc, at.idx, Tested(s, FlatTests(i.op))) == Some(slot)
    ensures slot.0 < |im.jt| && im.jt[slot.0].offset <= |s.stack|
  {
    hide Decode, SimpleAct, CallAct;
  }

  // ----- memory.size without a memory -----

  // memory.size, drop, end
  const SIZE_CODE: seq<byte> := [0x3f, 0x00, 0x1a, 0x0b]

  function SizeModule(): Module {
    OneFunction(FuncType([], []), SIZE_CODE)
  }

  lemma SizeReads()
    ensures var m := SizeModule();
            && |SIZE_CODE| == 4 && m.funcs[0].code == SIZE_CODE && OpAt(m, SIZE_CODE, 0, MemorySize, 2)
            && OpAt(m, SIZE_CODE, 2, Drop, 1) && OpAt(m, SIZE_CODE, 3, EndOp, 1)
  {
    hide Decode;
    ReadsSize();
    Reads(SizeModule(), SIZE_CODE, 2);
    Reads(SizeModule(), SIZE_CODE, 3);
  }

  lemma ReadsSize()
    ensures Decode(SizeModule(), SIZE_CODE, 0) == Some(Instr(MemorySize, 2))
  {
    Pow2Values();
    assert Unsigned(SIZE_CODE, 1, 7) == Some(Num(0, 1));
  }

  // Accepted, and not even its first instruction is defined. Only the check for a memory is missing.
  lemma NoMemory(fuel: nat)
    requires fuel >= 1
    ensures var m := SizeModule();
            var c := Compile(m, m.funcs[0]);
            && c.Some? && FlatCall(Program(m, [c.value]), 0, [], Store([], [], []), Usage(0, 0), fuel) == Broken
            && Validate(Ctx(m, m.funcs[0], true, false)).None?
  {
    hide Decode, Validate, FlatRun, FlatStep, FlatCall, PreparedOf, SIZE_CODE;
    var m := SizeModule();
    SizeReads();
    SizeAccepted();
    SizeRefused();
    var q := Program(m, [Compile(m, m.funcs[0]).value]);
    FirstCall(q, fuel);
    var s := State([], [], Store([], [], []));
    EmptySize(ImageOf(q, 0), q.m.funcs[0], s);
    FlatStuck(q, Pc(0, 0), s, Usage(1, q.prepared[0].peak), fuel);
  }

  lemma SizeAccepted()
    ensures Validate(CtxOf(SizeModule())).Some?
  {
    hide Decode, Step, Walk, Guard, Guarded, SIZE_CODE;
    var m := SizeModule();
    var c := CtxOf(m);
    SizeReads();
    var fr := Frame(FuncK, FuncType([], []), 0, false, 0);
    var v1, v2 := VState([fr], [I32], [], 1), VState([fr], [], [], 1);
    SizeStep(c, Begin(c), v1);
    WalkOn(c, 0, Begin(c), MemorySize, 2, v1);
    DropStep(c, v1, 2, v2);
    WalkOn(c, 2, v1, Drop, 1, v2);
    EndStep(c, v2, 3, v2.(ctrl := []));
    WalkEnd(c, 3, v2, v2.(ctrl := []));
  }

  lemma SizeRefused()
    ensures Validate(StrictOf(CtxOf(SizeModule()))).None?
  {
    hide Decode, Step, Walk, Guard, Guarded, SIZE_CODE;
    var c := StrictOf(CtxOf(SizeModule()));
    SizeReads();
    NoSignature(c, Begin(c), MemorySize, 0, 2);
    WalkStops(c, 0, Begin(c), MemorySize, 2);
  }

  lemma SizeStep(c: Ctx, v: VState, w: VState)
    requires !c.strict && w == v.(vals := v.vals + [I32], peak := Max(v.peak, |v.vals| + 1))
    ensures Step(c, v, MemorySize, 0, 2) == Some(w)
  {
    assert [I32][1..] == [];
  }

  lemma EmptySize(im: Image, f: Func, s: State)
    requires OpAt(im.m, im.code, 0, MemorySize, 2) && im.m.memMax.None?
    ensures FlatStep(im, f, Pc(0, 0), s).Undefined?
  {
    hide Decode, SimpleAct;
    SizeAct(im.m, s, Pc(2, 0));
  }

  // ----- Checks that execution does not rely on -----

  // i32.const 0, i32.load with alignment 2^3, drop, end
  const ALIGN_CODE: seq<byte> := [0x41, 0x00, 0x28, 0x03, 0x00, 0x1a, 0x0b]

  function AlignModule(): Module {
    Module([], [Func(FuncType([], []), [], ALIGN_CODE)], [], Some(1))
  }

  function WideLoad(): Op {
    Load(Access(I32, 4, false), 3, 0)
  }

  lemma AlignReads()
    ensures var m := AlignModule();
            && |ALIGN_CODE| == 7 && OpAt(m, ALIGN_CODE, 0, I32Const(0), 2) && OpAt(m, ALIGN_CODE, 2, WideLoad(), 3)
            && OpAt(m, ALIGN_CODE, 5, Drop, 1) && OpAt(m, ALIGN_CODE, 6, EndOp, 1)
  {
    hide Decode;
    ReadsConst(AlignModule(), ALIGN_CODE, 0);
    ReadsLoad();
    Reads(AlignModule(), ALIGN_CODE, 5);
    Reads(AlignModule(), ALIGN_CODE, 6);
  }

  lemma ReadsLoad()
    ensures Decode(AlignModule(), ALIGN_CODE, 2) == Some(Instr(WideLoad(), 3))
  {
    Pow2Values();
    assert Unsigned(ALIGN_CODE, 3, 7) == Some(Num(3, 1));
    assert Unsigned(ALIGN_CODE, 4, 32) == Some(Num(0, 1));
  }

  // An i32.load aligned to eight bytes: every validator but the full one accepts it.
  lemma Overaligned(c: Ctx)
    requires c.m == AlignModule() && c.f == c.m.funcs[0]
    ensures Validate(c).Some? <==> !c.full
  {
    hide Decode, Step, Walk, Guard, Guarded, ALIGN_CODE;
    AlignReads();
    var fr := Frame(FuncK, FuncType([], []), 0, false, 0);
    var v1, v2 := VState([fr], [I32], [], 1), VState([fr], [], [], 1);
    ConstStep(c, Begin(c), 0, 0, v1);
    WalkOn(c, 0, Begin(c), I32Const(0), 2, v1);
    if c.full {
      NoSignature(c, v1, WideLoad(), 2, 3);
      WalkStops(c, 2, v1, WideLoad(), 3);
    } else {
      LoadStep(c, v1);
      WalkOn(c, 2, v1, WideLoad(), 3, v1);
      DropStep(c, v1, 5, v2);
      WalkOn(c, 5, v1, Drop, 1, v2);
      EndStep(c, v2, 6, v2.(ctrl := []));
      WalkEnd(c, 6, v2, v2.(ctrl := []));
    }
  }

  lemma LoadStep(c: Ctx, v: VState)
    requires !c.full && c.m.memMax.Some? && |v.ctrl| == 1 && Top(v).height == 0 && v.vals == [I32] && v.peak == 1
    ensures Step(c, v, WideLoad(), 2, 3) == Some(v)
  {
    var v0 := v.(vals := []);
    assert PopExpect(v, I32) == Some((v0, I32));
    assert PopTypes(v0, []) == Some((v0, []));
    assert [I32][..0] == [] && [I32][1..] == [];
    assert PopVals(v, [I32]) == Some(v0);
    assert PushVals(v0, [I32]) == v;
  }

  // i32.const 0, global.set 0, end
  const SET_CODE: seq<byte> := [0x41, 0x00, 0x24, 0x00, 0x0b]

  function SetModule(): Module {
    Module([], [Func(FuncType([], []), [], SET_CODE)], [GlobalType(I32, false)], None)
  }

  lemma SetReads()
    ensures var m := SetModule();
            && |SET_CODE| == 5 && OpAt(m, SET_CODE, 0, I32Const(0), 2) && OpAt(m, SET_CODE, 2, GlobalSet(0), 2)
            && OpAt(m, SET_CODE, 4, EndOp, 1)
  {
    hide Decode;
    ReadsConst(SetModule(), SET_CODE, 0);
    ReadsSet();
    Reads(SetModule(), SET_CODE, 4);
  }

  lemma ReadsSet()
    ensures Decode(SetModule(), SET_CODE, 2) == Some(Instr(GlobalSet(0), 2))
  {
    Pow2Values();
    assert Unsigned(SET_CODE, 3, 32) == Some(Num(0, 1));
  }

  // A write to an immutable global: likewise.
  lemma ConstantWritten(c: Ctx)
    requires c.m == SetModule() && c.f == c.m.funcs[0]
    ensures Validate(c).Some? <==> !c.full
  {
    hide Decode, Step, Walk, Guard, Guarded, SET_CODE;
    SetReads();
    var fr := Frame(FuncK, FuncType([], []), 0, false, 0);
    var v1, v2 := VState([fr], [I32], [], 1), VState([fr], [], [], 1);
    ConstStep(c, Begin(c), 0, 0, v1);
    WalkOn(c, 0, Begin(c), I32Const(0), 2, v1);
    if c.full {
      NoSignature(c, v1, GlobalSet(0), 2, 2);
      WalkStops(c, 2, v1, GlobalSet(0), 2);
    } else {
      SetStep(c, v1, v2);
      WalkOn(c, 2, v1, GlobalSet(0), 2, v2);
      EndStep(c, v2, 4, v2.(ctrl := []));
      WalkEnd(c, 4, v2, v2.(ctrl := []));
    }
  }

  lemma SetStep(c: Ctx, v: VState, w: VState)
    requires !c.full && c.m.globals == [GlobalType(I32, false)] && |v.ctrl| == 1 && Top(v).height == 0
    requires v.vals == [I32] && w == v.(vals := [])
    ensures Step(c, v, GlobalSet(0), 2, 2) == Some(w)
  {
    assert PopExpect(v, I32) == Some((w, I32));
    assert PopTypes(w, []) == Some((w, []));
    assert [I32][..0] == [];
    assert PopVals(v, [I32]) == Some(w);
  }

  // A call without arguments of a function without locals.
  lemma FirstCall(q: Program, fuel: nat)
    requires |q.m.funcs| == |q.prepared| == 1 && q.m.funcs[0].localTypes == []
    ensures FlatCall(q, 0, [], Store([], [], []), Usage(0, 0), fuel)
         == FlatRun(q, 0, Pc(0, 0), State([], [], Store([], [], [])), Usage(1, q.prepared[0].peak), fuel)
  {
    hide FlatRun;
    assert InitLocals(q.m.funcs[0], []) == [];
  }

  // ----- Single steps -----

  lemma ConstFlat(im: Image, f: Func, at: Pc, s: State, n: nat)
    requires OpAt(im.m, im.code, at.pc, I32Const(n), 2) && s.stack == []
    ensures FlatStep(im, f, at, s) == Next(Pc(at.pc + 2, at.idx), s.(stack := [Int32(n)]))
  {
    hide Decode, SimpleAct, Int32, Int64;
    ConstAct(im.m, I32Const(n), s, Pc(at.pc + 2, at.idx));
    assert s.stack + [Int32(n)] == [Int32(n)];
  }

  // A condition that fails.
  lemma SkipFlat(im: Image, f: Func, at: Pc, s: State)
    requires Decode(im.m, im.code, at.pc).Some? && Decode(im.m, im.code, at.pc).value.op.IfOp?
    requires s.stack == [Value(I32, 0)] && at.idx < |im.jt| && im.jt[at.idx].pc == at.pc + 1 && im.jt[at.idx].jump >= 0
    ensures FlatStep(im, f, at, s) == Next(Pc(at.pc + 1 + im.jt[at.idx].jump, im.jt[at.idx].next), s.(stack := []))
  {
    hide SimpleAct, CallAct, Decode, Bump, Shuffle;
    assert U32(s.stack[0]) == 0;
    hide U32;
    assert Drop1(s, 1) == s.(stack := []);
  }

  // The last `end` with fewer operands than results.
  lemma EmptyFinish(im: Image, f: Func, at: Pc, s: State)
    requires OpAt(im.m, im.code, at.pc, EndOp, 1) && at.pc + 1 == |im.code| && |s.stack| < |f.ftype.results|
    ensures FlatStep(im, f, at, s).Undefined?
  {
    hide SimpleAct, CallAct, Decode;
  }

  // An `end` inside the function.
  lemma EndFlat(im: Image, f: Func, at: Pc, s: State)
    requires OpAt(im.m, im.code, at.pc, EndOp, 1) && at.pc + 1 != |im.code|
    ensures FlatStep(im, f, at, s) == Next(Pc(at.pc + 1, at.idx), s)
  {
    hide SimpleAct, CallAct, Decode;
  }

  lemma EmptyDrop(im: Image, f: Func, at: Pc, s: State)
    requires OpAt(im.m, im.code, at.pc, Drop, 1) && s.stack == []
    ensures FlatStep(im, f, at, s).Undefined?
  {
    hide CallAct, Exec, FlatControl, Decode;
  }
}
