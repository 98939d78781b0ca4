/**
 A function with a loop and a branch that meets every hypothesis of the correctness theorem.
 */
module Example {
  import opened Basics
  import opened Leb128
  import opened Wasm
  import opened Decoder
  import opened Validation
  import opened Strictness
  import opened Invariants
  import opened JumpTable
  import opened Compiled
  import opened Reference
  import opened InPlace
  import opened Correctness
  import opened Counterexamples

  // loop, i32.const 0, br_if 0, end, end
  const LOOP_CODE: seq<byte> := [0x03, 0x40, 0x41, 0x00, 0x0d, 0x00, 0x0b, 0x0b]

  function LoopModule(): Module {
    OneFunction(FuncType([], []), LOOP_CODE)
  }

  function LoopBody(): Body {
    Loop(FuncType([], []), Plain(I32Const(0), 2, Plain(BrIf(0), 2, Stop)), Stop)
  }

  lemma LoopReads()
    ensures var m := LoopModule();
            && |LOOP_CODE| == 8 && OpAt(m, LOOP_CODE, 0, LoopOp(FuncType([], [])), 2)
            && OpAt(m, LOOP_CODE, 2, I32Const(0), 2) && OpAt(m, LOOP_CODE, 4, BrIf(0), 2)
            && OpAt(m, LOOP_CODE, 6, EndOp, 1) && OpAt(m, LOOP_CODE, 7, EndOp, 1)
  {
    hide Decode;
    ReadsLoop();
    ReadsConst(LoopModule(), LOOP_CODE, 2);
    RawLabel(LoopModule(), LOOP_CODE, 4);
    Reads(LoopModule(), LOOP_CODE, 6);
    Reads(LoopModule(), LOOP_CODE, 7);
  }

  lemma ReadsLoop()
    ensures Decode(LoopModule(), LOOP_CODE, 0) == Some(Instr(LoopOp(FuncType([], [])), 2))
  {
    Pow2Values();
    assert Signed(LOOP_CODE, 1, 7) == Some(Num(-0x40, 1));
  }

  lemma LoopEncodes()
    ensures Encodes(LoopModule(), LOOP_CODE, LoopBody()) && OneByteLabels(LoopBody())
  {
    hide Decode, LOOP_CODE;
    LoopReads();
    var body := Plain(I32Const(0), 2, Plain(BrIf(0), 2, Stop));
    assert Laid(LoopModule(), LOOP_CODE, 2, body);
  }

  lemma LoopValid(c: Ctx)
    requires c.m == LoopModule() && c.f == c.m.funcs[0]
    ensures Validate(c) == Some(VState([], [], [Slot(5, 0, 0, At(2))], 1))
  {
    hide Decode, Step, Walk, ResolveAll, Guard, Guarded, LOOP_CODE;
    LoopReads();
    var ft := FuncType([], []);
    var fr, inner := Frame(FuncK, ft, 0, false, 0), Frame(LoopK, ft, 0, false, 2);
    var v1 := VState([fr, inner], [], [], 0);
    var v2 := VState([fr, inner], [I32], [], 1);
    var v3 := VState([fr, inner], [], [Slot(5, 0, 0, ToEnd(1))], 1);
    var v4 := VState([fr], [], [Slot(5, 0, 0, At(2))], 1);
    LoopStep(c, Begin(c), v1);
    WalkOn(c, 0, Begin(c), LoopOp(ft), 2, v1);
    ConstStep(c, v1, 0, 2, v2);
    WalkOn(c, 2, v1, I32Const(0), 2, v2);
    BrIfStep(c, v2, v3);
    WalkOn(c, 4, v2, BrIf(0), 2, v3);
    ResolveOne(Slot(5, 0, 0, ToEnd(1)), 1, 2);
    EndStep(c, v3, 6, v4);
    WalkOn(c, 6, v3, EndOp, 1, v4);
    ResolveOne(Slot(5, 0, 0, At(2)), 0, 7);
    EndStep(c, v4, 7, v4.(ctrl := []));
    WalkEnd(c, 7, v4, v4.(ctrl := []));
  }

  lemma LoopStep(c: Ctx, v: VState, w: VState)
    requires v == VState([Frame(FuncK, FuncType([], []), 0, false, 0)], [], [], 0)
    requires w == v.(ctrl := v.ctrl + [Frame(LoopK, FuncType([], []), 0, false, 2)])
    ensures Step(c, v, LoopOp(FuncType([], [])), 0, 2) == Some(w)
  {
    assert PopTypes(v, []) == Some((v, []));
    assert PushVals(w, []) == w;
  }

  lemma BrIfStep(c: Ctx, v: VState, w: VState)
    requires |v.ctrl| == 2 && Top(v) == Frame(LoopK, FuncType([], []), 0, false, 2) && v.vals == [I32] && v.slots == []
    requires w == v.(vals := [], slots := [Slot(5, 0, 0, ToEnd(1))])
    ensures Step(c, v, BrIf(0), 4, 2) == Some(w)
  {
    var v0 := v.(vals := []);
    assert PopExpect(v, I32) == Some((v0, I32));
    assert AddSlot(v0, BranchSlot(v0, 5, 1)) == w;
    assert PopTypes(w, []) == Some((w, []));
    assert PushVals(w, []) == w;
  }

  // The hypotheses of the correctness theorem can be met.
  lemma LoopCompiles()
    ensures var m := LoopModule();
            var q := Compile(m, m.funcs[0]);
            q.Some? && Compiles(Source(m, [LoopBody()], [q.value.peak]), Program(m, [q.value]))
  {
    hide Decode, Validate, Encodes, OneByteLabels, Link, Entries, LOOP_CODE;
    var m := LoopModule();
    LoopEncodes();
    LoopValid(StrictCtx(m, 0));
    LoopValid(SourceRules(StrictCtx(m, 0)));
    var q := Compile(m, m.funcs[0]).value;
    LoopTable();
    assert CompilesTo(Source(m, [LoopBody()], [q.peak]), Program(m, [q]), 0);
  }

  lemma LoopTable()
    ensures |PreparedOf(VState([], [], [Slot(5, 0, 0, At(2))], 1)).jt| == 1
  {
  }

  // ----- A call of a leaf -----

  // call 1, end; and end, with k i32 locals
  const CALLER: seq<byte> := [0x10, 0x01, 0x0b]
  const LEAF: seq<byte> := [0x0b]

  function LeafModule(k: nat): Module {
    var ft := FuncType([], []);
    Module([], [Func(ft, [], CALLER), Func(ft, seq(k, _ => I32), LEAF)], [], None)
  }

  lemma LeafReads(m: Module)
    ensures |CALLER| == 3 && OpAt(m, CALLER, 0, Call(1), 2) && OpAt(m, CALLER, 2, EndOp, 1)
    ensures |LEAF| == 1 && OpAt(m, LEAF, 0, EndOp, 1)
  {
    ReadsCall(m);
    Reads(m, CALLER, 2);
    Reads(m, LEAF, 0);
  }

  lemma ReadsCall(m: Module)
    ensures Decode(m, CALLER, 0) == Some(Instr(Call(1), 2))
  {
    Pow2Values();
    assert Unsigned(CALLER, 1, 32) == Some(Num(1, 1));
  }

  // The caller needs room for the leaf's locals and for nothing else, the leaf for nothing.
  lemma LeafCompiles(k: nat)
    ensures var m := LeafModule(k);
            Compile(m, m.funcs[0]) == Some(Prepared([], k)) && Compile(m, m.funcs[1]) == Some(Prepared([], 0))
  {
    hide Decode, Step, Walk, Guarded, Guard, CALLER, LEAF;
    var m := LeafModule(k);
    var fr := Frame(FuncK, FuncType([], []), 0, false, 0);
    var c, d := Ctx(m, m.funcs[0], false, false), Ctx(m, m.funcs[1], false, false);
    var v, w := VState([fr], [], [], 0), VState([fr], [], [], k);
    LeafReads(m);
    assert Begin(c) == v && Begin(d) == v;
    CallerStep(c, v, k, w);
    WalkOn(c, 0, v, Call(1), 2, w);
    NoSlots(0, 3);
    EndStep(c, w, 2, w.(ctrl := []));
    WalkEnd(c, 2, w, w.(ctrl := []));
    NoSlots(0, 1);
    EndStep(d, v, 0, v.(ctrl := []));
    WalkEnd(d, 0, v, v.(ctrl := []));
    NothingLinked(k);
    NothingLinked(0);
  }

  lemma NothingLinked(k: nat)
    ensures PreparedOf(VState([], [], [], k)) == Prepared([], k)
  {
    assert Entries([]) == [] && Link([]) == [];
  }

  lemma NoSlots(d: nat, pc: nat)
    ensures ResolveAll([], d, pc) == []
  {
  }

  lemma CallerStep(c: Ctx, v: VState, k: nat, w: VState)
    requires c.m == LeafModule(k) && v == VState([Frame(FuncK, FuncType([], []), 0, false, 0)], [], [], 0)
    requires w == v.(peak := k)
    ensures Step(c, v, Call(1), 0, 2) == Some(w)
  {
    assert |c.m.funcs[1].Locals()| == k;
    assert PopTypes(v, []) == Some((v, []));
  }

  // It returns exactly if those locals fit the limit on cells, and is refused otherwise.
  lemma LeafReturns(k: nat, store: Store, fuel: nat)
    requires fuel >= 2
    ensures FlatCall(Program(LeafModule(k), [Prepared([], k), Prepared([], 0)]), 0, [], store, Usage(0, 0), fuel)
         == if k <= 102400 then Returned([], store) else Exhausted
  {
    hide Decode, FlatStep, FlatRun, FlatCall, CALLER, LEAF;
    var q := Program(LeafModule(k), [Prepared([], k), Prepared([], 0)]);
    var s := State([], [], store);
    LeafReads(q.m);
    CallFlat(q, s);
    EndFinish(ImageOf(q, 0), q.m.funcs[0], Pc(2, 0), s);
    FlatOpens(q, 0, [], s, Usage(0, 0), fuel);
    RunInvokes(q, Pc(0, 0), s, Usage(1, k), fuel, 1, [], Pc(2, 0), s);
    if k <= 102400 {
      var locals := InitLocals(q.m.funcs[1], []);
      var s1 := State([], locals, store);
      FlatOpens(q, 1, [], s1, Usage(1, k), fuel - 1);
      EndFinish(ImageOf(q, 1), q.m.funcs[1], Pc(0, 0), s1);
      RunFinishes(q, 1, Pc(0, 0), s1, Usage(2, k), fuel - 1);
      assert Push(s, []) == s;
      RunFinishes(q, 0, Pc(2, 0), s, Usage(1, k), fuel - 1);
    } else {
      TooManyCells(q, 1, [], store, Usage(1, k), fuel - 1);
    }
  }

  lemma CallFlat(q: Program, s: State)
    requires |q.m.funcs| == |q.prepared| == 2 && q.m.funcs[0].code == CALLER && s.stack == []
    requires q.m.funcs[1].ftype == FuncType([], [])
    ensures FlatStep(ImageOf(q, 0), q.m.funcs[0], Pc(0, 0), s) == Invoke(1, [], Pc(2, 0), s)
  {
    hide Decode, SimpleAct, FlatControl;
    LeafReads(q.m);
    assert TopN(s, 0) == [] && Drop1(s, 0) == s;
  }

  lemma EndFinish(im: Image, f: Func, at: Pc, s: State)
    requires OpAt(im.m, im.code, at.pc, EndOp, 1) && at.pc + 1 == |im.code| && f.ftype.results == []
    ensures FlatStep(im, f, at, s) == Finish([], s.store)
  {
    hide Decode, SimpleAct, CallAct;
    assert TopN(s, 0) == [];
  }

  lemma FlatOpens(q: Program, fi: nat, args: seq<Value>, s: State, u: Usage, fuel: nat)
    requires fi < |q.m.funcs| && fi < |q.prepared| && u.depth <= 256 && u.cells <= 102400
    requires s.stack == [] && s.locals == InitLocals(q.m.funcs[fi], args)
    ensures FlatCall(q, fi, args, s.store, u, fuel)
         == FlatRun(q, fi, Pc(0, 0), s, Usage(u.depth + 1, u.cells + q.prepared[fi].peak), fuel)
  {
    hide FlatRun, InitLocals;
  }

  lemma TooManyCells(q: Program, fi: nat, args: seq<Value>, store: Store, u: Usage, fuel: nat)
    requires fi < |q.m.funcs| && fi < |q.prepared| && u.cells > 102400
    ensures FlatCall(q, fi, args, store, u, fuel) == Exhausted
  {
  }

  lemma RunInvokes(q: Program, at: Pc, s: State, u: Usage, fuel: nat, g: nat, args: seq<Value>, at2: Pc, s2: State)
    requires 0 < |q.m.funcs| && 0 < |q.prepared| && fuel > 0
    requires FlatStep(ImageOf(q, 0), q.m.funcs[0], at, s) == Invoke(g, args, at2, s2)
    ensures FlatRun(q, 0, at, s, u, fuel)
         == match FlatCall(q, g, args, s2.store, u, fuel - 1)
            case Returned(vals, store) => FlatRun(q, 0, at2, Push(s2, vals).(store := store), u, fuel - 1)
            case other => other
  {
    hide FlatStep, FlatCall;
  }

  lemma RunFinishes(q: Program, fi: nat, at: Pc, s: State, u: Usage, fuel: nat)
    requires fi < |q.m.funcs| && fi < |q.prepared| && fuel > 0
    requires FlatStep(ImageOf(q, fi), q.m.funcs[fi], at, s) == Finish([], s.store)
    ensures FlatRun(q, fi, at, s, u, fuel) == Returned([], s.store)
  {
    hide FlatStep;
  }
}
