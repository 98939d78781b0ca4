/**
 Calls: an activation allocates an operand stack of the validated size, its locals lie in the
 caller's array, and the thread counts frames and cells. Every index stays inside its array, and a
 call ends as the flat machine says, and so as the reference semantics says.
 */
module Calls {
  import opened Basics
  import opened Wasm
  import opened Decoder
  import opened Validation
  import opened JumpTable
  import opened Compiled
  import opened Reference
  import opened InPlace
  import opened Control
  import opened Typing
  import opened Simulation
  import opened Correctness
  import opened Interpreter

  class Thread {
    var frameDepth: nat
    var stackSize: nat
    var trapped: bool
    var results: seq<Value>

    constructor ()
      ensures frameDepth == 0 && stackSize == 0 && !trapped && results == []
    {
      frameDepth, stackSize, trapped, results := 0, 0, false, [];
    }

    ghost function Use(): Usage
      reads this
    {
      Usage(frameDepth, stackSize)
    }
  }

  datatype Status = Ok | Trapped | Exhausted | OutOfFuel

  predicate Reports(o: Outcome, r: Status) {
    match o
    case Returned(_, _) => r.Ok?
    case Trap => r.Trapped?
    case Exhausted => r.Exhausted?
    case Running => r.OutOfFuel?
    case Broken => false
  }

  // Cells that a call needs above its base.
  function Needs(f: Func): nat {
    Max(|f.Locals()|, |f.ftype.results|)
  }

  // The stack of the caller holds everything that its next step touches.
  lemma Room(p: Source, q: Program, fi: nat, at: Point, ks: seq<Nest>, b: Act<Pc>, a: Act<Cfg>)
    requires Compiles(p, q) && fi < |p.m.funcs| && SameStep(StrictCtx(p.m, fi), q.prepared[fi].jt, a, b, at, ks)
    ensures a.Next? ==> |a.s.stack| <= q.prepared[fi].peak
    ensures a.Invoke? ==> a.callee < |p.m.funcs| && |a.s.stack| + Needs(p.m.funcs[a.callee]) <= q.prepared[fi].peak
  {
    hide Tracks, Validate, Here;
    var c, jt := StrictCtx(p.m, fi), q.prepared[fi].jt;
    Prepares(p, q, fi);
    if a.Next? {
      MeetsHere(c, jt, a.at, at, ks, b.at, a.s);
      HereShape(c, jt, at, ks);
    } else if a.Invoke? {
      AwaitsHere(c, jt, a.callee, a.args, a.at, at, ks, b.at, a.s);
      HereShape(c, jt, at, ks);
    }
  }

  lemma MeetsHere(c: Ctx, jt: seq<Entry>, g: Cfg, p: Point, ks: seq<Nest>, at: Pc, s: State)
    requires Meets(c, jt, g, p, ks, at, s)
    ensures Here(c, jt, p, ks) && |s.stack| == |p.v.vals|
  {
    hide Here;
    assert |TypesOf(s.stack)| == |p.v.vals|;
  }

  lemma AwaitsHere(c: Ctx, jt: seq<Entry>, fi: nat, args: seq<Value>, g: Cfg, p: Point, ks: seq<Nest>, at: Pc, s: State)
    requires Awaits(c, jt, fi, args, g, p, ks, at, s)
    ensures fi < |c.m.funcs| && Validate(c).Some?
    ensures Here(c, jt, p, ks) && |s.stack| + |c.m.funcs[fi].ftype.results| == |p.v.vals|
    ensures |s.stack| + |c.m.funcs[fi].Locals()| <= Validate(c).value.peak
  {
    hide Here, Validate;
    assert |TypesOf(s.stack)| == |s.stack|;
  }

  // The call operator, met by a caller's frame: the arguments become the callee's first locals
  // where they lie, and its results take their place.
  method OpCall(ghost p: Source, prepared: seq<Prepared>, t: Thread, frame: Activation, ghost i: Instr,
        ghost a: Act<Pc>, fuel: nat)
    returns (r: Status)
    requires Compiles(p, Program(frame.inst.m, prepared)) && frame.Valid() && frame.inst.m == p.m
    requires Decode(frame.inst.m, frame.f.code, frame.pc) == Some(i) && i.op.Call? && frame.f.code[frame.pc] == 0x10
    requires a == frame.Flat() && a.Invoke? && CallOk(p.m, a.callee, a.args, a.s.store)
    requires a.callee < |p.m.funcs| == |prepared|
    requires |a.s.stack| + Needs(p.m.funcs[a.callee]) <= frame.stack.Length
    modifies frame`pc, frame`sp, frame.stack, frame.inst, t`frameDepth, t`stackSize
    ensures Reports(FlatCall(Program(frame.inst.m, prepared), a.callee, a.args, a.s.store, old(t.Use()), fuel), r)
    ensures t.frameDepth <= Max(old(t.frameDepth), FRAME_LIMIT + 1)
    ensures match FlatCall(Program(frame.inst.m, prepared), a.callee, a.args, a.s.store, old(t.Use()), fuel)
            case Returned(vals, store) =>
              && frame.Valid() && frame.Where() == a.at && frame.St() == Push(a.s, vals).(store := store)
              && t.Use() == old(t.Use())
            case _ => true
    ensures frame.local[..] == old(frame.local[..])
    decreases fuel, 6
  {
    hide Compiles, Decode, CallOk, FlatCall, FlatStep;
    var fi := frame.BeginCall(i);
    var callee := frame.inst.m.funcs[fi];
    ghost var below := frame.stack[..frame.sp];
    r := Call(p, prepared, t, frame.inst, fi, frame.stack, frame.sp, fuel);
    if r.Ok? {
      assert frame.stack[..frame.sp] == below;
      frame.TakeOver(|callee.ftype.results|);
    }
  }

  method Call(ghost p: Source, prepared: seq<Prepared>, t: Thread, inst: Instance, fi: nat, args: array<Value>,
        base: nat, fuel: nat)
    returns (r: Status)
    requires Compiles(p, Program(inst.m, prepared)) && inst.m == p.m && fi < |p.m.funcs| == |prepared|
    requires base + Needs(p.m.funcs[fi]) <= args.Length
    requires CallOk(p.m, fi, args[base..base + |p.m.funcs[fi].ftype.params|], inst.Store())
    modifies args, inst, t`frameDepth, t`stackSize
    ensures args[..base] == old(args[..base])
    ensures t.frameDepth <= Max(old(t.frameDepth), FRAME_LIMIT + 1)
    ensures var o := FlatCall(Program(inst.m, prepared), fi, old(args[base..base + |p.m.funcs[fi].ftype.params|]),
            old(inst.Store()), old(t.Use()), fuel);
            && Reports(o, r)
            && match o
               case Returned(vals, store) =>
                 && |vals| == |p.m.funcs[fi].ftype.results| && args[base..base + |vals|] == vals
                 && inst.Store() == store && t.Use() == old(t.Use())
               case _ => true
    decreases fuel, 5
  {
    hide Compiles, Decode, CallOk, Meets, RefStep, FlatStep, Begin, InitLocals, TypesOf, FlatRun, FlatCall,
      PreparedOf, Validate, Accepted, Setting;
    ghost var q := Program(inst.m, prepared);
    ghost var c := StrictCtx(p.m, fi);
    var f := inst.m.funcs[fi];
    ghost var vals := args[base..base + |f.ftype.params|];
    ghost var u := t.Use();
    ghost var start := FlatCall(q, fi, vals, inst.Store(), u, fuel);
    CallUnfold(q, fi, vals, inst.Store(), u, fuel);
    if t.frameDepth > FRAME_LIMIT { return Status.Exhausted; }
    if t.stackSize > CELL_LIMIT { return Status.Exhausted; }
    t.frameDepth := t.frameDepth + 1;
    t.stackSize := t.stackSize + prepared[fi].peak;
    var frame := Open(inst, f, prepared[fi], args, base);
    Prepares(p, q, fi);
    StartMeets(p, q, fi, vals, inst.Store());
    r := RunFrame(p, prepared, t, frame, fi, Cfg(p.bodies[fi], []), Point(0, p.bodies[fi], Begin(c)), [], fuel);
    if r.Ok? {
      t.frameDepth := t.frameDepth - 1;
      t.stackSize := t.stackSize - prepared[fi].peak;
    }
  }

  // The loop over a function's instructions. Leaving it, the results go where the arguments were.
  method RunFrame(ghost p: Source, prepared: seq<Prepared>, t: Thread, frame: Activation, ghost fi: nat,
              ghost g0: Cfg, ghost at0: Point, ghost ks0: seq<Nest>, fuel: nat)
    returns (r: Status)
    requires Compiles(p, Program(frame.inst.m, prepared)) && frame.inst.m == p.m && fi < |p.m.funcs| == |prepared|
    requires frame.Valid() && frame.f == p.m.funcs[fi] && frame.jt == prepared[fi].jt
    requires frame.stack.Length == prepared[fi].peak
    requires Meets(StrictCtx(p.m, fi), frame.jt, g0, at0, ks0, frame.Where(), frame.St())
    requires frame.base + Needs(frame.f) <= frame.local.Length
    modifies frame`pc, frame`idx, frame`sp, frame.stack, frame.local, frame.inst, t`frameDepth, t`stackSize
    ensures frame.local[..frame.base] == old(frame.local[..frame.base])
    ensures t.frameDepth <= Max(old(t.frameDepth), FRAME_LIMIT + 1)
    ensures var o := FlatRun(Program(frame.inst.m, prepared), fi, old(frame.Where()), old(frame.St()), old(t.Use()),
            fuel);
            && Reports(o, r)
            && (o.Returned? ==>
                  && |o.results| == |frame.f.ftype.results|
                  && frame.local[frame.base..frame.base + |o.results|] == o.results
                  && frame.inst.Store() == o.store && t.Use() == old(t.Use()))
    decreases fuel, 4
  {
    hide Compiles, Decode, Meets, FlatStep, FlatRun, FlatCall, Validate, PreparedOf, Accepted, Setting, Tracks;
    ghost var q := Program(frame.inst.m, prepared);
    ghost var o := FlatRun(q, fi, frame.Where(), frame.St(), t.Use(), fuel);
    ghost var g, at, ks := g0, at0, ks0;
    ghost var low, u := frame.local[..frame.base], t.Use();
    var left: nat := fuel;
    var turn := GoesOn;
    while left > 0 && turn.GoesOn?
      invariant left <= fuel && frame.local[..frame.base] == low && t.frameDepth <= Max(u.depth, FRAME_LIMIT + 1)
      invariant Turns(p, q, t, frame, fi, turn, o, u, left, g, at, ks)
      decreases left
    {
      left := left - 1;
      turn, g, at, ks := Turn(p, prepared, t, frame, fi, g, at, ks, left);
    }
    if turn.GoesOn? {
      NoFuel(q, fi, frame.Where(), frame.St(), t.Use());
      return OutOfFuel;
    }
    if turn.Stopped? { return turn.status; }
    CopyResults(frame, |frame.f.ftype.results|);
    return Ok;
  }

  // A frame for a call: the other locals zeroed after the arguments, and an operand stack of the validated size.
  method Open(inst: Instance, f: Func, prepared: Prepared, args: array<Value>, base: nat) returns (frame: Activation)
    requires base + |f.Locals()| <= args.Length
    modifies args
    ensures fresh(frame) && fresh(frame.stack) && frame.stack.Length == prepared.peak
    ensures frame.inst == inst && frame.f == f && frame.jt == prepared.jt && frame.local == args && frame.base == base
    ensures frame.Valid() && frame.Where() == Pc(0, 0)
    ensures frame.St() == State([], InitLocals(f, old(args[base..base + |f.ftype.params|])), inst.Store())
    ensures args[..base] == old(args[..base])
    ensures args[base..base + |f.ftype.params|] == old(args[base..base + |f.ftype.params|])
    ensures forall k :: 0 <= k < |f.localTypes| ==> args[base + |f.ftype.params| + k] == Value(f.localTypes[k], 0)
  {
    hide InitLocals;
    ZeroLocals(f, args, base);
    var stack := new Value[prepared.peak](_ => Value(I32, 0));
    frame := new Activation(inst, f, prepared.jt, args, base, stack);
  }

  datatype Turned = GoesOn | Leaves | Stopped(status: Status)

  // One turn of the loop.
  method Turn(ghost p: Source, prepared: seq<Prepared>, t: Thread, frame: Activation, ghost fi: nat,
              ghost g: Cfg, ghost at: Point, ghost ks: seq<Nest>, left: nat)
    returns (r: Turned, ghost g2: Cfg, ghost at2: Point, ghost ks2: seq<Nest>)
    requires Compiles(p, Program(frame.inst.m, prepared)) && frame.inst.m == p.m && fi < |p.m.funcs| == |prepared|
    requires frame.Valid() && frame.f == p.m.funcs[fi] && frame.jt == prepared[fi].jt
    requires frame.stack.Length == prepared[fi].peak
    requires Meets(StrictCtx(p.m, fi), frame.jt, g, at, ks, frame.Where(), frame.St())
    modifies frame`pc, frame`idx, frame`sp, frame.stack, frame.local, frame.inst, t`frameDepth, t`stackSize
    ensures frame.local[..frame.base] == old(frame.local[..frame.base])
    ensures t.frameDepth <= Max(old(t.frameDepth), FRAME_LIMIT + 1)
    ensures var o := FlatRun(Program(frame.inst.m, prepared), fi, old(frame.Where()), old(frame.St()), old(t.Use()),
            left + 1);
            Turns(p, Program(frame.inst.m, prepared), t, frame, fi, r, o, old(t.Use()), left, g2, at2, ks2)
    decreases left, 8
  {
    hide Compiles, Decode, CallOk, Meets, RefStep, FlatStep, FlatRun, Awaits, Validate, PreparedOf, Accepted, Setting;
    ghost var q := Program(frame.inst.m, prepared);
    ghost var c, s, pc0 := StrictCtx(p.m, fi), frame.St(), frame.Where();
    Prepares(p, q, fi);
    ghost var a := RefStep(c.m, c.f, g, s);
    at2, ks2 := StepSame(c, frame.jt, g, at, ks, pc0, s);
    Room(p, q, fi, at2, ks2, frame.Flat(), a);
    g2 := if a.Next? || a.Invoke? then a.at else Cfg(Stop, []);
    ghost var i := Decoded(frame.Im(), frame.f, pc0, s);
    ByteOp(frame.inst.m, frame.f.code, frame.pc, i);
    if frame.f.code[frame.pc] == 0x10 {
      r := CallTurn(p, prepared, t, frame, fi, a, at2, ks2, i, left);
    } else {
      r := StepTurn(p, prepared, t, frame, fi, a, at2, ks2, left);
    }
  }

  // What a turn has done: `o` is how the run ends.
  ghost predicate Turns(p: Source, q: Program, t: Thread, frame: Activation, fi: nat, r: Turned, o: Outcome, u: Usage,
        left: nat,
                        g: Cfg, at: Point, ks: seq<Nest>)
    requires frame.inst.m == p.m == q.m && fi < |p.m.funcs| == |q.prepared|
    reads t, frame, frame.stack, frame.local, frame.inst
  {
    match r
    case GoesOn =>
      && frame.Valid() && t.Use() == u && Meets(StrictCtx(p.m, fi), frame.jt, g, at, ks, frame.Where(), frame.St())
      && o == FlatRun(q, fi, frame.Where(), frame.St(), u, left)
    case Leaves =>
      && frame.Valid() && t.Use() == u && |frame.f.ftype.results| <= frame.sp
      && o == Returned(TopN(frame.St(), |frame.f.ftype.results|), frame.inst.Store())
    case Stopped(status) => !status.Ok? && Reports(o, status)
  }

  method StepTurn(ghost p: Source, prepared: seq<Prepared>, t: Thread, frame: Activation, ghost fi: nat,
                  ghost a: Act<Cfg>, ghost at2: Point, ghost ks2: seq<Nest>, left: nat)
    returns (r: Turned)
    requires frame.inst.m == p.m && fi < |p.m.funcs| == |prepared| && frame.Valid() && frame.f == p.m.funcs[fi]
    requires frame.jt == prepared[fi].jt
    requires frame.Steady() && SameStep(StrictCtx(p.m, fi), frame.jt, a, frame.Flat(), at2, ks2)
    modifies frame`pc, frame`idx, frame`sp, frame.stack, frame.local, frame.inst
    ensures frame.local[..frame.base] == old(frame.local[..frame.base])
    ensures var o := FlatRun(Program(frame.inst.m, prepared), fi, old(frame.Where()), old(frame.St()), old(t.Use()),
            left + 1);
            Turns(p, Program(frame.inst.m, prepared), t, frame, fi, r, o, old(t.Use()), left,
                  if a.Next? || a.Invoke? then a.at else Cfg(Stop, []), at2, ks2)
  {
    hide Meets, FlatStep, FlatRun, Awaits;
    ghost var q := Program(frame.inst.m, prepared);
    RunUnfold(q, fi, frame.Where(), frame.St(), t.Use(), left + 1);
    if frame.Flat().Finish? { FinishTop(frame.Im(), frame.f, frame.Where(), frame.St()); }
    var signal := frame.Step();
    if signal.Faulted? { return Stopped(Status.Trapped); }
    if signal.Left? { return Leaves; }
    return GoesOn;
  }

  method CallTurn(ghost p: Source, prepared: seq<Prepared>, t: Thread, frame: Activation, ghost fi: nat,
                  ghost a: Act<Cfg>, ghost at2: Point, ghost ks2: seq<Nest>, ghost i: Instr, left: nat)
    returns (r: Turned)
    requires Compiles(p, Program(frame.inst.m, prepared)) && frame.inst.m == p.m && fi < |p.m.funcs| == |prepared|
    requires frame.Valid() && frame.f == p.m.funcs[fi] && frame.jt == prepared[fi].jt
    requires Decode(frame.inst.m, frame.f.code, frame.pc) == Some(i) && i.op.Call? && frame.f.code[frame.pc] == 0x10
    requires frame.Flat().Invoke? && SameStep(StrictCtx(p.m, fi), frame.jt, a, frame.Flat(), at2, ks2)
    requires a.callee < |p.m.funcs| && |a.s.stack| + Needs(p.m.funcs[a.callee]) <= frame.stack.Length
    modifies frame`pc, frame`idx, frame`sp, frame.stack, frame.local, frame.inst, t`frameDepth, t`stackSize
    ensures frame.local[..frame.base] == old(frame.local[..frame.base])
    ensures t.frameDepth <= Max(old(t.frameDepth), FRAME_LIMIT + 1)
    ensures var o := FlatRun(Program(frame.inst.m, prepared), fi, old(frame.Where()), old(frame.St()), old(t.Use()),
            left + 1);
            Turns(p, Program(frame.inst.m, prepared), t, frame, fi, r, o, old(t.Use()), left,
                  if a.Next? || a.Invoke? then a.at else Cfg(Stop, []), at2, ks2)
    decreases left, 7
  {
    hide Compiles, Decode, CallOk, Meets, FlatStep, FlatRun, FlatCall, Awaits;
    ghost var q := Program(frame.inst.m, prepared);
    ghost var c, b, u := StrictCtx(p.m, fi), frame.Flat(), t.Use();
    RunUnfold(q, fi, frame.Where(), frame.St(), u, left + 1);
    AwaitsCall(c, frame.jt, a.callee, a.args, a.at, at2, ks2, b.at, a.s);
    CallSame(p, q, a.callee, a.args, a.s.store, u, left);
    var called := OpCall(p, prepared, t, frame, i, b, left);
    if !called.Ok? { return Stopped(called); }
    ghost var o := FlatCall(q, a.callee, a.args, a.s.store, u, left);
    Resumes(c, frame.jt, a.callee, a.args, a.at, at2, ks2, b.at, a.s, o.results, o.store);
    return GoesOn;
  }

  lemma CallUnfold(q: Program, fi: nat, args: seq<Value>, store: Store, u: Usage, fuel: nat)
    requires fi < |q.m.funcs| && fi < |q.prepared|
    ensures FlatCall(q, fi, args, store, u, fuel)
         == if Exceeded(u) then Outcome.Exhausted
            else FlatRun(q, fi, Pc(0, 0), State([], InitLocals(q.m.funcs[fi], args), store),
                Reserve(u, q.prepared[fi].peak), fuel)
  {
    hide FlatRun;
  }

  lemma NoFuel(q: Program, fi: nat, at: Pc, s: State, u: Usage)
    requires fi < |q.m.funcs| && fi < |q.prepared|
    ensures FlatRun(q, fi, at, s, u, 0) == Running
  {
  }

  // A run, by its first step.
  lemma RunUnfold(q: Program, fi: nat, at: Pc, s: State, u: Usage, fuel: nat)
    requires fi < |q.m.funcs| && fi < |q.prepared| && fuel > 0
    ensures var a := FlatStep(ImageOf(q, fi), q.m.funcs[fi], at, s);
            var o := FlatRun(q, fi, at, s, u, fuel);
            && (a.Next? ==> o == FlatRun(q, fi, a.at, a.s, u, fuel - 1))
            && (a.Invoke? ==>
                  var x := FlatCall(q, a.callee, a.args, a.s.store, u, fuel - 1);
                  o == if x.Returned? then FlatRun(q, fi, a.at, Push(a.s, x.results).(store := x.store), u, fuel - 1)
                      else x)
            && (a.Finish? ==> o == Returned(a.results, a.store))
            && (a.Fault? ==> o == Trap)
  {
    hide FlatStep, FlatCall;
  }

  // What a function leaves with is on top of its stack.
  lemma FinishTop(im: Image, f: Func, at: Pc, s: State)
    requires FlatStep(im, f, at, s).Finish?
    ensures |f.ftype.results| <= |s.stack| && FlatStep(im, f, at, s) == Finish(TopN(s, |f.ftype.results|), s.store)
  {
    hide Decode, Exec;
  }

  // The rest of the locals start as zeros; the arguments are where the caller left them.
  method ZeroLocals(f: Func, args: array<Value>, base: nat)
    requires base + |f.Locals()| <= args.Length
    modifies args
    ensures args[..base] == old(args[..base])
    ensures args[base..base + |f.Locals()|] == InitLocals(f, old(args[base..base + |f.ftype.params|]))
    ensures args[base..base + |f.ftype.params|] == old(args[base..base + |f.ftype.params|])
    ensures forall k :: 0 <= k < |f.localTypes| ==> args[base + |f.ftype.params| + k] == Value(f.localTypes[k], 0)
  {
    var n := |f.ftype.params|;
    var k := 0;
    while k < |f.localTypes|
      invariant k <= |f.localTypes|
      invariant forall i :: 0 <= i < args.Length ==>
        args[i] == if base + n <= i < base + n + k then Value(f.localTypes[i - base - n], 0) else old(args[i])
    {
      args[base + n + k] := Value(f.localTypes[k], 0);
      k := k + 1;
    }
  }

  // The locals that a call starts with, cell by cell: the arguments, then zeros of the declared types.
  predicate Starts(f: Func, args: seq<Value>, locals: seq<Value>) {
    && |locals| == |args| + |f.localTypes| && locals[..|args|] == args
    && forall k :: 0 <= k < |f.localTypes| ==> locals[|args| + k] == Value(f.localTypes[k], 0)
  }

  // Every call, in either machine: refused beyond 256 frames or 102400 cells, and otherwise one frame
  // and the function's cells more, an empty operand stack, and those locals.
  lemma CallStarts(p: Source, q: Program, fi: nat, args: seq<Value>, locals: seq<Value>, store: Store, u: Usage,
        fuel: nat)
    requires fi < |p.m.funcs| && fi < |p.bodies| && fi < |p.costs| && Starts(p.m.funcs[fi], args, locals)
    requires q.m == p.m && fi < |q.prepared| && q.prepared[fi].peak == p.costs[fi]
    ensures var f, s, u2 := p.m.funcs[fi], State([], locals, store), Usage(u.depth + 1, u.cells + p.costs[fi]);
            if u.depth > 256 || u.cells > 102400 then
              RefCall(p, fi, args, store, u, fuel) == Outcome.Exhausted == FlatCall(q, fi, args, store, u, fuel)
            else
              && RefCall(p, fi, args, store, u, fuel) == RefRun(p, f, Cfg(p.bodies[fi], []), s, u2, fuel)
              && FlatCall(q, fi, args, store, u, fuel) == FlatRun(q, fi, Pc(0, 0), s, u2, fuel)
  {
    hide RefRun, FlatRun;
    assert InitLocals(p.m.funcs[fi], args) == locals;
  }

  // The results move to where the arguments were.
  method CopyResults(frame: Activation, arity: nat)
    requires frame.Valid() && arity <= frame.sp && frame.base + arity <= frame.local.Length
    modifies frame.local
    ensures frame.local[..frame.base] == old(frame.local[..frame.base])
    ensures frame.local[frame.base..frame.base + arity] == TopN(old(frame.St()), arity)
  {
    var k := 0;
    ghost var top := TopN(frame.St(), arity);
    while k < arity
      invariant k <= arity && frame.stack[..frame.sp] == old(frame.stack[..frame.sp])
      invariant frame.local[..frame.base] == old(frame.local[..frame.base])
      invariant frame.local[frame.base..frame.base + k] == top[..k]
    {
      frame.local[frame.base + k] := frame.stack[frame.sp - arity + k];
      assert frame.stack[frame.sp - arity + k] == frame.stack[..frame.sp][frame.sp - arity + k] == top[k];
      k := k + 1;
    }
  }

  // Where a step is defined, an instruction is.
  lemma Decoded(im: Image, f: Func, at: Pc, s: State) returns (i: Instr)
    requires !FlatStep(im, f, at, s).Undefined?
    ensures Decode(im.m, im.code, at.pc) == Some(i)
    ensures FlatStep(im, f, at, s).Invoke? <==> i.op.Call?
  {
    hide Decode, FlatControl, Exec;
    i := Decode(im.m, im.code, at.pc).value;
  }

  // ----- Calls from outside -----

  datatype Reply = Refused | Answered | Failed

  // Between calls from outside a thread that is not trapped uses no frames and no cells.
  ghost predicate Idle(t: Thread)
    reads t
  {
    !t.trapped ==> t.frameDepth == 0 && t.stackSize == 0
  }

  // A call from outside: refused for a trapped thread or wrong arguments, otherwise it ends as the
  // reference semantics says. Whatever is not a success leaves the thread trapped.
  method CallInThread(ghost p: Source, prepared: seq<Prepared>, t: Thread, inst: Instance, fi: nat, argv: seq<Value>,
        fuel: nat)
    returns (r: Reply)
    requires Compiles(p, Program(inst.m, prepared)) && inst.m == p.m && fi < |p.m.funcs| == |prepared|
    requires Idle(t) && TypesOf(inst.globals) == p.m.GlobalTypes()
    modifies t, inst
    ensures Idle(t)
    ensures r.Refused? <==> old(t.trapped) || TypesOf(argv) != p.m.funcs[fi].ftype.params
    ensures r.Refused? ==> t.Use() == old(t.Use()) && t.trapped == old(t.trapped) && inst.Store() == old(inst.Store())
    ensures !r.Refused? ==>
              var o := RefCall(p, fi, argv, old(inst.Store()), Usage(0, 0), fuel);
              && (r.Answered? <==> o.Returned?) && (t.trapped <==> r.Failed?)
              && (r.Answered? ==>
                    t.results == o.results && inst.Store() == o.store && TypesOf(inst.globals) == p.m.GlobalTypes())
  {
    hide Compiles, RefCall, FlatCall;
    var f := inst.m.funcs[fi];
    if t.trapped { return Refused; }
    if |f.ftype.params| != |argv| {
      assert |TypesOf(argv)| != |f.ftype.params|;
      return Refused;
    }
    var i := 0;
    while i < |argv|
      invariant i <= |argv| && forall k :: 0 <= k < i ==> argv[k].ty == f.ftype.params[k]
    {
      if argv[i].ty != f.ftype.params[i] {
        assert TypesOf(argv)[i] != f.ftype.params[i];
        return Refused;
      }
      i := i + 1;
    }
    assert TypesOf(argv) == f.ftype.params;
    var stack := new Value[Needs(f)](_ => Value(I32, 0));
    i := 0;
    while i < |argv|
      invariant i <= |argv| && stack[..i] == argv[..i]
      modifies stack
    {
      stack[i] := argv[i];
      i := i + 1;
    }
    assert stack[0..|argv|] == argv;
    CallSame(p, Program(inst.m, prepared), fi, argv, inst.Store(), Usage(0, 0), fuel);
    var status := Call(p, prepared, t, inst, fi, stack, 0, fuel);
    if !status.Ok? {
      t.trapped := true;
      return Failed;
    }
    t.results := stack[..|f.ftype.results|];
    return Answered;
  }
}
