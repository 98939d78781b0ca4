/**
 The correctness theorem: calls of any function of an accepted module, run in place with a
 position, a table index and an operand stack, end as they do in the reference semantics.
 */
module Correctness {
  import opened Basics
  import opened Wasm
  import opened Validation
  import opened Strictness
  import opened JumpTable
  import opened Compiled
  import opened Reference
  import opened InPlace
  import opened Control
  import opened ControlTheorem
  import opened Typing
  import opened Simulation

  function StrictCtx(m: Module, fi: nat): Ctx
    requires fi < |m.funcs|
  {
    Ctx(m, m.funcs[fi], true, false)
  }

  // Function fi is a well-nested body that meets the strict checks, and its table and stack fit their fields.
  ghost predicate FunctionOk(m: Module, fi: nat, b: Body) {
    && fi < |m.funcs| && Accepted(StrictCtx(m, fi), b) && Fits(StrictCtx(m, fi))
    && Validate(StrictCtx(m, fi)).value.peak + CELL_LIMIT < 0x1_0000_0000
  }

  // The compiled form q of the program p.
  ghost predicate Compiles(p: Source, q: Program) {
    && q.m == p.m && ProperModule(p.m) && |p.bodies| == |p.costs| == |q.prepared| == |p.m.funcs|
    && forall i :: 0 <= i < |p.m.funcs| ==> CompilesTo(p, q, i)
  }

  ghost predicate CompilesTo(p: Source, q: Program, i: nat)
    requires q.m == p.m && |p.bodies| == |p.costs| == |q.prepared| == |p.m.funcs| && i < |p.m.funcs|
  {
    FunctionOk(p.m, i, p.bodies[i]) && Compile(p.m, p.m.funcs[i]) == Some(q.prepared[i])
        && p.costs[i] == q.prepared[i].peak
  }

  // Arguments and globals of the declared types.
  ghost predicate CallOk(m: Module, fi: nat, args: seq<Value>, store: Store) {
    fi < |m.funcs| && TypesOf(args) == m.funcs[fi].ftype.params && TypesOf(store.globals) == m.GlobalTypes()
  }

  ghost predicate ResultOk(m: Module, fi: nat, o: Outcome)
    requires fi < |m.funcs|
  {
    match o
    case Returned(vals, store) => TypesOf(vals) == m.funcs[fi].ftype.results
        && TypesOf(store.globals) == m.GlobalTypes()
    case Broken => false
    case _ => true
  }

  lemma Prepares(p: Source, q: Program, fi: nat)
    requires Compiles(p, q) && fi < |p.m.funcs|
    ensures q.m == p.m && |p.bodies| == |p.costs| == |q.prepared| == |p.m.funcs|
    ensures var c := StrictCtx(p.m, fi);
            && Accepted(c, p.bodies[fi]) && Setting(c, q.prepared[fi].jt)
            && q.prepared[fi] == PreparedOf(Validate(c).value)
            && ImageOf(q, fi) == ImageFor(c, q.prepared[fi].jt) && p.costs[fi] == q.prepared[fi].peak
  {
    hide Validate, Linked;
    assert CompilesTo(p, q, fi);
    var c := StrictCtx(p.m, fi);
    StricterRefuses(c, SourceRules(c));
    TableLinked(c, p.bodies[fi]);
  }

  // A call starts both machines on the same operands.
  lemma StartMeets(p: Source, q: Program, fi: nat, args: seq<Value>, store: Store)
    requires Compiles(p, q) && CallOk(p.m, fi, args, store)
    ensures var c := StrictCtx(p.m, fi);
            Meets(c, q.prepared[fi].jt, Cfg(p.bodies[fi], []), Point(0, p.bodies[fi], Begin(c)), [], Pc(0, 0),
                  State([], InitLocals(c.f, args), store))
  {
    hide Validate, Tracks, Setting, Accepted;
    var c := StrictCtx(p.m, fi);
    Prepares(p, q, fi);
    StartTracks(c, p.bodies[fi]);
    BeginShape(c);
    assert TypesOf(InitLocals(c.f, args)) == c.f.Locals();
  }

  lemma {:induction false} CallSame(p: Source, q: Program, fi: nat, args: seq<Value>, store: Store, u: Usage, fuel: nat)
    requires Compiles(p, q) && CallOk(p.m, fi, args, store)
    ensures FlatCall(q, fi, args, store, u, fuel) == RefCall(p, fi, args, store, u, fuel)
    ensures ResultOk(p.m, fi, RefCall(p, fi, args, store, u, fuel))
    decreases fuel, 1
  {
    hide Compiles, Setting, Meets, Begin, InitLocals, Validate, Accepted, PreparedOf, Exceeded, TypesOf;
    Prepares(p, q, fi);
    if !Exceeded(u) {
      StartMeets(p, q, fi, args, store);
      var c := StrictCtx(p.m, fi);
      RunSame(p, q, fi, Cfg(p.bodies[fi], []), Point(0, p.bodies[fi], Begin(c)), [], Pc(0, 0),
              State([], InitLocals(c.f, args), store), Reserve(u, p.costs[fi]), fuel);
    }
  }

  lemma {:induction false} RunSame(p: Source, q: Program, fi: nat, g: Cfg, at: Point, ks: seq<Nest>, pc: Pc, s: State,
        u: Usage, fuel: nat)
    requires Compiles(p, q) && fi < |p.m.funcs|
    requires Meets(StrictCtx(p.m, fi), q.prepared[fi].jt, g, at, ks, pc, s)
    ensures FlatRun(q, fi, pc, s, u, fuel) == RefRun(p, p.m.funcs[fi], g, s, u, fuel)
    ensures ResultOk(p.m, fi, RefRun(p, p.m.funcs[fi], g, s, u, fuel))
    decreases fuel, 0
  {
    hide Compiles, Setting, Meets, RefStep, FlatStep, Awaits, Validate, Accepted, PreparedOf, CallOk, TypesOf;
    if fuel > 0 {
      Prepares(p, q, fi);
      var c, jt := StrictCtx(p.m, fi), q.prepared[fi].jt;
      var at2, ks2 := StepSame(c, jt, g, at, ks, pc, s);
      var a, b := RefStep(c.m, c.f, g, s), FlatStep(ImageFor(c, jt), c.f, pc, s);
      if a.Next? {
        RunSame(p, q, fi, a.at, at2, ks2, b.at, a.s, u, fuel - 1);
      } else if a.Invoke? {
        AwaitsCall(c, jt, a.callee, a.args, a.at, at2, ks2, b.at, a.s);
        CallSame(p, q, a.callee, a.args, a.s.store, u, fuel - 1);
        var o := RefCall(p, a.callee, a.args, a.s.store, u, fuel - 1);
        if o.Returned? {
          Resumes(c, jt, a.callee, a.args, a.at, at2, ks2, b.at, a.s, o.results, o.store);
          RunSame(p, q, fi, a.at, at2, ks2, b.at, Push(a.s, o.results).(store := o.store), u, fuel - 1);
        }
      }
    }
  }

  lemma AwaitsCall(c: Ctx, jt: seq<Entry>, fi: nat, args: seq<Value>, g: Cfg, p: Point, ks: seq<Nest>, at: Pc, s: State)
    requires Awaits(c, jt, fi, args, g, p, ks, at, s)
    ensures CallOk(c.m, fi, args, s.store)
  {
  }
}
