/**
 The reference semantics: section 4.4.8 of the WebAssembly Core Specification as a machine
 over nested bodies with a stack of labels. It knows nothing of bytes, positions or tables.
 */
module Reference {
  import opened Basics
  import opened Wasm

  // A label: what a branch to it continues with (the loop's body again, or what follows the
  // block), how many operands the branch keeps, and the operand height it was entered at.
  datatype Label = Label(again: Option<Body>, after: Body, arity: nat, height: nat)

  datatype Cfg = Cfg(cur: Body, labels: seq<Label>)

  datatype Move =
    | Go(to: Cfg)       // on with the next instruction
    | Leave             // the function returns
    | Halt              // unreachable
    | Wrong             // no such label

  function Enter(g: Cfg, again: Option<Body>, ft: FuncType, body: Body, rest: Body, h: nat): Move {
    var arity := if again.Some? then |ft.params| else |ft.results|;
    var height := if h < |ft.params| then 0 else h - |ft.params|;
    Go(Cfg(body, g.labels + [Label(again, rest, arity, height)]))
  }

  // Label n, counted from the innermost; the function's own body is the outermost.
  function LabelOf(g: Cfg, n: nat): Label
    requires n < |g.labels|
  {
    g.labels[|g.labels| - 1 - n]
  }

  function Jump(g: Cfg, n: nat): Move {
    if n > |g.labels| then Wrong
    else if n == |g.labels| then Go(Cfg(Stop, []))
    else if LabelOf(g, n).again.Some? then Go(Cfg(LabelOf(g, n).again.value, g.labels[..|g.labels| - n]))
    else Go(Cfg(LabelOf(g, n).after, g.labels[..|g.labels| - 1 - n]))
  }

  // The label that br_table picks.
  function Pick(ls: seq<nat>, i: nat): nat
    requires ls != []
  {
    ls[if i < |ls| then i else |ls| - 1]
  }

  // The branch that an instruction takes on the operand it tests, if it takes one.
  function Taken(op: Op, c: nat): Option<nat> {
    match op
    case Br(n) => Some(n)
    case BrIf(n) => if c != 0 then Some(n) else None
    case BrTable(ls, _) => if ls == [] then None else Some(Pick(ls, c))
    case _ => None
  }

  // One step of control. c is the operand tested, h the operand height without it.
  // An `if` whose condition fails and that has no `else` enters and leaves an empty arm at once.
  function Advance(g: Cfg, c: nat, h: nat): Move {
    match g.cur
    case Stop =>
      if g.labels == [] then Leave else Go(Cfg(LabelOf(g, 0).after, g.labels[..|g.labels| - 1]))
    case Plain(op, _, rest) =>
      if op.Return? then Leave
      else if op.Unreachable? then Halt
      else if Taken(op, c).Some? then Jump(g, Taken(op, c).value)
      else Go(g.(cur := rest))
    case Block(ft, body, rest) => Enter(g, None, ft, body, rest, h)
    case Loop(ft, body, rest) => Enter(g, Some(body), ft, body, rest, h)
    case If(ft, thn, rest) => if c != 0 then Enter(g, None, ft, thn, rest, h) else Go(g.(cur := rest))
    case IfElse(ft, thn, els, rest) => Enter(g, None, ft, if c != 0 then thn else els, rest, h)
  }

  // ----- Data -----

  predicate Tests(b: Body) {
    b.If? || b.IfElse? || (b.Plain? && (b.op.BrIf? || b.op.BrTable?))
  }

  // A branch keeps the top operands its label asks for and drops everything else above the label's height.
  function Unwind(s: State, arity: nat, height: nat): Option<State> {
    if |s.stack| < height + arity then None
    else Some(s.(stack := s.stack[..height] + TopN(s, arity)))
  }

  function BranchTo(f: Func, g: Cfg, s: State, n: nat): Option<State> {
    if n > |g.labels| then None
    else if n == |g.labels| then Unwind(s, |f.ftype.results|, 0)
    else Unwind(s, LabelOf(g, n).arity, LabelOf(g, n).height)
  }

  function RefStep(m: Module, f: Func, g: Cfg, s: State): Act<Cfg> {
    if g.cur.Plain? && IsSimple(g.cur.op) then SimpleAct(m, g.cur.op, s, g.(cur := g.cur.rest))
    else if g.cur.Plain? && g.cur.op.Call? then CallAct(m, g.cur.op.func, s, g.(cur := g.cur.rest))
    else if Tests(g.cur) && s.stack == [] then Undefined
    else
      var a, s1 := Tested(s, Tests(g.cur)), AfterTest(s, Tests(g.cur));
      match Advance(g, a, |s1.stack|)
      case Leave => FinishAct(f, s1)
      case Halt => Fault
      case Wrong => Undefined
      case Go(g2) =>
        if g.cur.Plain? && Taken(g.cur.op, a).Some? then
          var s2 := BranchTo(f, g, s1, Taken(g.cur.op, a).value);
          if s2.None? then Undefined else Next(g2, s2.value)
        else Next(g2, s1)
  }

  // A program for the reference machine: the parsed functions, and what a call of each costs
  // against the limits on calls.
  datatype Source = Source(m: Module, bodies: seq<Body>, costs: seq<nat>)

  // Runs and calls. Each step and each call uses one unit of fuel.
  function RefRun(q: Source, f: Func, g: Cfg, s: State, u: Usage, fuel: nat): Outcome
    decreases fuel, 0
  {
    if fuel == 0 then Running
    else
      match RefStep(q.m, f, g, s)
      case Next(g2, s2) => RefRun(q, f, g2, s2, u, fuel - 1)
      case Invoke(callee, args, g2, s2) =>
        (match RefCall(q, callee, args, s2.store, u, fuel - 1)
         case Returned(vals, store) => RefRun(q, f, g2, Push(s2, vals).(store := store), u, fuel - 1)
         case other => other)
      case Finish(vals, store) => Returned(vals, store)
      case Fault => Trap
      case Undefined => Broken
  }

  function RefCall(q: Source, fi: nat, args: seq<Value>, store: Store, u: Usage, fuel: nat): Outcome
    decreases fuel, 1
  {
    if fi >= |q.m.funcs| || fi >= |q.bodies| || fi >= |q.costs| then Broken
    else if Exceeded(u) then Exhausted
    else
      var f := q.m.funcs[fi];
      RefRun(q, f, Cfg(q.bodies[fi], []), State([], InitLocals(f, args), store), Reserve(u, q.costs[fi]), fuel)
  }
}
