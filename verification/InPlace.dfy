/**
 The in-place interpreter's control: a byte position and a table index, no labels. `block`,
 `loop` and `end` do nothing; every jump reads the slot at the index and follows its link.
 */
module InPlace {
  import opened Basics
  import opened Wasm
  import opened Decoder
  import opened JumpTable
  import opened Compiled

  datatype FlatMove =
    | FGo(pc: nat, idx: nat)
    | FLeave
    | FHalt
    | FWrong   // outside the code or the table, or a slot that belongs to another instruction

  // Code with its table. All index arithmetic is 16-bit.
  datatype Image = Image(m: Module, code: seq<byte>, jt: seq<Entry>)

  // Follow the slot at idx; at is the position that slot must belong to.
  function Follow(im: Image, idx: nat, at: nat): FlatMove {
    if idx < |im.jt| && im.jt[idx].pc == at && at + im.jt[idx].jump >= 0
    then FGo(at + im.jt[idx].jump, im.jt[idx].next)
    else FWrong
  }

  function Bump(idx: nat, n: nat): nat {
    (idx + n % 0x1_0000) % 0x1_0000
  }

  function Clamp(i: nat, n: nat): nat
    requires n > 0
  {
    if i < n then i else n - 1
  }

  // The slot that the instruction at pc follows, and where that slot lies, if it follows one.
  function Slots(i: Instr, pc: nat, idx: nat, c: nat): Option<(nat, nat)> {
    match i.op
    case IfOp(_) => if c != 0 then None else Some((idx, pc + 1))
    case ElseOp => Some((idx, pc + 1))
    case Br(_) => Some((idx, pc + 1))
    case BrIf(_) => if c != 0 then Some((idx, pc + 1)) else None
    case BrTable(ls, _) => if ls == [] then None else Some((Bump(idx, Clamp(c, |ls|)), pc + i.len))
    case _ => None
  }

  // One step of control. c is the operand tested.
  function FlatControl(im: Image, pc: nat, idx: nat, c: nat): FlatMove {
    var i := Decode(im.m, im.code, pc);
    if i.None? then FWrong
    else if Slots(i.value, pc, idx, c).Some? then
      Follow(im, Slots(i.value, pc, idx, c).value.0, Slots(i.value, pc, idx, c).value.1)
    else
      var next := pc + i.value.len;
      match i.value.op
      case Unreachable => FHalt
      case Return => FLeave
      case EndOp => if next == |im.code| then FLeave else FGo(next, idx)
      case IfOp(_) | BrIf(_) => FGo(next, Bump(idx, 1))
      case _ => FGo(next, idx)
  }

  // ----- Data -----

  datatype Pc = Pc(pc: nat, idx: nat)

  predicate FlatTests(op: Op) {
    op.IfOp? || op.BrIf? || op.BrTable?
  }

  predicate Shuffles(op: Op) {
    op.Br? || op.BrIf? || op.BrTable?
  }

  // A taken branch moves the top `arity` operands down by `offset`.
  function Shuffle(s: State, e: Entry): Option<State> {
    if e.offset == 0 then Some(s)
    else if |s.stack| < e.offset + e.arity then None
    else Some(s.(stack := s.stack[..|s.stack| - e.offset - e.arity] + TopN(s, e.arity)))
  }

  function FlatStep(im: Image, f: Func, at: Pc, s: State): Act<Pc> {
    var i := Decode(im.m, im.code, at.pc);
    if i.None? then Undefined
    else
      var op := i.value.op;
      var next := Pc(at.pc + i.value.len, at.idx);
      if IsSimple(op) then SimpleAct(im.m, op, s, next)
      else if op.Call? then CallAct(im.m, op.func, s, next)
      else if FlatTests(op) && s.stack == [] then Undefined
      else
        var a, s1 := Tested(s, FlatTests(op)), AfterTest(s, FlatTests(op));
        match FlatControl(im, at.pc, at.idx, a)
        case FLeave => FinishAct(f, s1)
        case FHalt => Fault
        case FWrong => Undefined
        case FGo(pc2, idx2) =>
          var slot := Slots(i.value, at.pc, at.idx, a);
          if Shuffles(op) && slot.Some? && slot.value.0 < |im.jt| then
            var s2 := Shuffle(s1, im.jt[slot.value.0]);
            if s2.None? then Undefined else Next(Pc(pc2, idx2), s2.value)
          else Next(Pc(pc2, idx2), s1)
  }

  // ----- Runs and calls -----

  // A module and what validation has left with each function.
  datatype Program = Program(m: Module, prepared: seq<Prepared>)

  function ImageOf(q: Program, fi: nat): Image
    requires fi < |q.m.funcs| && fi < |q.prepared|
  {
    Image(q.m, q.m.funcs[fi].code, q.prepared[fi].jt)
  }

  // Each step and each call uses one unit of fuel.
  function FlatRun(q: Program, fi: nat, at: Pc, s: State, u: Usage, fuel: nat): Outcome
    requires fi < |q.m.funcs| && fi < |q.prepared|
    decreases fuel, 0
  {
    if fuel == 0 then Running
    else
      match FlatStep(ImageOf(q, fi), q.m.funcs[fi], at, s)
      case Next(at2, s2) => FlatRun(q, fi, at2, s2, u, fuel - 1)
      case Invoke(callee, args, at2, s2) =>
        (match FlatCall(q, callee, args, s2.store, u, fuel - 1)
         case Returned(vals, store) => FlatRun(q, fi, at2, Push(s2, vals).(store := store), u, fuel - 1)
         case other => other)
      case Finish(vals, store) => Returned(vals, store)
      case Fault => Trap
      case Undefined => Broken
  }

  function FlatCall(q: Program, fi: nat, args: seq<Value>, store: Store, u: Usage, fuel: nat): Outcome
    decreases fuel, 1
  {
    if fi >= |q.m.funcs| || fi >= |q.prepared| then Broken
    else if Exceeded(u) then Exhausted
    else
      FlatRun(q, fi, Pc(0, 0), State([], InitLocals(q.m.funcs[fi], args), store), Reserve(u, q.prepared[fi].peak), fuel)
  }
}
