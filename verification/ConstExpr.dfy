/**
 Constant expressions: the parser cuts one out of its section, the evaluator reduces the cut. Both
 meet the same instructions, and what is accepted is a single constant instruction and its `end`.
 */
module ConstExpr {
  import opened Basics
  import opened Leb128
  import opened LittleEndian
  import opened Wasm

  // The largest address, on 64-bit platforms.
  const NULL_REF: nat := 0xffff_ffff_ffff_ffff

  // The instructions whose immediates both sides read: the constants, ref.null, ref.func and global.get.
  predicate HasImmediates(opcode: byte) {
    opcode in {0x41, 0x42, 0x43, 0x44, 0xd0, 0xd2, 0x23}
  }

  // How many bytes of immediates follow the opcode at p, if they are there.
  function Immediates(s: seq<byte>, p: nat): (r: Option<nat>)
    requires p < |s| && HasImmediates(s[p])
    ensures r.Some? ==> p + 1 + r.value <= |s|
  {
    if s[p] == 0x43 || s[p] == 0x44 then
      var n := if s[p] == 0x43 then 4 else 8;
      if p + 1 + n <= |s| then Some(n) else None
    else
      var m :- LebAt(s, p);
      Some(m.len)
  }

  // The LEB128 number after the opcode at p.
  function LebAt(s: seq<byte>, p: nat): (r: Option<Num>)
    requires p < |s| && HasImmediates(s[p]) && s[p] != 0x43 && s[p] != 0x44
    ensures r.Some? ==> p + 1 + r.value.len <= |s| && (s[p] == 0xd2 || s[p] == 0x23 ==> r.value.value >= 0)
  {
    NumbersFit(s, p + 1, 32);
    if s[p] == 0x41 then Signed(s, p + 1, 32)
    else if s[p] == 0x42 then Signed(s, p + 1, 64)
    else if s[p] == 0xd0 then Signed(s, p + 1, 7)
    else Unsigned(s, p + 1, 32)
  }

  // Where the expression at p ends. Opcodes that are not known are stepped over.
  function Extent(s: seq<byte>, p: nat): (r: Option<nat>)
    ensures r.Some? ==> p < r.value <= |s|
    decreases |s| - p
  {
    if p >= |s| then None
    else if s[p] == 0x0b then Some(p + 1)
    else if HasImmediates(s[p]) then
      var n :- Immediates(s, p);
      Extent(s, p + 1 + n)
    else Extent(s, p + 1)
  }

  // What an instance offers to its constant expressions: the cells of references to its functions,
  // and its globals.
  datatype Env = Env(funcs: seq<nat>, globals: seq<Value>)

  // Outside: an address is read past the end of the instance's functions.
  datatype Reduced = Reduced(v: Value) | Rejected | Outside

  // Any of the reference types, the validator's own among them.
  function RefTypeOf(id: int): Option<ValType> {
    if id == -0x10 then Some(FuncRef)
    else if id == -0x11 then Some(ExternRef)
    else if id == -0x15 then Some(AnyRef)
    else if id == -0x39 then Some(Unknown)
    else None
  }

  // What the instruction at p pushes.
  function Constant(env: Env, s: seq<byte>, p: nat): Reduced
    requires p < |s| && HasImmediates(s[p]) && Immediates(s, p).Some?
  {
    match s[p]
    case 0x41 => Reduced(Int32(LebAt(s, p).value.value))
    case 0x42 => Reduced(Int64(LebAt(s, p).value.value))
    case 0x43 => Reduced(Value(F32, ReadAt(s, p + 1, 4)))
    case 0x44 => Reduced(Value(F64, ReadAt(s, p + 1, 8)))
    case 0xd0 =>
      var t := RefTypeOf(LebAt(s, p).value.value);
      if t.None? then Rejected else Reduced(Value(t.value, NULL_REF))
    case 0xd2 =>
      // not compared with anything
      var x: nat := LebAt(s, p).value.value;
      if x < |env.funcs| then Reduced(Value(FuncRef, env.funcs[x])) else Outside
    case _ =>
      var x: nat := LebAt(s, p).value.value;
      if x < |env.globals| then Reduced(env.globals[x]) else Rejected
  }

  function OneValue(stack: seq<Value>): Reduced {
    if |stack| == 1 then Reduced(stack[0]) else Rejected
  }

  // The evaluator. Expressions of passive elements consist of references only.
  function Eval(env: Env, passive: bool, s: seq<byte>, p: nat, stack: seq<Value>): Reduced
    decreases |s| - p
  {
    if p >= |s| then OneValue(stack)
    else if passive && s[p] !in {0xd0, 0xd2, 0x0b} then Rejected
    else if s[p] == 0x0b then OneValue(stack)
    else if !HasImmediates(s[p]) || Immediates(s, p).None? then Rejected
    else
      var c := Constant(env, s, p);
      if c.Reduced? then Eval(env, passive, s, p + 1 + Immediates(s, p).value, stack + [c.v]) else c
  }

  // ----- Reading a slice -----

  lemma {:induction false} UnsignedSlice(s: seq<byte>, a: nat, q: nat, p: nat, n: nat)
    requires a <= p && q <= |s| && a <= q && Unsigned(s, p, n).Some? && p + Unsigned(s, p, n).value.len <= q
    ensures Unsigned(s[a..q], p - a, n) == Unsigned(s, p, n)
    decreases n
  {
    assert s[a..q][p - a] == s[p];
    if s[p] >= 128 {
      UnsignedSlice(s, a, q, p + 1, n - 7);
    }
  }

  lemma {:induction false} SignedSlice(s: seq<byte>, a: nat, q: nat, p: nat, n: nat)
    requires n > 0 && a <= p && q <= |s| && a <= q && Signed(s, p, n).Some? && p + Signed(s, p, n).value.len <= q
    ensures Signed(s[a..q], p - a, n) == Signed(s, p, n)
    decreases n
  {
    assert s[a..q][p - a] == s[p];
    if s[p] >= 128 {
      SignedSlice(s, a, q, p + 1, n - 7);
    }
  }

  // An instruction inside a slice reads as it does in the whole.
  lemma InstructionSlice(env: Env, s: seq<byte>, a: nat, q: nat, p: nat)
    requires a <= p < q <= |s| && HasImmediates(s[p]) && Immediates(s, p).Some? && p + 1 + Immediates(s, p).value <= q
    ensures s[a..q][p - a] == s[p] && Immediates(s[a..q], p - a) == Immediates(s, p)
    ensures Constant(env, s[a..q], p - a) == Constant(env, s, p)
  {
    hide Unsigned, Signed, ReadAt, Int32, Int64;
    if s[p] == 0x43 || s[p] == 0x44 {
      NumberSlice(s, a, q, p + 1, Immediates(s, p).value);
    } else if s[p] == 0x41 || s[p] == 0x42 || s[p] == 0xd0 {
      SignedSlice(s, a, q, p + 1, if s[p] == 0x41 then 32 else if s[p] == 0x42 then 64 else 7);
    } else {
      UnsignedSlice(s, a, q, p + 1, 32);
    }
  }

  lemma NumberSlice(s: seq<byte>, a: nat, q: nat, p: nat, n: nat)
    requires a <= p && p + n <= q <= |s|
    ensures ReadAt(s[a..q], p - a, n) == ReadAt(s, p, n)
  {
    var part, whole := s[a..q][p - a..p - a + n], s[p..p + n];
    forall i | 0 <= i < n ensures part[i] == whole[i] {
      assert part[i] == s[a..q][p - a + i] == s[p + i];
    }
    assert part == whole;
  }

  // ----- Parser and evaluator agree -----

  // Evaluating the cut is evaluating in place: the evaluator meets the instructions that the parser
  // met, needs no byte beyond the cut, and stops at its last byte or before.
  lemma {:induction false} ExtentSame(env: Env, passive: bool, s: seq<byte>, a: nat, p: nat, q: nat, stack: seq<Value>)
    requires a <= p && Extent(s, p) == Some(q)
    ensures Eval(env, passive, s[a..q], p - a, stack) == Eval(env, passive, s, p, stack)
    decreases |s| - p
  {
    hide Immediates, Constant;
    assert s[a..q][p - a] == s[p];
    if s[p] != 0x0b && HasImmediates(s[p]) {
      InstructionSlice(env, s, a, q, p);
      var c := Constant(env, s, p);
      var next := p + 1 + Immediates(s, p).value;
      if c.Reduced? {
        ExtentSame(env, passive, s, a, next, q, stack + [c.v]);
      }
    }
  }

  // Nothing pops, so a value on the stack is the result exactly if the expression ends there.
  lemma {:induction false} NothingPops(env: Env, passive: bool, s: seq<byte>, p: nat, stack: seq<Value>)
    requires stack != [] && p < |s|
    ensures Eval(env, passive, s, p, stack).Reduced? && Extent(s, p).Some? ==>
              |stack| == 1 && s[p] == 0x0b && Eval(env, passive, s, p, stack) == Reduced(stack[0])
    decreases |s| - p
  {
    hide Immediates, Constant;
    if s[p] != 0x0b && HasImmediates(s[p]) && Immediates(s, p).Some? && Constant(env, s, p).Reduced? {
      var next := p + 1 + Immediates(s, p).value;
      if next < |s| {
        NothingPops(env, passive, s, next, stack + [Constant(env, s, p).v]);
      }
    }
  }

  // The instruction at p has n bytes of immediates and pushes v: a constant of one of the four number
  // types, a null reference, a reference to a function there is, or a global's value.
  predicate Pushes(env: Env, s: seq<byte>, p: nat, n: nat, v: Value) {
    && p < |s|
    && if s[p] in {0x41, 0x42, 0xd0} then
         var x := Signed(s, p + 1, if s[p] == 0x41 then 32 else if s[p] == 0x42 then 64 else 7);
         x.Some? && n == x.value.len && Spells(s[p], x.value.value, v)
       else if s[p] in {0x23, 0xd2} then
         var x := Unsigned(s, p + 1, 32);
         && x.Some? && n == x.value.len && x.value.value >= 0
         && if s[p] == 0x23 then x.value.value < |env.globals| && v == env.globals[x.value.value]
            else x.value.value < |env.funcs| && v == Value(FuncRef, env.funcs[x.value.value])
       else if s[p] == 0x43 then p + 5 <= |s| && n == 4 && v == Value(F32, Word(s, p + 1))
       else
         && s[p] == 0x44 && p + 9 <= |s| && n == 8
         && v == Value(F64, Word(s, p + 1) + 0x1_0000_0000 * Word(s, p + 5))
  }

  // The cell of a number's constant, in two's complement, or of a null reference.
  predicate Spells(opcode: byte, x: int, v: Value) {
    if opcode == 0x41 then v.ty == I32 && v.bits == x + if x < 0 then 0x1_0000_0000 else 0
    else if opcode == 0x42 then v.ty == I64 && v.bits == x + if x < 0 then 0x1_0000_0000_0000_0000 else 0
    else
      && (v.ty, x) in {(FuncRef, -0x10), (ExternRef, -0x11), (AnyRef, -0x15), (Unknown, -0x39)}
      && v.bits == 0xffff_ffff_ffff_ffff
  }

  lemma SpellsIs(opcode: byte, x: int, v: Value)
    ensures opcode == 0x41 && -0x8000_0000 <= x < 0x8000_0000 ==> (Spells(opcode, x, v) <==> v == Int32(x))
    ensures opcode == 0x42 && -0x8000_0000_0000_0000 <= x < 0x8000_0000_0000_0000 ==>
              (Spells(opcode, x, v) <==> v == Int64(x))
    ensures opcode == 0xd0 ==>
              (Spells(opcode, x, v) <==> RefTypeOf(x).Some? && v == Value(RefTypeOf(x).value, NULL_REF))
  {
  }

  lemma PushesIs(env: Env, s: seq<byte>, p: nat, n: nat, v: Value)
    ensures Pushes(env, s, p, n, v)
       <==> p < |s| && HasImmediates(s[p]) && Immediates(s, p) == Some(n) && Constant(env, s, p) == Reduced(v)
  {
    hide Unsigned, Signed, ReadAt, Pow2, Spells, Int32, Int64, RefTypeOf;
    Ranges(s, p);
    ReadBytes(s, p + 1);
    ReadBytes(s, p + 5);
    if p < |s| && s[p] in {0x41, 0x42, 0xd0} {
      var x := Signed(s, p + 1, if s[p] == 0x41 then 32 else if s[p] == 0x42 then 64 else 7);
      if x.Some? {
        SpellsIs(s[p], x.value.value, v);
      }
    }
  }

  lemma Ranges(s: seq<byte>, p: nat)
    ensures var x := Signed(s, p + 1, 32); x.Some? ==> -0x8000_0000 <= x.value.value < 0x8000_0000
    ensures var x := Signed(s, p + 1, 64);
            x.Some? ==> -0x8000_0000_0000_0000 <= x.value.value < 0x8000_0000_0000_0000
    ensures var x := Unsigned(s, p + 1, 32); x.Some? ==> x.value.value >= 0
  {
    hide Unsigned, Signed, Pow2;
    NumbersFit(s, p + 1, 32);
    NumbersFit(s, p + 1, 64);
    Pow2Values();
  }

  // One such instruction at p, allowed there; and then `end`.
  predicate Single(env: Env, passive: bool, s: seq<byte>, p: nat, n: nat, v: Value) {
    && Pushes(env, s, p, n, v) && (passive ==> s[p] == 0xd0 || s[p] == 0xd2)
    && p + 1 + n < |s| && s[p + 1 + n] == 0x0b
  }

  // What is cut at p reduces to v exactly if it is a single constant instruction that pushes v, with
  // its `end`; and then the cut ends with that `end`.
  lemma ReducesSingle(env: Env, passive: bool, s: seq<byte>, p: nat, v: Value)
    ensures Extent(s, p).Some? && Eval(env, passive, s[p..Extent(s, p).value], 0, []) == Reduced(v)
            <==> exists n: nat :: Single(env, passive, s, p, n, v)
    ensures forall n: nat :: Single(env, passive, s, p, n, v) ==> Extent(s, p) == Some(p + 1 + n + 1)
  {
    hide Immediates, Constant, Pushes;
    forall n: nat ensures Pushes(env, s, p, n, v)
      <==> p < |s| && HasImmediates(s[p]) && Immediates(s, p) == Some(n) && Constant(env, s, p) == Reduced(v)
    {
      PushesIs(env, s, p, n, v);
    }
    if Extent(s, p).Some? {
      ExtentSame(env, passive, s, p, p, Extent(s, p).value, []);
      if s[p] != 0x0b && HasImmediates(s[p]) && Constant(env, s, p).Reduced? {
        assert [] + [Constant(env, s, p).v] == [Constant(env, s, p).v];
        NothingPops(env, passive, s, p + 1 + Immediates(s, p).value, [Constant(env, s, p).v]);
        var n := Immediates(s, p).value;
        assert Eval(env, passive, s, p, []) == Reduced(v) <==> Single(env, passive, s, p, n, v);
      }
    }
  }

  // nop, end
  const UNKNOWN: seq<byte> := [0x01, 0x0b]

  // The parser cuts what the evaluator does not know: any opcode is stepped over, and refused later.
  lemma UnknownCut(env: Env, passive: bool, s: seq<byte>, p: nat)
    requires p < |s| && s[p] !in {0x0b, 0x23, 0x41, 0x42, 0x43, 0x44, 0xd0, 0xd2}
    ensures Extent(s, p) == Extent(s, p + 1) && Eval(env, passive, s, p, []) == Rejected
    ensures Extent(UNKNOWN, 0) == Some(2) && Eval(env, passive, UNKNOWN, 0, []) == Rejected
  {
    assert Extent(UNKNOWN, 1) == Some(2);
  }

  // ----- Addresses past the end -----

  // The instruction at p is one that the evaluator reads, and none that it refuses.
  predicate IsRead(env: Env, passive: bool, s: seq<byte>, p: nat) {
    && p < |s| && HasImmediates(s[p]) && (passive ==> s[p] == 0xd0 || s[p] == 0xd2) && Immediates(s, p).Some?
    && (s[p] == 0xd0 ==> RefTypeOf(LebAt(s, p).value.value).Some?)
    && (s[p] == 0x23 ==> LebAt(s, p).value.value < |env.globals|)
  }

  // As far as the evaluator reads from p on, every ref.func names a function.
  predicate FuncsInside(env: Env, passive: bool, s: seq<byte>, p: nat)
    decreases |s| - p
  {
    IsRead(env, passive, s, p) ==>
      && (s[p] == 0xd2 ==> LebAt(s, p).value.value < |env.funcs|)
      && FuncsInside(env, passive, s, p + 1 + Immediates(s, p).value)
  }

  // An instruction that is read pushes, but for a ref.func that names no function.
  lemma ReadPushes(env: Env, passive: bool, s: seq<byte>, p: nat)
    requires p < |s| && HasImmediates(s[p]) && Immediates(s, p).Some? && (passive ==> s[p] == 0xd0 || s[p] == 0xd2)
    ensures Constant(env, s, p).Rejected? <==> !IsRead(env, passive, s, p)
    ensures Constant(env, s, p).Outside? <==> s[p] == 0xd2 && LebAt(s, p).value.value >= |env.funcs|
  {
    hide LebAt, ReadAt, Int32, Int64;
  }

  // The evaluator reads a function address past the end exactly if it gets to such a ref.func: nothing
  // compares the index with the number of functions.
  lemma {:induction false} StaysInside(env: Env, passive: bool, s: seq<byte>, p: nat, stack: seq<Value>)
    ensures Eval(env, passive, s, p, stack) != Outside <==> FuncsInside(env, passive, s, p)
    decreases |s| - p
  {
    hide Immediates, Constant, LebAt, RefTypeOf;
    if p < |s| && HasImmediates(s[p]) && Immediates(s, p).Some? && (passive ==> s[p] == 0xd0 || s[p] == 0xd2) {
      ReadPushes(env, passive, s, p);
      if Constant(env, s, p).Reduced? {
        StaysInside(env, passive, s, p + 1 + Immediates(s, p).value, stack + [Constant(env, s, p).v]);
      }
    }
  }

  lemma ExtentStaysInside(env: Env, passive: bool, s: seq<byte>, p: nat)
    requires Extent(s, p).Some?
    ensures Eval(env, passive, s[p..Extent(s, p).value], 0, []) != Outside <==> FuncsInside(env, passive, s, p)
  {
    ExtentSame(env, passive, s, p, p, Extent(s, p).value, []);
    StaysInside(env, passive, s, p, []);
  }

  // ref.func 0, end
  const FIRST_FUNC: seq<byte> := [0xd2, 0x00, 0x0b]

  // The parser cuts it whole, and in an instance without functions its evaluation reads past the end.
  lemma NoFunctions(passive: bool, globals: seq<Value>)
    ensures Extent(FIRST_FUNC, 0) == Some(3) && FIRST_FUNC[0..3] == FIRST_FUNC
    ensures Eval(Env([], globals), passive, FIRST_FUNC, 0, []) == Outside
  {
    Pow2Values();
    assert LebAt(FIRST_FUNC, 0) == Some(Num(0, 1));
    assert Extent(FIRST_FUNC, 2) == Some(3);
  }

  // ----- The two loops -----

  // A float is read byte by byte.
  method ReadFloat(st: Stream, width: nat) returns (r: Option<nat>)
    requires st.Valid()
    modifies st`p
    ensures st.Valid()
    ensures if old(st.p) + width <= |st.s| then r == Some(ReadAt(st.s, old(st.p), width)) && st.p == old(st.p) + width
            else r == None
  {
    if |st.s| - st.p < width { return None; }
    r := Some(ReadAt(st.s, st.p, width));
    st.p := st.p + width;
  }

  // The immediates of a known instruction; the stream is past its opcode.
  method ReadConstant(opcode: byte, st: Stream) returns (r: Option<int>)
    requires st.Valid() && st.p > 0 && st.s[st.p - 1] == opcode && HasImmediates(opcode)
    modifies st`p
    ensures st.Valid()
    ensures match Immediates(st.s, old(st.p) - 1)
            case None => r == None
            case Some(n) =>
              && r.Some? && st.p == old(st.p) + n
              && r.value == if opcode == 0x43 || opcode == 0x44 then ReadAt(st.s, old(st.p), n)
                    else LebAt(st.s, old(st.p) - 1).value.value
  {
    hide Unsigned, Signed, ReadAt;
    if opcode == 0x43 || opcode == 0x44 {
      var v := ReadFloat(st, if opcode == 0x43 then 4 else 8);
      return if v.Some? then Some(v.value) else None;
    } else if opcode == 0x41 {
      r := st.ReadVi(32);
    } else if opcode == 0x42 {
      r := st.ReadVi(64);
    } else if opcode == 0xd0 {
      r := st.ReadVi7();
    } else {
      r := st.ReadVu(32);
    }
  }

  // The parser works on a copy of its stream, which it takes over only when it has found the end.
  method ParseConstExpr(st: Stream) returns (r: Option<seq<byte>>)
    requires st.Valid()
    modifies st`p
    ensures st.Valid()
    ensures match Extent(st.s, old(st.p))
            case Some(q) => r == Some(st.s[old(st.p)..q]) && st.p == q
            case None => r == None && st.p == old(st.p)
  {
    hide Immediates;
    var copy := new Stream.From(st.s, st.p);
    while true
      invariant copy.Valid() && copy.s == st.s && st.p == old(st.p) <= copy.p
      invariant Extent(st.s, st.p) == Extent(st.s, copy.p)
      invariant fresh(copy)
      decreases |copy.s| - copy.p
    {
      var opcode := copy.ReadU8();
      if opcode.None? { return None; }
      if opcode.value == 0x0b { break; }
      if HasImmediates(opcode.value) {
        var v := ReadConstant(opcode.value, copy);
        if v.None? { return None; }
      }
    }
    r := Some(st.s[st.p..copy.p]);
    st.p := copy.p;
  }

  // The evaluator, with a stack although nothing pops.
  method ReduceConstExpr(env: Env, code: seq<byte>, passive: bool) returns (r: Reduced)
    ensures r == Eval(env, passive, code, 0, [])
  {
    hide Immediates, Constant, OneValue;
    var st := new Stream(code);
    var stack: seq<Value> := [];
    while st.p < |st.s|
      invariant st.Valid() && st.s == code && Eval(env, passive, code, 0, []) == Eval(env, passive, code, st.p, stack)
      decreases |st.s| - st.p
    {
      ghost var at := st.p;
      var first := st.ReadU8();
      var opcode := first.value;
      if passive && opcode != 0xd0 && opcode != 0xd2 && opcode != 0x0b { return Rejected; }
      if opcode == 0x0b { return OneValue(stack); }
      if !HasImmediates(opcode) { return Rejected; }
      var v := ReadConstant(opcode, st);
      if v.None? { return Rejected; }
      var c := Pushed(env, opcode, v.value, code, at);
      if !c.Reduced? { return c; }
      stack := stack + [c.v];
    }
    return OneValue(stack);
  }

  // What an instruction with the immediate v pushes.
  method Pushed(env: Env, opcode: byte, v: int, ghost s: seq<byte>, ghost p: nat) returns (r: Reduced)
    requires p < |s| && s[p] == opcode && HasImmediates(opcode) && Immediates(s, p).Some?
    requires v == if opcode == 0x43 || opcode == 0x44 then ReadAt(s, p + 1, Immediates(s, p).value)
             else LebAt(s, p).value.value
    ensures r == Constant(env, s, p)
  {
    hide ReadAt, Int32, Int64, Signed, Unsigned;
    if opcode == 0x41 { return Reduced(Int32(v)); }
    if opcode == 0x42 { return Reduced(Int64(v)); }
    if opcode == 0x43 { return Reduced(Value(F32, v)); }
    if opcode == 0x44 { return Reduced(Value(F64, v)); }
    if opcode == 0xd0 {
      var t := RefTypeOf(v);
      if t.None? { return Rejected; }
      return Reduced(Value(t.value, NULL_REF));
    }
    if opcode == 0xd2 {
      if v >= |env.funcs| { return Outside; }
      return Reduced(Value(FuncRef, env.funcs[v]));
    }
    if v >= |env.globals| { return Rejected; }
    return Reduced(env.globals[v]);
  }
}
