/**
 What each simple instruction makes of a state, one instruction at a time: the operands it takes
 off one by one, what it leaves, and when it traps.
 */
module Acts {
  import opened LittleEndian
  import opened Wasm

  // The operand n cells below the top.
  function FromTop(s: State, n: nat): Value
    requires n < |s.stack|
  {
    s.stack[|s.stack| - 1 - n]
  }

  // ----- Operands, one pop at a time -----

  lemma PopNone<C>(m: Module, op: Op, s: State, at: C)
    requires IsSimple(op) && Pops(op) == 0
    ensures SimpleAct(m, op, s, at) == EffectAct(Exec(m, op, [], s.locals, s.store), s.stack, at)
  {
    hide Exec, EffectAct;
    assert TopN(s, 0) == [] && Drop1(s, 0) == s;
  }

  lemma PopOne<C>(m: Module, op: Op, s: State, at: C)
    requires IsSimple(op) && Pops(op) == 1
    ensures SimpleAct(m, op, s, at)
         == if s.stack == [] then Undefined
            else EffectAct(Exec(m, op, [FromTop(s, 0)], s.locals, s.store), Drop1(s, 1).stack, at)
  {
    hide Exec, EffectAct;
    if s.stack != [] {
      assert TopN(s, 1) == [FromTop(s, 0)];
    }
  }

  lemma PopTwo<C>(m: Module, op: Op, s: State, at: C)
    requires IsSimple(op) && Pops(op) == 2
    ensures SimpleAct(m, op, s, at)
         == if |s.stack| < 2 then Undefined
            else EffectAct(Exec(m, op, [FromTop(s, 1), FromTop(s, 0)], s.locals, s.store),
                Drop1(Drop1(s, 1), 1).stack, at)
  {
    hide Exec, EffectAct;
    if |s.stack| >= 2 {
      assert TopN(s, 2) == [FromTop(s, 1), FromTop(s, 0)];
      assert Drop1(s, 2) == Drop1(Drop1(s, 1), 1);
    }
  }

  lemma PopThree<C>(m: Module, op: Op, s: State, at: C)
    requires IsSimple(op) && Pops(op) == 3
    ensures SimpleAct(m, op, s, at)
         == if |s.stack| < 3 then Undefined
            else EffectAct(Exec(m, op, [FromTop(s, 2), FromTop(s, 1), FromTop(s, 0)], s.locals, s.store),
                           Drop1(Drop1(Drop1(s, 1), 1), 1).stack, at)
  {
    hide Exec, EffectAct;
    if |s.stack| >= 3 {
      assert TopN(s, 3) == [FromTop(s, 2), FromTop(s, 1), FromTop(s, 0)];
      assert Drop1(s, 3) == Drop1(Drop1(Drop1(s, 1), 1), 1);
    }
  }

  // An effect that pushes nothing.
  lemma PushNothing<C>(low: seq<Value>, locals: seq<Value>, store: Store, at: C)
    ensures EffectAct(Done([], locals, store), low, at) == Next(at, State(low, locals, store))
  {
    assert low + [] == low;
  }

  // ----- Variables and constants -----

  lemma NopAct<C>(m: Module, s: State, at: C)
    ensures SimpleAct(m, Nop, s, at) == Next(at, s)
  {
    hide SimpleAct, EffectAct;
    PopNone(m, Nop, s, at);
    PushNothing(s.stack, s.locals, s.store, at);
  }

  lemma DropAct<C>(m: Module, s: State, at: C)
    ensures SimpleAct(m, Drop, s, at) == if s.stack == [] then Undefined else Next(at, Drop1(s, 1))
  {
    hide SimpleAct, EffectAct;
    PopOne(m, Drop, s, at);
    if s.stack != [] {
      PushNothing(Drop1(s, 1).stack, s.locals, s.store, at);
    }
  }

  lemma SelectAct<C>(m: Module, s: State, at: C)
    ensures SimpleAct(m, Select, s, at)
         == if |s.stack| < 3 then Undefined
            else
              Next(at, Push(Drop1(Drop1(Drop1(s, 1), 1), 1),
                  [if U32(FromTop(s, 0)) != 0 then FromTop(s, 2) else FromTop(s, 1)]))
  {
    hide SimpleAct, U32;
    PopThree(m, Select, s, at);
  }

  lemma GetAct<C>(m: Module, x: nat, s: State, at: C)
    ensures SimpleAct(m, LocalGet(x), s, at) == if x >= |s.locals| then Undefined else Next(at, Push(s, [s.locals[x]]))
  {
    hide SimpleAct;
    PopNone(m, LocalGet(x), s, at);
  }

  lemma SetAct<C>(m: Module, x: nat, s: State, at: C)
    ensures SimpleAct(m, LocalSet(x), s, at)
         == if x >= |s.locals| || s.stack == [] then Undefined
            else Next(at, Drop1(s.(locals := s.locals[x := FromTop(s, 0)]), 1))
  {
    hide SimpleAct, EffectAct;
    PopOne(m, LocalSet(x), s, at);
    if x < |s.locals| && s.stack != [] {
      PushNothing(Drop1(s, 1).stack, s.locals[x := FromTop(s, 0)], s.store, at);
    }
    CrashedAct(if s.stack == [] then [] else Drop1(s, 1).stack, at);
  }

  lemma CrashedAct<C>(low: seq<Value>, at: C)
    ensures EffectAct(Crashed, low, at) == Undefined && EffectAct(Trapped, low, at) == Fault
  {
  }

  lemma TeeAct<C>(m: Module, x: nat, s: State, at: C)
    ensures SimpleAct(m, LocalTee(x), s, at)
         == if x >= |s.locals| || s.stack == [] then Undefined
            else Next(at, s.(locals := s.locals[x := FromTop(s, 0)]))
  {
    hide SimpleAct;
    PopOne(m, LocalTee(x), s, at);
    if s.stack != [] {
      assert Drop1(s, 1).stack + [FromTop(s, 0)] == s.stack;
    }
  }

  lemma GlobalGetAct<C>(m: Module, x: nat, s: State, at: C)
    ensures SimpleAct(m, GlobalGet(x), s, at)
         == if x >= |s.store.globals| then Undefined else Next(at, Push(s, [s.store.globals[x]]))
  {
    hide SimpleAct;
    PopNone(m, GlobalGet(x), s, at);
  }

  lemma GlobalSetAct<C>(m: Module, x: nat, s: State, at: C)
    ensures SimpleAct(m, GlobalSet(x), s, at)
         == if x >= |s.store.globals| || s.stack == [] then Undefined
            else Next(at, Drop1(s, 1).(store := s.store.(globals := s.store.globals[x := FromTop(s, 0)])))
  {
    hide SimpleAct, EffectAct;
    PopOne(m, GlobalSet(x), s, at);
    if x < |s.store.globals| && s.stack != [] {
      PushNothing(Drop1(s, 1).stack, s.locals, s.store.(globals := s.store.globals[x := FromTop(s, 0)]), at);
    }
    CrashedAct(if s.stack == [] then [] else Drop1(s, 1).stack, at);
  }

  lemma ConstAct<C>(m: Module, op: Op, s: State, at: C)
    requires op.I32Const? || op.I64Const?
    ensures SimpleAct(m, op, s, at) == Next(at, Push(s, [if op.I32Const? then Int32(op.v) else Int64(op.v)]))
  {
    hide SimpleAct, Int32, Int64;
    PopNone(m, op, s, at);
  }

  // ----- Numbers -----

  lemma UnaryAct<C>(m: Module, op: Op, s: State, at: C)
    requires op.I32Eqz? || op.I32WrapI64? || op.I64ExtendI32U?
    ensures SimpleAct(m, op, s, at)
         == if s.stack == [] then Undefined
            else
              var a := FromTop(s, 0);
              Next(at, Push(Drop1(s, 1), [if op.I32Eqz? then Int32(if U32(a) == 0 then 1 else 0)
                                          else if op.I32WrapI64? then Int32(a.bits)
                                          else Int64(U32(a))]))
  {
    hide SimpleAct, Int32, Int64, U32;
    PopOne(m, op, s, at);
  }

  lemma BinaryAct<C>(m: Module, op: Op, s: State, at: C)
    requires op.I32Add? || op.I64Add? || op.I32DivU?
    ensures SimpleAct(m, op, s, at)
         == if |s.stack| < 2 then Undefined
            else
              var v1, v2 := FromTop(s, 1), FromTop(s, 0);
              var low := Drop1(Drop1(s, 1), 1);
              if op.I32Add? then Next(at, Push(low, [Int32(U32(v1) + U32(v2))]))
              else if op.I64Add? then Next(at, Push(low, [Int64(v1.bits + v2.bits)]))
              else if U32(v2) == 0 then Fault
              else Next(at, Push(low, [Int32(U32(v1) / U32(v2))]))
  {
    hide SimpleAct, Int32, Int64, U32;
    PopTwo(m, op, s, at);
  }

  // ----- Memory -----

  lemma LoadAct<C>(m: Module, acc: Access, align: nat, offset: nat, s: State, at: C)
    ensures SimpleAct(m, Load(acc, align, offset), s, at)
         == if s.stack == [] || m.memMax.None? then Undefined
            else
              var p := U32(FromTop(s, 0)) + offset;
              if p + acc.width > |s.store.mem| then Fault
              else Next(at, Push(Drop1(s, 1), [Widened(acc, ReadAt(s.store.mem, p, acc.width))]))
  {
    hide SimpleAct, U32, ReadAt, Widened;
    PopOne(m, Load(acc, align, offset), s, at);
  }

  lemma SaveAct<C>(m: Module, acc: Access, align: nat, offset: nat, s: State, at: C)
    ensures SimpleAct(m, Save(acc, align, offset), s, at)
         == if |s.stack| < 2 || m.memMax.None? then Undefined
            else
              var p := U32(FromTop(s, 1)) + offset;
              if p + acc.width > |s.store.mem| then Fault
              else
                var mem := WriteAt(s.store.mem, p, acc.width, FromTop(s, 0).bits);
                Next(at, Drop1(Drop1(s, 1), 1).(store := s.store.(mem := mem)))
  {
    hide SimpleAct, U32, WriteAt, EffectAct;
    PopTwo(m, Save(acc, align, offset), s, at);
    if |s.stack| >= 2 {
      var low, p := Drop1(Drop1(s, 1), 1).stack, U32(FromTop(s, 1)) + offset;
      CrashedAct(low, at);
      if p + acc.width <= |s.store.mem| {
        PushNothing(low, s.locals, s.store.(mem := WriteAt(s.store.mem, p, acc.width, FromTop(s, 0).bits)), at);
      }
    }
  }

  lemma SizeAct<C>(m: Module, s: State, at: C)
    ensures SimpleAct(m, MemorySize, s, at)
         == if m.memMax.None? then Undefined else Next(at, Push(s, [Int32(|s.store.mem| / PAGE)]))
  {
    hide SimpleAct, Int32, PAGE;
    PopNone(m, MemorySize, s, at);
  }

  // What memory.grow pushes, and the store after it.
  function Grown(m: Module, store: Store, more: nat): (Value, Store)
    requires m.memMax.Some?
  {
    var pages := |store.mem| / PAGE;
    if pages + more > m.memMax.value then (Int32(-1), store)
    else
      var (grown, after) := Grow(store, (pages + more) * PAGE);
      (Int32(if grown then pages else -1), after)
  }

  lemma GrowAct<C>(m: Module, s: State, at: C)
    ensures SimpleAct(m, MemoryGrow, s, at)
         == if s.stack == [] || m.memMax.None? then Undefined
            else
              var (pushed, after) := Grown(m, s.store, U32(FromTop(s, 0)));
              Next(at, Push(Drop1(s, 1), [pushed]).(store := after))
  {
    hide SimpleAct, Int32, U32, Grow, PAGE;
    PopOne(m, MemoryGrow, s, at);
  }

  lemma FillAct<C>(m: Module, s: State, at: C)
    ensures SimpleAct(m, MemoryFill, s, at)
         == if |s.stack| < 3 || m.memMax.None? then Undefined
            else
              var dst, n := U32(FromTop(s, 2)), U32(FromTop(s, 0));
              if dst + n > |s.store.mem| then Fault
              else
                var mem := FillAt(s.store.mem, dst, n, FromTop(s, 1).bits % 0x100);
                Next(at, Drop1(Drop1(Drop1(s, 1), 1), 1).(store := s.store.(mem := mem)))
  {
    hide SimpleAct, U32, FillAt, EffectAct;
    PopThree(m, MemoryFill, s, at);
    if |s.stack| >= 3 {
      var low, dst, n := Drop1(Drop1(Drop1(s, 1), 1), 1).stack, U32(FromTop(s, 2)), U32(FromTop(s, 0));
      CrashedAct(low, at);
      if dst + n <= |s.store.mem| {
        PushNothing(low, s.locals, s.store.(mem := FillAt(s.store.mem, dst, n, FromTop(s, 1).bits % 0x100)), at);
      }
    }
  }

  lemma CopyAct<C>(m: Module, s: State, at: C)
    ensures SimpleAct(m, MemoryCopy, s, at)
         == if |s.stack| < 3 || m.memMax.None? then Undefined
            else
              var dst, src, n := U32(FromTop(s, 2)), U32(FromTop(s, 1)), U32(FromTop(s, 0));
              if src + n > |s.store.mem| || dst + n > |s.store.mem| then Fault
              else
                var mem := CopyAt(s.store.mem, dst, src, n);
                Next(at, Drop1(Drop1(Drop1(s, 1), 1), 1).(store := s.store.(mem := mem)))
  {
    hide SimpleAct, U32, CopyAt, EffectAct;
    PopThree(m, MemoryCopy, s, at);
    if |s.stack| >= 3 {
      var low := Drop1(Drop1(Drop1(s, 1), 1), 1).stack;
      var dst, src, n := U32(FromTop(s, 2)), U32(FromTop(s, 1)), U32(FromTop(s, 0));
      CrashedAct(low, at);
      if src + n <= |s.store.mem| && dst + n <= |s.store.mem| {
        PushNothing(low, s.locals, s.store.(mem := CopyAt(s.store.mem, dst, src, n)), at);
      }
    }
  }
}
