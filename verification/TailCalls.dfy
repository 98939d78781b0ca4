/**
 The tail-call interpreter keeps the address and the size of the memory in its call context. It
 does what the direct-threaded one does, because every operation that can move or resize the
 memory brings the cached pair up to date.
 */
module TailCalls {
  import opened Basics
  import opened LittleEndian
  import opened Wasm
  import opened Acts
  import opened Decoder
  import opened InPlace

  // mem0 and mem0_size: which block of the heap the memory was in, and how large it was.
  datatype Cache = Cache(block: nat, size: nat)

  // What runs share: the store, and the heap block its memory is in. Resizing may move it.
  datatype World = World(store: Store, block: nat)

  predicate Current(cache: Cache, w: World) {
    cache == Cache(w.block, |w.store.mem|)
  }

  function Reload(w: World): (cache: Cache)
    ensures Current(cache, w)
  {
    Cache(w.block, |w.store.mem|)
  }

  // A step; the world and the cache after it matter only when it goes on.
  datatype CachedAct = CachedAct(act: Act<Pc>, block: nat, cache: Cache)

  predicate TouchesMemory(op: Op) {
    op.Load? || op.Save? || op.MemorySize? || op.MemoryGrow? || op.MemoryFill? || op.MemoryCopy?
  }

  // Access through the cached address: bounds are checked against the cached size, and the access
  // itself is only defined in the memory's present block.
  function MemoryAct(m: Module, op: Op, s: State, block: nat, cache: Cache, next: Pc): CachedAct
    requires TouchesMemory(op)
  {
    if |s.stack| < Pops(op) then CachedAct(Undefined, block, cache)
    else if op.MemorySize? then CachedAct(Next(next, Push(s, [Int32(cache.size / PAGE)])), block, cache)
    else if op.MemoryGrow? then GrowCached(m, s, block, cache, next)
    else if op.Load? then
      var at := U32(FromTop(s, 0)) + op.offset;
      if at + op.acc.width > cache.size then CachedAct(Fault, block, cache)
      else if cache.block != block || at + op.acc.width > |s.store.mem| then CachedAct(Undefined, block, cache)
      else CachedAct(Next(next, Push(Drop1(s, 1), [Widened(op.acc, ReadAt(s.store.mem, at, op.acc.width))])), block,
          cache)
    else if op.Save? then
      var at := U32(FromTop(s, 1)) + op.offset;
      if at + op.acc.width > cache.size then CachedAct(Fault, block, cache)
      else if cache.block != block || at + op.acc.width > |s.store.mem| then CachedAct(Undefined, block, cache)
      else CachedAct(Next(next, Written(s, 2, WriteAt(s.store.mem, at, op.acc.width, FromTop(s, 0).bits))), block,
          cache)
    else
      var dst, n := U32(FromTop(s, 2)), U32(FromTop(s, 0));
      var src := if op.MemoryCopy? then U32(FromTop(s, 1)) else dst;
      if src + n > cache.size || dst + n > cache.size then CachedAct(Fault, block, cache)
      else if cache.block != block || src + n > |s.store.mem| || dst + n > |s.store.mem|
          then CachedAct(Undefined, block, cache)
      else
        var mem := if op.MemoryCopy? then CopyAt(s.store.mem, dst, src, n)
            else FillAt(s.store.mem, dst, n, FromTop(s, 1).bits % 0x100);
        CachedAct(Next(next, Written(s, 3, mem)), block, cache)
  }

  // Without the top n operands, and with other bytes in memory.
  function Written(s: State, n: nat, mem: seq<byte>): State
    requires n <= |s.stack|
  {
    Drop1(s, n).(store := s.store.(mem := mem))
  }

  // The cached size counts. Only a resize that succeeds moves the memory and is noted.
  function GrowCached(m: Module, s: State, block: nat, cache: Cache, next: Pc): CachedAct
    requires s.stack != []
  {
    if m.memMax.None? then CachedAct(Undefined, block, cache)
    else
      var pages, more, s1 := cache.size / PAGE, U32(FromTop(s, 0)), Drop1(s, 1);
      if pages + more > m.memMax.value then CachedAct(Next(next, Push(s1, [Int32(-1)])), block, cache)
      else
        var size := (pages + more) * PAGE;
        var (grown, after) := Grow(s.store, size);
        if grown
            then CachedAct(Next(next, Push(s1, [Int32(pages)]).(store := after)), block + 1, Cache(block + 1, size))
        else CachedAct(Next(next, Push(s1, [Int32(-1)]).(store := after)), block, cache)
  }

  function CachedStep(im: Image, f: Func, at: Pc, s: State, block: nat, cache: Cache): CachedAct {
    var i := Decode(im.m, im.code, at.pc);
    if i.Some? && TouchesMemory(i.value.op)
    then MemoryAct(im.m, i.value.op, s, block, cache, Pc(at.pc + i.value.len, at.idx))
    else CachedAct(FlatStep(im, f, at, s), block, cache)
  }

  // ----- Runs -----

  // How a run or call ends, and where it leaves the memory and the thread's counters.
  datatype Ended = Ended(outcome: Outcome, block: nat, use: Usage)

  // Leaving a call takes its frame off the counters again.
  function Release(u: Usage, cells: nat): Usage {
    Usage(if u.depth == 0 then 0 else u.depth - 1, if u.cells < cells then 0 else u.cells - cells)
  }

  // After a call the cache is reloaded.
  function CachedRun(q: Program, fi: nat, at: Pc, s: State, block: nat, cache: Cache, u: Usage, fuel: nat): Ended
    requires fi < |q.m.funcs| && fi < |q.prepared|
    decreases fuel, 0
  {
    if fuel == 0 then Ended(Running, block, u)
    else
      var step := CachedStep(ImageOf(q, fi), q.m.funcs[fi], at, s, block, cache);
      match step.act
      case Next(at2, s2) => CachedRun(q, fi, at2, s2, step.block, step.cache, u, fuel - 1)
      case Invoke(callee, args, at2, s2) =>
        var e := CachedCall(q, callee, args, World(s2.store, block), u, fuel - 1);
        if e.outcome.Returned? then
          var s3 := Push(s2, e.outcome.results).(store := e.outcome.store);
          CachedRun(q, fi, at2, s3, e.block, Reload(World(s3.store, e.block)), e.use, fuel - 1)
        else e
      case Finish(vals, store) => Ended(Returned(vals, store), block, u)
      case Fault => Ended(Trap, block, u)
      case Undefined => Ended(Broken, block, u)
  }

  function CachedCall(q: Program, fi: nat, args: seq<Value>, w: World, u: Usage, fuel: nat): Ended
    decreases fuel, 1
  {
    if fi >= |q.m.funcs| || fi >= |q.prepared| then Ended(Broken, w.block, u)
    else if Exceeded(u) then Ended(Exhausted, w.block, u)
    else
      var s := State([], InitLocals(q.m.funcs[fi], args), w.store);
      var e := CachedRun(q, fi, Pc(0, 0), s, w.block, Reload(w), Reserve(u, q.prepared[fi].peak), fuel);
      e.(use := Release(e.use, q.prepared[fi].peak))
  }

  // ----- Both interpreters agree -----

  // One memory operation does the same step, and the cache stays up to date.
  ghost predicate SameAct(m: Module, op: Op, s: State, block: nat, cache: Cache, next: Pc)
    requires TouchesMemory(op)
  {
    var c := MemoryAct(m, op, s, block, cache, next);
    c.act == SimpleAct(m, op, s, next) && (c.act.Next? ==> Current(c.cache, World(c.act.s.store, c.block)))
  }

  lemma MemorySame(m: Module, op: Op, s: State, block: nat, cache: Cache, next: Pc)
    requires TouchesMemory(op) && Current(cache, World(s.store, block)) && !SimpleAct(m, op, s, next).Undefined?
    ensures SameAct(m, op, s, block, cache, next)
  {
    hide SimpleAct, MemoryAct, SameAct;
    if op.Load? {
      LoadSame(m, op, s, block, cache, next);
    } else if op.Save? {
      SaveSame(m, op, s, block, cache, next);
    } else if op.MemorySize? {
      SizeSame(m, s, block, cache, next);
    } else if op.MemoryGrow? {
      GrowSame(m, s, block, cache, next);
    } else if op.MemoryFill? {
      FillSame(m, s, block, cache, next);
    } else {
      CopySame(m, s, block, cache, next);
    }
  }

  lemma LoadSame(m: Module, op: Op, s: State, block: nat, cache: Cache, next: Pc)
    requires op.Load? && Current(cache, World(s.store, block)) && !SimpleAct(m, op, s, next).Undefined?
    ensures SameAct(m, op, s, block, cache, next)
  {
    hide SimpleAct, ReadAt, Widened, U32;
    LoadAct(m, op.acc, op.align, op.offset, s, next);
  }

  lemma SaveSame(m: Module, op: Op, s: State, block: nat, cache: Cache, next: Pc)
    requires op.Save? && Current(cache, World(s.store, block)) && !SimpleAct(m, op, s, next).Undefined?
    ensures SameAct(m, op, s, block, cache, next)
  {
    hide SimpleAct, WriteAt, U32;
    SaveAct(m, op.acc, op.align, op.offset, s, next);
    assert |s.stack| >= 2 ==> Drop1(s, 2) == Drop1(Drop1(s, 1), 1);
  }

  lemma SizeSame(m: Module, s: State, block: nat, cache: Cache, next: Pc)
    requires Current(cache, World(s.store, block)) && !SimpleAct(m, MemorySize, s, next).Undefined?
    ensures SameAct(m, MemorySize, s, block, cache, next)
  {
    hide SimpleAct, Int32;
    SizeAct(m, s, next);
  }

  lemma GrowSame(m: Module, s: State, block: nat, cache: Cache, next: Pc)
    requires Current(cache, World(s.store, block)) && !SimpleAct(m, MemoryGrow, s, next).Undefined?
    ensures SameAct(m, MemoryGrow, s, block, cache, next)
  {
    hide SimpleAct, Int32, U32, Grow;
    GrowAct(m, s, next);
  }

  lemma FillSame(m: Module, s: State, block: nat, cache: Cache, next: Pc)
    requires Current(cache, World(s.store, block)) && !SimpleAct(m, MemoryFill, s, next).Undefined?
    ensures SameAct(m, MemoryFill, s, block, cache, next)
  {
    hide SimpleAct, FillAt, U32;
    FillAct(m, s, next);
    assert |s.stack| >= 3 ==> Drop1(s, 3) == Drop1(Drop1(Drop1(s, 1), 1), 1);
  }

  lemma CopySame(m: Module, s: State, block: nat, cache: Cache, next: Pc)
    requires Current(cache, World(s.store, block)) && !SimpleAct(m, MemoryCopy, s, next).Undefined?
    ensures SameAct(m, MemoryCopy, s, block, cache, next)
  {
    hide SimpleAct, CopyAt, U32;
    CopyAct(m, s, next);
    assert |s.stack| >= 3 ==> Drop1(s, 3) == Drop1(Drop1(Drop1(s, 1), 1), 1);
  }

  lemma CachedStepSame(im: Image, f: Func, at: Pc, s: State, block: nat, cache: Cache)
    requires Current(cache, World(s.store, block)) && !FlatStep(im, f, at, s).Undefined?
    ensures var c := CachedStep(im, f, at, s, block, cache);
            && c.act == FlatStep(im, f, at, s)
            && (c.act.Next? ==> Current(c.cache, World(c.act.s.store, c.block)))
            && (!c.act.Next? ==> c.block == block)
  {
    hide Decode, MemoryAct, SimpleAct, FlatControl;
    var i := Decode(im.m, im.code, at.pc);
    if i.Some? && TouchesMemory(i.value.op) {
      MemorySame(im.m, i.value.op, s, block, cache, Pc(at.pc + i.value.len, at.idx));
      MemoryBlocks(im.m, i.value.op, s, block, cache, Pc(at.pc + i.value.len, at.idx));
    } else {
      KeepsStore(im, f, at, s);
    }
  }

  lemma MemoryBlocks(m: Module, op: Op, s: State, block: nat, cache: Cache, next: Pc)
    requires TouchesMemory(op)
    ensures var c := MemoryAct(m, op, s, block, cache, next); !c.act.Next? ==> c.block == block
  {
    hide ReadAt, WriteAt, FillAt, CopyAt, Widened, Grow, U32, Int32;
  }

  // Nothing else touches the memory.
  lemma KeepsStore(im: Image, f: Func, at: Pc, s: State)
    requires var i := Decode(im.m, im.code, at.pc); i.None? || !TouchesMemory(i.value.op)
    ensures var a := FlatStep(im, f, at, s); (a.Next? || a.Invoke?) ==> a.s.store.mem == s.store.mem
  {
    hide Decode, FlatControl, SimpleAct;
    var i := Decode(im.m, im.code, at.pc);
    if i.Some? && IsSimple(i.value.op) {
      SimpleKeepsMemory(im.m, i.value.op, s, Pc(at.pc + i.value.len, at.idx));
    }
  }

  lemma SimpleKeepsMemory(m: Module, op: Op, s: State, next: Pc)
    requires IsSimple(op) && !TouchesMemory(op)
    ensures var a := SimpleAct(m, op, s, next); !a.Invoke? && (a.Next? ==> a.s.store.mem == s.store.mem)
  {
    hide U32, Int32, Int64;
  }

  // Wherever the direct-threaded interpreter is defined, the tail-call interpreter ends the same way,
  // and whatever way that is, the thread's counters are what they were before the call.
  lemma {:induction false} CallsSame(q: Program, fi: nat, args: seq<Value>, w: World, u: Usage, fuel: nat)
    requires !FlatCall(q, fi, args, w.store, u, fuel).Broken?
    ensures CachedCall(q, fi, args, w, u, fuel).outcome == FlatCall(q, fi, args, w.store, u, fuel)
    ensures CachedCall(q, fi, args, w, u, fuel).use == u
    decreases fuel, 1
  {
    hide FlatStep, CachedStep;
    if fi < |q.m.funcs| && fi < |q.prepared| && !Exceeded(u) {
      var s := State([], InitLocals(q.m.funcs[fi], args), w.store);
      RunsSame(q, fi, Pc(0, 0), s, w.block, Reload(w), Reserve(u, q.prepared[fi].peak), fuel);
    }
  }

  lemma {:induction false} RunsSame(q: Program, fi: nat, at: Pc, s: State, block: nat, cache: Cache, u: Usage,
        fuel: nat)
    requires fi < |q.m.funcs| && fi < |q.prepared| && Current(cache, World(s.store, block))
    requires !FlatRun(q, fi, at, s, u, fuel).Broken?
    ensures CachedRun(q, fi, at, s, block, cache, u, fuel).outcome == FlatRun(q, fi, at, s, u, fuel)
    ensures CachedRun(q, fi, at, s, block, cache, u, fuel).use == u
    decreases fuel, 0
  {
    hide FlatStep, CachedStep;
    if fuel > 0 {
      var im, f := ImageOf(q, fi), q.m.funcs[fi];
      CachedStepSame(im, f, at, s, block, cache);
      var a := FlatStep(im, f, at, s);
      var c := CachedStep(im, f, at, s, block, cache);
      if a.Next? {
        RunsSame(q, fi, a.at, a.s, c.block, c.cache, u, fuel - 1);
      } else if a.Invoke? {
        CallsSame(q, a.callee, a.args, World(a.s.store, block), u, fuel - 1);
        var e := CachedCall(q, a.callee, a.args, World(a.s.store, block), u, fuel - 1);
        if e.outcome.Returned? {
          var s3 := Push(a.s, e.outcome.results).(store := e.outcome.store);
          RunsSame(q, fi, a.at, s3, e.block, Reload(World(s3.store, e.block)), u, fuel - 1);
        }
      }
    }
  }

  // What happens through a cache that need not be current to an access that ends at `end`: a trap
  // where there must be none, an access to a block that is no longer the memory or beyond its end,
  // or what the other interpreter does.
  predicate TrapsWrongly(end: nat, cache: Cache, w: World) {
    cache.size < end <= |w.store.mem|
  }

  predicate AccessesWrongly(end: nat, cache: Cache, w: World) {
    end <= cache.size && (cache.block != w.block || |w.store.mem| < end)
  }

  // Exactly so for loads. (call_indirect, not modelled, does not reload.)
  lemma StaleLoads(m: Module, acc: Access, align: nat, offset: nat, s: State, block: nat, cache: Cache, next: Pc)
    requires m.memMax.Some? && s.stack != []
    ensures var op, w, end := Load(acc, align, offset), World(s.store, block), U32(FromTop(s, 0)) + offset + acc.width;
            var cached, direct := MemoryAct(m, op, s, block, cache, next).act, SimpleAct(m, op, s, next);
            && (cached.Fault? && direct.Next? <==> TrapsWrongly(end, cache, w))
            && (cached.Undefined? <==> AccessesWrongly(end, cache, w))
            && (cached == direct <==> !TrapsWrongly(end, cache, w) && !AccessesWrongly(end, cache, w))
  {
    hide U32, ReadAt, Widened, SimpleAct;
    LoadAct(m, acc, align, offset, s, next);
  }

  // And for stores.
  lemma StaleStores(m: Module, acc: Access, align: nat, offset: nat, s: State, block: nat, cache: Cache, next: Pc)
    requires m.memMax.Some? && |s.stack| >= 2
    ensures var op, w, end := Save(acc, align, offset), World(s.store, block), U32(FromTop(s, 1)) + offset + acc.width;
            var cached, direct := MemoryAct(m, op, s, block, cache, next).act, SimpleAct(m, op, s, next);
            && (cached.Fault? && direct.Next? <==> TrapsWrongly(end, cache, w))
            && (cached.Undefined? <==> AccessesWrongly(end, cache, w))
            && (cached == direct <==> !TrapsWrongly(end, cache, w) && !AccessesWrongly(end, cache, w))
  {
    hide U32, WriteAt, SimpleAct;
    SaveAct(m, acc, align, offset, s, next);
    assert Drop1(s, 2) == Drop1(Drop1(s, 1), 1);
  }

  // memory.size counts the cached pages.
  lemma StaleSize(m: Module, s: State, block: nat, cache: Cache, next: Pc)
    requires m.memMax.Some? && cache.size / PAGE < 0x1_0000_0000 && |s.store.mem| / PAGE < 0x1_0000_0000
    ensures MemoryAct(m, MemorySize, s, block, cache, next).act == SimpleAct(m, MemorySize, s, next)
       <==> cache.size / PAGE == |s.store.mem| / PAGE
  {
    hide SimpleAct;
    SizeAct(m, s, next);
    assert TopN(s, 0) == [] && Drop1(s, 0) == s;
    var a, b := Int32(cache.size / PAGE), Int32(|s.store.mem| / PAGE);
    assert Push(s, [a]).stack[|s.stack|] == a && Push(s, [b]).stack[|s.stack|] == b;
  }
}
