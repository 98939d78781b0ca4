/**
 The decoder's walk over a function's bytes, reading one instruction at a time from a stream
 and telling the validator about it.
 */
module DecodeLoop {
  import opened Basics
  import opened Leb128
  import opened Wasm
  import opened Decoder
  import opened Validation
  import opened JumpTable
  import opened Compiled
  import opened Validator

  method ReadBlockType(m: Module, st: Stream) returns (r: Option<FuncType>)
    requires st.Valid()
    modifies st`p
    ensures st.Valid() && r == BlockType(m, st.s, old(st.p))
    ensures r.Some? ==> st.p == old(st.p) + 1
  {
    var id := st.ReadVi7();
    if id.None? { return None; }
    if id.value == -0x40 { return Some(FuncType([], [])); }
    var t := ValueTypeOf(id.value);
    if t.Some? { return Some(FuncType([], [t.value])); }
    if id.value < 0 || id.value >= |m.types| { return None; }
    return Some(m.types[id.value]);
  }

  // The labels of a table, each a LEB128 number.
  method ReadLabels(st: Stream, count: nat) returns (r: Option<seq<nat>>)
    requires st.Valid()
    modifies st`p
    ensures st.Valid()
    ensures match Labels(st.s, old(st.p), count) case Some((ls, q)) => r == Some(ls) && st.p == q case None => r == None
  {
    hide Labels, Unsigned;
    var ls: seq<nat> := [];
    var i := 0;
    PrependNothing(Labels(st.s, st.p, count));
    while i < count
      invariant i <= count && st.Valid()
      invariant Labels(st.s, old(st.p), count) == Prepend(ls, Labels(st.s, st.p, count - i))
    {
      OneLabel(st.s, st.p, count - i);
      var l := st.ReadVu(32);
      if l.None? { return None; }
      PrependMore(ls, l.value, Labels(st.s, st.p, count - i - 1));
      ls := ls + [l.value as nat];
      i := i + 1;
    }
    NoLabel(st.s, st.p);
    assert ls + [] == ls;
    return Some(ls);
  }

  lemma OneLabel(s: seq<byte>, p: nat, count: nat)
    requires count > 0
    ensures var l := Unsigned(s, p, 32);
            && (l.Some? ==> l.value.value >= 0)
            && Labels(s, p, count)
               == if l.None? then None
                  else
                    var tail := Labels(s, p + l.value.len, count - 1);
                    if tail.None? then None else Some(([l.value.value as nat] + tail.value.0, tail.value.1))
  {
    hide Unsigned;
    NumbersFit(s, p, 32);
  }

  lemma NoLabel(s: seq<byte>, p: nat)
    ensures Labels(s, p, 0) == Some(([], p))
  {
  }

  function Prepend(ls: seq<nat>, tail: Option<(seq<nat>, nat)>): Option<(seq<nat>, nat)> {
    if tail.None? then None else Some((ls + tail.value.0, tail.value.1))
  }

  lemma PrependNothing(tail: Option<(seq<nat>, nat)>)
    ensures Prepend([], tail) == tail
  {
    if tail.Some? {
      assert [] + tail.value.0 == tail.value.0;
    }
  }

  lemma PrependMore(ls: seq<nat>, l: nat, tail: Option<(seq<nat>, nat)>)
    ensures Prepend(ls, if tail.None? then None else Some(([l] + tail.value.0, tail.value.1)))
            == Prepend(ls + [l], tail)
  {
    if tail.Some? {
      assert ls + ([l] + tail.value.0) == ls + [l] + tail.value.0;
    }
  }

  // br_table: the labels are read from a copy of the stream, then skipped as one byte each.
  method ReadTable(st: Stream) returns (r: Option<Op>)
    requires st.Valid() && st.p > 0
    modifies st`p
    ensures st.Valid()
    ensures match Table(st.s, old(st.p) - 1)
            case Some(i) => r == Some(i.op) && st.p == old(st.p) - 1 + i.len
            case None => r == None
  {
    hide Labels, Unsigned;
    NumbersFit(st.s, st.p, 32);
    var n := st.ReadVu(32);
    if n.None? { return None; }
    var copy := new Stream.From(st.s, st.p);
    var ls := ReadLabels(copy, n.value + 1);
    if ls.None? { return None; }
    Pow2Values();
    if n.value + 1 >= 0x1_0000_0000 { return None; }
    var ok := st.Seek(n.value + 1);
    if !ok { return None; }
    return Some(BrTable(ls.value, copy.p - st.p));
  }

  // Loads and stores: the alignment in one byte, then the offset.
  method ReadAccess(opcode: byte, st: Stream) returns (r: Option<Op>)
    requires st.Valid() && st.p > 0 && st.s[st.p - 1] == opcode && 0x28 <= opcode <= 0x3e
    modifies st`p
    ensures st.Valid()
    ensures match Accessing(st.s, old(st.p) - 1)
            case Some(i) => r == Some(i.op) && st.p == old(st.p) - 1 + i.len
            case None => r == None
  {
    hide Unsigned, AccessOf;
    NumbersFit(st.s, st.p, 7);
    var align := st.ReadVu7();
    if align.None? { return None; }
    NumbersFit(st.s, st.p, 32);
    var offset := st.ReadVu(32);
    if offset.None? { return None; }
    return Some(MemOp(opcode, align.value, offset.value));
  }

  // A reserved byte, which has to be zero.
  method ReadReserved(st: Stream) returns (ok: bool)
    requires st.Valid()
    modifies st`p
    ensures st.Valid()
    ensures match Reserved(st.s, old(st.p)) case Some(z) => ok && st.p == old(st.p) + z.len case None => !ok
  {
    hide Unsigned;
    var reserved := st.ReadVu7();
    ok := reserved.Some? && reserved.value == 0;
  }

  // memory.copy and memory.fill: a second opcode, then memory indices.
  method ReadBulk(st: Stream) returns (r: Option<Op>)
    requires st.Valid() && st.p > 0
    modifies st`p
    ensures st.Valid()
    ensures match Bulk(st.s, old(st.p) - 1)
            case Some(i) => r == Some(i.op) && st.p == old(st.p) - 1 + i.len
            case None => r == None
  {
    hide Unsigned, Reserved;
    NumbersFit(st.s, st.p, 32);
    var sub := st.ReadVu(32);
    if sub.None? { return None; }
    if sub.value == 0x0a {
      var src := ReadReserved(st);
      if !src { return None; }
      var dst := ReadReserved(st);
      if !dst { return None; }
      return Some(MemoryCopy);
    } else if sub.value == 0x0b {
      var ok := ReadReserved(st);
      if !ok { return None; }
      return Some(MemoryFill);
    } else {
      return None;
    }
  }

  // Other instructions with immediates that are neither block types nor labels.
  method ReadImmediates(ghost m: Module, opcode: byte, st: Stream) returns (r: Option<Op>)
    requires st.Valid() && st.p > 0 && st.s[st.p - 1] == opcode
    requires opcode in {0x0c, 0x0d, 0x10, 0x20, 0x21, 0x22, 0x23, 0x24, 0x3f, 0x40, 0x41, 0x42}
    modifies st`p
    ensures st.Valid()
    ensures match Decode(m, st.s, old(st.p) - 1)
            case Some(i) => r == Some(i.op) && st.p == old(st.p) - 1 + i.len
            case None => r == None
  {
    hide Unsigned, Signed, Labels, BlockType, Table, Reserved, Bulk, Accessing;
    if opcode == 0x0c || opcode == 0x0d {
      var lth := st.ReadU8();
      if lth.None? { return None; }
      return Some(if opcode == 0x0c then Br(lth.value) else BrIf(lth.value));
    }
    if opcode == 0x3f || opcode == 0x40 {
      var ok := ReadReserved(st);
      if !ok { return None; }
      return Some(if opcode == 0x3f then MemorySize else MemoryGrow);
    }
    if opcode == 0x41 {
      var v := st.ReadVi(32);
      if v.None? { return None; }
      return Some(I32Const(v.value));
    }
    if opcode == 0x42 {
      var v := st.ReadVi(64);
      if v.None? { return None; }
      return Some(I64Const(v.value));
    }
    NumbersFit(st.s, st.p, 32);
    var x := st.ReadVu(32);
    if x.None? { return None; }
    return Some(Indexed(opcode, x.value));
  }

  // One instruction.
  method ReadOp(m: Module, st: Stream) returns (r: Option<Op>)
    requires st.Valid()
    modifies st`p
    ensures st.Valid()
    ensures match Decode(m, st.s, old(st.p))
            case Some(i) => r == Some(i.op) && st.p == old(st.p) + i.len
            case None => r == None
  {
    hide Unsigned, Signed, Labels, BlockType, Table, Reserved, Bulk, Accessing;
    var opcode := st.ReadU8();
    if opcode.None? { return None; }
    var b := opcode.value;
    match b
    case 0x00 => return Some(Unreachable);
    case 0x01 => return Some(Nop);
    case 0x02 =>
      var ft := ReadBlockType(m, st);
      if ft.None? { return None; }
      return Some(BlockOp(ft.value));
    case 0x03 =>
      var ft := ReadBlockType(m, st);
      if ft.None? { return None; }
      return Some(LoopOp(ft.value));
    case 0x04 =>
      var ft := ReadBlockType(m, st);
      if ft.None? { return None; }
      return Some(IfOp(ft.value));
    case 0x05 => return Some(ElseOp);
    case 0x0b => return Some(EndOp);
    case 0x0e => r := ReadTable(st);
    case 0x0f => return Some(Return);
    case 0x1a => return Some(Drop);
    case 0x1b => return Some(Select);
    case 0x45 => return Some(I32Eqz);
    case 0x6a => return Some(I32Add);
    case 0x6e => return Some(I32DivU);
    case 0x7c => return Some(I64Add);
    case 0xa7 => return Some(I32WrapI64);
    case 0xad => return Some(I64ExtendI32U);
    case 0x0c | 0x0d | 0x10 | 0x20 | 0x21 | 0x22 | 0x23 | 0x24 | 0x3f | 0x40 | 0x41 | 0x42 =>
      r := ReadImmediates(m, b, st);
    case 0xfc => r := ReadBulk(st);
    case _ =>
      if !(0x28 <= b <= 0x3e) { return None; }
      r := ReadAccess(b, st);
  }

  // The callback for an instruction.
  method Notify(ctx: Context, op: Op, pos: nat, len: nat) returns (ok: bool)
    requires ctx.Valid() && len > 0 && (op.BlockOp? || op.LoopOp? || op.IfOp? ==> len == 2)
    modifies ctx`ctrl, ctx`vals, ctx`peak, ctx`jt, ctx`targets
    ensures match Step(ctx.Rules(), old(ctx.Abs()), op, pos, len)
            case Some(v) => ok && ctx.Valid() && ctx.Abs() == v
            case None => !ok
  {
    hide Partition, IfsFirst, SlotsOf, FramesOf, OnSimple, OnBr, OnBrIf, OnBrTable, OnReturn, OnCall, OnElse, OnEnd,
      OnBlock, OnLoop, OnIf, SetUnreachable;
    var imm := pos + 1;
    if op.Unreachable? {
      ok := ctx.SetUnreachable();
    } else if op.BlockOp? || op.LoopOp? || op.IfOp? {
      ok := ctx.OnBlock(op, imm);
    } else if op.ElseOp? {
      ok := ctx.OnElse(imm);
    } else if op.EndOp? {
      ok := ctx.OnEnd(imm);
    } else if op.Br? || op.BrIf? {
      ok := ctx.OnBrOrIf(op.BrIf?, imm, op.depth);
    } else if op.BrTable? {
      if op.depths == [] { NoTable(ctx.Rules(), ctx.Abs(), pos + len + op.skew); return false; }
      ok := ctx.OnBrTable(op.depths, pos + len + op.skew);
    } else if op.Return? {
      ok := ctx.OnReturn();
    } else if op.Call? {
      ok := ctx.OnCall(op.func);
    } else {
      ok := ctx.OnSimpleOp(op);
    }
  }

  lemma NoTable(c: Ctx, v: VState, pc: nat)
    ensures OnBrTable(c, v, [], pc) == None
  {
  }

  // Validation of a function: the walk, the callbacks, and the link pass at the end.
  method ValidateFunction(m: Module, f: Func) returns (r: Option<Prepared>)
    ensures r == Compile(m, f)
  {
    hide Decode, Step, Partition, IfsFirst, SlotsOf, FramesOf, Link;
    var ctx := new Context(m, f);
    ctx.OnDecodeBegin();
    var st := new Stream(f.code);
    ghost var c := Ctx(m, f, false, false);
    while true
      invariant st.Valid() && st.s == f.code && ctx.Valid() && ctx.m == m && ctx.f == f
      invariant Validate(c) == Walk(c, st.p, ctx.Abs())
      decreases |st.s| - st.p
    {
      var pos := st.p;
      var op := ReadOp(m, st);
      if op.None? { return None; }
      BracketLength(m, st.s, pos);
      var ok := Notify(ctx, op.value, pos, st.p - pos);
      if !ok { return None; }
      if op.value.EndOp? && st.p >= |st.s| { break; }
    }
    ctx.OnDecodeEnd();
    r := Some(Prepared(ctx.jt, ctx.peak));
  }
}
