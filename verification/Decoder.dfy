/**
 The walk that fixes instruction boundaries: one instruction at a position, and the byte layout
 of nested bodies.
 */
module Decoder {
  import opened Basics
  import opened Leb128
  import opened Wasm

  // An instruction and the bytes that spell it.
  datatype Instr = Instr(op: Op, len: nat)

  function ValueTypeOf(id: int): Option<ValType> {
    if id == -0x01 then Some(I32)
    else if id == -0x02 then Some(I64)
    else if id == -0x03 then Some(F32)
    else if id == -0x04 then Some(F64)
    else if id == -0x05 then Some(V128)
    else if id == -0x10 then Some(FuncRef)
    else if id == -0x11 then Some(ExternRef)
    else None
  }

  // Block types take one byte: void, a value type, or an index into the module's types.
  function BlockType(m: Module, code: seq<byte>, p: nat): Option<FuncType> {
    var id :- Signed(code, p, 7);
    if id.value == -0x40 then Some(FuncType([], []))
    else if id.value >= 0 then
      if id.value < |m.types| then Some(m.types[id.value]) else None
    else
      var t :- ValueTypeOf(id.value);
      Some(FuncType([], [t]))
  }

  // `count` labels from p, and the position after them.
  function Labels(code: seq<byte>, p: nat, count: nat): (r: Option<(seq<nat>, nat)>)
    ensures r.Some? ==> |r.value.0| == count && p + count <= r.value.1
    decreases count
  {
    if count == 0 then Some(([], p))
    else
      var l :- Index(code, p);
      var (ls, q) :- Labels(code, p + l.len, count - 1);
      Some(([l.value as nat] + ls, q))
  }

  // A u32 immediate.
  function Index(code: seq<byte>, p: nat): (r: Option<Num>)
    ensures r.Some? ==> r.value.value >= 0
  {
    NumbersFit(code, p, 32);
    Unsigned(code, p, 32)
  }

  // A one-byte immediate.
  function Index7(code: seq<byte>, p: nat): (r: Option<Num>)
    ensures r.Some? ==> r.value.value >= 0
  {
    NumbersFit(code, p, 7);
    Unsigned(code, p, 7)
  }

  // The access of a load or store opcode.
  function AccessOf(opcode: byte): Access
    requires 0x28 <= opcode <= 0x3e
  {
    if opcode == 0x28 || opcode == 0x36 then Access(I32, 4, false)
    else if opcode == 0x29 || opcode == 0x37 then Access(I64, 8, false)
    else if opcode == 0x2a || opcode == 0x38 then Access(F32, 4, false)
    else if opcode == 0x2b || opcode == 0x39 then Access(F64, 8, false)
    else if opcode == 0x2c then Access(I32, 1, true)
    else if opcode == 0x2d || opcode == 0x3a then Access(I32, 1, false)
    else if opcode == 0x2e then Access(I32, 2, true)
    else if opcode == 0x2f || opcode == 0x3b then Access(I32, 2, false)
    else if opcode == 0x30 then Access(I64, 1, true)
    else if opcode == 0x31 || opcode == 0x3c then Access(I64, 1, false)
    else if opcode == 0x32 then Access(I64, 2, true)
    else if opcode == 0x33 || opcode == 0x3d then Access(I64, 2, false)
    else if opcode == 0x34 then Access(I64, 4, true)
    else Access(I64, 4, false)
  }

  function MemOp(opcode: byte, align: nat, offset: nat): Op
    requires 0x28 <= opcode <= 0x3e
  {
    if opcode < 0x36 then Load(AccessOf(opcode), align, offset) else Save(AccessOf(opcode), align, offset)
  }

  // Loads and stores: the alignment in one byte, then the offset.
  function Accessing(code: seq<byte>, pos: nat): (r: Option<Instr>)
    requires pos < |code| && 0x28 <= code[pos] <= 0x3e
    ensures r.Some? ==> (r.value.op.Load? || r.value.op.Save?) && r.value.len > 0
  {
    var align :- Index7(code, pos + 1);
    var offset :- Index(code, pos + 1 + align.len);
    Some(Instr(MemOp(code[pos], align.value, offset.value), 1 + align.len + offset.len))
  }

  // A byte that has to be zero.
  function Reserved(code: seq<byte>, p: nat): Option<Num> {
    var z :- Index7(code, p);
    if z.value == 0 then Some(z) else None
  }

  // memory.copy and memory.fill: a second opcode, then memory indices.
  function Bulk(code: seq<byte>, pos: nat): (r: Option<Instr>)
    ensures r.Some? ==> (r.value.op.MemoryCopy? || r.value.op.MemoryFill?) && r.value.len > 0
  {
    var sub :- Index(code, pos + 1);
    if sub.value != 0x0a && sub.value != 0x0b then None
    else
      var z :- Reserved(code, pos + 1 + sub.len);
      if sub.value == 0x0b then Some(Instr(MemoryFill, 1 + sub.len + z.len))
      else
        var z2 :- Reserved(code, pos + 1 + sub.len + z.len);
        Some(Instr(MemoryCopy, 1 + sub.len + z.len + z2.len))
  }

  // Instructions with one u32 immediate.
  function Indexed(opcode: byte, x: nat): (op: Op)
    ensures !IsBracket(op)
  {
    if opcode == 0x10 then Call(x)
    else if opcode == 0x20 then LocalGet(x)
    else if opcode == 0x21 then LocalSet(x)
    else if opcode == 0x22 then LocalTee(x)
    else if opcode == 0x23 then GlobalGet(x)
    else GlobalSet(x)
  }

  // The labels are read as LEB128 numbers, but skipped as one byte each.
  function Table(code: seq<byte>, pos: nat): (r: Option<Instr>)
    ensures r.Some? ==> r.value.op.BrTable?
  {
    var n :- Index(code, pos + 1);
    var (ls, q) :- Labels(code, pos + 1 + n.len, n.value + 1);
    var len := 1 + n.len + n.value + 1;
    if n.value + 1 < 0x1_0000_0000 && pos + len <= |code| then Some(Instr(BrTable(ls, q - (pos + len)), len)) else None
  }

  // The instruction at a position, if the decoder accepts one there.
  function Decode(m: Module, code: seq<byte>, pos: nat): (r: Option<Instr>)
    ensures r.Some? ==> 0 < r.value.len && pos < |code|
  {
    if pos >= |code| then None
    else
      var b := code[pos];
      match b
      case 0x00 => Some(Instr(Unreachable, 1))
      case 0x01 => Some(Instr(Nop, 1))
      case 0x02 | 0x03 | 0x04 =>
        var ft :- BlockType(m, code, pos + 1);
        Some(Instr(if b == 0x02 then BlockOp(ft) else if b == 0x03 then LoopOp(ft) else IfOp(ft), 2))
      case 0x05 => Some(Instr(ElseOp, 1))
      case 0x0b => Some(Instr(EndOp, 1))
      // these two take a raw byte
      case 0x0c => if pos + 1 < |code| then Some(Instr(Br(code[pos + 1]), 2)) else None
      case 0x0d => if pos + 1 < |code| then Some(Instr(BrIf(code[pos + 1]), 2)) else None
      case 0x0e => Table(code, pos)
      case 0x0f => Some(Instr(Return, 1))
      case 0x10 | 0x20 | 0x21 | 0x22 | 0x23 | 0x24 =>
        var x :- Index(code, pos + 1);
        Some(Instr(Indexed(b, x.value), 1 + x.len))
      case 0x1a => Some(Instr(Drop, 1))
      case 0x1b => Some(Instr(Select, 1))
      case 0x3f | 0x40 =>
        var z :- Reserved(code, pos + 1);
        Some(Instr(if b == 0x3f then MemorySize else MemoryGrow, 1 + z.len))
      case 0x41 => var v :- Signed(code, pos + 1, 32); Some(Instr(I32Const(v.value), 1 + v.len))
      case 0x42 => var v :- Signed(code, pos + 1, 64); Some(Instr(I64Const(v.value), 1 + v.len))
      case 0x45 => Some(Instr(I32Eqz, 1))
      case 0x6a => Some(Instr(I32Add, 1))
      case 0x6e => Some(Instr(I32DivU, 1))
      case 0x7c => Some(Instr(I64Add, 1))
      case 0xa7 => Some(Instr(I32WrapI64, 1))
      case 0xad => Some(Instr(I64ExtendI32U, 1))
      case 0xfc => Bulk(code, pos)
      case _ => if 0x28 <= b <= 0x3e then Accessing(code, pos) else None
  }

  // Headers take an opcode and a block type, `else` and `end` an opcode.
  lemma BracketLength(m: Module, code: seq<byte>, pos: nat)
    ensures var i := Decode(m, code, pos);
            i.Some? && IsBracket(i.value.op) ==> i.value.len == if i.value.op.ElseOp? || i.value.op.EndOp? then 1 else 2
  {
    hide Indexed, Unsigned, Signed, Labels, BlockType, Accessing, Bulk, Reserved, Table;
  }

  // ----- Layout -----

  predicate OpAt(m: Module, code: seq<byte>, pos: nat, op: Op, len: nat) {
    Decode(m, code, pos) == Some(Instr(op, len))
  }

  // The bytes at pos spell the body.
  predicate Laid(m: Module, code: seq<byte>, pos: nat, b: Body)
    decreases b
  {
    match b
    case Stop => pos <= |code|
    case Plain(op, len, rest) =>
      !IsBracket(op) && OpAt(m, code, pos, op, len) && Laid(m, code, pos + len, rest)
    case Block(ft, body, rest) =>
      && OpAt(m, code, pos, BlockOp(ft), 2) && Laid(m, code, pos + 2, body)
      && OpAt(m, code, pos + 2 + Size(body), EndOp, 1) && Laid(m, code, pos + 2 + Size(body) + 1, rest)
    case Loop(ft, body, rest) =>
      && OpAt(m, code, pos, LoopOp(ft), 2) && Laid(m, code, pos + 2, body)
      && OpAt(m, code, pos + 2 + Size(body), EndOp, 1) && Laid(m, code, pos + 2 + Size(body) + 1, rest)
    case If(ft, thn, rest) =>
      && OpAt(m, code, pos, IfOp(ft), 2) && Laid(m, code, pos + 2, thn)
      && OpAt(m, code, pos + 2 + Size(thn), EndOp, 1) && Laid(m, code, pos + 2 + Size(thn) + 1, rest)
    case IfElse(ft, thn, els, rest) =>
      && OpAt(m, code, pos, IfOp(ft), 2) && Laid(m, code, pos + 2, thn)
      && OpAt(m, code, pos + 2 + Size(thn), ElseOp, 1) && Laid(m, code, pos + 2 + Size(thn) + 1, els)
      && OpAt(m, code, pos + 2 + Size(thn) + 1 + Size(els), EndOp, 1)
      && Laid(m, code, pos + 2 + Size(thn) + 1 + Size(els) + 1, rest)
  }

  // A function's code is a nested body followed by the function's own end, and nothing more.
  predicate Encodes(m: Module, code: seq<byte>, b: Body) {
    Laid(m, code, 0, b) && Size(b) + 1 == |code| && OpAt(m, code, Size(b), EndOp, 1)
  }

  // A caller's check for that shape: brackets, counted from `open`, close exactly at the last byte.
  predicate Closes(m: Module, code: seq<byte>, pos: nat, open: nat)
    decreases |code| - pos
  {
    var i := Decode(m, code, pos);
    && i.Some?
    && match i.value.op
       case BlockOp(_) | LoopOp(_) | IfOp(_) => Closes(m, code, pos + i.value.len, open + 1)
       case EndOp =>
         if open <= 1 then open == 1 && pos + 1 == |code|
         else pos + 1 < |code| && Closes(m, code, pos + 1, open - 1)
       case _ => Closes(m, code, pos + i.value.len, open)
  }
}
