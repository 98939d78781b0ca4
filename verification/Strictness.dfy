/**
 Exactly where the source's validator departs from the rules of section 3.3 of the WebAssembly Core
 Specification, for instructions as the decoder delivers them: which checks it leaves out,
 instruction by instruction and over a whole function. And exactly when the immediates that the
 source reads as single bytes are what the specification's LEB128 numbers say.
 */
module Strictness {
  import opened Basics
  import opened Leb128
  import opened Wasm
  import opened Decoder
  import opened Validation

  // The source's validator. The specification's is the one with both flags.
  function SourceRules(c: Ctx): Ctx {
    c.(strict := false, full := false)
  }

  // Whatever d checks, c checks.
  predicate Stricter(c: Ctx, d: Ctx) {
    c.m == d.m && c.f == d.f && (d.strict ==> c.strict) && (d.full ==> c.full)
  }

  // What the flags make the validator check beyond the source, at one instruction.
  predicate Guard(c: Ctx, v: VState, op: Op) {
    match op
    case EndOp =>
      c.strict ==> NothingLeft(v) && (v.ctrl != [] && Top(v).kind.IfK? ==> Top(v).ftype.params == Top(v).ftype.results)
    case ElseOp => c.strict ==> NothingLeft(v)
    case MemorySize | MemoryGrow => c.strict ==> c.m.memMax.Some?
    case Load(acc, align, _) => c.full ==> AlignedTo(acc.width, align)
    case Save(acc, align, _) => c.full ==> AlignedTo(acc.width, align)
    case GlobalSet(x) => c.full && x < |c.m.globals| ==> c.m.globals[x].mutable
    case _ => true
  }

  // Under the frame's results lies nothing of the frame's own.
  predicate NothingLeft(v: VState) {
    v.ctrl != [] && PopVals(v, Top(v).ftype.results).Some? ==>
      |PopVals(v, Top(v).ftype.results).value.vals| == Top(v).height
  }

  // ----- More checks only refuse -----

  // Apart from `end`, `else` and the signatures of simple instructions no rule looks at the flags.
  lemma FlagsIgnored(c: Ctx, d: Ctx, v: VState, op: Op, pos: nat, len: nat)
    requires c.m == d.m && c.f == d.f && !op.EndOp? && !op.ElseOp? && Signature(c, op) == Signature(d, op)
    ensures Step(c, v, op, pos, len) == Step(d, v, op, pos, len)
  {
    hide OnBlock, OnLoop, OnIf, OnBr, OnBrIf, OnBrTable, OnReturn, OnCall, OnSimple, Signature, SetUnreachable;
    if op.BlockOp? || op.LoopOp? || op.IfOp? {
      OpenIgnores(c, d, v, op.ft, pos + 1);
    } else if op.Br? || op.BrIf? {
      BranchIgnores(c, d, v, op.depth, pos + 1);
    } else if op.BrTable? {
      TableIgnores(c, d, v, op.depths, pos + len + op.skew);
    } else if op.Call? {
      CallIgnores(c, d, v, op.func);
    } else if op.Return? {
      ReturnIgnores(c, d, v);
    } else {
      SimpleIgnores(c, d, v, op);
    }
  }

  lemma OpenIgnores(c: Ctx, d: Ctx, v: VState, ft: FuncType, imm: nat)
    ensures OnBlock(c, v, ft) == OnBlock(d, v, ft) && OnLoop(c, v, ft, imm) == OnLoop(d, v, ft, imm)
    ensures OnIf(c, v, ft, imm) == OnIf(d, v, ft, imm)
  {
    hide PopVals, PopExpect, PushCtrl;
  }

  lemma BranchIgnores(c: Ctx, d: Ctx, v: VState, n: nat, imm: nat)
    ensures OnBr(c, v, n, imm) == OnBr(d, v, n, imm) && OnBrIf(c, v, n, imm) == OnBrIf(d, v, n, imm)
  {
    hide PopVals, PushVals, PopExpect, SetUnreachable, BranchSlot;
  }

  lemma TableIgnores(c: Ctx, d: Ctx, v: VState, ls: seq<nat>, pc: nat)
    ensures OnBrTable(c, v, ls, pc) == OnBrTable(d, v, ls, pc)
  {
    hide PopVals, PopExpect, TableSlots, SetUnreachable;
  }

  lemma CallIgnores(c: Ctx, d: Ctx, v: VState, g: nat)
    requires c.m == d.m
    ensures OnCall(c, v, g) == OnCall(d, v, g)
  {
    hide PopVals, PushVals;
  }

  lemma ReturnIgnores(c: Ctx, d: Ctx, v: VState)
    ensures OnReturn(c, v) == OnReturn(d, v)
  {
    hide PopVals, SetUnreachable;
  }

  lemma SimpleIgnores(c: Ctx, d: Ctx, v: VState, op: Op)
    requires Signature(c, op) == Signature(d, op)
    ensures OnSimple(c, v, op) == OnSimple(d, v, op)
  {
    hide PopVals, PushVals, PopVal, OnSelect, Signature;
  }

  lemma SignatureRefuses(c: Ctx, d: Ctx, op: Op)
    requires Stricter(c, d)
    ensures Signature(c, op) == None || Signature(c, op) == Signature(d, op)
  {
  }

  lemma NoSignature(c: Ctx, v: VState, op: Op, pos: nat, len: nat)
    requires IsSimple(op) && !op.Drop? && !op.Select? && Signature(c, op) == None
    ensures Step(c, v, op, pos, len) == None
  {
    hide Signature;
  }

  lemma JumpSignature(c: Ctx, d: Ctx, op: Op)
    requires !IsSimple(op) || op.Drop? || op.Select?
    ensures Signature(c, op) == Signature(d, op) == None
  {
  }

  // At `end` and `else`.
  lemma CloseRefuses(c: Ctx, d: Ctx, v: VState, op: Op, pos: nat, len: nat)
    requires Stricter(c, d) && (op.EndOp? || op.ElseOp?)
    ensures Step(c, v, op, pos, len) == None || Step(c, v, op, pos, len) == Step(d, v, op, pos, len)
  {
    hide PopVals, PushVals, ResolveAll, ResolveElse, PushCtrl;
  }

  lemma StepRefuses(c: Ctx, d: Ctx, v: VState, op: Op, pos: nat, len: nat)
    requires Stricter(c, d)
    ensures Step(c, v, op, pos, len) == None || Step(c, v, op, pos, len) == Step(d, v, op, pos, len)
  {
    hide Step, Signature;
    if op.EndOp? || op.ElseOp? {
      CloseRefuses(c, d, v, op, pos, len);
    } else if IsSimple(op) && !op.Drop? && !op.Select? {
      SignatureRefuses(c, d, op);
      if Signature(c, op) == None {
        NoSignature(c, v, op, pos, len);
      } else {
        FlagsIgnored(c, d, v, op, pos, len);
      }
    } else {
      JumpSignature(c, d, op);
      FlagsIgnored(c, d, v, op, pos, len);
    }
  }

  lemma {:induction false} WalkRefuses(c: Ctx, d: Ctx, pos: nat, v: VState)
    requires Stricter(c, d)
    ensures Walk(c, pos, v) == None || Walk(c, pos, v) == Walk(d, pos, v)
    decreases |c.f.code| - pos
  {
    hide Step, Decode;
    var i := Decode(c.m, c.f.code, pos);
    if i.Some? {
      var Instr(op, len) := i.value;
      StepRefuses(c, d, v, op, pos, len);
      var v1 := Step(c, v, op, pos, len);
      if v1.Some? && !(op.EndOp? && pos + len >= |c.f.code|) {
        WalkRefuses(c, d, pos + len, v1.value);
      }
    }
  }

  // Whatever a validator with more checks accepts, one with fewer accepts with the same result.
  lemma StricterRefuses(c: Ctx, d: Ctx)
    requires Stricter(c, d)
    ensures Validate(c) == None || Validate(c) == Validate(d)
  {
    assert Begin(c) == Begin(d);
    WalkRefuses(c, d, 0, Begin(c));
  }

  // ----- Exactly when they refuse -----

  lemma SignatureAgrees(c: Ctx, v: VState, op: Op)
    requires IsSimple(op)
    ensures Signature(c, op) == if Guard(c, v, op) then Signature(SourceRules(c), op) else None
  {
    hide AlignedTo;
  }

  lemma SimpleAgrees(c: Ctx, v: VState, op: Op, pos: nat, len: nat)
    requires IsSimple(op) && !op.Drop? && !op.Select?
    ensures Step(c, v, op, pos, len) == if Guard(c, v, op) then Step(SourceRules(c), v, op, pos, len) else None
  {
    hide Signature, Step, Guard;
    SignatureAgrees(c, v, op);
    if Signature(c, op) == Signature(SourceRules(c), op) {
      FlagsIgnored(c, SourceRules(c), v, op, pos, len);
    }
    if Signature(c, op) == None {
      NoSignature(c, v, op, pos, len);
    }
  }

  lemma CloseAgrees(c: Ctx, v: VState, op: Op, pos: nat, len: nat)
    requires op.EndOp? || op.ElseOp?
    ensures Step(c, v, op, pos, len) == if Guard(c, v, op) then Step(SourceRules(c), v, op, pos, len) else None
  {
    hide PopVals, PushVals, ResolveAll, ResolveElse, PushCtrl;
  }

  // One instruction: accepted is what the source accepts with the guard met, with the same result.
  lemma StepAgrees(c: Ctx, v: VState, op: Op, pos: nat, len: nat)
    ensures Step(c, v, op, pos, len) == if Guard(c, v, op) then Step(SourceRules(c), v, op, pos, len) else None
  {
    hide Step, Signature;
    if op.EndOp? || op.ElseOp? {
      CloseAgrees(c, v, op, pos, len);
    } else if IsSimple(op) && !op.Drop? && !op.Select? {
      SimpleAgrees(c, v, op, pos, len);
    } else {
      JumpSignature(c, SourceRules(c), op);
      FlagsIgnored(c, SourceRules(c), v, op, pos, len);
    }
  }

  // The guards along the source's walk.
  predicate Guarded(c: Ctx, pos: nat, v: VState)
    decreases |c.f.code| - pos
  {
    var i := Decode(c.m, c.f.code, pos);
    i.None? ||
    var v1 := Step(SourceRules(c), v, i.value.op, pos, i.value.len);
    v1.None? ||
    (Guard(c, v, i.value.op)
     && ((i.value.op.EndOp? && pos + i.value.len >= |c.f.code|) || Guarded(c, pos + i.value.len, v1.value)))
  }

  lemma {:induction false} WalkAgrees(c: Ctx, pos: nat, v: VState)
    ensures Walk(c, pos, v) == if Guarded(c, pos, v) then Walk(SourceRules(c), pos, v) else None
    decreases |c.f.code| - pos
  {
    hide Step, Decode, Guard;
    var i := Decode(c.m, c.f.code, pos);
    if i.Some? {
      var Instr(op, len) := i.value;
      StepAgrees(c, v, op, pos, len);
      var v1 := Step(SourceRules(c), v, op, pos, len);
      if v1.Some? && Guard(c, v, op) && !(op.EndOp? && pos + len >= |c.f.code|) {
        WalkAgrees(c, pos + len, v1.value);
      }
    }
  }

  // A whole function: for either flag and for both, accepted is exactly what the source accepts with
  // every guard met.
  lemma ValidateAgrees(c: Ctx)
    ensures Validate(c).Some? <==> Validate(SourceRules(c)).Some? && Guarded(c, 0, Begin(c))
    ensures Validate(c).Some? ==> Validate(c) == Validate(SourceRules(c))
  {
    assert Begin(c) == Begin(SourceRules(c));
    WalkAgrees(c, 0, Begin(c));
  }

  // ----- Immediates read as single bytes -----

  // A number of at most 7 bits is the number of n bits at the same place exactly when its first byte
  // says that none follow, or neither is there.
  lemma OneByteUnsigned(s: seq<byte>, p: nat, n: nat)
    requires n >= 7
    ensures Unsigned(s, p, 7) == Unsigned(s, p, n) <==> Unsigned(s, p, n).None? || s[p] < 128
  {
    Pow2Values();
    Pow2Monotone(7, n);
  }

  lemma OneByteSigned(s: seq<byte>, p: nat, n: nat)
    requires n >= 7
    ensures Signed(s, p, 7) == Signed(s, p, n) <==> Signed(s, p, n).None? || s[p] < 128
  {
    Pow2Values();
    Pow2Monotone(6, n - 1);
  }

  // br and br_if: the raw byte is the label that the specification reads exactly when it is below 128.
  lemma RawLabel(m: Module, code: seq<byte>, pos: nat)
    requires pos + 1 < |code| && code[pos] in {0x0c, 0x0d}
    ensures var spec := Index(code, pos + 1);
            var op := if code[pos] == 0x0c then Br(code[pos + 1]) else BrIf(code[pos + 1]);
            && Decode(m, code, pos) == Some(Instr(op, 2))
            && (spec == Some(Num(op.depth, 1)) <==> code[pos + 1] < 128)
  {
    hide Labels, BlockType, Table, Signed;
    Pow2Values();
  }

  // The alignment of a load or store, a u32 in the specification.
  lemma AlignmentByte(code: seq<byte>, p: nat)
    ensures Index7(code, p) == Index(code, p) <==> Index(code, p).None? || code[p] < 128
  {
    OneByteUnsigned(code, p, 32);
  }

  // A block type, an s33 in the specification.
  lemma BlockTypeByte(code: seq<byte>, p: nat)
    ensures Signed(code, p, 7) == Signed(code, p, 33) <==> Signed(code, p, 33).None? || code[p] < 128
  {
    OneByteSigned(code, p, 33);
  }

  lemma {:induction false} LabelBytes(code: seq<byte>, p: nat, count: nat)
    requires p <= |code| && Labels(code, p, count).Some?
    ensures var q := Labels(code, p, count).value.1;
            q == p + count <==> p + count <= |code| && forall i :: p <= i < p + count ==> code[i] < 128
    ensures Labels(code, p, count).value.1 <= |code|
    decreases count
  {
    hide Unsigned;
    if count > 0 {
      NumbersFit(code, p, 32);
      var l := Unsigned(code, p, 32).value;
      FirstByte(code, p, 32);
      LabelBytes(code, p + l.len, count - 1);
      assert Labels(code, p, count).value.1 == Labels(code, p + l.len, count - 1).value.1;
      if l.len > 1 {
        assert code[p] >= 128;
      }
    }
  }

  lemma FirstByte(s: seq<byte>, p: nat, n: nat)
    requires Unsigned(s, p, n).Some?
    ensures p < |s| && (Unsigned(s, p, n).value.len == 1 <==> s[p] < 128)
  {
  }

  // Decoder and validator agree where a br_table ends exactly when each of its labels is one byte.
  lemma TableSkew(code: seq<byte>, pos: nat, ls: seq<nat>, skew: nat, len: nat)
    requires Table(code, pos) == Some(Instr(BrTable(ls, skew), len))
    ensures var n := Unsigned(code, pos + 1, 32);
            && n.Some? && pos + len <= |code|
            && (skew == 0 <==> forall i :: pos + 1 + n.value.len <= i < pos + len ==> code[i] < 128)
  {
    hide Unsigned, Table, Labels;
    TableFields(code, pos, ls, skew, len);
    var n := Unsigned(code, pos + 1, 32).value;
    LabelBytes(code, pos + 1 + n.len, n.value + 1);
  }

  lemma TableFields(code: seq<byte>, pos: nat, ls: seq<nat>, skew: nat, len: nat)
    requires Table(code, pos) == Some(Instr(BrTable(ls, skew), len))
    ensures Unsigned(code, pos + 1, 32).Some? && pos + len <= |code|
    ensures var n := Unsigned(code, pos + 1, 32).value;
            && n.value >= 0 && len == 1 + n.len + n.value + 1
            && Labels(code, pos + 1 + n.len, n.value + 1) == Some((ls, pos + len + skew))
  {
    hide Unsigned, Labels;
    NumbersFit(code, pos + 1, 32);
  }
}
