/**
 From bytes to nested bodies. Code that the validator accepts and whose brackets close exactly
 at its last byte spells a nested body followed by the function's own end, and only such code
 does. On it the decoder's walk is the structural run over the body.
 */
module Nesting {
  import opened Basics
  import opened Leb128
  import opened Wasm
  import opened Decoder
  import opened Validation

  // Same frames up to reachability and the operands below.
  ghost predicate SameKinds(a: seq<Frame>, b: seq<Frame>) {
    |a| == |b| && forall i :: 0 <= i < |a| ==> a[i].kind == b[i].kind
  }

  lemma {:induction false} TableKinds(v: VState, ls: seq<nat>, arity: nat, pc: nat)
    requires TableSlots(v, ls, arity, pc).Some?
    ensures TableSlots(v, ls, arity, pc).value.ctrl == v.ctrl
    decreases |ls|
  {
    if ls != [] {
      var d := |v.ctrl| - ls[0] - 1;
      var (v1, popped) := PopTypes(AddSlot(v, BranchSlot(v, pc, d)), LabelTypes(v.ctrl[d])).value;
      TableKinds(PushVals(v1, popped), ls[1..], arity, pc);
    }
  }

  lemma UnreachableKinds(v: VState)
    requires SetUnreachable(v).Some?
    ensures SameKinds(v.ctrl, SetUnreachable(v).value.ctrl)
  {
  }

  lemma PlainKinds(c: Ctx, v: VState, op: Op, pos: nat, len: nat)
    requires !IsBracket(op) && Step(c, v, op, pos, len).Some?
    ensures SameKinds(v.ctrl, Step(c, v, op, pos, len).value.ctrl)
  {
    hide PopVals, PopExpect, PopVal, PopTypes, PushVals, SetUnreachable, TableSlots, BranchSlot, Signature, SameKinds;
    var pc := pos + len;
    match op
    case Unreachable => UnreachableKinds(v);
    case Br(n) =>
      var d := |v.ctrl| - n - 1;
      UnreachableKinds(PopVals(AddSlot(v, BranchSlot(v, pos + 1, d)), LabelTypes(v.ctrl[d])).value);
    case BrTable(ls, skew) =>
      var v0 := PopExpect(v, I32).value.0;
      var last := LabelTypes(v0.ctrl[|v0.ctrl| - ls[|ls| - 1] - 1]);
      TableKinds(v0, ls, |last|, pc + skew);
      var v1 := TableSlots(v0, ls, |last|, pc + skew).value;
      UnreachableKinds(PopVals(v1, last).value);
    case Return => UnreachableKinds(PopVals(v, LabelTypes(v.ctrl[0])).value);
    case _ => KindsSame(v.ctrl);
  }

  lemma KindsSame(a: seq<Frame>)
    ensures SameKinds(a, a)
  {
  }

  // The kinds after a bracket.
  lemma BracketKinds(c: Ctx, v: VState, op: Op, pos: nat, len: nat)
    requires IsBracket(op) && Step(c, v, op, pos, len).Some?
    ensures var ctrl := Step(c, v, op, pos, len).value.ctrl;
            if op.EndOp? then v.ctrl != [] && ctrl == v.ctrl[..|v.ctrl| - 1]
            else if op.ElseOp? then
              && v.ctrl != [] && Top(v).kind == IfK && |ctrl| == |v.ctrl|
              && ctrl[..|v.ctrl| - 1] == v.ctrl[..|v.ctrl| - 1] && ctrl[|v.ctrl| - 1].kind == ElseK
            else
              && |ctrl| == |v.ctrl| + 1 && ctrl[..|v.ctrl|] == v.ctrl
              && ctrl[|v.ctrl|].kind == (if op.BlockOp? then BlockK else if op.LoopOp? then LoopK else IfK)
  {
    hide PopVals, PopExpect, PopTypes, PushVals;
  }

  // Reading a body up to its terminator. vf is what the rest of the walk will end with.
  lemma {:induction false} Parse(c: Ctx, pos: nat, v: VState, vf: VState) returns (b: Body, v1: VState)
    requires |v.ctrl| > 0 && Walk(c, pos, v) == Some(vf) && Closes(c.m, c.f.code, pos, |v.ctrl|)
    ensures Laid(c.m, c.f.code, pos, b) && SameKinds(v.ctrl, v1.ctrl)
    ensures var e := pos + Size(b);
            && Walk(c, e, v1) == Some(vf) && Closes(c.m, c.f.code, e, |v1.ctrl|)
            && (OpAt(c.m, c.f.code, e, EndOp, 1) || (OpAt(c.m, c.f.code, e, ElseOp, 1) && Top(v1).kind == IfK))
    decreases |c.f.code| - pos
  {
    hide Step, Decode, Laid;
    var Instr(op, len) := Decode(c.m, c.f.code, pos).value;
    var w := Step(c, v, op, pos, len).value;
    if IsBracket(op) {
      BracketKinds(c, v, op, pos, len);
      BracketLength(c.m, c.f.code, pos);
    }
    if op.EndOp? || op.ElseOp? {
      b, v1 := Stop, v;
      KindsSame(v.ctrl);
      LaidStop(c.m, c.f.code, pos);
    } else if op.BlockOp? || op.LoopOp? || op.IfOp? {
      var y: VState, next: nat;
      b, y, next := ParseNest(c, pos, v, vf, op, w);
      var rest;
      rest, v1 := Parse(c, next, y, vf);
      LaidRest(c.m, c.f.code, pos, b, rest);
      KindsTrans(v.ctrl, y.ctrl, v1.ctrl);
      b := WithRest(b, rest);
    } else {
      PlainKinds(c, v, op, pos, len);
      var rest;
      rest, v1 := Parse(c, pos + len, w, vf);
      KindsTrans(v.ctrl, w.ctrl, v1.ctrl);
      b := Plain(op, len, rest);
      LaidPlain(c.m, c.f.code, pos, op, len, rest);
    }
  }

  // One bracketed instruction, from its header to after its `end`.
  lemma {:induction false} ParseNest(c: Ctx, pos: nat, v: VState, vf: VState, op: Op, w: VState)
    returns (b: Body, y: VState, next: nat)
    requires |v.ctrl| > 0 && (op.BlockOp? || op.LoopOp? || op.IfOp?)
    requires OpAt(c.m, c.f.code, pos, op, 2) && Step(c, v, op, pos, 2) == Some(w)
    requires Walk(c, pos + 2, w) == Some(vf) && Closes(c.m, c.f.code, pos + 2, |w.ctrl|)
    ensures !b.Stop? && !b.Plain? && WithRest(b, Stop) == b && Laid(c.m, c.f.code, pos, b)
    ensures next == pos + Size(b) && next > pos && SameKinds(v.ctrl, y.ctrl)
    ensures Walk(c, next, y) == Some(vf) && Closes(c.m, c.f.code, next, |y.ctrl|)
    decreases |c.f.code| - pos - 1
  {
    hide Step, Decode, Laid;
    BracketKinds(c, v, op, pos, 2);
    var body, x := Parse(c, pos + 2, w, vf);
    var e := pos + 2 + Size(body);
    if OpAt(c.m, c.f.code, e, ElseOp, 1) {
      var z := Step(c, x, ElseOp, e, 1).value;
      BracketKinds(c, x, ElseOp, e, 1);
      var els, u := Parse(c, e + 1, z, vf);
      var e2 := e + 1 + Size(els);
      y, next := Step(c, u, EndOp, e2, 1).value, e2 + 1;
      BracketKinds(c, u, EndOp, e2, 1);
      b := IfElse(op.ft, body, els, Stop);
      assert e2 < |c.f.code|;
      LaidElse(c.m, c.f.code, pos, op.ft, body, els);
    } else {
      y, next := Step(c, x, EndOp, e, 1).value, e + 1;
      BracketKinds(c, x, EndOp, e, 1);
      b := if op.BlockOp? then Block(op.ft, body, Stop) else if op.LoopOp? then Loop(op.ft, body, Stop)
          else If(op.ft, body, Stop);
      LaidNest(c.m, c.f.code, pos, op, body);
    }
  }

  lemma KindsTrans(a: seq<Frame>, b: seq<Frame>, c: seq<Frame>)
    requires SameKinds(a, b) && SameKinds(b, c)
    ensures SameKinds(a, c)
  {
  }

  // The same instruction followed by something else.
  function WithRest(b: Body, rest: Body): Body {
    match b
    case Stop => rest
    case Plain(op, len, _) => Plain(op, len, rest)
    case Block(ft, body, _) => Block(ft, body, rest)
    case Loop(ft, body, _) => Loop(ft, body, rest)
    case If(ft, thn, _) => If(ft, thn, rest)
    case IfElse(ft, thn, els, _) => IfElse(ft, thn, els, rest)
  }

  lemma LaidStop(m: Module, code: seq<byte>, pos: nat)
    requires pos <= |code|
    ensures Laid(m, code, pos, Stop)
  {
  }

  lemma LaidPlain(m: Module, code: seq<byte>, pos: nat, op: Op, len: nat, rest: Body)
    requires !IsBracket(op) && OpAt(m, code, pos, op, len) && Laid(m, code, pos + len, rest)
    ensures Laid(m, code, pos, Plain(op, len, rest))
  {
    hide OpAt;
  }

  lemma LaidRest(m: Module, code: seq<byte>, pos: nat, b: Body, rest: Body)
    requires !b.Stop? && WithRest(b, Stop) == b && Laid(m, code, pos, b) && Laid(m, code, pos + Size(b), rest)
    ensures Laid(m, code, pos, WithRest(b, rest)) && Size(WithRest(b, rest)) == Size(b) + Size(rest)
  {
    hide OpAt, Laid, NestLaid, ElseLaid;
    LaidCases(m, code, pos, b);
    match b
    case Plain(op, len, _) => LaidPlain(m, code, pos, op, len, rest);
    case Block(ft, body, _) => NestMore(m, code, pos, BlockOp(ft), body, rest);
    case Loop(ft, body, _) => NestMore(m, code, pos, LoopOp(ft), body, rest);
    case If(ft, thn, _) => NestMore(m, code, pos, IfOp(ft), thn, rest);
    case IfElse(ft, thn, els, _) => ElseMore(m, code, pos, ft, thn, els, rest);
  }

  lemma NestMore(m: Module, code: seq<byte>, pos: nat, op: Op, body: Body, rest: Body)
    requires NestLaid(m, code, op, body, Stop, pos) && Laid(m, code, pos + 2 + Size(body) + 1, rest)
    ensures op.BlockOp? ==> Laid(m, code, pos, Block(op.ft, body, rest))
    ensures op.LoopOp? ==> Laid(m, code, pos, Loop(op.ft, body, rest))
    ensures op.IfOp? ==> Laid(m, code, pos, If(op.ft, body, rest))
  {
    hide OpAt, Size;
  }

  lemma ElseMore(m: Module, code: seq<byte>, pos: nat, ft: FuncType, thn: Body, els: Body, rest: Body)
    requires ElseLaid(m, code, ft, thn, els, Stop, pos) && Laid(m, code, pos + 2 + Size(thn) + 1 + Size(els) + 1, rest)
    ensures Laid(m, code, pos, IfElse(ft, thn, els, rest))
  {
    hide OpAt, Size;
  }

  lemma LaidNest(m: Module, code: seq<byte>, pos: nat, op: Op, body: Body)
    requires op.BlockOp? || op.LoopOp? || op.IfOp?
    requires OpAt(m, code, pos, op, 2) && Laid(m, code, pos + 2, body) && OpAt(m, code, pos + 2 + Size(body), EndOp, 1)
    ensures op.BlockOp? ==> Laid(m, code, pos, Block(op.ft, body, Stop))
    ensures op.LoopOp? ==> Laid(m, code, pos, Loop(op.ft, body, Stop))
    ensures op.IfOp? ==> Laid(m, code, pos, If(op.ft, body, Stop))
  {
    hide OpAt, Size, Laid;
    InsideEnd(m, code, pos + 2 + Size(body));
    LaidStop(m, code, pos + 2 + Size(body) + 1);
    NestMore(m, code, pos, op, body, Stop);
  }

  lemma InsideEnd(m: Module, code: seq<byte>, e: nat)
    requires OpAt(m, code, e, EndOp, 1)
    ensures e + 1 <= |code|
  {
  }

  lemma LaidElse(m: Module, code: seq<byte>, pos: nat, ft: FuncType, thn: Body, els: Body)
    requires OpAt(m, code, pos, IfOp(ft), 2) && Laid(m, code, pos + 2, thn)
    requires OpAt(m, code, pos + 2 + Size(thn), ElseOp, 1) && Laid(m, code, pos + 2 + Size(thn) + 1, els)
    requires OpAt(m, code, pos + 2 + Size(thn) + 1 + Size(els), EndOp, 1)
    requires pos + 2 + Size(thn) + 1 + Size(els) + 1 <= |code|
    ensures Laid(m, code, pos, IfElse(ft, thn, els, Stop))
  {
    hide OpAt, Size, Laid;
    LaidStop(m, code, pos + 2 + Size(thn) + 1 + Size(els) + 1);
    ElseMore(m, code, pos, ft, thn, els, Stop);
  }

  // ----- The body determines the scan and the walk -----

  predicate NestLaid(m: Module, code: seq<byte>, op: Op, body: Body, rest: Body, pos: nat) {
    && (op.BlockOp? || op.LoopOp? || op.IfOp?)
    && OpAt(m, code, pos, op, 2) && Laid(m, code, pos + 2, body)
    && OpAt(m, code, pos + 2 + Size(body), EndOp, 1) && Laid(m, code, pos + 2 + Size(body) + 1, rest)
  }

  predicate ElseLaid(m: Module, code: seq<byte>, ft: FuncType, thn: Body, els: Body, rest: Body, pos: nat) {
    && OpAt(m, code, pos, IfOp(ft), 2) && Laid(m, code, pos + 2, thn)
    && OpAt(m, code, pos + 2 + Size(thn), ElseOp, 1) && Laid(m, code, pos + 2 + Size(thn) + 1, els)
    && OpAt(m, code, pos + 2 + Size(thn) + 1 + Size(els), EndOp, 1)
    && Laid(m, code, pos + 2 + Size(thn) + 1 + Size(els) + 1, rest)
  }

  lemma LaidCases(m: Module, code: seq<byte>, pos: nat, b: Body)
    requires Laid(m, code, pos, b)
    ensures b.Plain? ==>
            !IsBracket(b.op) && OpAt(m, code, pos, b.op, b.len) && Laid(m, code, pos + b.len, b.rest) && b.len > 0
    ensures b.Block? ==> NestLaid(m, code, BlockOp(b.ft), b.body, b.rest, pos)
    ensures b.Loop? ==> NestLaid(m, code, LoopOp(b.ft), b.body, b.rest, pos)
    ensures b.If? ==> NestLaid(m, code, IfOp(b.ft), b.thn, b.rest, pos)
    ensures b.IfElse? ==> ElseLaid(m, code, b.ft, b.thn, b.els, b.rest, pos)
  {
    hide Decode;
  }

  lemma {:induction false} BodyCloses(m: Module, code: seq<byte>, pos: nat, b: Body, open: nat)
    requires Laid(m, code, pos, b) && pos + Size(b) < |code| && open >= 1
    ensures Closes(m, code, pos, open) == Closes(m, code, pos + Size(b), open)
    decreases Size(b), 1
  {
    hide Laid, OpAt, Closes, NestLaid, ElseLaid;
    LaidCases(m, code, pos, b);
    match b
    case Stop =>
    case Plain(op, len, rest) =>
      PlainCloses(m, code, pos, op, len, open);
      BodyCloses(m, code, pos + len, rest, open);
    case Block(ft, body, rest) => NestCloses(m, code, pos, BlockOp(ft), body, rest, open);
    case Loop(ft, body, rest) => NestCloses(m, code, pos, LoopOp(ft), body, rest, open);
    case If(ft, thn, rest) => NestCloses(m, code, pos, IfOp(ft), thn, rest, open);
    case IfElse(ft, thn, els, rest) => ElseCloses(m, code, pos, ft, thn, els, rest, open);
  }

  lemma PlainCloses(m: Module, code: seq<byte>, pos: nat, op: Op, len: nat, open: nat)
    requires !IsBracket(op) || op.ElseOp?
    requires OpAt(m, code, pos, op, len)
    ensures len > 0 && Closes(m, code, pos, open) == Closes(m, code, pos + len, open)
  {
    hide Decode;
  }

  lemma {:induction false} NestCloses(m: Module, code: seq<byte>, pos: nat, op: Op, body: Body, rest: Body, open: nat)
    requires NestLaid(m, code, op, body, rest, pos)
    requires pos + 2 + Size(body) + 1 + Size(rest) < |code| && open >= 1
    ensures Closes(m, code, pos, open) == Closes(m, code, pos + 2 + Size(body) + 1 + Size(rest), open)
    decreases 2 + Size(body) + 1 + Size(rest), 0
  {
    hide Decode, Laid;
    BodyCloses(m, code, pos + 2, body, open + 1);
    BodyCloses(m, code, pos + 2 + Size(body) + 1, rest, open);
  }

  lemma {:induction false} ElseCloses(m: Module, code: seq<byte>, pos: nat, ft: FuncType, thn: Body, els: Body,
        rest: Body, open: nat)
    requires ElseLaid(m, code, ft, thn, els, rest, pos)
    requires pos + Size(IfElse(ft, thn, els, rest)) < |code| && open >= 1
    ensures Closes(m, code, pos, open) == Closes(m, code, pos + Size(IfElse(ft, thn, els, rest)), open)
    decreases Size(IfElse(ft, thn, els, rest)), 0
  {
    var e := pos + 2 + Size(thn);
    var e2 := e + 1 + Size(els);
    hide Decode, Laid;
    BodyCloses(m, code, pos + 2, thn, open + 1);
    PlainCloses(m, code, e, ElseOp, 1, open + 1);
    BodyCloses(m, code, e + 1, els, open + 1);
    BodyCloses(m, code, e2 + 1, rest, open);
  }

  // The walk over a body, and then the walk from its end.
  function Onward(c: Ctx, pos: nat, v: Option<VState>): Option<VState> {
    match v
    case None => None
    case Some(v1) => Walk(c, pos, v1)
  }

  lemma WalkOp(c: Ctx, pos: nat, v: VState, op: Op, len: nat)
    requires OpAt(c.m, c.f.code, pos, op, len) && (pos + len < |c.f.code| || !op.EndOp?)
    ensures Walk(c, pos, v) == Onward(c, pos + len, Step(c, v, op, pos, len))
  {
    hide Decode, Step;
  }

  lemma {:induction false} WalkRun(c: Ctx, b: Body, pos: nat, v: VState)
    requires Laid(c.m, c.f.code, pos, b) && pos + Size(b) < |c.f.code|
    ensures Walk(c, pos, v) == Onward(c, pos + Size(b), Run(c, b, pos, v))
    decreases Size(b), 1
  {
    hide Laid, OpAt, NestLaid, ElseLaid, Step, Walk, Run, NestRun, ElseRun;
    LaidCases(c.m, c.f.code, pos, b);
    RunCases(c, b, pos, v);
    match b
    case Stop =>
    case Plain(op, len, rest) =>
      WalkOp(c, pos, v, op, len);
      var w := Step(c, v, op, pos, len);
      if w.Some? {
        WalkRun(c, rest, pos + len, w.value);
      }
    case Block(ft, body, rest) => WalkNest(c, BlockOp(ft), body, rest, pos, v);
    case Loop(ft, body, rest) => WalkNest(c, LoopOp(ft), body, rest, pos, v);
    case If(ft, thn, rest) => WalkNest(c, IfOp(ft), thn, rest, pos, v);
    case IfElse(ft, thn, els, rest) => WalkElse(c, ft, thn, els, rest, pos, v);
  }

  // What Run computes for a bracketed instruction and what follows it.
  function NestRun(c: Ctx, op: Op, body: Body, rest: Body, pos: nat, v: VState): Option<VState> {
    var v1 :- Step(c, v, op, pos, 2);
    var v2 :- Run(c, body, pos + 2, v1);
    var e := pos + 2 + Size(body);
    var v3 :- Step(c, v2, EndOp, e, 1);
    Run(c, rest, e + 1, v3)
  }

  // The same for an if-else.
  function ElseRun(c: Ctx, ft: FuncType, thn: Body, els: Body, rest: Body, pos: nat, v: VState): Option<VState> {
    var v1 :- Step(c, v, IfOp(ft), pos, 2);
    var v2 :- Run(c, thn, pos + 2, v1);
    var e := pos + 2 + Size(thn);
    var v3 :- Step(c, v2, ElseOp, e, 1);
    var v4 :- Run(c, els, e + 1, v3);
    var e2 := e + 1 + Size(els);
    var v5 :- Step(c, v4, EndOp, e2, 1);
    Run(c, rest, e2 + 1, v5)
  }

  lemma RunCases(c: Ctx, b: Body, pos: nat, v: VState)
    ensures b.Stop? ==> Run(c, b, pos, v) == Some(v)
    ensures b.Plain? ==> Run(c, b, pos, v) == match Step(c, v, b.op, pos, b.len)
                                              case None => None case Some(w) => Run(c, b.rest, pos + b.len, w)
    ensures b.Block? ==> Run(c, b, pos, v) == NestRun(c, BlockOp(b.ft), b.body, b.rest, pos, v)
    ensures b.Loop? ==> Run(c, b, pos, v) == NestRun(c, LoopOp(b.ft), b.body, b.rest, pos, v)
    ensures b.If? ==> Run(c, b, pos, v) == NestRun(c, IfOp(b.ft), b.thn, b.rest, pos, v)
    ensures b.IfElse? ==> Run(c, b, pos, v) == ElseRun(c, b.ft, b.thn, b.els, b.rest, pos, v)
  {
    hide Step;
  }

  lemma {:induction false} WalkNest(c: Ctx, op: Op, body: Body, rest: Body, pos: nat, v: VState)
    requires NestLaid(c.m, c.f.code, op, body, rest, pos)
    requires pos + 2 + Size(body) + 1 + Size(rest) < |c.f.code|
    ensures Walk(c, pos, v) == Onward(c, pos + 2 + Size(body) + 1 + Size(rest), NestRun(c, op, body, rest, pos, v))
    decreases 2 + Size(body) + 1 + Size(rest), 0
  {
    hide Decode, Step, Walk, Laid, Run;
    var e := pos + 2 + Size(body);
    WalkOp(c, pos, v, op, 2);
    var v1 := Step(c, v, op, pos, 2);
    if v1.Some? {
      WalkRun(c, body, pos + 2, v1.value);
      var v2 := Run(c, body, pos + 2, v1.value);
      if v2.Some? {
        WalkOp(c, e, v2.value, EndOp, 1);
        var v3 := Step(c, v2.value, EndOp, e, 1);
        if v3.Some? {
          WalkRun(c, rest, e + 1, v3.value);
        }
      }
    }
  }

  lemma {:induction false} WalkElse(c: Ctx, ft: FuncType, thn: Body, els: Body, rest: Body, pos: nat, v: VState)
    requires ElseLaid(c.m, c.f.code, ft, thn, els, rest, pos)
    requires pos + Size(IfElse(ft, thn, els, rest)) < |c.f.code|
    ensures Walk(c, pos, v)
         == Onward(c, pos + Size(IfElse(ft, thn, els, rest)), ElseRun(c, ft, thn, els, rest, pos, v))
    decreases Size(IfElse(ft, thn, els, rest)), 0
  {
    hide Decode, Step, Walk, Laid, Run;
    var e := pos + 2 + Size(thn);
    var e2 := e + 1 + Size(els);
    WalkOp(c, pos, v, IfOp(ft), 2);
    var v1 := Step(c, v, IfOp(ft), pos, 2);
    if v1.Some? {
      WalkRun(c, thn, pos + 2, v1.value);
      var v2 := Run(c, thn, pos + 2, v1.value);
      if v2.Some? {
        WalkOp(c, e, v2.value, ElseOp, 1);
        var v3 := Step(c, v2.value, ElseOp, e, 1);
        if v3.Some? {
          WalkRun(c, els, e + 1, v3.value);
          var v4 := Run(c, els, e + 1, v3.value);
          if v4.Some? {
            WalkOp(c, e2, v4.value, EndOp, 1);
            var v5 := Step(c, v4.value, EndOp, e2, 1);
            if v5.Some? {
              WalkRun(c, rest, e2 + 1, v5.value);
            }
          }
        }
      }
    }
  }

  // Encoded code validates exactly when its body runs and its last `end` closes the function.
  lemma ValidateRun(c: Ctx, b: Body)
    requires Encodes(c.m, c.f.code, b)
    ensures Validate(c)
         == match Run(c, b, 0, Begin(c)) case None => None case Some(v1) => Step(c, v1, EndOp, Size(b), 1)
  {
    hide Decode, Step, Laid, Run, Begin;
    WalkRun(c, b, 0, Begin(c));
  }

  // For accepted code the caller's scan tells exactly whether the code is a well-nested body and its end.
  lemma WellNested(c: Ctx)
    requires Validate(c).Some?
    ensures Closes(c.m, c.f.code, 0, 1) <==> exists b :: Encodes(c.m, c.f.code, b)
  {
    if Closes(c.m, c.f.code, 0, 1) {
      BeginKind(c);
      var b := ParseAll(c);
    }
    forall b | Encodes(c.m, c.f.code, b) ensures Closes(c.m, c.f.code, 0, 1) {
      EncodesCloses(c, b);
    }
  }

  lemma BeginKind(c: Ctx)
    ensures |Begin(c).ctrl| == 1 && Begin(c).ctrl[0].kind == FuncK
  {
  }

  lemma ParseAll(c: Ctx) returns (b: Body)
    requires Validate(c).Some? && Closes(c.m, c.f.code, 0, 1)
    ensures Encodes(c.m, c.f.code, b)
  {
    hide Decode, Step, Laid, Run, Begin;
    BeginKind(c);
    var v1;
    b, v1 := Parse(c, 0, Begin(c), Validate(c).value);
  }

  lemma EncodesCloses(c: Ctx, b: Body)
    requires Encodes(c.m, c.f.code, b)
    ensures Closes(c.m, c.f.code, 0, 1)
  {
    hide Decode, Laid;
    BodyCloses(c.m, c.f.code, 0, b, 1);
  }
}
