/**
 Wherever the interpreter's position goes, it stays on the instructions that the decoder's walk
 over the function meets.
 */
module Boundaries {
  import opened Basics
  import opened Wasm
  import opened Decoder
  import opened Validation
  import opened Invariants
  import opened JumpTable
  import opened Reference
  import opened Control

  // The walk that starts at `from` meets an instruction at `to`.
  predicate Visits(m: Module, code: seq<byte>, from: nat, to: nat)
    decreases |code| - from
  {
    var i := Decode(m, code, from);
    i.Some? && (from == to || Visits(m, code, from + i.value.len, to))
  }

  lemma {:induction false} VisitsTrans(m: Module, code: seq<byte>, a: nat, b: nat, d: nat)
    requires Visits(m, code, a, b) && Visits(m, code, b, d)
    ensures Visits(m, code, a, d)
    decreases |code| - a
  {
    hide Decode;
    if a != b && a != d {
      VisitsTrans(m, code, a + Decode(m, code, a).value.len, b, d);
    }
  }

  lemma VisitsSelf(m: Module, code: seq<byte>, at: nat)
    requires Decode(m, code, at).Some?
    ensures Visits(m, code, at, at)
  {
    hide Decode;
  }

  lemma VisitsOn(m: Module, code: seq<byte>, at: nat, len: nat, to: nat)
    requires Decode(m, code, at).Some? && Decode(m, code, at).value.len == len && Visits(m, code, at + len, to)
    ensures Visits(m, code, at, to)
  {
    hide Decode;
  }

  // The walk passes through a body to what follows it.
  lemma {:induction false} VisitsBody(m: Module, code: seq<byte>, pos: nat, b: Body)
    requires Laid(m, code, pos, b) && Decode(m, code, pos + Size(b)).Some?
    ensures Visits(m, code, pos, pos + Size(b))
    decreases b
  {
    hide Decode, Visits, Laid, Size;
    LaidParts(m, code, pos, b);
    match b
    case Stop => VisitsSelf(m, code, pos);
    case Plain(_, len, rest) =>
      VisitsBody(m, code, pos + len, rest);
      VisitsOn(m, code, pos, len, pos + Size(b));
    case Block(_, body, rest) =>
      VisitsBody(m, code, pos + 2, body);
      VisitsBody(m, code, pos + 2 + Size(body) + 1, rest);
      VisitsNest(m, code, pos, 2, pos + 2 + Size(body), pos + Size(b));
    case Loop(_, body, rest) =>
      VisitsBody(m, code, pos + 2, body);
      VisitsBody(m, code, pos + 2 + Size(body) + 1, rest);
      VisitsNest(m, code, pos, 2, pos + 2 + Size(body), pos + Size(b));
    case If(_, thn, rest) =>
      VisitsBody(m, code, pos + 2, thn);
      VisitsBody(m, code, pos + 2 + Size(thn) + 1, rest);
      VisitsNest(m, code, pos, 2, pos + 2 + Size(thn), pos + Size(b));
    case IfElse(_, thn, els, rest) =>
      var e := pos + 2 + Size(thn);
      VisitsBody(m, code, pos + 2, thn);
      VisitsBody(m, code, e + 1, els);
      VisitsBody(m, code, e + 1 + Size(els) + 1, rest);
      VisitsNest(m, code, e, 1, e + 1 + Size(els), pos + Size(b));
      VisitsNest(m, code, pos, 2, e, e);
      VisitsTrans(m, code, pos, e, pos + Size(b));
  }

  // A nested sequence from pos on, closed at e, with the rest after it.
  predicate Bracketed(m: Module, code: seq<byte>, pos: nat, len: nat, body: Body, rest: Body) {
    var e := pos + len + Size(body);
    && Decode(m, code, pos).Some? && Decode(m, code, pos).value.len == len && Laid(m, code, pos + len, body)
    && Decode(m, code, e).Some? && Decode(m, code, e).value.len == 1 && Laid(m, code, e + 1, rest)
  }

  // How a body is laid out, with nothing of its parts unfolded.
  lemma LaidParts(m: Module, code: seq<byte>, pos: nat, b: Body)
    requires Laid(m, code, pos, b)
    ensures match b
            case Stop => Size(b) == 0
            case Plain(op, len, rest) =>
              OpAt(m, code, pos, op, len) && Laid(m, code, pos + len, rest) && Size(b) == len + Size(rest)
            case Block(_, body, rest) => Bracketed(m, code, pos, 2, body, rest)
                && Size(b) == 2 + Size(body) + 1 + Size(rest)
            case Loop(_, body, rest) => Bracketed(m, code, pos, 2, body, rest)
                && Size(b) == 2 + Size(body) + 1 + Size(rest)
            case If(_, thn, rest) => Bracketed(m, code, pos, 2, thn, rest) && Size(b) == 2 + Size(thn) + 1 + Size(rest)
            case IfElse(_, thn, els, rest) =>
              && Bracketed(m, code, pos, 2, thn, els) && Bracketed(m, code, pos + 2 + Size(thn), 1, els, rest)
              && Size(b) == 2 + Size(thn) + 1 + Size(els) + 1 + Size(rest)
  {
    hide Decode, Laid, Size, Bracketed;
    SizeParts(b);
    match b
    case Stop =>
    case Plain(op, len, rest) => PlainParts(m, code, pos, op, len, rest);
    case Block(ft, body, rest) => BlockParts(m, code, pos, ft, body, rest);
    case Loop(ft, body, rest) => LoopParts(m, code, pos, ft, body, rest);
    case If(ft, thn, rest) => IfParts(m, code, pos, ft, thn, rest);
    case IfElse(ft, thn, els, rest) => ElseParts(m, code, pos, ft, thn, els, rest);
  }

  lemma SizeParts(b: Body)
    ensures match b
            case Stop => Size(b) == 0
            case Plain(_, len, rest) => Size(b) == len + Size(rest)
            case Block(_, body, rest) => Size(b) == 2 + Size(body) + 1 + Size(rest)
            case Loop(_, body, rest) => Size(b) == 2 + Size(body) + 1 + Size(rest)
            case If(_, thn, rest) => Size(b) == 2 + Size(thn) + 1 + Size(rest)
            case IfElse(_, thn, els, rest) => Size(b) == 2 + Size(thn) + 1 + Size(els) + 1 + Size(rest)
  {
  }

  lemma PlainParts(m: Module, code: seq<byte>, pos: nat, op: Op, len: nat, rest: Body)
    requires Laid(m, code, pos, Plain(op, len, rest))
    ensures OpAt(m, code, pos, op, len) && Laid(m, code, pos + len, rest)
  {
    hide Decode, Size;
  }

  lemma BlockParts(m: Module, code: seq<byte>, pos: nat, ft: FuncType, body: Body, rest: Body)
    requires Laid(m, code, pos, Block(ft, body, rest))
    ensures Bracketed(m, code, pos, 2, body, rest)
  {
    hide Decode, Size;
  }

  lemma LoopParts(m: Module, code: seq<byte>, pos: nat, ft: FuncType, body: Body, rest: Body)
    requires Laid(m, code, pos, Loop(ft, body, rest))
    ensures Bracketed(m, code, pos, 2, body, rest)
  {
    hide Decode, Size;
  }

  lemma IfParts(m: Module, code: seq<byte>, pos: nat, ft: FuncType, body: Body, rest: Body)
    requires Laid(m, code, pos, If(ft, body, rest))
    ensures Bracketed(m, code, pos, 2, body, rest)
  {
    hide Decode, Size;
  }

  lemma ElseParts(m: Module, code: seq<byte>, pos: nat, ft: FuncType, thn: Body, els: Body, rest: Body)
    requires Laid(m, code, pos, IfElse(ft, thn, els, rest))
    ensures Bracketed(m, code, pos, 2, thn, els) && Bracketed(m, code, pos + 2 + Size(thn), 1, els, rest)
  {
    hide Decode, Size;
  }

  // From a header of `len` bytes to the one-byte terminator at e, and on.
  lemma VisitsNest(m: Module, code: seq<byte>, pos: nat, len: nat, e: nat, to: nat)
    requires Decode(m, code, pos).Some? && Decode(m, code, pos).value.len == len && Visits(m, code, pos + len, e)
    requires Decode(m, code, e).Some? && Decode(m, code, e).value.len == 1 && (e == to || Visits(m, code, e + 1, to))
    ensures Visits(m, code, pos, to)
  {
    hide Decode;
    VisitsTrans(m, code, pos + len, e, to);
  }

  // The decoder's walk over the function meets an instruction there.
  predicate Met(c: Ctx, at: nat) {
    Visits(c.m, c.f.code, 0, at)
  }

  lemma MetNext(c: Ctx, at: nat, op: Op, len: nat)
    requires Met(c, at) && OpAt(c.m, c.f.code, at, op, len) && Decode(c.m, c.f.code, at + len).Some?
    ensures Met(c, at + len)
  {
    hide Decode;
    VisitsTrans(c.m, c.f.code, 0, at, at + len);
  }

  lemma MetBody(c: Ctx, p: Point)
    requires Met(c, p.pos) && PointOk(c, p) && Decode(c.m, c.f.code, EndPos(p)).Some?
    ensures Met(c, EndPos(p))
  {
    hide Decode, Run, Past;
    VisitsBody(c.m, c.f.code, p.pos, p.b);
    VisitsTrans(c.m, c.f.code, 0, p.pos, EndPos(p));
  }

  // An instruction lies at every point and at the end of its body.
  lemma PointDecodes(c: Ctx, p: Point)
    requires PointOk(c, p) && Decode(c.m, c.f.code, EndPos(p)).Some?
    ensures Decode(c.m, c.f.code, p.pos).Some?
  {
    hide Decode, Run, Past;
  }

  lemma HereDecodes(c: Ctx, jt: seq<Entry>, p: Point, ks: seq<Nest>)
    requires Here(c, jt, p, ks)
    ensures Decode(c.m, c.f.code, p.pos).Some? && Decode(c.m, c.f.code, EndPos(p)).Some?
    ensures p.b.Stop? ==> OpAt(c.m, c.f.code, p.pos, EndOp, 1) || OpAt(c.m, c.f.code, p.pos, ElseOp, 1)
  {
    hide Decode, Run, Past, Step, PointOk, Runs, Shape;
    PointDecodes(c, p);
  }

  // Everything that the nests lead to further on is met, out to the function's last `end`.
  lemma {:induction false} NestsMet(c: Ctx, jt: seq<Entry>, p: Point, ks: seq<Nest>)
    requires Here(c, jt, p, ks) && Met(c, p.pos)
    ensures forall i :: 0 <= i < |ks| ==> Met(c, ks[i].after.pos)
    ensures |c.f.code| > 0 && Met(c, |c.f.code| - 1)
    decreases |ks|
  {
    hide Decode, Run, Past, Step, PointOk, Shape, Met, LoopOk;
    HereDecodes(c, jt, p, ks);
    MetBody(c, p);
    if ks != [] {
      var k := ks[|ks| - 1];
      var e := EndPos(p);
      HereDecodes(c, jt, k.after, ks[..|ks| - 1]);
      if k.els.None? {
        MetNext(c, e, EndOp, 1);
      } else {
        var arm := Point(e + 1, k.els.value, Step(c, EndOf(c, p), ElseOp, e, 1).value);
        PointDecodes(c, arm);
        MetNext(c, e, ElseOp, 1);
        MetBody(c, arm);
        MetNext(c, EndPos(arm), EndOp, 1);
      }
      NestsMet(c, jt, k.after, ks[..|ks| - 1]);
      assert forall i :: 0 <= i < |ks| - 1 ==> ks[i] == ks[..|ks| - 1][i];
    }
  }

  // The point is met, and so is the start of every open loop.
  ghost predicate Seen(c: Ctx, p: Point, ks: seq<Nest>) {
    Met(c, p.pos) && forall i :: 0 <= i < |ks| && ks[i].loop.Some? ==> Met(c, ks[i].loop.value.pos)
  }

  // One step of the machine goes from a met instruction to a met instruction.
  lemma SeenStep(c: Ctx, jt: seq<Entry>, p: Point, ks: seq<Nest>, a: nat, p2: Point, ks2: seq<Nest>)
    requires Here(c, jt, p, ks) && Seen(c, p, ks) && Here(c, jt, p2, ks2) && Arrives(c, p, ks, a, p2, ks2)
    requires p.b.Stop? ==> ks != []
    requires p.b.Plain? && Taken(p.b.op, a) == Some(|ks|) ==> p2.b.Stop?
    ensures Seen(c, p2, ks2)
  {
    hide Here, Decode, Met, Step, Past1, LandsOn, Taken, NestOf, Beyond, ArmOf, Inside;
    NestsMet(c, jt, p, ks);
    HereDecodes(c, jt, p2, ks2);
    match p.b
    case Stop =>
    case Plain(op, len, rest) =>
      if Taken(op, a).Some? {
        LandsSeen(c, jt, p, ks, Taken(op, a).value, p2, ks2);
      } else {
        PastSeen(c, p, op, len, rest, p2);
      }
    case Block(ft, body, rest) => EntersSeen(c, jt, p, ks, BlockOp(ft), body, rest);
    case Loop(ft, body, rest) => EntersSeen(c, jt, p, ks, LoopOp(ft), body, rest);
    case If(ft, thn, rest) => EntersSeen(c, jt, p, ks, IfOp(ft), thn, rest);
    case IfElse(ft, thn, els, rest) => ArmSeen(c, jt, p, ks, ft, thn, els, rest);
  }

  lemma PastSeen(c: Ctx, p: Point, op: Op, len: nat, rest: Body, p2: Point)
    requires Past1(c, p, op, len, rest, p2) && Met(c, p.pos) && Decode(c.m, c.f.code, p2.pos).Some?
    ensures Met(c, p2.pos)
  {
    hide Decode, Met, Step;
    MetNext(c, p.pos, op, len);
  }

  lemma LandsSeen(c: Ctx, jt: seq<Entry>, p: Point, ks: seq<Nest>, n: nat, p2: Point, ks2: seq<Nest>)
    requires Here(c, jt, p, ks) && Seen(c, p, ks) && Here(c, jt, p2, ks2) && LandsOn(c, ks, n, p2, ks2)
    requires n == |ks| ==> p2.b.Stop?
    ensures Seen(c, p2, ks2)
  {
    hide Decode, Met, Step, Shape, PointOk, Closing, LoopOk;
    NestsMet(c, jt, p, ks);
  }

  lemma EntersSeen(c: Ctx, jt: seq<Entry>, p: Point, ks: seq<Nest>, op: Op, body: Body, rest: Body)
    requires Here(c, jt, p, ks) && Seen(c, p, ks) && BodyOf(p.b) == Some((op, body, rest))
    ensures Met(c, Inside(c, p, op, body).pos) && Met(c, Beyond(c, Inside(c, p, op, body), rest).pos)
    ensures Seen(c, Inside(c, p, op, body), ks + [NestOf(c, p, op, body, rest)])
  {
    hide Decode, Met, Here, Step, PointOk;
    NestHere(c, jt, p, ks, op, body, rest);
    var inner := Inside(c, p, op, body);
    var ks2 := ks + [NestOf(c, p, op, body, rest)];
    HereDecodes(c, jt, inner, ks2);
    MetNext(c, p.pos, op, 2);
    NestsMet(c, jt, inner, ks2);
    assert ks2[|ks|].after == Beyond(c, inner, rest);
  }

  lemma ArmSeen(c: Ctx, jt: seq<Entry>, p: Point, ks: seq<Nest>, ft: FuncType, thn: Body, els: Body, rest: Body)
    requires Here(c, jt, p, ks) && Seen(c, p, ks) && p.b == IfElse(ft, thn, els, rest)
    ensures Met(c, Inside(c, p, IfOp(ft), thn).pos) && Met(c, ArmOf(c, p, ft, thn, els).pos)
  {
    hide Decode, Met, Step, Chain, Run, Past, Shape, StateAfter;
    var e := p.pos + 2 + Size(thn);
    HereDecodes(c, jt, p, ks);
    assert Laid(c.m, c.f.code, p.pos, p.b);
    LaidDecodes(c, p.pos + 2, thn);
    MetNext(c, p.pos, IfOp(ft), 2);
    MetLaid(c, p.pos + 2, thn);
    LaidDecodes(c, e + 1, els);
    MetNext(c, e, ElseOp, 1);
  }

  lemma LaidDecodes(c: Ctx, pos: nat, b: Body)
    requires Laid(c.m, c.f.code, pos, b) && Decode(c.m, c.f.code, pos + Size(b)).Some?
    ensures Decode(c.m, c.f.code, pos).Some?
  {
    hide Decode;
  }

  lemma MetLaid(c: Ctx, pos: nat, b: Body)
    requires Met(c, pos) && Laid(c.m, c.f.code, pos, b) && Decode(c.m, c.f.code, pos + Size(b)).Some?
    ensures Met(c, pos + Size(b))
  {
    hide Decode, Laid;
    VisitsBody(c.m, c.f.code, pos, b);
    VisitsTrans(c.m, c.f.code, 0, pos, pos + Size(b));
  }
}
