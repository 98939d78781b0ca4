/**
 Control correspondence: on accepted code the interpreter's position and table index follow
 the reference machine's nested bodies and labels, step for step, whatever the operands tested.

 A point is a position together with the body still to run there and the validator's state
 there. The nests around a point say, for each open bracket, where its `end` leads.
 */
module Control {
  import opened Basics
  import opened Wasm
  import opened Decoder
  import opened Validation
  import opened Invariants
  import opened JumpTable
  import opened Nesting
  import opened Reference
  import opened InPlace

  datatype Point = Point(pos: nat, b: Body, v: VState)

  // els: the other arm, while the first arm of an if-else is open; elsAt: where a failed condition leads.
  datatype Nest = Nest(after: Point, els: Option<Body>, elsAt: nat, loop: Option<Point>)

  // Slots not after a position, and entries after it.
  ghost predicate Past(s: seq<Slot>, pos: int) {
    forall k :: 0 <= k < |s| ==> s[k].pc <= pos
  }

  ghost predicate Ahead(jt: seq<Entry>, n: nat, pos: int) {
    forall k :: n <= k < |jt| ==> pos < jt[k].pc
  }

  // The table has 16-bit indices and links to the first slot beyond each target.
  ghost predicate Linked(jt: seq<Entry>) {
    && |jt| <= 0x1_0000
    && forall k :: 0 <= k < |jt| ==> LinkOk(jt, k)
  }

  // ----- What surrounds a point -----

  ghost predicate PointOk(c: Ctx, p: Point) {
    Shape(p.v) && Past(p.v.slots, p.pos) && Run(c, p.b, p.pos, p.v).Some? && Runs(c, p.b, p.pos, p.v, EndOf(c, p))
  }

  // The validator's state at the terminator of the body at p, and where that is.
  ghost function EndOf(c: Ctx, p: Point): VState {
    if Run(c, p.b, p.pos, p.v).Some? then Run(c, p.b, p.pos, p.v).value else p.v
  }

  function EndPos(p: Point): nat {
    p.pos + Size(p.b)
  }

  // From fin at position e the innermost bracket closes to k.after.
  ghost predicate Closing(c: Ctx, k: Nest, fin: VState, e: nat) {
    match k.els
    case None =>
      && OpAt(c.m, c.f.code, e, EndOp, 1) && Step(c, fin, EndOp, e, 1) == Some(k.after.v) && k.after.pos == e + 1
      && k.elsAt == (if k.loop.Some? then k.loop.value.pos else k.after.pos)
    case Some(els) =>
      && OpAt(c.m, c.f.code, e, ElseOp, 1) && k.loop.None? && k.elsAt == e + 1
      && Step(c, fin, ElseOp, e, 1).Some?
      && var arm := Point(e + 1, els, Step(c, fin, ElseOp, e, 1).value);
      && PointOk(c, arm)
      && OpAt(c.m, c.f.code, EndPos(arm), EndOp, 1)
      && Step(c, EndOf(c, arm), EndOp, EndPos(arm), 1) == Some(k.after.v) && k.after.pos == EndPos(arm) + 1
  }

  // A loop's label leads back to the start of its body, which runs to the same terminator.
  ghost predicate LoopOk(c: Ctx, k: Nest, fin: VState, e: nat) {
    fin.ctrl != [] &&
    if k.loop.None? then !Top(fin).kind.LoopK? && !Top(fin).kind.FuncK?
    else
      var p := k.loop.value;
      && Top(fin).kind.LoopK? && Top(fin).pc == p.pos
      && PointOk(c, p) && EndOf(c, p) == fin && EndPos(p) == e && JustOpened(p.v)
  }

  // A frame holding nothing but its parameters.
  ghost predicate JustOpened(v: VState) {
    && v.ctrl != [] && !Top(v).dead && Top(v).height <= |v.vals|
    && v.vals == v.vals[..Top(v).height] + Top(v).ftype.params
  }

  // fin at e is the end of a body inside the nests ks, out to the end of the function.
  ghost predicate Chain(c: Ctx, jt: seq<Entry>, ks: seq<Nest>, fin: VState, e: nat)
    decreases |ks|
  {
    && Shape(fin) && |fin.ctrl| == |ks| + 1
    && if ks == [] then
         && e + 1 == |c.f.code| && OpAt(c.m, c.f.code, e, EndOp, 1)
         && Top(fin).kind.FuncK? && Top(fin).height == 0 && Past(fin.slots, e)
         && Top(fin).ftype == c.f.ftype
         && Step(c, fin, EndOp, e, 1).Some?
         && jt == Link(Entries(Step(c, fin, EndOp, e, 1).value.slots))
         && Validate(c).Some? && Step(c, fin, EndOp, e, 1).value.peak <= Validate(c).value.peak
       else
         var k := ks[|ks| - 1];
         && Closing(c, k, fin, e) && LoopOk(c, k, fin, e)
         && PointOk(c, k.after) && |k.after.v.ctrl| == |ks|
         && Chain(c, jt, ks[..|ks| - 1], EndOf(c, k.after), EndPos(k.after))
  }

  // The machine is at p inside ks.
  ghost predicate Here(c: Ctx, jt: seq<Entry>, p: Point, ks: seq<Nest>) {
    PointOk(c, p) && Chain(c, jt, ks, EndOf(c, p), EndPos(p))
  }

  // ----- The table, seen from inside -----

  // Where a slot with this target jumps.
  function Landing(c: Ctx, ks: seq<Nest>, t: Target): int {
    match t
    case At(p) => p
    case ToEnd(d) =>
      if d == 0 then |c.f.code| - 1
      else if d > |ks| then 0
      else if ks[d - 1].loop.Some? then ks[d - 1].loop.value.pos
      else ks[d - 1].after.pos
    case ToElse(d) => if d == 0 then |c.f.code| - 1 else if d <= |ks| then ks[d - 1].elsAt else 0
  }

  ghost predicate Agrees(c: Ctx, ks: seq<Nest>, e: Entry, s: Slot) {
    e.pc == s.pc && e.offset == s.offset && e.arity == s.arity && e.pc + e.jump == Landing(c, ks, s.target)
  }

  ghost predicate AgreeAll(c: Ctx, ks: seq<Nest>, jt: seq<Entry>, s: seq<Slot>) {
    |s| <= |jt| && forall k :: 0 <= k < |s| ==> Agrees(c, ks, jt[k], s[k])
  }

  // An entry that agrees with the slot after frame |ks| closed agrees with it before.
  lemma AgreesBefore(c: Ctx, ks: seq<Nest>, e: Entry, s: Slot)
    requires ks != [] && (s.target.At? || s.target.d <= |ks|)
    requires var d := |ks|;
             var t := Landing(c, ks, ToEnd(d));
             && t >= 0 && (s.target == ToElse(d) ==> ks[d - 1].elsAt == t)
             && Agrees(c, ks[..d - 1], e, s.(target := Resolved(s.target, d, t)))
    ensures Agrees(c, ks, e, s)
  {
  }

  lemma PrefixAgrees(c: Ctx, ks: seq<Nest>, jt: seq<Entry>, s: seq<Slot>, n: nat)
    requires AgreeAll(c, ks, jt, s) && n <= |s|
    ensures AgreeAll(c, ks, jt, s[..n])
  {
  }

  // From the end of a body back to its start.
  lemma BodyTable(c: Ctx, jt: seq<Entry>, ks: seq<Nest>, p: Point)
    requires PointOk(c, p)
    requires AgreeAll(c, ks, jt, EndOf(c, p).slots) && Ahead(jt, |EndOf(c, p).slots|, EndPos(p))
    ensures AgreeAll(c, ks, jt, p.v.slots) && Ahead(jt, |p.v.slots|, p.pos)
  {
    hide Runs, Landing;
    var v1 := EndOf(c, p);
    RunEvolves(c, p.b, p.pos, p.v, v1);
    PrefixAgrees(c, ks, jt, v1.slots, |p.v.slots|);
    forall k | |p.v.slots| <= k < |v1.slots| ensures p.pos < jt[k].pc {
      assert v1.slots[k] == v1.slots[|p.v.slots|..][k - |p.v.slots|];
    }
  }

  // From after an `end` back to before it.
  lemma EndAgrees(c: Ctx, jt: seq<Entry>, ks: seq<Nest>, fin: VState, e: nat, n: nat)
    requires ks != [] && Shape(fin) && |fin.ctrl| == |ks| + 1 && n <= |fin.slots|
    requires Step(c, fin, EndOp, e, 1).Some?
    requires var k := ks[|ks| - 1];
             && (k.loop.Some? ==> Top(fin).kind.LoopK? && Top(fin).pc == k.loop.value.pos)
             && (k.loop.None? ==> !Top(fin).kind.LoopK? && !Top(fin).kind.FuncK? && k.after.pos == e + 1)
             && (k.elsAt == Landing(c, ks, ToEnd(|ks|))
                   || forall i :: 0 <= i < n ==> fin.slots[i].target != ToElse(|ks|))
    requires AgreeAll(c, ks[..|ks| - 1], jt, Step(c, fin, EndOp, e, 1).value.slots)
    ensures AgreeAll(c, ks, jt, fin.slots[..n])
  {
    hide Step, Agrees;
    var y := Step(c, fin, EndOp, e, 1).value;
    EndTable(c, fin, e, y);
    var d := |ks|;
    var t := Landing(c, ks, ToEnd(d));
    assert t == EndTarget(Top(fin), e + 1);
    forall i | 0 <= i < n ensures Agrees(c, ks, jt[i], fin.slots[i]) {
      assert Agrees(c, ks[..d - 1], jt[i], y.slots[i]);
      AgreesBefore(c, ks, jt[i], fin.slots[i]);
    }
  }

  // From after an `else` back to before it; the slot of the `else` itself comes next in the table.
  lemma ElseAgrees(c: Ctx, jt: seq<Entry>, ks: seq<Nest>, fin: VState, e: nat)
    requires ks != [] && Shape(fin) && |fin.ctrl| == |ks| + 1
    requires Step(c, fin, ElseOp, e, 1).Some? && ks[|ks| - 1].elsAt == e + 1
    requires AgreeAll(c, ks, jt, Step(c, fin, ElseOp, e, 1).value.slots)
    ensures AgreeAll(c, ks, jt, fin.slots)
    ensures |fin.slots| < |jt| && jt[|fin.slots|].pc == e + 1
    ensures jt[|fin.slots|].pc + jt[|fin.slots|].jump == Landing(c, ks, ToEnd(|ks|))
  {
    var y := Step(c, fin, ElseOp, e, 1).value;
    hide OnElse;
    ElseTable(c, fin, e + 1, y);
    var d := |ks|;
    assert Agrees(c, ks, jt[|fin.slots|], y.slots[|fin.slots|]);
    forall i | 0 <= i < |fin.slots| ensures Agrees(c, ks, jt[i], fin.slots[i]) {
      assert Agrees(c, ks, jt[i], y.slots[i]);
      assert y.slots[i] == y.slots[..|fin.slots|][i];
    }
  }

  // The `else` took care of every slot that waited for it.
  lemma NoElseLeft(c: Ctx, fin: VState, e: nat, d: nat)
    requires Step(c, fin, ElseOp, e, 1).Some? && d == |fin.ctrl| - 1
    ensures var y := Step(c, fin, ElseOp, e, 1).value;
            forall i :: 0 <= i < |y.slots| ==> y.slots[i].target != ToElse(d)
  {
    var y := Step(c, fin, ElseOp, e, 1).value;
    hide OnElse;
    ElseTable(c, fin, e + 1, y);
    forall i | 0 <= i < |y.slots| ensures y.slots[i].target != ToElse(d) {
      if i < |fin.slots| {
        assert y.slots[i] == y.slots[..|fin.slots|][i];
      }
    }
  }

  lemma AfterTable(c: Ctx, jt: seq<Entry>, ks: seq<Nest>, fin: VState, e: nat)
    requires ks != [] && Chain(c, jt, ks, fin, e)
    requires var after := ks[|ks| - 1].after;
             AgreeAll(c, ks[..|ks| - 1], jt, after.v.slots) && Ahead(jt, |after.v.slots|, after.pos)
    ensures AgreeAll(c, ks, jt, fin.slots) && Ahead(jt, |fin.slots|, e)
  {
    hide Step, OpAt, AgreeAll, PointOk, Landing;
    var k := ks[|ks| - 1];
    if k.els.None? {
      assert k.elsAt == Landing(c, ks, ToEnd(|ks|)) by { LandingTop(c, ks); }
      EndAgrees(c, jt, ks, fin, e, |fin.slots|);
      assert fin.slots[..|fin.slots|] == fin.slots;
      EndTable(c, fin, e, k.after.v);
    } else {
      ElseAfterTable(c, jt, ks, fin, e);
    }
  }

  lemma LandingTop(c: Ctx, ks: seq<Nest>)
    requires ks != []
    ensures var k := ks[|ks| - 1];
            Landing(c, ks, ToEnd(|ks|)) == if k.loop.Some? then k.loop.value.pos else k.after.pos
  {
  }

  // The second arm of an if-else: its start y, its end z, and what lies between in the table.
  lemma ArmFacts(c: Ctx, fin: VState, e: nat, els: Body)
    requires Shape(fin) && Step(c, fin, ElseOp, e, 1).Some?
    requires PointOk(c, Point(e + 1, els, Step(c, fin, ElseOp, e, 1).value))
    ensures var y := Step(c, fin, ElseOp, e, 1).value;
            var z := EndOf(c, Point(e + 1, els, y));
            && Shape(z) && |y.ctrl| == |z.ctrl| == |fin.ctrl| && Top(z).kind.ElseK?
            && |y.slots| == |fin.slots| + 1 <= |z.slots| && z.slots[..|y.slots|] == y.slots
            && (forall i :: 0 <= i < |y.slots| ==> z.slots[i].target != ToElse(|fin.ctrl| - 1))
            && (forall i :: |fin.slots| <= i < |z.slots| ==> e < z.slots[i].pc)
  {
    hide Step, OnElse, Runs, Run, Closing;
    var y := Step(c, fin, ElseOp, e, 1).value;
    var z := EndOf(c, Point(e + 1, els, y));
    ElseStart(c, fin, e, y);
    RunEvolves(c, els, e + 1, y, z);
    forall i | 0 <= i < |z.slots|
      ensures i < |y.slots| ==> z.slots[i] == y.slots[i]
      ensures |y.slots| <= i ==> e < z.slots[i].pc
    {
      if i < |y.slots| {
        assert z.slots[i] == z.slots[..|y.slots|][i];
      } else {
        assert z.slots[i] == z.slots[|y.slots|..][i - |y.slots|];
      }
    }
  }

  lemma ElseStart(c: Ctx, fin: VState, e: nat, y: VState)
    requires fin.ctrl != [] && Step(c, fin, ElseOp, e, 1) == Some(y)
    ensures |y.ctrl| == |fin.ctrl| && Top(y).kind.ElseK?
    ensures |y.slots| == |fin.slots| + 1 && y.slots[|fin.slots|].pc == e + 1
    ensures forall i :: 0 <= i < |y.slots| ==> y.slots[i].target != ToElse(|fin.ctrl| - 1)
  {
    hide OnElse;
    BracketKinds(c, fin, ElseOp, e, 1);
    NoElseLeft(c, fin, e, |fin.ctrl| - 1);
    ElseTable(c, fin, e + 1, y);
  }

  lemma ElseAfterTable(c: Ctx, jt: seq<Entry>, ks: seq<Nest>, fin: VState, e: nat)
    requires ks != [] && Chain(c, jt, ks, fin, e) && ks[|ks| - 1].els.Some?
    requires var after := ks[|ks| - 1].after;
             AgreeAll(c, ks[..|ks| - 1], jt, after.v.slots) && Ahead(jt, |after.v.slots|, after.pos)
    ensures AgreeAll(c, ks, jt, fin.slots) && Ahead(jt, |fin.slots|, e)
    ensures |fin.slots| < |jt| && jt[|fin.slots|].pc == e + 1
    ensures jt[|fin.slots|].pc + jt[|fin.slots|].jump == ks[|ks| - 1].after.pos
  {
    hide Step, OpAt, Runs, Run, Landing, EndOf, PointOk;
    var k := ks[|ks| - 1];
    var y := Step(c, fin, ElseOp, e, 1).value;
    var arm := Point(e + 1, k.els.value, y);
    var z := EndOf(c, arm);
    ArmFacts(c, fin, e, k.els.value);
    LandingTop(c, ks);
    EndTable(c, z, EndPos(arm), k.after.v);
    forall i | |fin.slots| <= i < |jt| ensures e < jt[i].pc {
      if i < |z.slots| {
        assert Agrees(c, ks[..|ks| - 1], jt[i], k.after.v.slots[i]);
      }
    }
    EndAgrees(c, jt, ks, z, EndPos(arm), |y.slots|);
    ElseAgrees(c, jt, ks, fin, e);
  }

  // The table continues what has been emitted at the end of a body, and every later slot lies further on.
  lemma {:induction false} ChainTable(c: Ctx, jt: seq<Entry>, ks: seq<Nest>, fin: VState, e: nat)
    requires Chain(c, jt, ks, fin, e)
    ensures AgreeAll(c, ks, jt, fin.slots) && Ahead(jt, |fin.slots|, e)
    decreases |ks|
  {
    if ks == [] {
      ChainTop(c, jt, fin, e);
    } else {
      hide Closing, LoopOk, AgreeAll, Ahead, PointOk;
      var k := ks[|ks| - 1];
      var outer := ks[..|ks| - 1];
      ChainTable(c, jt, outer, EndOf(c, k.after), EndPos(k.after));
      BodyTable(c, jt, outer, k.after);
      AfterTable(c, jt, ks, fin, e);
    }
  }

  lemma ChainTop(c: Ctx, jt: seq<Entry>, fin: VState, e: nat)
    requires Chain(c, jt, [], fin, e)
    ensures AgreeAll(c, [], jt, fin.slots) && Ahead(jt, |fin.slots|, e)
  {
    var y := Step(c, fin, EndOp, e, 1).value;
    EndTable(c, fin, e, y);
    hide Step, OpAt, NextOf;
  }

  // ----- The index -----

  // At a point the next table entry is the first one beyond it.
  lemma HereFirst(c: Ctx, jt: seq<Entry>, p: Point, ks: seq<Nest>)
    requires Here(c, jt, p, ks)
    ensures |p.v.slots| <= |jt| && FirstAfter(jt, p.pos) == |p.v.slots|
  {
    hide Chain, Landing, Runs;
    ChainTable(c, jt, ks, EndOf(c, p), EndPos(p));
    BodyTable(c, jt, ks, p);
    FirstAfterUnique(jt, p.pos, |p.v.slots|);
  }

  // The index names the next entry, if there is one.
  ghost predicate IndexOk(jt: seq<Entry>, p: Point, idx: nat) {
    |p.v.slots| < |jt| ==> idx == |p.v.slots|
  }

  // Following an entry that lands on a point gives the point's index.
  lemma FollowIndex(c: Ctx, jt: seq<Entry>, i: nat, p: Point, ks: seq<Nest>)
    requires Here(c, jt, p, ks) && Linked(jt) && i < |jt| && jt[i].pc + jt[i].jump == p.pos
    ensures IndexOk(jt, p, jt[i].next)
  {
    hide Here, FirstAfter, Linked;
    HereFirst(c, jt, p, ks);
    LinkedAt(jt, i);
  }

  lemma LinkedAt(jt: seq<Entry>, i: nat)
    requires Linked(jt) && i < |jt|
    ensures var first := FirstAfter(jt, jt[i].pc + jt[i].jump); first < |jt| ==> jt[i].next == first
  {
    hide FirstAfter;
    assert LinkOk(jt, i);
    var first := FirstAfter(jt, jt[i].pc + jt[i].jump);
    if first < |jt| {
      SmallMod(first);
    }
  }

  lemma SmallMod(n: nat)
    requires n < 0x1_0000
    ensures n % 0x1_0000 == n
  {
  }

  // ----- Branches -----

  // The same body and labels, without positions.
  ghost predicate Mirrors(g: Cfg, p: Point, ks: seq<Nest>) {
    && g.cur == p.b && |g.labels| == |ks|
    && forall i :: 0 <= i < |ks| ==> MirrorsLabel(g.labels[i], ks[i])
  }

  ghost predicate MirrorsLabel(l: Label, k: Nest) {
    l.after == k.after.b && l.again == if k.loop.Some? then Some(k.loop.value.b) else None
  }

  // Validation's peak at a point is at most the function's.
  lemma {:induction false} ChainPeak(c: Ctx, jt: seq<Entry>, ks: seq<Nest>, fin: VState, e: nat)
    requires Chain(c, jt, ks, fin, e)
    ensures Validate(c).Some? && fin.peak <= Validate(c).value.peak
    decreases |ks|
  {
    hide Validate, Step, Run, Runs, OpAt;
    if ks == [] {
      EndPeak(c, fin, e);
    } else {
      var k := ks[|ks| - 1];
      ChainPeak(c, jt, ks[..|ks| - 1], EndOf(c, k.after), EndPos(k.after));
      RunEvolves(c, k.after.b, k.after.pos, k.after.v, EndOf(c, k.after));
      if k.els.None? {
        EndPeak(c, fin, e);
      } else {
        var arm := Point(e + 1, k.els.value, Step(c, fin, ElseOp, e, 1).value);
        ElsePeak(c, fin, e);
        RunEvolves(c, arm.b, arm.pos, arm.v, EndOf(c, arm));
        EndPeak(c, EndOf(c, arm), EndPos(arm));
      }
    }
  }

  lemma EndPeak(c: Ctx, v: VState, e: nat)
    requires Step(c, v, EndOp, e, 1).Some?
    ensures v.peak <= Step(c, v, EndOp, e, 1).value.peak
  {
    hide PopTypes, ResolveAll;
  }

  lemma ElsePeak(c: Ctx, v: VState, e: nat)
    requires Step(c, v, ElseOp, e, 1).Some?
    ensures v.peak <= Step(c, v, ElseOp, e, 1).value.peak
  {
    hide PopTypes, ResolveElse;
  }

  // The end of the body at nesting depth d, seen from inside.
  lemma {:induction false} Outward(c: Ctx, jt: seq<Entry>, ks: seq<Nest>, fin: VState, e: nat, d: nat)
    returns (fd: VState, ed: nat)
    requires Chain(c, jt, ks, fin, e) && d <= |ks|
    ensures Chain(c, jt, ks[..d], fd, ed)
    decreases |ks|
  {
    hide Closing, LoopOk, PointOk, Shape, Step, Validate;
    if d == |ks| {
      fd, ed := fin, e;
      assert ks[..d] == ks;
    } else {
      var k := ks[|ks| - 1];
      fd, ed := Outward(c, jt, ks[..|ks| - 1], EndOf(c, k.after), EndPos(k.after), d);
      assert ks[..|ks| - 1][..d] == ks[..d];
    }
  }

  // Popping the types just pushed gives back what was there.
  lemma {:induction false} PopExact(v: VState, low: seq<ValType>, ts: seq<ValType>)
    requires v.ctrl != [] && v.vals == low + ts && Top(v).height <= |low|
    ensures PopTypes(v, ts) == Some((v.(vals := low), ts))
    decreases |ts|
  {
    hide PopExpect, PopTypes;
    if ts == [] {
      assert v.vals == low;
      PopNothing(v);
    } else {
      var n := |ts| - 1;
      var v1 := v.(vals := low + ts[..n]);
      LastApart(low, ts);
      PopLast(v, v1, ts[n]);
      PopExact(v1, low, ts[..n]);
      PopUnfold(v, ts);
    }
  }

  lemma PopNothing(v: VState)
    ensures PopTypes(v, []) == Some((v, []))
  {
  }

  lemma PopUnfold(v: VState, ts: seq<ValType>)
    requires ts != []
    ensures PopTypes(v, ts)
         == match PopExpect(v, ts[|ts| - 1])
            case None => None
            case Some((v1, t)) =>
              match PopTypes(v1, ts[..|ts| - 1])
              case None => None
              case Some((v2, popped)) => Some((v2, popped + [t]))
  {
    hide PopExpect;
  }

  lemma LastApart(low: seq<ValType>, ts: seq<ValType>)
    requires ts != []
    ensures low + ts == (low + ts[..|ts| - 1]) + [ts[|ts| - 1]] && ts[..|ts| - 1] + [ts[|ts| - 1]] == ts
  {
  }

  lemma PopLast(v: VState, v1: VState, t: ValType)
    requires v.ctrl != [] && v1 == v.(vals := v1.vals) && v.vals == v1.vals + [t] && Top(v).height <= |v1.vals|
    ensures PopExpect(v, t) == Some((v1, t))
  {
    assert v.vals[..|v.vals| - 1] == v1.vals;
  }

  // The end of the function as a branch finds it: nothing but the results, and reachable.
  function FuncEnd(v: VState): VState
    requires v.ctrl != []
  {
    var ts := v.ctrl[0].ftype.results;
    VState([Top(v).(dead := false)], ts, v.slots, Max(v.peak, |ts|))
  }

  lemma FuncEndChain(c: Ctx, jt: seq<Entry>, fin: VState, e: nat)
    requires Chain(c, jt, [], fin, e)
    ensures Chain(c, jt, [], FuncEnd(fin), e)
  {
    hide Step, OpAt, Validate;
    var v := FuncEnd(fin);
    FuncEndSteps(c, fin, e);
    EndTable(c, fin, e, Step(c, fin, EndOp, e, 1).value);
    EndTable(c, v, e, Step(c, v, EndOp, e, 1).value);
  }

  lemma FuncEndSteps(c: Ctx, fin: VState, e: nat)
    requires |fin.ctrl| == 1 && Top(fin).kind.FuncK? && Top(fin).height == 0
    requires Step(c, fin, EndOp, e, 1).Some?
    ensures Step(c, FuncEnd(fin), EndOp, e, 1).Some?
    ensures Step(c, FuncEnd(fin), EndOp, e, 1).value.peak <= Step(c, fin, EndOp, e, 1).value.peak
  {
    hide ResolveAll, PopTypes;
    var v := FuncEnd(fin);
    assert [] + v.vals == v.vals;
    PopExact(v, [], v.vals);
  }

  // Where a branch to label n leads.
  ghost predicate LandsOn(c: Ctx, ks: seq<Nest>, n: nat, p2: Point, ks2: seq<Nest>) {
    && n <= |ks|
    && if n == |ks| then
         && ks2 == [] && p2.v.vals == c.f.ftype.results
         && |p2.v.ctrl| == 1 && p2.v.ctrl[0] == Frame(FuncK, c.f.ftype, 0, false, p2.v.ctrl[0].pc)
       else
         var k := ks[|ks| - n - 1];
         if k.loop.Some? then p2 == k.loop.value && ks2 == ks[..|ks| - n]
         else p2 == k.after && ks2 == ks[..|ks| - n - 1]
  }

  // A branch to label n arrives at a point, exactly where a slot for that label lands.
  lemma JumpLands(c: Ctx, jt: seq<Entry>, g: Cfg, p: Point, ks: seq<Nest>, n: nat) returns (p2: Point, ks2: seq<Nest>)
    requires Here(c, jt, p, ks) && Mirrors(g, p, ks) && n <= |ks|
    ensures Here(c, jt, p2, ks2) && p2.pos == Landing(c, ks, ToEnd(|ks| - n))
    ensures LandsOn(c, ks, n, p2, ks2)
    ensures Jump(g, n).Go? && Mirrors(Jump(g, n).to, p2, ks2)
  {
    hide Closing, PointOk, Run, Chain, Mirrors, Jump, Here, LandsOn, Landing;
    var d := |ks| - n;
    var fd, ed := OutwardHere(c, jt, p, ks, d);
    if d == 0 {
      p2, ks2 := LandsLast(c, jt, g, p, ks, fd, ed);
    } else {
      p2, ks2 := LandsInside(c, jt, g, p, ks, d, fd, ed);
    }
  }

  lemma OutwardHere(c: Ctx, jt: seq<Entry>, p: Point, ks: seq<Nest>, d: nat) returns (fd: VState, ed: nat)
    requires Here(c, jt, p, ks) && d <= |ks|
    ensures Chain(c, jt, ks[..d], fd, ed)
  {
    hide Chain, PointOk;
    fd, ed := Outward(c, jt, ks, EndOf(c, p), EndPos(p), d);
  }

  // A branch out of everything arrives at the function's last `end`.
  lemma LandsLast(c: Ctx, jt: seq<Entry>, g: Cfg, p: Point, ks: seq<Nest>, fd: VState, ed: nat)
    returns (p2: Point, ks2: seq<Nest>)
    requires Mirrors(g, p, ks) && Chain(c, jt, ks[..0], fd, ed)
    ensures Here(c, jt, p2, ks2) && p2.pos == Landing(c, ks, ToEnd(0))
    ensures LandsOn(c, ks, |ks|, p2, ks2)
    ensures Jump(g, |ks|).Go? && Mirrors(Jump(g, |ks|).to, p2, ks2)
  {
    hide PointOk, Run, MirrorsLabel, Step, Decode, Validate;
    assert ks[..0] == [];
    FuncEndChain(c, jt, fd, ed);
    p2, ks2 := Point(ed, Stop, FuncEnd(fd)), [];
    StopPoint(c, p2);
  }

  // A branch to an open loop arrives at the start of its body, to any other frame after its `end`.
  lemma LandsInside(c: Ctx, jt: seq<Entry>, g: Cfg, p: Point, ks: seq<Nest>, d: nat, fd: VState, ed: nat)
      returns (p2: Point, ks2: seq<Nest>)
    requires 0 < d <= |ks| && Mirrors(g, p, ks) && Chain(c, jt, ks[..d], fd, ed)
    ensures Here(c, jt, p2, ks2) && p2.pos == Landing(c, ks, ToEnd(d))
    ensures LandsOn(c, ks, |ks| - d, p2, ks2)
    ensures Jump(g, |ks| - d).Go? && Mirrors(Jump(g, |ks| - d).to, p2, ks2)
  {
    hide PointOk, Run, Closing, Step, Decode, Validate;
    var k := ks[d - 1];
    assert ks[..d][d - 1] == k;
    assert MirrorsLabel(g.labels[d - 1], k);
    if k.loop.Some? {
      p2, ks2 := k.loop.value, ks[..d];
    } else {
      p2, ks2 := k.after, ks[..d - 1];
      assert ks[..d][..d - 1] == ks[..d - 1];
    }
  }

  lemma StopPoint(c: Ctx, p: Point)
    requires p.b == Stop && Shape(p.v) && Past(p.v.slots, p.pos) && p.pos <= |c.f.code|
    ensures PointOk(c, p) && EndOf(c, p) == p.v && EndPos(p) == p.pos
  {
  }

  // ----- What each instruction emits -----

  // The slots of a branch instruction, for the labels it names.
  ghost predicate Emits(v: VState, w: VState, at: nat, ls: seq<nat>) {
    && |w.slots| == |v.slots| + |ls| && w.slots[..|v.slots|] == v.slots
    && forall j :: 0 <= j < |ls| ==> EmitsSlot(v, w.slots[|v.slots| + j], at, ls[j])
  }

  ghost predicate EmitsSlot(v: VState, s: Slot, at: nat, l: nat) {
    l < |v.ctrl| && s.pc == at && s.target == ToEnd(|v.ctrl| - 1 - l)
  }

  function LabelsOf(op: Op): seq<nat> {
    match op
    case Br(n) => [n]
    case BrIf(n) => [n]
    case BrTable(ls, _) => ls
    case _ => []
  }

  lemma {:induction false} TableEmits(v: VState, v0: VState, ls: seq<nat>, done: nat, arity: nat, pc: nat)
    requires done <= |ls| && Emits(v, v0, pc, ls[..done]) && v0.ctrl == v.ctrl
    requires TableSlots(v0, ls[done..], arity, pc).Some?
    ensures Emits(v, TableSlots(v0, ls[done..], arity, pc).value, pc, ls)
    decreases |ls| - done
  {
    if done == |ls| {
      assert ls[..done] == ls;
    } else {
      hide PopTypes, PushVals;
      var l := ls[done];
      var d := |v0.ctrl| - l - 1;
      var a := AddSlot(v0, BranchSlot(v0, pc, d));
      var (b, popped) := PopTypes(a, LabelTypes(v0.ctrl[d])).value;
      assert ls[done..][0] == l && ls[done..][1..] == ls[done + 1..];
      EmitsOne(v, v0, a, pc, ls, done);
      TableEmits(v, PushVals(b, popped), ls, done + 1, arity, pc);
    }
  }

  lemma EmitsOne(v: VState, v0: VState, a: VState, pc: nat, ls: seq<nat>, done: nat)
    requires done < |ls| && Emits(v, v0, pc, ls[..done]) && v0.ctrl == v.ctrl && ls[done] < |v.ctrl|
    requires a == AddSlot(v0, BranchSlot(v0, pc, |v.ctrl| - ls[done] - 1))
    ensures Emits(v, a, pc, ls[..done + 1])
  {
    assert a.slots[..|v.slots|] == v0.slots[..|v.slots|];
    var more := ls[..done + 1];
    forall j | 0 <= j < |more| ensures EmitsSlot(v, a.slots[|v.slots| + j], pc, more[j]) {
      if j < done {
        assert ls[..done][j] == more[j];
        assert a.slots[|v.slots| + j] == v0.slots[|v.slots| + j];
      }
    }
  }

  lemma BrTableEmits(c: Ctx, v: VState, ls: seq<nat>, pc: nat, w: VState)
    requires OnBrTable(c, v, ls, pc) == Some(w)
    ensures Emits(v, w, pc, ls) && ls != []
  {
    hide PopTypes, PopExpect, TableSlots;
    var v0 := PopExpect(v, I32).value.0;
    var arity := |LabelTypes(v0.ctrl[|v0.ctrl| - ls[|ls| - 1] - 1])|;
    assert ls[0..] == ls;
    TableEmits(v0, v0, ls, 0, arity, pc);
  }

  lemma StepEmits(c: Ctx, v: VState, op: Op, pos: nat, len: nat, w: VState)
    requires !IsBracket(op) && Step(c, v, op, pos, len) == Some(w)
    ensures Emits(v, w, if op.BrTable? then pos + len + op.skew else pos + 1, LabelsOf(op))
    ensures op.BrTable? ==> op.depths != []
  {
    hide PopTypes, PopExpect, PopVal, PushVals, Signature, OnBrTable, OnBr, OnBrIf, OnCall, OnReturn, OnSelect,
      OnSimple, SetUnreachable, Emits;
    if op.BrTable? {
      BrTableEmits(c, v, op.depths, pos + len + op.skew, w);
    } else if op.Br? {
      BrEmits(c, v, op.depth, pos + 1, w);
    } else if op.BrIf? {
      BrIfEmits(c, v, op.depth, pos + 1, w);
    } else {
      NoneEmitted(c, v, op, pos, len, w);
      assert LabelsOf(op) == [];
      EmitsNothing(v, w, pos + 1);
    }
  }

  lemma BrEmits(c: Ctx, v: VState, n: nat, imm: nat, w: VState)
    requires OnBr(c, v, n, imm) == Some(w)
    ensures Emits(v, w, imm, [n])
  {
    hide PopTypes;
  }

  lemma BrIfEmits(c: Ctx, v: VState, n: nat, imm: nat, w: VState)
    requires OnBrIf(c, v, n, imm) == Some(w)
    ensures Emits(v, w, imm, [n])
  {
    hide PopTypes, PopExpect, PushVals;
  }

  lemma NoneEmitted(c: Ctx, v: VState, op: Op, pos: nat, len: nat, w: VState)
    requires !IsBracket(op) && !op.Br? && !op.BrIf? && !op.BrTable? && Step(c, v, op, pos, len) == Some(w)
    ensures w.slots == v.slots
  {
    hide PopTypes, PopExpect, PopVal, PushVals, Signature;
  }

  lemma EmitsNothing(v: VState, w: VState, at: nat)
    requires w.slots == v.slots
    ensures Emits(v, w, at, [])
  {
    assert w.slots[..|v.slots|] == v.slots;
  }

  // ----- Going on -----

  lemma HereDepth(c: Ctx, jt: seq<Entry>, p: Point, ks: seq<Nest>)
    requires Here(c, jt, p, ks)
    ensures |p.v.ctrl| == |ks| + 1 == |EndOf(c, p).ctrl|
  {
    hide Runs, Run, Closing, LoopOk;
    RunEvolves(c, p.b, p.pos, p.v, EndOf(c, p));
  }

  // p2 lies past the plain instruction at p.
  ghost predicate Past1(c: Ctx, p: Point, op: Op, len: nat, rest: Body, p2: Point) {
    && OpAt(c.m, c.f.code, p.pos, op, len) && !IsBracket(op) && Skew(op) == 0 && len > 0
    && p2.pos == p.pos + len && p2.b == rest && Step(c, p.v, op, p.pos, len) == Some(p2.v)
    && |p.v.slots| <= |p2.v.slots| && p.v.slots == p2.v.slots[..|p.v.slots|]
    && EndOf(c, p2) == EndOf(c, p) && EndPos(p2) == EndPos(p)
  }

  lemma PlainHere(c: Ctx, jt: seq<Entry>, p: Point, ks: seq<Nest>, op: Op, len: nat, rest: Body) returns (p2: Point)
    requires Here(c, jt, p, ks) && p.b == Plain(op, len, rest)
    ensures Past1(c, p, op, len, rest, p2) && Here(c, jt, p2, ks)
  {
    hide Run, Step, Chain, Decode;
    RunsUnfold(c, p.b, p.pos, p.v, EndOf(c, p));
    var w := Step(c, p.v, op, p.pos, len).value;
    p2 := Point(p.pos + len, rest, w);
    StepEvolves(c, p.v, op, p.pos, len, w);
    EvolvesPast(p.v, w, p.pos, p2.pos);
    EvolvesPrefix(p.v, w, p.pos, p2.pos);
    RunsSome(c, p2, EndOf(c, p));
    assert PointOk(c, p2);
  }

  lemma EvolvesPrefix(v: VState, w: VState, lo: int, hi: int)
    requires Evolves(v, w, lo, hi)
    ensures |v.slots| <= |w.slots| && v.slots == w.slots[..|v.slots|]
  {
  }

  lemma RunsSome(c: Ctx, p: Point, v1: VState)
    requires Runs(c, p.b, p.pos, p.v, v1)
    ensures Run(c, p.b, p.pos, p.v) == Some(v1) && EndOf(c, p) == v1
  {
    hide Run, Laid, OneByteLabels;
  }

  lemma EvolvesPast(v: VState, w: VState, lo: int, hi: int)
    requires Evolves(v, w, lo, hi) && Past(v.slots, lo) && lo <= hi
    ensures Past(w.slots, hi) && |v.slots| <= |w.slots|
  {
    forall k | 0 <= k < |w.slots| ensures w.slots[k].pc <= hi {
      if k < |v.slots| {
        assert w.slots[k] == w.slots[..|v.slots|][k];
      } else {
        assert w.slots[k] == w.slots[|v.slots|..][k - |v.slots|];
      }
    }
  }

  // ----- Into a bracket -----

  // Into the body of a block, a loop, or an `if` without an other arm.
  function BodyOf(b: Body): Option<(Op, Body, Body)> {
    match b
    case Block(ft, body, rest) => Some((BlockOp(ft), body, rest))
    case Loop(ft, body, rest) => Some((LoopOp(ft), body, rest))
    case If(ft, thn, rest) => Some((IfOp(ft), thn, rest))
    case _ => None
  }

  // The point after the header of a bracket, and the point after its `end`.
  function Inside(c: Ctx, p: Point, op: Op, body: Body): Point {
    Point(p.pos + 2, body, StateAfter(c, p.v, op, p.pos))
  }

  function StateAfter(c: Ctx, v: VState, op: Op, pos: nat): VState {
    var r := Step(c, v, op, pos, if op.EndOp? || op.ElseOp? then 1 else 2);
    if r.Some? then r.value else v
  }

  ghost function Beyond(c: Ctx, inner: Point, rest: Body): Point {
    Point(EndPos(inner) + 1, rest, StateAfter(c, EndOf(c, inner), EndOp, EndPos(inner)))
  }

  // A bracket's body as a point, with everything that validation did around it.
  ghost predicate Opened(c: Ctx, p: Point, op: Op, inner: Point) {
    && OpAt(c.m, c.f.code, p.pos, op, 2) && Step(c, p.v, op, p.pos, 2) == Some(inner.v)
    && inner.pos == p.pos + 2 && PointOk(c, inner)
    && |EndOf(c, inner).ctrl| == |p.v.ctrl| + 1 && Shape(EndOf(c, inner))
    && Top(EndOf(c, inner)).kind == (if op.BlockOp? then BlockK else if op.LoopOp? then LoopK else IfK)
    && (op.LoopOp? ==> Top(EndOf(c, inner)).pc == inner.pos && JustOpened(inner.v))
  }

  lemma OpenPoint(c: Ctx, p: Point, op: Op, body: Body, x: VState)
    requires Shape(p.v) && Past(p.v.slots, p.pos) && (op.BlockOp? || op.LoopOp? || op.IfOp?)
    requires OpAt(c.m, c.f.code, p.pos, op, 2) && Step(c, p.v, op, p.pos, 2).Some?
    requires Runs(c, body, p.pos + 2, Step(c, p.v, op, p.pos, 2).value, x)
    ensures Opened(c, p, op, Inside(c, p, op, body)) && EndOf(c, Inside(c, p, op, body)) == x
    ensures Opens(p.v, x, p.pos, p.pos + 2 + Size(body))
  {
    hide Runs, Run, Opens, Evolves, Shape, Step, JustOpened, OpAt;
    var inner := Inside(c, p, op, body);
    BracketKinds(c, p.v, op, p.pos, 2);
    BracketOpens(c, p.v, op, p.pos, 2, inner.v);
    OpensPast(p.v, inner.v, p.pos, inner.pos);
    LoopStart(c, p.v, op, p.pos, inner.v);
    RunsSome(c, inner, x);
    RunEvolves(c, body, inner.pos, inner.v, x);
    SameTop(inner.v, x, inner.pos, inner.pos + Size(body));
    OpensThenEvolves(p.v, inner.v, x, p.pos, inner.pos, inner.pos + Size(body));
  }

  lemma LoopStart(c: Ctx, v: VState, op: Op, pos: nat, w: VState)
    requires (op.BlockOp? || op.LoopOp? || op.IfOp?) && Step(c, v, op, pos, 2) == Some(w)
    ensures JustOpened(w) && (op.LoopOp? ==> Top(w).pc == pos + 2)
  {
    hide PopTypes, PopExpect;
  }

  lemma SameTop(v: VState, w: VState, lo: int, hi: int)
    requires Evolves(v, w, lo, hi)
    ensures v.ctrl != [] && |w.ctrl| == |v.ctrl| && Top(w).kind == Top(v).kind && Top(w).pc == Top(v).pc
  {
  }

  lemma OpensPast(v: VState, w: VState, lo: int, hi: int)
    requires Opens(v, w, lo, hi) && Past(v.slots, lo) && lo <= hi
    ensures Past(w.slots, hi)
  {
    forall k | 0 <= k < |w.slots| ensures w.slots[k].pc <= hi {
      if k < |v.slots| {
        assert w.slots[k] == w.slots[..|v.slots|][k];
      } else {
        assert w.slots[k] == w.slots[|v.slots|..][k - |v.slots|];
      }
    }
  }

  // The nest that the body of a block, loop or if runs in.
  ghost function NestOf(c: Ctx, p: Point, op: Op, body: Body, rest: Body): Nest {
    var inner := Inside(c, p, op, body);
    var after := Beyond(c, inner, rest);
    if op.LoopOp? then Nest(after, None, inner.pos, Some(inner)) else Nest(after, None, after.pos, None)
  }

  lemma NestHere(c: Ctx, jt: seq<Entry>, p: Point, ks: seq<Nest>, op: Op, body: Body, rest: Body)
    requires Here(c, jt, p, ks) && BodyOf(p.b) == Some((op, body, rest))
    ensures Here(c, jt, Inside(c, p, op, body), ks + [NestOf(c, p, op, body, rest)])
    ensures Opened(c, p, op, Inside(c, p, op, body))
    ensures var after := Beyond(c, Inside(c, p, op, body), rest);
            Here(c, jt, after, ks) && OpAt(c.m, c.f.code, after.pos - 1, EndOp, 1)
  {
    hide Run, Runs, Step, Chain, Evolves, Opens, Shape, Decode;
    RunsUnfold(c, p.b, p.pos, p.v, EndOf(c, p));
    var x := Run(c, body, p.pos + 2, Step(c, p.v, op, p.pos, 2).value).value;
    OpenPoint(c, p, op, body, x);
    var inner := Inside(c, p, op, body);
    var after := Beyond(c, inner, rest);
    var e := EndPos(inner);
    EndEvolves(c, p.v, x, e, after.v, p.pos);
    EvolvesPast(p.v, after.v, p.pos, after.pos);
    RunsSome(c, after, EndOf(c, p));
    SameTop(p.v, after.v, p.pos, after.pos);
    assert Here(c, jt, after, ks);
    HereDepth(c, jt, p, ks);
    ChainNest(c, jt, ks, x, e, NestOf(c, p, op, body, rest));
  }

  // Adding a nest to a chain.
  lemma ChainNest(c: Ctx, jt: seq<Entry>, ks: seq<Nest>, fin: VState, e: nat, k: Nest)
    requires Shape(fin) && |fin.ctrl| == |ks| + 2 && Closing(c, k, fin, e) && LoopOk(c, k, fin, e)
    requires PointOk(c, k.after) && |k.after.v.ctrl| == |ks| + 1
    requires Chain(c, jt, ks, EndOf(c, k.after), EndPos(k.after))
    ensures Chain(c, jt, ks + [k], fin, e)
  {
    hide Closing, LoopOk, PointOk, Shape;
    assert (ks + [k])[..|ks|] == ks;
  }

  // Into either arm of an if-else.
  ghost function ArmOf(c: Ctx, p: Point, ft: FuncType, thn: Body, els: Body): Point {
    var first := Inside(c, p, IfOp(ft), thn);
    Point(EndPos(first) + 1, els, StateAfter(c, EndOf(c, first), ElseOp, EndPos(first)))
  }

  lemma ArmPoint(c: Ctx, p: Point, x: VState, e: nat, els: Body, z: VState)
    requires Shape(p.v) && Shape(x) && Opens(p.v, x, p.pos, e) && Past(p.v.slots, p.pos) && p.pos <= e
    requires Step(c, x, ElseOp, e, 1).Some? && Runs(c, els, e + 1, Step(c, x, ElseOp, e, 1).value, z)
    ensures var arm := Point(e + 1, els, Step(c, x, ElseOp, e, 1).value);
            && PointOk(c, arm) && EndOf(c, arm) == z && Shape(z) && |z.ctrl| == |p.v.ctrl| + 1
            && Top(z).kind.ElseK? && Opens(p.v, z, p.pos, EndPos(arm))
  {
    hide Runs, Run, Opens, Evolves, Shape;
    var y := Step(c, x, ElseOp, e, 1).value;
    var arm := Point(e + 1, els, y);
    BracketKinds(c, x, ElseOp, e, 1);
    ElseOpens(c, p.v, x, e, y, p.pos);
    hide Step;
    OpensPast(p.v, y, p.pos, e + 1);
    OpensDepth(p.v, y, p.pos, e + 1);
    RunsSome(c, arm, z);
    RunEvolves(c, els, e + 1, y, z);
    SameTop(y, z, e + 1, e + 1 + Size(els));
    OpensThenEvolves(p.v, y, z, p.pos, e + 1, e + 1 + Size(els));
  }

  lemma OpensDepth(v: VState, w: VState, lo: int, hi: int)
    requires Opens(v, w, lo, hi)
    ensures |w.ctrl| == |v.ctrl| + 1
  {
  }

  lemma ElseHere(c: Ctx, jt: seq<Entry>, p: Point, ks: seq<Nest>, ft: FuncType, thn: Body, els: Body, rest: Body)
    requires Here(c, jt, p, ks) && p.b == IfElse(ft, thn, els, rest)
    ensures var first := Inside(c, p, IfOp(ft), thn);
            var arm := ArmOf(c, p, ft, thn, els);
            var after := Beyond(c, arm, rest);
            && Here(c, jt, first, ks + [Nest(after, Some(els), arm.pos, None)])
            && Here(c, jt, arm, ks + [Nest(after, None, after.pos, None)])
            && Opened(c, p, IfOp(ft), first)
  {
    hide Run, Runs, Step, Chain, Evolves, Opens, Shape, Decode, ElseRuns;
    var first := Inside(c, p, IfOp(ft), thn);
    var arm := ArmOf(c, p, ft, thn, els);
    var after := Beyond(c, arm, rest);
    ElsePoints(c, p, ft, thn, els, rest);
    HereDepth(c, jt, p, ks);
    assert Here(c, jt, after, ks);
    ChainNest(c, jt, ks, EndOf(c, first), EndPos(first), Nest(after, Some(els), arm.pos, None));
    ChainNest(c, jt, ks, EndOf(c, arm), EndPos(arm), Nest(after, None, after.pos, None));
  }

  lemma ElsePoints(c: Ctx, p: Point, ft: FuncType, thn: Body, els: Body, rest: Body)
    requires PointOk(c, p) && p.b == IfElse(ft, thn, els, rest)
    ensures var first := Inside(c, p, IfOp(ft), thn);
            var arm := ArmOf(c, p, ft, thn, els);
            var after := Beyond(c, arm, rest);
            && Opened(c, p, IfOp(ft), first)
            && OpAt(c.m, c.f.code, EndPos(first), ElseOp, 1)
            && Step(c, EndOf(c, first), ElseOp, EndPos(first), 1) == Some(arm.v)
            && PointOk(c, arm) && Shape(EndOf(c, arm)) && |EndOf(c, arm).ctrl| == |p.v.ctrl| + 1
            && Top(EndOf(c, arm)).kind.ElseK?
            && OpAt(c.m, c.f.code, EndPos(arm), EndOp, 1)
            && Step(c, EndOf(c, arm), EndOp, EndPos(arm), 1) == Some(after.v)
            && PointOk(c, after) && |after.v.ctrl| == |p.v.ctrl| && EndOf(c, after) == EndOf(c, p)
            && EndPos(after) == EndPos(p)
  {
    hide Run, Runs, Step, Evolves, Opens, Shape, Decode;
    RunsUnfold(c, p.b, p.pos, p.v, EndOf(c, p));
    var x := Run(c, thn, p.pos + 2, Step(c, p.v, IfOp(ft), p.pos, 2).value).value;
    OpenPoint(c, p, IfOp(ft), thn, x);
    var first := Inside(c, p, IfOp(ft), thn);
    var e := EndPos(first);
    var y := Step(c, x, ElseOp, e, 1).value;
    var z := Run(c, els, e + 1, y).value;
    ArmPoint(c, p, x, e, els, z);
    var arm := ArmOf(c, p, ft, thn, els);
    var after := Beyond(c, arm, rest);
    EndEvolves(c, p.v, z, EndPos(arm), after.v, p.pos);
    EvolvesPast(p.v, after.v, p.pos, after.pos);
    RunsSome(c, after, EndOf(c, p));
    SameTop(p.v, after.v, p.pos, after.pos);
  }

  // ----- One step -----

  // The machine mirrors the reference configuration at p, and its index is right.
  ghost predicate Tracks(c: Ctx, jt: seq<Entry>, g: Cfg, p: Point, ks: seq<Nest>, pc: nat, idx: nat) {
    Here(c, jt, p, ks) && Mirrors(g, p, ks) && pc == p.pos && IndexOk(jt, p, idx)
  }

  // Where one step leads, in terms of points and nests.
  ghost predicate Arrives(c: Ctx, p: Point, ks: seq<Nest>, a: nat, p2: Point, ks2: seq<Nest>) {
    match p.b
    case Stop => ks != [] ==> p2 == ks[|ks| - 1].after && ks2 == ks[..|ks| - 1]
    case Plain(op, len, rest) =>
      if Taken(op, a).Some? then LandsOn(c, ks, Taken(op, a).value, p2, ks2)
      else Past1(c, p, op, len, rest, p2) && ks2 == ks
    case Block(ft, body, rest) => Enters(c, p, ks, BlockOp(ft), body, rest, p2, ks2)
    case Loop(ft, body, rest) => Enters(c, p, ks, LoopOp(ft), body, rest, p2, ks2)
    case If(ft, thn, rest) =>
      if a != 0 then Enters(c, p, ks, IfOp(ft), thn, rest, p2, ks2)
      else p2 == Beyond(c, Inside(c, p, IfOp(ft), thn), rest) && ks2 == ks
    case IfElse(ft, thn, els, rest) =>
      var arm := ArmOf(c, p, ft, thn, els);
      var after := Beyond(c, arm, rest);
      if a != 0 then p2 == Inside(c, p, IfOp(ft), thn) && ks2 == ks + [Nest(after, Some(els), arm.pos, None)]
      else p2 == arm && ks2 == ks + [Nest(after, None, after.pos, None)]
  }

  ghost predicate Enters(c: Ctx, p: Point, ks: seq<Nest>, op: Op, body: Body, rest: Body, p2: Point, ks2: seq<Nest>) {
    p2 == Inside(c, p, op, body) && ks2 == ks + [NestOf(c, p, op, body, rest)]
  }

  // Both stop in the same way, or both go on and still agree.
  ghost predicate Matched(c: Ctx, jt: seq<Entry>, r: Move, s: FlatMove, p: Point, ks: seq<Nest>) {
    match r
    case Go(g) => s.FGo? && Tracks(c, jt, g, p, ks, s.pc, s.idx)
    case Leave => s.FLeave?
    case Halt => s.FHalt?
    case Wrong => false
  }

  function ImageFor(c: Ctx, jt: seq<Entry>): Image {
    Image(c.m, c.f.code, jt)
  }

  lemma HereTable(c: Ctx, jt: seq<Entry>, p: Point, ks: seq<Nest>)
    requires Here(c, jt, p, ks)
    ensures AgreeAll(c, ks, jt, p.v.slots) && Ahead(jt, |p.v.slots|, p.pos)
  {
    hide Chain, Landing, PointOk, AgreeAll, Ahead;
    ChainTable(c, jt, ks, EndOf(c, p), EndPos(p));
    BodyTable(c, jt, ks, p);
  }

  // A taken branch: slot i belongs to the branch, and following it arrives where the reference machine does.
  lemma FollowBranch(c: Ctx, jt: seq<Entry>, g: Cfg, p: Point, ks: seq<Nest>, p2: Point, i: nat, n: nat)
      returns (p3: Point, ks3: seq<Nest>)
    requires Here(c, jt, p, ks) && Mirrors(g, p, ks) && Linked(jt)
    requires Here(c, jt, p2, ks) && i < |p2.v.slots| && n <= |ks| && p2.v.slots[i].target == ToEnd(|ks| - n)
    ensures i < |jt| && jt[i].pc == p2.v.slots[i].pc
    ensures jt[i].pc + jt[i].jump >= 0
    ensures Jump(g, n).Go? && Tracks(c, jt, Jump(g, n).to, p3, ks3, jt[i].pc + jt[i].jump, jt[i].next)
    ensures LandsOn(c, ks, n, p3, ks3)
  {
    hide LandsOn, Here, Landing, Jump, Linked, IndexOk, Mirrors;
    HereTable(c, jt, p2, ks);
    assert Agrees(c, ks, jt[i], p2.v.slots[i]);
    p3, ks3 := JumpLands(c, jt, g, p, ks, n);
    FollowIndex(c, jt, i, p3, ks3);
  }

  lemma BumpSmall(idx: nat, n: nat)
    requires idx + n < 0x1_0000
    ensures Bump(idx, n) == idx + n
  {
  }

  // Which of its labels a branch instruction takes.
  function Choice(op: Op, a: nat): nat {
    if op.BrTable? && op.depths != [] then Clamp(a, |op.depths|) else 0
  }

  lemma TakenStep(c: Ctx, jt: seq<Entry>, g: Cfg, p: Point, ks: seq<Nest>, idx: nat, a: nat, h: nat)
      returns (p3: Point, ks3: seq<Nest>)
    requires Tracks(c, jt, g, p, ks, p.pos, idx) && Linked(jt)
    requires p.b.Plain? && Taken(p.b.op, a).Some?
    ensures Matched(c, jt, Advance(g, a, h), FlatControl(ImageFor(c, jt), p.pos, idx, a), p3, ks3)
    ensures |p.v.slots| + Choice(p.b.op, a) < |jt| && idx == |p.v.slots|
    ensures Slots(Instr(p.b.op, p.b.len), p.pos, idx, a) == Some((|p.v.slots| + Choice(p.b.op, a), BranchPos(p)))
    ensures LandsOn(c, ks, Taken(p.b.op, a).value, p3, ks3)
  {
    hide LandsOn, Here, Linked, Jump, Decode, Step, MirrorsLabel, Bump, Clamp;
    var op, len, rest := p.b.op, p.b.len, p.b.rest;
    var p2 := PlainHere(c, jt, p, ks, op, len, rest);
    StepEmits(c, p.v, op, p.pos, len, p2.v);
    HereDepth(c, jt, p, ks);
    var j := Choice(op, a);
    var n := Taken(op, a).value;
    ChoiceTaken(op, a);
    assert EmitsSlot(p.v, p2.v.slots[|p.v.slots| + j], BranchPos(p), LabelsOf(op)[j]);
    p3, ks3 := FollowBranch(c, jt, g, p, ks, p2, |p.v.slots| + j, n);
    assert idx == |p.v.slots|;
    LinkedSize(jt);
    BumpSmall(idx, j);
  }

  // Where the slots of a branch instruction lie.
  function BranchPos(p: Point): nat
    requires p.b.Plain?
  {
    if p.b.op.BrTable? then p.pos + p.b.len else p.pos + 1
  }

  lemma ChoiceTaken(op: Op, a: nat)
    requires Taken(op, a).Some?
    ensures Choice(op, a) < |LabelsOf(op)| && LabelsOf(op)[Choice(op, a)] == Taken(op, a).value
  {
  }

  lemma LinkedSize(jt: seq<Entry>)
    requires Linked(jt)
    ensures |jt| <= 0x1_0000
  {
  }

  // An instruction that goes on to the next one.
  lemma OnwardStep(c: Ctx, jt: seq<Entry>, g: Cfg, p: Point, ks: seq<Nest>, idx: nat, a: nat, h: nat)
    returns (p2: Point)
    requires Tracks(c, jt, g, p, ks, p.pos, idx) && Linked(jt)
    requires p.b.Plain? && Taken(p.b.op, a).None?
    ensures Matched(c, jt, Advance(g, a, h), FlatControl(ImageFor(c, jt), p.pos, idx, a), p2, ks)
    ensures Past1(c, p, p.b.op, p.b.len, p.b.rest, p2)
  {
    hide Here, Linked, Decode, Step, MirrorsLabel, Bump;
    var op := p.b.op;
    p2 := PlainHere(c, jt, p, ks, op, p.b.len, p.b.rest);
    StepEmits(c, p.v, op, p.pos, p.b.len, p2.v);
    HereFirst(c, jt, p, ks);
    HereFirst(c, jt, p2, ks);
    LinkedSize(jt);
    if op.BrIf? && |p2.v.slots| < |jt| {
      BumpSmall(idx, 1);
    }
  }

  lemma MirrorsPush(g: Cfg, p: Point, ks: seq<Nest>, l: Label, k: Nest, p2: Point)
    requires Mirrors(g, p, ks) && MirrorsLabel(l, k)
    ensures Mirrors(Cfg(p2.b, g.labels + [l]), p2, ks + [k])
  {
    hide MirrorsLabel;
  }

  // The slot of an `if`, which is next in the table.
  lemma IfSlot(c: Ctx, jt: seq<Entry>, p: Point, ks: seq<Nest>, ft: FuncType, inner: Point, k: Nest, idx: nat)
    requires Here(c, jt, p, ks) && IndexOk(jt, p, idx)
    requires Opened(c, p, IfOp(ft), inner) && Here(c, jt, inner, ks + [k])
    ensures idx == |p.v.slots| < |jt| && |inner.v.slots| == |p.v.slots| + 1
    ensures jt[idx].pc == p.pos + 1 && jt[idx].pc + jt[idx].jump == k.elsAt
  {
    hide Here, Decode, PointOk;
    HereDepth(c, jt, p, ks);
    HereTable(c, jt, inner, ks + [k]);
    IfEmits(c, p.v, ft, p.pos, inner.v);
    var n := |p.v.slots|;
    assert Agrees(c, ks + [k], jt[n], inner.v.slots[n]);
  }

  lemma IfEmits(c: Ctx, v: VState, ft: FuncType, pos: nat, w: VState)
    requires Step(c, v, IfOp(ft), pos, 2) == Some(w)
    ensures w.slots == v.slots + [Slot(pos + 1, 0, 0, ToElse(|v.ctrl|))]
  {
    hide PopTypes, PopExpect;
  }

  lemma NestEmits(c: Ctx, v: VState, op: Op, pos: nat, w: VState)
    requires (op.BlockOp? || op.LoopOp?) && Step(c, v, op, pos, 2) == Some(w)
    ensures w.slots == v.slots
  {
    hide PopTypes;
  }

  // Entering a block or a loop.
  lemma BlockStep(c: Ctx, jt: seq<Entry>, g: Cfg, p: Point, ks: seq<Nest>, idx: nat, a: nat, h: nat)
    returns (p2: Point, ks2: seq<Nest>)
    requires Tracks(c, jt, g, p, ks, p.pos, idx) && (p.b.Block? || p.b.Loop?)
    ensures Matched(c, jt, Advance(g, a, h), FlatControl(ImageFor(c, jt), p.pos, idx, a), p2, ks2)
    ensures Arrives(c, p, ks, a, p2, ks2)
  {
    hide Here, Decode, Step, MirrorsLabel, Mirrors, PointOk, Beyond;
    var (op, body, rest) := BodyOf(p.b).value;
    NestHere(c, jt, p, ks, op, body, rest);
    var k := NestOf(c, p, op, body, rest);
    p2, ks2 := Inside(c, p, op, body), ks + [k];
    NestEmits(c, p.v, op, p.pos, p2.v);
    MirrorsCur(g, p, ks);
    var l := Advance(g, a, h).to.labels[|g.labels|];
    NestMirrors(c, p, op, body, rest, l);
    MirrorsPush(g, p, ks, l, k, p2);
  }

  lemma MirrorsCur(g: Cfg, p: Point, ks: seq<Nest>)
    requires Mirrors(g, p, ks)
    ensures g.cur == p.b && |g.labels| == |ks|
  {
  }

  lemma NestMirrors(c: Ctx, p: Point, op: Op, body: Body, rest: Body, l: Label)
    requires l.after == rest && l.again == if op.LoopOp? then Some(body) else None
    ensures MirrorsLabel(l, NestOf(c, p, op, body, rest))
  {
  }

  // An `if` without an other arm: into its body, or past its `end`.
  lemma IfStep(c: Ctx, jt: seq<Entry>, g: Cfg, p: Point, ks: seq<Nest>, idx: nat, a: nat, h: nat)
    returns (p2: Point, ks2: seq<Nest>)
    requires Tracks(c, jt, g, p, ks, p.pos, idx) && Linked(jt) && p.b.If?
    ensures Matched(c, jt, Advance(g, a, h), FlatControl(ImageFor(c, jt), p.pos, idx, a), p2, ks2)
    ensures Arrives(c, p, ks, a, p2, ks2)
  {
    hide Here, Linked, Decode, Step, MirrorsLabel, PointOk, Bump, Opened;
    var op, body, rest := IfOp(p.b.ft), p.b.thn, p.b.rest;
    NestHere(c, jt, p, ks, op, body, rest);
    var inner := Inside(c, p, op, body);
    var k := NestOf(c, p, op, body, rest);
    IfSlot(c, jt, p, ks, p.b.ft, inner, k, idx);
    OpenedOp(c, p, op, inner);
    if a != 0 {
      p2, ks2 := inner, ks + [k];
      HereFirst(c, jt, inner, ks2);
      LinkedSize(jt);
      if |inner.v.slots| < |jt| {
        BumpSmall(idx, 1);
      }
      var l := Advance(g, a, h).to.labels[|g.labels|];
      NestMirrors(c, p, op, body, rest, l);
      MirrorsPush(g, p, ks, l, k, p2);
    } else {
      p2, ks2 := Beyond(c, inner, rest), ks;
      FollowIndex(c, jt, idx, p2, ks);
    }
  }

  lemma OpenedOp(c: Ctx, p: Point, op: Op, inner: Point)
    requires Opened(c, p, op, inner)
    ensures OpAt(c.m, c.f.code, p.pos, op, 2) && inner.pos == p.pos + 2
  {
    hide PointOk, Decode;
  }

  // Into either arm of an if-else.
  lemma IfElseStep(c: Ctx, jt: seq<Entry>, g: Cfg, p: Point, ks: seq<Nest>, idx: nat, a: nat, h: nat)
    returns (p2: Point, ks2: seq<Nest>)
    requires Tracks(c, jt, g, p, ks, p.pos, idx) && Linked(jt) && p.b.IfElse?
    ensures Matched(c, jt, Advance(g, a, h), FlatControl(ImageFor(c, jt), p.pos, idx, a), p2, ks2)
    ensures Arrives(c, p, ks, a, p2, ks2)
  {
    hide Here, Linked, Decode, Step, PointOk, Bump, Opened, StateAfter, EndOf;
    var ft, thn, els, rest := p.b.ft, p.b.thn, p.b.els, p.b.rest;
    ElseHere(c, jt, p, ks, ft, thn, els, rest);
    var first, arm := Inside(c, p, IfOp(ft), thn), ArmOf(c, p, ft, thn, els);
    var after := Beyond(c, arm, rest);
    var k1, k2 := Nest(after, Some(els), arm.pos, None), Nest(after, None, after.pos, None);
    IfSlot(c, jt, p, ks, ft, first, k1, idx);
    OpenedOp(c, p, IfOp(ft), first);
    var l := Advance(g, a, h).to.labels[|g.labels|];
    if a != 0 {
      p2, ks2 := first, ks + [k1];
      HereFirst(c, jt, first, ks2);
      LinkedSize(jt);
      if |first.v.slots| < |jt| {
        BumpSmall(idx, 1);
      }
      MirrorsPush(g, p, ks, l, k1, p2);
    } else {
      p2, ks2 := arm, ks + [k2];
      FollowIndex(c, jt, idx, p2, ks2);
      MirrorsPush(g, p, ks, l, k2, p2);
    }
  }

  // Leaving a body: the function's, at its last `end`; an arm, through its `else`; any other, through its `end`.
  lemma StopStep(c: Ctx, jt: seq<Entry>, g: Cfg, p: Point, ks: seq<Nest>, idx: nat, a: nat, h: nat)
    returns (p2: Point, ks2: seq<Nest>)
    requires Tracks(c, jt, g, p, ks, p.pos, idx) && Linked(jt) && p.b.Stop?
    ensures Matched(c, jt, Advance(g, a, h), FlatControl(ImageFor(c, jt), p.pos, idx, a), p2, ks2)
    ensures Arrives(c, p, ks, a, p2, ks2)
  {
    hide Linked, Decode, Step, PointOk, MirrorsLabel, Matched, Advance, FlatControl;
    StopEnd(c, p);
    if ks == [] {
      p2, ks2 := p, ks;
      LastStop(c, jt, g, p, idx, a, h);
    } else {
      var k := ks[|ks| - 1];
      p2, ks2 := k.after, ks[..|ks| - 1];
      if k.els.None? {
        EndStop(c, jt, g, p, ks, idx, a, h);
      } else {
        ElseStop(c, jt, g, p, ks, idx, a, h);
      }
    }
  }

  lemma LastStop(c: Ctx, jt: seq<Entry>, g: Cfg, p: Point, idx: nat, a: nat, h: nat)
    requires Tracks(c, jt, g, p, [], p.pos, idx) && p.b.Stop?
    ensures Matched(c, jt, Advance(g, a, h), FlatControl(ImageFor(c, jt), p.pos, idx, a), p, [])
  {
    hide Decode, Step, PointOk;
    StopEnd(c, p);
  }

  lemma EndStop(c: Ctx, jt: seq<Entry>, g: Cfg, p: Point, ks: seq<Nest>, idx: nat, a: nat, h: nat)
    requires Tracks(c, jt, g, p, ks, p.pos, idx) && p.b.Stop? && ks != [] && ks[|ks| - 1].els.None?
    ensures Matched(c, jt, Advance(g, a, h), FlatControl(ImageFor(c, jt), p.pos, idx, a), ks[|ks| - 1].after,
            ks[..|ks| - 1])
  {
    hide Decode, Step, PointOk, MirrorsLabel;
    StopEnd(c, p);
    MirrorsPop(g, p, ks);
    var k := ks[|ks| - 1];
    assert Here(c, jt, k.after, ks[..|ks| - 1]);
    EndTable(c, p.v, p.pos, k.after.v);
    EndInside(c, jt, k.after, ks[..|ks| - 1]);
  }

  lemma ElseStop(c: Ctx, jt: seq<Entry>, g: Cfg, p: Point, ks: seq<Nest>, idx: nat, a: nat, h: nat)
    requires Tracks(c, jt, g, p, ks, p.pos, idx) && Linked(jt) && p.b.Stop? && ks != [] && ks[|ks| - 1].els.Some?
    ensures Matched(c, jt, Advance(g, a, h), FlatControl(ImageFor(c, jt), p.pos, idx, a), ks[|ks| - 1].after,
            ks[..|ks| - 1])
  {
    hide Linked, Decode, Step, PointOk, MirrorsLabel;
    StopEnd(c, p);
    MirrorsPop(g, p, ks);
    var k := ks[|ks| - 1];
    assert Here(c, jt, k.after, ks[..|ks| - 1]);
    HereTable(c, jt, k.after, ks[..|ks| - 1]);
    HereFirst(c, jt, k.after, ks[..|ks| - 1]);
    ElseAfterTable(c, jt, ks, p.v, p.pos);
    FollowIndex(c, jt, |p.v.slots|, k.after, ks[..|ks| - 1]);
  }

  lemma StopEnd(c: Ctx, p: Point)
    requires PointOk(c, p) && p.b.Stop?
    ensures EndOf(c, p) == p.v && EndPos(p) == p.pos
  {
  }

  lemma MirrorsPop(g: Cfg, p: Point, ks: seq<Nest>)
    requires Mirrors(g, p, ks) && ks != []
    ensures var k := ks[|ks| - 1];
            LabelOf(g, 0).after == k.after.b && Mirrors(Cfg(k.after.b, g.labels[..|g.labels| - 1]), k.after,
                ks[..|ks| - 1])
  {
    assert MirrorsLabel(g.labels[|ks| - 1], ks[|ks| - 1]);
    hide MirrorsLabel;
  }

  // A point is inside the code, before the last byte of the body it lies in.
  lemma EndInside(c: Ctx, jt: seq<Entry>, p: Point, ks: seq<Nest>)
    requires Here(c, jt, p, ks)
    ensures p.pos < |c.f.code|
  {
    hide Decode, Step, Runs, Run;
    var e := EndPos(p);
    assert OpAt(c.m, c.f.code, e, EndOp, 1) || OpAt(c.m, c.f.code, e, ElseOp, 1);
    InsideCode(c, e);
  }

  lemma InsideCode(c: Ctx, e: nat)
    requires Decode(c.m, c.f.code, e).Some?
    ensures e < |c.f.code|
  {
  }

  // The control correspondence: one step of the reference machine is one step of the flat machine.
  lemma ControlStep(c: Ctx, jt: seq<Entry>, g: Cfg, p: Point, ks: seq<Nest>, idx: nat, a: nat, h: nat)
    returns (p2: Point, ks2: seq<Nest>)
    requires Tracks(c, jt, g, p, ks, p.pos, idx) && Linked(jt)
    ensures Matched(c, jt, Advance(g, a, h), FlatControl(ImageFor(c, jt), p.pos, idx, a), p2, ks2)
    ensures Arrives(c, p, ks, a, p2, ks2)
  {
    hide Tracks, Matched, Linked, Advance, FlatControl, Taken, LandsOn, Past1, Step, Decode;
    match p.b
    case Stop => p2, ks2 := StopStep(c, jt, g, p, ks, idx, a, h);
    case Plain(op, _, _) =>
      if Taken(op, a).Some? {
        p2, ks2 := TakenStep(c, jt, g, p, ks, idx, a, h);
      } else {
        ks2 := ks;
        p2 := OnwardStep(c, jt, g, p, ks, idx, a, h);
      }
    case Block(_, _, _) => p2, ks2 := BlockStep(c, jt, g, p, ks, idx, a, h);
    case Loop(_, _, _) => p2, ks2 := BlockStep(c, jt, g, p, ks, idx, a, h);
    case If(_, _, _) => p2, ks2 := IfStep(c, jt, g, p, ks, idx, a, h);
    case IfElse(_, _, _, _) => p2, ks2 := IfElseStep(c, jt, g, p, ks, idx, a, h);
  }
}
