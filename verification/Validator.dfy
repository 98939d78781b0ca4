/**
 The validator as the program has it: a context whose operand stack, control stack and jump
 table are updated in place by one callback per instruction. Every control frame keeps the
 list of table slots that wait for its end. Each callback is proved against the function of the
 same name in Validation.
 */
module Validator {
  import opened Basics
  import opened Wasm
  import opened Validation
  import opened JumpTable

  datatype CtrlFrame = CtrlFrame(kind: Kind, ftype: FuncType, height: nat, dead: bool, pc: nat, pending: seq<nat>)

  function FrameOf(f: CtrlFrame): Frame {
    Frame(f.kind, f.ftype, f.height, f.dead, f.pc)
  }

  function FramesOf(fs: seq<CtrlFrame>): (r: seq<Frame>)
    ensures |r| == |fs|
  {
    seq(|fs|, i requires 0 <= i < |fs| => FrameOf(fs[i]))
  }

  function SlotsOf(jt: seq<Entry>, targets: seq<Target>): (r: seq<Slot>)
    requires |jt| == |targets|
    ensures |r| == |jt|
  {
    seq(|jt|, i requires 0 <= i < |jt| => Slot(jt[i].pc, jt[i].offset, jt[i].arity, targets[i]))
  }

  // ----- What the pending lists know -----

  predicate Waits(t: Target, d: nat) {
    t == ToEnd(d) || t == ToElse(d)
  }

  predicate Ascending(s: seq<nat>) {
    forall i, j :: 0 <= i < j < |s| ==> s[i] < s[j]
  }

  // The list of frame d holds exactly the slots that wait for it, in order.
  ghost predicate ListOk(pending: seq<nat>, targets: seq<Target>, d: nat) {
    && Ascending(pending)
    && (forall k :: 0 <= k < |pending| ==> pending[k] < |targets| && Waits(targets[pending[k]], d))
    && (forall i :: 0 <= i < |targets| && Waits(targets[i], d) ==> i in pending)
    && (forall k :: 0 < k < |pending| ==> targets[pending[k]] == ToEnd(d))
  }

  // The lists partition the slots that wait.
  ghost predicate Partition(ctrl: seq<CtrlFrame>, targets: seq<Target>) {
    && (forall d :: 0 <= d < |ctrl| ==> ListOk(ctrl[d].pending, targets, d))
    && (forall i :: 0 <= i < |targets| ==> targets[i].At? || targets[i].d < |ctrl|)
  }

  // The first slot of an `if` is its own, and only that slot waits for an `else`.
  ghost predicate IfFirst(f: CtrlFrame, targets: seq<Target>, d: nat) {
    if f.kind.IfK? then f.pending != [] && f.pending[0] < |targets| && targets[f.pending[0]] == ToElse(d)
    else forall i :: 0 <= i < |targets| ==> targets[i] != ToElse(d)
  }

  ghost predicate IfsFirst(ctrl: seq<CtrlFrame>, targets: seq<Target>) {
    forall d :: 0 <= d < |ctrl| ==> IfFirst(ctrl[d], targets, d)
  }

  // The table as it stands: a slot that has its target has the offset to it, the others have none.
  ghost predicate Offsets(jt: seq<Entry>, targets: seq<Target>) {
    |jt| == |targets| && forall i :: 0 <= i < |jt| ==>
      jt[i].next == NO_NEXT && jt[i].jump == if targets[i].At? then targets[i].pc - jt[i].pc else 0
  }

  lemma NewFrame(ctrl: seq<CtrlFrame>, targets: seq<Target>, f: CtrlFrame)
    requires Partition(ctrl, targets) && f.pending == []
    ensures Partition(ctrl + [f], targets)
    ensures IfsFirst(ctrl, targets) && !f.kind.IfK? ==> IfsFirst(ctrl + [f], targets)
  {
    var more := ctrl + [f];
    forall d | 0 <= d < |more| ensures ListOk(more[d].pending, targets, d) {
    }
  }

  // Nothing has changed for frame d.
  ghost predicate Unmoved(targets: seq<Target>, known: seq<Target>, d: nat) {
    && |targets| <= |known|
    && (forall i :: 0 <= i < |targets| ==> known[i] == targets[i] || (!Waits(targets[i], d) && !Waits(known[i], d)))
    && (forall i :: |targets| <= i < |known| ==> !Waits(known[i], d))
  }

  lemma UnmovedFrame(f: CtrlFrame, targets: seq<Target>, known: seq<Target>, d: nat)
    requires Unmoved(targets, known, d)
    ensures ListOk(f.pending, targets, d) ==> ListOk(f.pending, known, d)
    ensures ListOk(f.pending, targets, d) && IfFirst(f, targets, d) ==> IfFirst(f, known, d)
  {
  }

  // A new slot for frame d.
  lemma NewSlot(ctrl: seq<CtrlFrame>, targets: seq<Target>, d: nat, t: Target)
    requires Partition(ctrl, targets) && d < |ctrl| && (t == ToEnd(d) || (t == ToElse(d) && ctrl[d].pending == []))
    ensures Partition(ctrl[d := ctrl[d].(pending := ctrl[d].pending + [|targets|])], targets + [t])
    ensures t == ToEnd(d) && IfsFirst(ctrl, targets) ==>
              IfsFirst(ctrl[d := ctrl[d].(pending := ctrl[d].pending + [|targets|])], targets + [t])
  {
    hide ListOk, IfFirst;
    var f := ctrl[d].(pending := ctrl[d].pending + [|targets|]);
    var more := targets + [t];
    assert ListOk(ctrl[d].pending, targets, d);
    OneMore(ctrl[d], targets, d, t);
    var next := ctrl[d := f];
    forall j | 0 <= j < |next|
      ensures ListOk(next[j].pending, more, j)
      ensures t == ToEnd(d) && IfsFirst(ctrl, targets) ==> IfFirst(next[j], more, j)
    {
      if j != d {
        UnmovedFrame(ctrl[j], targets, more, j);
      }
    }
  }

  lemma OneMore(f: CtrlFrame, targets: seq<Target>, d: nat, t: Target)
    requires ListOk(f.pending, targets, d) && (t == ToEnd(d) || (t == ToElse(d) && f.pending == []))
    ensures ListOk(f.pending + [|targets|], targets + [t], d)
    ensures t == ToEnd(d) && IfFirst(f, targets, d) ==>
            IfFirst(f.(pending := f.pending + [|targets|]), targets + [t], d)
  {
  }

  // Every slot of the innermost frame learns its target.
  function Known(targets: seq<Target>, d: nat, pc: nat): (r: seq<Target>)
    ensures |r| == |targets|
  {
    seq(|targets|, i requires 0 <= i < |targets| => Resolved(targets[i], d, pc))
  }

  lemma CloseFrame(ctrl: seq<CtrlFrame>, targets: seq<Target>, pc: nat)
    requires Partition(ctrl, targets) && IfsFirst(ctrl, targets) && ctrl != []
    ensures Partition(ctrl[..|ctrl| - 1], Known(targets, |ctrl| - 1, pc))
    ensures IfsFirst(ctrl[..|ctrl| - 1], Known(targets, |ctrl| - 1, pc))
  {
    hide ListOk, IfFirst;
    var d := |ctrl| - 1;
    var known := Known(targets, d, pc);
    forall j | 0 <= j < d ensures ListOk(ctrl[j].pending, known, j) && IfFirst(ctrl[j], known, j) {
      UnmovedFrame(ctrl[j], targets, known, j);
    }
  }

  // The frame of an `if` becomes that of its `else`: its own slot is done, the others go on waiting.
  lemma ElseFrame(ctrl: seq<CtrlFrame>, targets: seq<Target>, e: CtrlFrame, pc: nat)
    requires Partition(ctrl, targets) && IfsFirst(ctrl, targets) && ctrl != [] && ctrl[|ctrl| - 1].kind.IfK?
    requires e.kind.ElseK?
    requires IfFirst(ctrl[|ctrl| - 1], targets, |ctrl| - 1) && e.pending == ctrl[|ctrl| - 1].pending[1..]
    ensures var d, first := |ctrl| - 1, ctrl[|ctrl| - 1].pending[0];
            && Partition(ctrl[..d] + [e], targets[first := At(pc)])
            && IfsFirst(ctrl[..d] + [e], targets[first := At(pc)])
  {
    hide ListOk, IfFirst;
    var d := |ctrl| - 1;
    assert ListOk(ctrl[d].pending, targets, d);
    ElseList(ctrl[d], targets, d, e, pc);
    var known := targets[ctrl[d].pending[0] := At(pc)];
    var next := ctrl[..d] + [e];
    forall j | 0 <= j <= d ensures ListOk(next[j].pending, known, j) && IfFirst(next[j], known, j) {
      if j < d {
        ElseUnmoved(ctrl[d], targets, d, pc, j);
        UnmovedFrame(ctrl[j], targets, known, j);
      }
    }
  }

  lemma ElseUnmoved(f: CtrlFrame, targets: seq<Target>, d: nat, pc: nat, j: nat)
    requires IfFirst(f, targets, d) && f.kind.IfK? && j != d
    ensures Unmoved(targets, targets[f.pending[0] := At(pc)], j)
  {
  }

  lemma ElseList(f: CtrlFrame, targets: seq<Target>, d: nat, e: CtrlFrame, pc: nat)
    requires ListOk(f.pending, targets, d) && IfFirst(f, targets, d) && f.kind.IfK? && e.kind.ElseK?
    requires e.pending == f.pending[1..]
    ensures f.pending != [] && f.pending[0] < |targets|
    ensures var known := targets[f.pending[0] := At(pc)]; ListOk(e.pending, known, d) && IfFirst(e, known, d)
  {
    var list, first := f.pending, f.pending[0];
    var known := targets[first := At(pc)];
    forall i | 0 <= i < |known| && Waits(known[i], d) ensures i in e.pending && known[i] != ToElse(d) {
      assert i in list && i != first;
      var k :| 0 <= k < |list| && list[k] == i;
      assert e.pending[k - 1] == i;
    }
  }

  function Reverse<T>(s: seq<T>): (r: seq<T>)
    ensures |r| == |s|
  {
    if s == [] then [] else Reverse(s[1..]) + [s[0]]
  }

  lemma {:induction false} ReverseSnoc<T>(s: seq<T>, x: T)
    ensures Reverse(s + [x]) == [x] + Reverse(s)
  {
    if s == [] {
      assert Reverse([x]) == Reverse<T>([]) + [x];
    } else {
      ReverseSnoc(s[1..], x);
      assert (s + [x])[1..] == s[1..] + [x];
    }
  }

  // ----- The context -----

  class Context {
    const m: Module
    const f: Func
    var locals: seq<ValType>
    var vals: seq<ValType>
    var ctrl: seq<CtrlFrame>
    var peak: nat
    var jt: seq<Entry>
    ghost var targets: seq<Target>   // what each slot of jt leads to or waits for

    // The pending lists partition the slots without a target.
    ghost predicate Sound()
      reads this`ctrl, this`jt, this`targets, this`locals
    {
      Offsets(jt, targets) && Partition(ctrl, targets) && locals == f.Locals()
    }

    // And the first pending slot of an `if` is its own.
    ghost predicate Valid()
      reads this`ctrl, this`jt, this`targets, this`locals
    {
      Sound() && IfsFirst(ctrl, targets)
    }

    // The state without the lists.
    ghost function Abs(): VState
      requires |jt| == |targets|
      reads this
    {
      VState(FramesOf(ctrl), vals, SlotsOf(jt, targets), peak)
    }

    constructor (m: Module, f: Func)
      ensures this.m == m && this.f == f && vals == [] && ctrl == [] && jt == [] && targets == [] && peak == 0
    {
      this.m, this.f := m, f;
      locals, vals, ctrl, peak, jt, targets := [], [], [], 0, [], [];
    }

    // ----- Operand stack -----

    method PushVal(t: ValType)
      requires |jt| == |targets|
      modifies this`vals, this`peak
      ensures Abs() == Validation.PushVal(old(Abs()), t)
    {
      vals := vals + [t];
      if |vals| > peak {
        peak := |vals|;
      }
    }

    method PushVals(ts: seq<ValType>)
      requires |jt| == |targets|
      modifies this`vals, this`peak
      ensures Abs() == Validation.PushVals(old(Abs()), ts)
    {
      var i := 0;
      assert ts[0..] == ts;
      while i < |ts|
        invariant i <= |ts| && Validation.PushVals(old(Abs()), ts) == Validation.PushVals(Abs(), ts[i..])
      {
        assert ts[i..][0] == ts[i] && ts[i..][1..] == ts[i + 1..];
        PushVal(ts[i]);
        i := i + 1;
      }
    }

    method PopVal() returns (r: Option<ValType>)
      requires |jt| == |targets|
      modifies this`vals
      ensures match Validation.PopVal(old(Abs()))
              case Some((v, t)) => r == Some(t) && Abs() == v
              case None => r == None
    {
      if ctrl == [] { return None; }
      var frame := ctrl[|ctrl| - 1];
      assert Top(Abs()) == FrameOf(frame);
      if frame.dead && frame.height == |vals| { return Some(Unknown); }
      if frame.height == |vals| { return None; }
      if vals == [] { return None; }
      r := Some(vals[|vals| - 1]);
      vals := vals[..|vals| - 1];
    }

    method PopValExpect(t: ValType) returns (r: Option<ValType>)
      requires |jt| == |targets|
      modifies this`vals
      ensures match PopExpect(old(Abs()), t)
              case Some((v, actual)) => r == Some(actual) && Abs() == v
              case None => r == None
    {
      r := PopVal();
      if r.None? { return; }
      if r.value != t && !r.value.Unknown? && !t.Unknown? {
        if !(t.AnyRef? && IsRef(r.value)) { return None; }
      }
    }

    // Pops from the last type to the first; the types popped come in that order.
    method PopValsToVec(ts: seq<ValType>) returns (r: Option<seq<ValType>>)
      requires |jt| == |targets|
      modifies this`vals
      ensures match PopTypes(old(Abs()), ts)
              case Some((v, popped)) => r.Some? && Reverse(r.value) == popped && Abs() == v
              case None => r == None
    {
      var popped: seq<ValType> := [];
      var i := |ts|;
      assert ts[..i] == ts;
      OntoNothing(PopTypes(Abs(), ts));
      while i > 0
        invariant 0 <= i <= |ts|
        invariant PopTypes(old(Abs()), ts) == Onto(PopTypes(Abs(), ts[..i]), Reverse(popped))
      {
        i := i - 1;
        assert ts[..i + 1][i] == ts[i] && ts[..i + 1][..i] == ts[..i];
        var t := PopValExpect(ts[i]);
        if t.None? { return None; }
        ReverseSnoc(popped, t.value);
        OntoOnto(PopTypes(Abs(), ts[..i]), [t.value], Reverse(popped));
        popped := popped + [t.value];
      }
      r := Some(popped);
    }

    method PopVals(ts: seq<ValType>) returns (ok: bool)
      requires |jt| == |targets|
      modifies this`vals
      ensures match Validation.PopVals(old(Abs()), ts) case Some(v) => ok && Abs() == v case None => !ok
    {
      var r := PopValsToVec(ts);
      ok := r.Some?;
    }

    // ----- Control stack -----

    // The source's rules, not the strict ones.
    ghost function Rules(): Ctx {
      Ctx(m, f, false, false)
    }

    method PushCtrl(kind: Kind, ft: FuncType)
      requires |jt| == |targets|
      modifies this`ctrl, this`vals, this`peak
      ensures ctrl == old(ctrl) + [CtrlFrame(kind, ft, |old(vals)|, false, 0, [])]
      ensures old(Sound()) ==> Sound()
      ensures old(Valid()) && !kind.IfK? ==> Valid()
      ensures Abs() == Validation.PushCtrl(old(Abs()), kind, ft, 0)
    {
      var frame := CtrlFrame(kind, ft, |vals|, false, 0, []);
      if Partition(ctrl, targets) { NewFrame(ctrl, targets, frame); }
      FramesSnoc(ctrl, frame);
      ctrl := ctrl + [frame];
      PushVals(ft.params);
    }

    // The frame popped still has its list.
    method PopCtrl() returns (r: Option<CtrlFrame>)
      requires |jt| == |targets|
      modifies this`ctrl, this`vals
      ensures match Validation.PopCtrl(Rules(), old(Abs()))
              case Some(v) => old(ctrl) != [] && r == Some(old(ctrl)[|old(ctrl)| - 1])
                  && ctrl == old(ctrl)[..|old(ctrl)| - 1] && Abs() == v
              case None => r == None
    {
      if ctrl == [] { return None; }
      var top := ctrl[|ctrl| - 1];
      assert Top(Abs()) == FrameOf(top);
      var ok := PopVals(top.ftype.results);
      if !ok { return None; }
      assert FramesOf(ctrl[..|ctrl| - 1]) == FramesOf(ctrl)[..|ctrl| - 1];
      ctrl := ctrl[..|ctrl| - 1];
      r := Some(top);
    }

    method SetUnreachable() returns (ok: bool)
      requires Valid()
      modifies this`ctrl, this`vals
      ensures match Validation.SetUnreachable(old(Abs())) case Some(v) => ok && Abs() == v && Valid() case None => !ok
    {
      if ctrl == [] { return false; }
      var d := |ctrl| - 1;
      var frame := ctrl[d];
      assert Top(Abs()) == FrameOf(frame);
      if |vals| < frame.height { return false; }
      vals := vals[..frame.height];
      DeadFrame(ctrl, targets);
      ctrl := ctrl[d := frame.(dead := true)];
      return true;
    }

    // ----- Jump table -----

    // A slot for a branch out of frame d, on the list of that frame.
    method AddSlot(pc: nat, offset: nat, arity: nat, d: nat, ghost t: Target)
      requires Sound() && d < |ctrl| && (t == ToEnd(d) || (t == ToElse(d) && ctrl[d].pending == []))
      modifies this`jt, this`ctrl, this`targets
      ensures Sound() && Abs() == Validation.AddSlot(old(Abs()), Slot(pc, offset, arity, t))
      ensures ctrl == old(ctrl)[d := old(ctrl)[d].(pending := old(ctrl)[d].pending + [|old(jt)|])]
      ensures targets == old(targets) + [t]
      ensures t == ToEnd(d) && old(IfsFirst(ctrl, targets)) ==> Valid()
    {
      hide Partition, IfsFirst, SlotsOf, FramesOf;
      SlotsSnoc(jt, targets, Entry(pc, 0, offset, arity, NO_NEXT), t);
      NewSlot(ctrl, targets, d, t);
      jt := jt + [Entry(pc, 0, offset, arity, NO_NEXT)];
      targets := targets + [t];
      var frame := ctrl[d].(pending := ctrl[d].pending + [|jt| - 1]);
      FramesKeep(ctrl, d, frame);
      ctrl := ctrl[d := frame];
    }

    // block, loop and if.
    method OnBlock(op: Op, imm: nat) returns (ok: bool)
      requires Valid() && imm > 0 && (op.BlockOp? || op.LoopOp? || op.IfOp?)
      modifies this`ctrl, this`vals, this`peak, this`jt, this`targets
      ensures match Step(Rules(), old(Abs()), op, imm - 1, 2)
              case Some(v) => ok && Valid() && Abs() == v
              case None => !ok
    {
      hide Validation.PopVals, Validation.PushCtrl, PopExpect, Partition, IfsFirst, SlotsOf;
      if op.IfOp? {
        var t := PopValExpect(I32);
        if t.None? { return false; }
      }
      ok := PopVals(op.ft.params);
      if !ok { return; }
      ghost var popped := Abs();
      ghost var waiting := targets;
      var outer := ctrl;
      LoopPushed(popped, op.ft, imm + 1);
      PushCtrl(if op.BlockOp? then BlockK else if op.LoopOp? then LoopK else IfK, op.ft);
      var pcOffset := imm;
      var d := |ctrl| - 1;
      if op.LoopOp? {
        pcOffset := pcOffset + 1;
        LoopFrame(ctrl, targets, pcOffset);
        assert |FramesOf(ctrl)| == |popped.ctrl| + 1;
        ctrl := ctrl[d := ctrl[d].(pc := pcOffset)];
        assert Abs() == Validation.PushCtrl(popped, LoopK, op.ft, pcOffset);
      }
      if op.IfOp? {
        AddSlot(pcOffset, 0, 0, d, ToElse(d));
        IfPushed(outer, waiting, ctrl[d]);
        assert ctrl == outer + [ctrl[d]];
      }
    }

    // Sets the offsets of the slots on a list.
    method Patch(list: seq<nat>, target: nat)
      requires forall k :: 0 <= k < |list| ==> list[k] < |jt|
      modifies this`jt
      ensures |jt| == |old(jt)|
      ensures forall i :: 0 <= i < |jt| ==> jt[i] == if i in list then old(jt)[i].(jump := target - old(jt)[i].pc)
              else old(jt)[i]
    {
      var k := 0;
      while k < |list|
        invariant k <= |list| && |jt| == |old(jt)|
        invariant forall i :: 0 <= i < |jt| ==> jt[i] == if i in list[..k]
                  then old(jt)[i].(jump := target - old(jt)[i].pc) else old(jt)[i]
      {
        var slot := list[k];
        assert list[..k + 1] == list[..k] + [slot];
        jt := jt[slot := jt[slot].(jump := target - jt[slot].pc)];
        k := k + 1;
      }
      assert list[..k] == list;
    }

    method OnEnd(imm: nat) returns (ok: bool)
      requires Valid() && imm > 0
      modifies this`ctrl, this`vals, this`peak, this`jt, this`targets
      ensures match Validation.OnEnd(Rules(), old(Abs()), imm)
              case Some(v) => ok && Valid() && Abs() == v
              case None => !ok
    {
      hide Validation.PopCtrl, Validation.PushVals, IfsFirst, FramesOf;
      var cf := PopCtrl();
      if cf.None? { return false; }
      var d := |ctrl|;
      var target := if cf.value.kind.LoopK? then cf.value.pc
                    // a branch out of the function leads to the last end itself
                    else if cf.value.kind.FuncK? then imm - 1
                    else imm;
      TopFrame(old(ctrl));
      CloseFrame(old(ctrl), targets, target);
      assert ListOk(cf.value.pending, targets, d);
      Patch(cf.value.pending, target);
      PatchedSlots(old(jt), jt, targets, cf.value.pending, d, target);
      targets := Known(targets, d, target);
      PushVals(cf.value.ftype.results);
      return true;
    }

    method OnElse(imm: nat) returns (ok: bool)
      requires Valid() && imm > 0
      modifies this`ctrl, this`vals, this`peak, this`jt, this`targets
      ensures match Validation.OnElse(Rules(), old(Abs()), imm)
              case Some(v) => ok && Valid() && Abs() == v
              case None => !ok
    {
      hide Validation.PopCtrl, Validation.PushCtrl, FramesOf, IfsFirst, ListOk, IfFirst, Partition, SlotsOf,
        ResolveElse;
      if ctrl == [] { return false; }
      TopFrame(ctrl);
      if !ctrl[|ctrl| - 1].kind.IfK? { return false; }
      var top := PopCtrl();
      if top.None? { return false; }
      var cf := top.value;
      PushCtrl(ElseK, cf.ftype);
      var d := |ctrl| - 1;
      TopIf(old(ctrl), targets);
      HandOver(cf.pending, d, imm);
      ghost var first := cf.pending[0];
      ElseSlot(old(jt), jt, targets, cf.pending, d, imm);
      ElseFrame(old(ctrl), targets, ctrl[d], imm);
      assert ctrl == old(ctrl)[..d] + [ctrl[d]];
      targets := targets[first := At(imm)];
      TopFrame(ctrl);
      var arity := |cf.ftype.results|;
      AddSlot(imm, (|vals| - arity - ctrl[d].height) % 0x1_0000_0000, arity % 0x1_0000, d, ToEnd(d));
      return true;
    }

    // The first slot on the list leads to the `else`; the others move to the frame of the `else`.
    method HandOver(list: seq<nat>, d: nat, pc: nat)
      requires list != [] && (forall k :: 0 <= k < |list| ==> list[k] < |jt|) && d < |ctrl| && ctrl[d].pending == []
      modifies this`jt, this`ctrl
      ensures |ctrl| == |old(ctrl)| && ctrl == old(ctrl)[d := old(ctrl)[d].(pending := list[1..])]
      ensures jt == old(jt)[list[0] := old(jt)[list[0]].(jump := pc - old(jt)[list[0]].pc)]
      ensures FramesOf(ctrl) == FramesOf(old(ctrl))
    {
      var i := 0;
      while i < |list|
        invariant i <= |list| && |ctrl| == |old(ctrl)| && |jt| == |old(jt)|
        invariant ctrl == old(ctrl)[d := old(ctrl)[d].(pending := list[Min(i, 1)..i])]
        invariant jt == if i == 0 then old(jt)
                  else old(jt)[list[0] := old(jt)[list[0]].(jump := pc - old(jt)[list[0]].pc)]
      {
        var slot := list[i];
        if i == 0 {
          jt := jt[slot := jt[slot].(jump := pc - jt[slot].pc)];
          assert list[0..0] == list[1..1] == [];
        } else {
          assert list[1..i + 1] == list[1..i] + [slot];
          ctrl := ctrl[d := ctrl[d].(pending := ctrl[d].pending + [slot])];
        }
        i := i + 1;
      }
      assert list[1..i] == list[1..];
    }

    // ----- Branches -----

    method OnBrOrIf(conditional: bool, imm: nat, depth: nat) returns (ok: bool)
      requires Valid()
      modifies this`ctrl, this`vals, this`peak, this`jt, this`targets
      ensures match if conditional then OnBrIf(Rules(), old(Abs()), depth, imm)
              else OnBr(Rules(), old(Abs()), depth, imm)
              case Some(v) => ok && Valid() && Abs() == v
              case None => !ok
    {
      hide Validation.PopVals, PopExpect, Validation.SetUnreachable, Validation.PushVals, FramesOf, IfsFirst,
        Partition, SlotsOf;
      if depth >= |ctrl| { return false; }
      if conditional {
        var t := PopValExpect(I32);
        if t.None? { return false; }
      }
      var d := |ctrl| - depth - 1;
      var types := LabelTypesOf(ctrl, d);
      var arity := |types|;
      AddSlot(imm, (|vals| - arity - ctrl[d].height) % 0x1_0000_0000, arity % 0x1_0000, d, ToEnd(d));
      ok := PopVals(types);
      if !ok { return; }
      if !conditional {
        ok := SetUnreachable();
      } else {
        PushVals(types);
      }
    }

    // `labels` are the table's numbers, read on the first of the two passes; pc lies after them.
    method OnBrTable(labels: seq<nat>, pc: nat) returns (ok: bool)
      requires Valid() && labels != []
      modifies this`ctrl, this`vals, this`peak, this`jt, this`targets
      ensures match Validation.OnBrTable(Rules(), old(Abs()), labels, pc)
              case Some(v) => ok && Valid() && Abs() == v
              case None => !ok
    {
      hide Validation.PopVals, PopExpect, Validation.SetUnreachable, Validation.PushVals, FramesOf, IfsFirst,
        Partition, SlotsOf, PopTypes, BranchSlot;
      var t := PopValExpect(I32);
      if t.None? { return false; }
      var i := 0;
      while i < |labels|
        invariant i <= |labels| && forall k :: 0 <= k < i ==> labels[k] < |ctrl|
      {
        if labels[i] >= |ctrl| { return false; }
        i := i + 1;
      }
      var last := LabelTypesOf(ctrl, |ctrl| - labels[|labels| - 1] - 1);
      ok := EmitTable(labels, |last|, pc);
      if !ok { return; }
      ok := PopVals(last);
      if !ok { return; }
      ok := SetUnreachable();
    }

    // The second pass over a table.
    method EmitTable(labels: seq<nat>, arity: nat, pc: nat) returns (ok: bool)
      requires Valid() && forall k :: 0 <= k < |labels| ==> labels[k] < |ctrl|
      modifies this`ctrl, this`vals, this`peak, this`jt, this`targets
      ensures ok ==> Valid()
      ensures TableSlots(old(Abs()), labels, arity, pc) == if ok then Some(Abs()) else None
    {
      hide Partition, FramesOf, IfsFirst, SlotsOf, TableSlots;
      var i := 0;
      ghost var rest := labels;
      while i < |labels|
        invariant i <= |labels| && rest == labels[i..] && Valid() && |ctrl| == |old(ctrl)|
        invariant TableSlots(old(Abs()), labels, arity, pc) == TableSlots(Abs(), rest, arity, pc)
      {
        assert rest == [labels[i]] + rest[1..];
        ok := OnTableLabel(labels[i], arity, pc, rest[1..]);
        if !ok { return; }
        i := i + 1;
        rest := rest[1..];
      }
      NoLabels(Abs(), arity, pc);
      return true;
    }

    // One label of a table: its slot, and a look at the operands it needs.
    method OnTableLabel(l: nat, arity: nat, pc: nat, ghost rest: seq<nat>) returns (ok: bool)
      requires Valid() && l < |ctrl|
      modifies this`ctrl, this`vals, this`peak, this`jt, this`targets
      ensures ok ==> Valid() && |ctrl| == |old(ctrl)|
      ensures TableSlots(old(Abs()), [l] + rest, arity, pc) == if ok then TableSlots(Abs(), rest, arity, pc) else None
    {
      hide Validation.PushVals, FramesOf, IfsFirst, Partition, SlotsOf, PopTypes, TableSlots;
      var d := |ctrl| - l - 1;
      var types := LabelTypesOf(ctrl, d);
      TableUnfold(Abs(), [l] + rest, arity, pc);
      if arity != |types| { return false; }
      AddSlot(pc, (|vals| - arity - ctrl[d].height) % 0x1_0000_0000, arity % 0x1_0000, d, ToEnd(d));
      var popped := PopValsToVec(types);
      if popped.None? { return false; }
      PushVals(Reverse(popped.value));
      assert ([l] + rest)[1..] == rest;
      return true;
    }

    method OnReturn() returns (ok: bool)
      requires Valid()
      modifies this`ctrl, this`vals
      ensures match Validation.OnReturn(Rules(), old(Abs()))
              case Some(v) => ok && Valid() && Abs() == v
              case None => !ok
    {
      hide Validation.PopVals, Validation.SetUnreachable, FramesOf, IfsFirst, Partition, SlotsOf;
      if ctrl == [] { return false; }
      var types := LabelTypesOf(ctrl, 0);
      ok := PopVals(types);
      if !ok { return; }
      ok := SetUnreachable();
    }

    method OnCall(fi: nat) returns (ok: bool)
      requires Valid()
      modifies this`vals, this`peak
      ensures match Validation.OnCall(Rules(), old(Abs()), fi)
              case Some(v) => ok && Valid() && Abs() == v
              case None => !ok
      // the stack size that the call asks for, and no more
      ensures ok ==> fi < |m.funcs| && var g := m.funcs[fi];
              && |g.ftype.results| <= |vals|
              && peak == Max(Max(old(peak), |vals| - |g.ftype.results| + |g.ftype.params| + |g.localTypes|),
                             if g.ftype.results == [] then 0 else |vals|)
    {
      hide Validation.PopVals, Validation.PushVals, FramesOf, IfsFirst, Partition, SlotsOf;
      if fi >= |m.funcs| { return false; }
      var callee := m.funcs[fi];
      ok := PopVals(callee.ftype.params);
      if !ok { return; }
      var required := |vals| + |callee.Locals()|;
      if required > peak {
        peak := required;
      }
      PushVals(callee.ftype.results);
    }

    // ----- Simple instructions -----

    method OnDrop() returns (ok: bool)
      requires Valid()
      modifies this`vals
      ensures match Validation.PopVal(old(Abs())) case Some((v, _)) => ok && Abs() == v case None => !ok
    {
      var t := PopVal();
      ok := t.Some?;
    }

    method OnSelect() returns (ok: bool)
      requires Valid()
      modifies this`vals, this`peak
      ensures match Validation.OnSelect(old(Abs())) case Some(v) => ok && Abs() == v case None => !ok
    {
      hide Validation.PopVal, PopExpect, FramesOf, SlotsOf;
      var c := PopValExpect(I32);
      if c.None? { return false; }
      var t1 := PopVal();
      if t1.None? { return false; }
      var t2 := PopVal();
      if t2.None? { return false; }
      if !((IsNum(t1.value) && IsNum(t2.value)) || (IsVec(t1.value) && IsVec(t2.value))) { return false; }
      if t1.value != t2.value && !t1.value.Unknown? && !t2.value.Unknown? { return false; }
      PushVal(if t1.value.Unknown? then t2.value else t1.value);
      return true;
    }

    // Instructions that push one value.
    method OnPush(t: ValType)
      requires Valid()
      modifies this`vals, this`peak
      ensures Some(Abs()) == Typed(old(Abs()), [], [t])
    {
      TypedNone(Abs(), [t]);
      PushVals([t]);
    }

    // Instructions that pop one value.
    method OnPop(t: ValType) returns (ok: bool)
      requires Valid()
      modifies this`vals
      ensures match Typed(old(Abs()), [t], []) case Some(v) => ok && Abs() == v case None => !ok
    {
      TypedOne(Abs(), t, []);
      var a := PopValExpect(t);
      ok := a.Some?;
    }

    // Instructions that replace one value: local.tee, tests, conversions, loads and memory.grow.
    method OnReplace(t: ValType, result: ValType) returns (ok: bool)
      requires Valid()
      modifies this`vals, this`peak
      ensures match Typed(old(Abs()), [t], [result]) case Some(v) => ok && Abs() == v case None => !ok
    {
      hide PopExpect;
      TypedOne(Abs(), t, [result]);
      var a := PopValExpect(t);
      if a.None? { return false; }
      PushVals([result]);
      return true;
    }

    // Binary operators.
    method OnBinop(t: ValType) returns (ok: bool)
      requires Valid()
      modifies this`vals, this`peak
      ensures match Typed(old(Abs()), [t, t], [t]) case Some(v) => ok && Abs() == v case None => !ok
    {
      hide PopExpect;
      TypedTwo(Abs(), t, t, [t]);
      var a := PopValExpect(t);
      if a.None? { return false; }
      ok := OnReplace(t, t);
    }

    // The alignment is compared with the size of the operand's type.
    method OnLoadStore(op: Op) returns (ok: bool)
      requires Valid() && (op.Load? || op.Save?)
      modifies this`vals, this`peak
      ensures match OnSimple(Rules(), old(Abs()), op) case Some(v) => ok && Abs() == v case None => !ok
    {
      hide PopExpect, Typed;
      SimpleTypedBy(Rules(), Abs(), op);
      if m.memMax.None? { return false; }
      var size := if Is32(op.acc.ty) then 4 else 8;
      if op.align > size { return false; }
      if op.Load? {
        ok := OnReplace(I32, op.acc.ty);
      } else {
        TypedTwo(Abs(), I32, op.acc.ty, []);
        var a := PopValExpect(op.acc.ty);
        if a.None? { return false; }
        ok := OnPop(I32);
      }
    }

    // memory.copy and memory.fill
    method OnBulk(op: Op) returns (ok: bool)
      requires Valid() && (op.MemoryCopy? || op.MemoryFill?)
      modifies this`vals
      ensures match OnSimple(Rules(), old(Abs()), op) case Some(v) => ok && Abs() == v case None => !ok
    {
      hide PopExpect, Typed;
      SimpleTypedBy(Rules(), Abs(), op);
      if m.memMax.None? { return false; }
      TypedThree(Abs(), I32, I32, I32, []);
      var a := PopValExpect(I32);
      if a.None? { return false; }
      TypedTwo(Abs(), I32, I32, []);
      var b := PopValExpect(I32);
      if b.None? { return false; }
      ok := OnPop(I32);
    }

    method OnSimpleOp(op: Op) returns (ok: bool)
      requires Valid() && IsSimple(op)
      modifies this`vals, this`peak
      ensures match OnSimple(Rules(), old(Abs()), op) case Some(v) => ok && Abs() == v case None => !ok
    {
      hide Validation.OnSelect, Validation.PopVal, Typed, Partition, IfsFirst, SlotsOf, FramesOf;
      SimpleTypedBy(Rules(), Abs(), op);
      ok := true;
      if op.Drop? {
        ok := OnDrop();
      } else if op.Select? {
        ok := OnSelect();
      } else if op.Load? || op.Save? {
        ok := OnLoadStore(op);
      } else if op.MemoryCopy? || op.MemoryFill? {
        ok := OnBulk(op);
      } else if op.LocalGet? {
        if op.idx >= |locals| { return false; }
        OnPush(locals[op.idx]);
      } else if op.LocalSet? {
        if op.idx >= |locals| { return false; }
        ok := OnPop(locals[op.idx]);
      } else if op.LocalTee? {
        if op.idx >= |locals| { return false; }
        ok := OnReplace(locals[op.idx], locals[op.idx]);
      } else if op.GlobalGet? {
        if op.idx >= |m.globals| { return false; }
        OnPush(m.globals[op.idx].ty);
      } else if op.GlobalSet? {
        if op.idx >= |m.globals| { return false; }
        ok := OnPop(m.globals[op.idx].ty);
      } else if op.MemorySize? || op.I32Const? {
        OnPush(I32);
      } else if op.I64Const? {
        OnPush(I64);
      } else if op.MemoryGrow? || op.I32Eqz? {
        ok := OnReplace(I32, I32);
      } else if op.I32WrapI64? {
        ok := OnReplace(I64, I32);
      } else if op.I64ExtendI32U? {
        ok := OnReplace(I32, I64);
      } else if op.I32Add? || op.I32DivU? {
        ok := OnBinop(I32);
      } else if op.I64Add? {
        ok := OnBinop(I64);
      } else {
        TypedNone(Abs(), []);
      }
    }

    // ----- Begin and end -----

    // The function's own frame; its parameters are locals, not operands.
    method OnDecodeBegin()
      requires vals == [] && ctrl == [] && jt == [] && targets == [] && peak == 0
      modifies this`locals, this`vals, this`ctrl, this`peak
      ensures Valid() && Abs() == Begin(Rules())
    {
      locals := f.ftype.params + f.localTypes;
      assert Abs() == VState([], [], [], 0);
      PushCtrl(FuncK, f.ftype);
      vals := [];
    }

    // Links each slot to the next one met after its jump.
    method OnDecodeEnd()
      requires Valid()
      modifies this`jt
      ensures jt == Link(Entries(old(Abs()).slots))
    {
      assert jt == Entries(Abs().slots);
      var i := 0;
      while i < |jt|
        invariant i <= |jt| == |old(jt)|
        invariant forall k :: 0 <= k < i ==> jt[k] == old(jt)[k].(next := NextOf(old(jt), k))
        invariant forall k :: i <= k < |jt| ==> jt[k] == old(jt)[k]
      {
        LinkSlot(i, old(jt));
        i := i + 1;
      }
    }

    // `links` is the table with none of its slots linked.
    method LinkSlot(i: nat, ghost links: seq<Entry>)
      requires i < |jt| == |links| && jt[i] == links[i] && links[i].next == NO_NEXT
      requires forall k :: 0 <= k < |jt| ==> jt[k].pc == links[k].pc
      modifies this`jt
      ensures jt == old(jt)[i := old(jt)[i].(next := NextOf(links, i))]
    {
      var slot := jt[i];
      var target := slot.pc + slot.jump;
      if slot.jump > 0 {
        var j := i + 1;
        while j < |jt|
          invariant i < j <= |jt| && jt == old(jt) && ScanUp(links, target, i + 1) == ScanUp(links, target, j)
        {
          if jt[j].pc > target {
            jt := jt[i := slot.(next := j % 0x1_0000)];
            return;
          }
          j := j + 1;
        }
      } else {
        var j: int := i;
        while j >= 0
          invariant -1 <= j <= i && |jt| == |old(jt)|
          invariant jt == old(jt)[i := slot.(next := jt[i].next)]
          invariant ScanDown(links, target, i + 1, NO_NEXT) == ScanDown(links, target, j + 1, jt[i].next)
        {
          if jt[j].pc <= target { break; }
          jt := jt[i := slot.(next := j % 0x1_0000)];
          j := j - 1;
        }
      }
    }
  }

  // Popping and pushing by a signature.
  function Typed(v: VState, params: seq<ValType>, results: seq<ValType>): Option<VState> {
    var v1 :- Validation.PopVals(v, params);
    Some(Validation.PushVals(v1, results))
  }

  lemma SimpleTypedBy(c: Ctx, v: VState, op: Op)
    requires IsSimple(op)
    ensures OnSimple(c, v, op)
         == if op.Drop? then (match Validation.PopVal(v) case None => None case Some((w, _)) => Some(w))
            else if op.Select? then Validation.OnSelect(v)
            else match Signature(c, op) case None => None case Some(sig) => Typed(v, sig.params, sig.results)
  {
    hide Validation.PopVal, Validation.OnSelect, Signature, Validation.PopVals;
  }

  lemma TypedNone(v: VState, results: seq<ValType>)
    ensures Typed(v, [], results) == Some(Validation.PushVals(v, results))
  {
  }

  lemma TypedOne(v: VState, t: ValType, results: seq<ValType>)
    ensures var p := PopExpect(v, t);
            Typed(v, [t], results) == if p.None? then None else Some(Validation.PushVals(p.value.0, results))
  {
    hide PopExpect;
    assert [t][..0] == [] && [t][0] == t;
    if PopExpect(v, t).Some? {
      assert PopTypes(PopExpect(v, t).value.0, [t][..0]) == Some((PopExpect(v, t).value.0, []));
    }
  }

  lemma TypedTwo(v: VState, a: ValType, b: ValType, results: seq<ValType>)
    ensures var p := PopExpect(v, b);
            Typed(v, [a, b], results) == if p.None? then None else Typed(p.value.0, [a], results)
  {
    hide PopExpect;
    assert [a, b][..1] == [a] && [a][..0] == [];
  }

  lemma TypedThree(v: VState, a: ValType, b: ValType, d: ValType, results: seq<ValType>)
    ensures var p := PopExpect(v, d);
            Typed(v, [a, b, d], results) == if p.None? then None else Typed(p.value.0, [a, b], results)
  {
    hide PopExpect;
    assert [a, b, d][..2] == [a, b];
  }

  function LabelTypesOf(ctrl: seq<CtrlFrame>, d: nat): (r: seq<ValType>)
    requires d < |ctrl|
    ensures r == LabelTypes(FramesOf(ctrl)[d]) && FramesOf(ctrl)[d].height == ctrl[d].height
  {
    if ctrl[d].kind.LoopK? then ctrl[d].ftype.params else ctrl[d].ftype.results
  }

  lemma NoLabels(v: VState, arity: nat, pc: nat)
    ensures TableSlots(v, [], arity, pc) == Some(v)
  {
  }

  lemma TableUnfold(v: VState, ls: seq<nat>, arity: nat, pc: nat)
    requires ls != [] && ls[0] < |v.ctrl|
    ensures var d := |v.ctrl| - ls[0] - 1;
            TableSlots(v, ls, arity, pc)
            == if |LabelTypes(v.ctrl[d])| != arity then None
               else
                 match PopTypes(Validation.AddSlot(v, BranchSlot(v, pc, d)), LabelTypes(v.ctrl[d]))
                 case None => None
                 case Some((v1, popped)) => TableSlots(Validation.PushVals(v1, popped), ls[1..], arity, pc)
  {
    hide PopTypes, BranchSlot;
  }

  lemma TopIf(ctrl: seq<CtrlFrame>, targets: seq<Target>)
    requires Partition(ctrl, targets) && IfsFirst(ctrl, targets) && ctrl != [] && ctrl[|ctrl| - 1].kind.IfK?
    ensures var d, list := |ctrl| - 1, ctrl[|ctrl| - 1].pending;
            && IfFirst(ctrl[d], targets, d) && ListOk(list, targets, d)
            && (forall k :: 0 <= k < |list| ==> list[k] < |targets|) && list != [] && targets[list[0]] == ToElse(d)
  {
    assert IfFirst(ctrl[|ctrl| - 1], targets, |ctrl| - 1);
  }

  // Patching the slot of the `if` is resolving what waits for the `else`.
  lemma ElseSlot(before: seq<Entry>, jt: seq<Entry>, targets: seq<Target>, list: seq<nat>, d: nat, pc: nat)
    requires Offsets(before, targets) && ListOk(list, targets, d) && list != [] && targets[list[0]] == ToElse(d)
    requires jt == before[list[0] := before[list[0]].(jump := pc - before[list[0]].pc)]
    ensures Offsets(jt, targets[list[0] := At(pc)])
    ensures SlotsOf(jt, targets[list[0] := At(pc)]) == ResolveElse(SlotsOf(before, targets), d, pc)
  {
    forall i | 0 <= i < |jt| ensures targets[i] == ToElse(d) <==> i == list[0] {
      if targets[i] == ToElse(d) {
        assert Waits(targets[i], d) && i in list;
        var k :| 0 <= k < |list| && list[k] == i;
      }
    }
  }

  lemma TopFrame(ctrl: seq<CtrlFrame>)
    requires ctrl != []
    ensures FramesOf(ctrl)[|ctrl| - 1] == FrameOf(ctrl[|ctrl| - 1])
  {
  }

  // Patching a frame's list is resolving its slots.
  lemma PatchedSlots(before: seq<Entry>, jt: seq<Entry>, targets: seq<Target>, list: seq<nat>, d: nat, pc: nat)
    requires Offsets(before, targets) && ListOk(list, targets, d) && |jt| == |before|
    requires forall i :: 0 <= i < |jt| ==> jt[i] == if i in list then before[i].(jump := pc - before[i].pc)
             else before[i]
    ensures Offsets(jt, Known(targets, d, pc))
    ensures SlotsOf(jt, Known(targets, d, pc)) == ResolveAll(SlotsOf(before, targets), d, pc)
  {
    forall i | 0 <= i < |jt| ensures i in list <==> Waits(targets[i], d) {
    }
  }

  lemma LoopFrame(ctrl: seq<CtrlFrame>, targets: seq<Target>, pc: nat)
    requires Partition(ctrl, targets) && IfsFirst(ctrl, targets) && ctrl != []
    ensures var d := |ctrl| - 1;
            var next := ctrl[d := ctrl[d].(pc := pc)];
            && Partition(next, targets) && IfsFirst(next, targets)
            && FramesOf(next) == FramesOf(ctrl)[d := FrameOf(ctrl[d]).(pc := pc)]
  {
    hide ListOk;
  }

  // A loop's frame learns its position after it was pushed.
  lemma LoopPushed(v: VState, ft: FuncType, pc: nat)
    ensures var w := Validation.PushCtrl(v, LoopK, ft, 0);
            Validation.PushCtrl(v, LoopK, ft, pc) == w.(ctrl := w.ctrl[|v.ctrl| := w.ctrl[|v.ctrl|].(pc := pc)])
  {
    var a, b := Frame(LoopK, ft, |v.vals|, false, 0), Frame(LoopK, ft, |v.vals|, false, pc);
    assert (v.ctrl + [a])[|v.ctrl| := b] == v.ctrl + [b];
  }

  // The frame of an `if` whose own slot has just been added.
  lemma IfPushed(outer: seq<CtrlFrame>, targets: seq<Target>, f: CtrlFrame)
    requires IfsFirst(outer, targets) && f.kind.IfK? && f.pending == [|targets|]
    ensures IfsFirst(outer + [f], targets + [ToElse(|outer|)])
  {
    var more := targets + [ToElse(|outer|)];
    var ctrl := outer + [f];
    forall j | 0 <= j < |ctrl| ensures IfFirst(ctrl[j], more, j) {
      if j < |outer| {
        assert IfFirst(outer[j], targets, j);
      }
    }
  }

  lemma DeadFrame(ctrl: seq<CtrlFrame>, targets: seq<Target>)
    requires Partition(ctrl, targets) && IfsFirst(ctrl, targets) && ctrl != []
    ensures var d := |ctrl| - 1;
            var next := ctrl[d := ctrl[d].(dead := true)];
            && Partition(next, targets) && IfsFirst(next, targets)
            && FramesOf(next) == FramesOf(ctrl)[d := FrameOf(ctrl[d]).(dead := true)]
  {
    hide ListOk;
  }

  ghost function Onto(r: Option<(VState, seq<ValType>)>, more: seq<ValType>): Option<(VState, seq<ValType>)> {
    match r case None => None case Some((v, popped)) => Some((v, popped + more))
  }

  lemma OntoOnto(r: Option<(VState, seq<ValType>)>, a: seq<ValType>, b: seq<ValType>)
    ensures Onto(Onto(r, a), b) == Onto(r, a + b)
  {
    if r.Some? {
      assert r.value.1 + a + b == r.value.1 + (a + b);
    }
  }

  lemma OntoNothing(r: Option<(VState, seq<ValType>)>)
    ensures Onto(r, []) == r
  {
    if r.Some? {
      assert r.value.1 + [] == r.value.1;
    }
  }

  lemma SlotsSnoc(jt: seq<Entry>, targets: seq<Target>, e: Entry, t: Target)
    requires |jt| == |targets|
    ensures SlotsOf(jt + [e], targets + [t]) == SlotsOf(jt, targets) + [Slot(e.pc, e.offset, e.arity, t)]
  {
  }

  lemma FramesSnoc(ctrl: seq<CtrlFrame>, f: CtrlFrame)
    ensures FramesOf(ctrl + [f]) == FramesOf(ctrl) + [FrameOf(f)]
  {
  }

  lemma FramesKeep(ctrl: seq<CtrlFrame>, d: nat, f: CtrlFrame)
    requires d < |ctrl| && FrameOf(f) == FrameOf(ctrl[d])
    ensures FramesOf(ctrl[d := f]) == FramesOf(ctrl)
  {
  }
}
