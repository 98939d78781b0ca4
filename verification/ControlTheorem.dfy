/**
 The control theorem over whole runs: for accepted, well-nested code and any sequence of
 tested operands, the interpreter with only a position and a table index does what the
 reference machine does with nested bodies and labels.
 */
module ControlTheorem {
  import opened Wasm
  import opened Decoder
  import opened Validation
  import opened Invariants
  import opened JumpTable
  import opened Compiled
  import opened Reference
  import opened InPlace
  import opened Control
  import opened Boundaries

  // Both machines run on the same operands until one stops or the operands are used up.
  function ControlRun(g: Cfg, ops: seq<nat>): Move
    decreases |ops|
  {
    if ops == [] then Go(g)
    else
      match Advance(g, ops[0], 0)
      case Go(g2) => ControlRun(g2, ops[1..])
      case stopped => stopped
  }

  function FlatWalk(im: Image, pc: nat, idx: nat, ops: seq<nat>): FlatMove
    decreases |ops|
  {
    if ops == [] then FGo(pc, idx)
    else
      match FlatControl(im, pc, idx, ops[0])
      case FGo(pc2, idx2) => FlatWalk(im, pc2, idx2, ops[1..])
      case stopped => stopped
  }

  // The table of an accepted function, small enough for 16-bit indices.
  ghost predicate Fits(c: Ctx) {
    Validate(c).Some? && |PreparedOf(Validate(c).value).jt| <= 0x1_0000
  }

  function TableOf(c: Ctx): seq<Entry>
    requires Validate(c).Some?
  {
    PreparedOf(Validate(c).value).jt
  }

  lemma TableLinked(c: Ctx, b: Body)
    requires Accepted(c, b) && Fits(c)
    ensures Linked(TableOf(c))
  {
    hide Accepted, LinkOk, Validate;
    forall k | 0 <= k < |TableOf(c)| ensures LinkOk(TableOf(c), k) {
      AllLinked(c, b, k);
    }
  }

  // At the start of the function both machines are at the start of its body.
  lemma StartTracks(c: Ctx, b: Body)
    requires Accepted(c, b)
    ensures Tracks(c, TableOf(c), Cfg(b, []), Point(0, b, Begin(c)), [], 0, 0)
  {
    hide Run, Runs, Validate, Step, Within, Decode, Link, Entries;
    var p := Point(0, b, Begin(c));
    AcceptedSlots(c, b);
    BeginShape(c);
    RunsSome(c, p, Final(c, b).value);
    WithinPast(Final(c, b).value.slots, Size(b));
    assert PointOk(c, p);
  }

  lemma WithinPast(s: seq<Slot>, hi: int)
    requires Within(s, 0, hi)
    ensures Past(s, hi)
  {
  }

  // After the same operands: both go on, the decoder's walk meeting an instruction at pc, the code
  // there spelling exactly the reference machine's body (at its end, an `end` or an `else`), and the
  // index naming the first slot beyond pc; or both have stopped in the same way.
  ghost predicate SameControl(c: Ctx, r: Move, s: FlatMove)
    requires Validate(c).Some?
  {
    match r
    case Go(g) =>
      && s.FGo? && Met(c, s.pc) && Laid(c.m, c.f.code, s.pc, g.cur)
      && (g.cur.Stop? ==> OpAt(c.m, c.f.code, s.pc, EndOp, 1) || OpAt(c.m, c.f.code, s.pc, ElseOp, 1))
      && (FirstAfter(TableOf(c), s.pc) < |TableOf(c)| ==> s.idx == FirstAfter(TableOf(c), s.pc))
    case Leave => s.FLeave?
    case Halt => s.FHalt?
    case Wrong => false
  }

  lemma TracksSame(c: Ctx, g: Cfg, p: Point, ks: seq<Nest>, pc: nat, idx: nat)
    requires Validate(c).Some? && Tracks(c, TableOf(c), g, p, ks, pc, idx) && Met(c, pc)
    ensures SameControl(c, Go(g), FGo(pc, idx))
  {
    hide Validate, Chain, Run, FirstAfter, Link, Laid, Decode, Met;
    HereFirst(c, TableOf(c), p, ks);
    HereDecodes(c, TableOf(c), p, ks);
  }

  lemma {:induction false} RunsAgree(c: Ctx, g: Cfg, p: Point, ks: seq<Nest>, idx: nat, ops: seq<nat>)
    requires Validate(c).Some? && Linked(TableOf(c)) && Tracks(c, TableOf(c), g, p, ks, p.pos, idx) && Seen(c, p, ks)
    ensures SameControl(c, ControlRun(g, ops), FlatWalk(ImageFor(c, TableOf(c)), p.pos, idx, ops))
    decreases |ops|
  {
    hide Validate, Linked, Tracks, Advance, FlatControl, SameControl, Arrives, Met;
    TracksSame(c, g, p, ks, p.pos, idx);
    if ops != [] {
      var p2, ks2 := ControlStep(c, TableOf(c), g, p, ks, idx, ops[0], 0);
      StoppedSame(c, Advance(g, ops[0], 0), FlatControl(ImageFor(c, TableOf(c)), p.pos, idx, ops[0]), p2, ks2);
      if Advance(g, ops[0], 0).Go? {
        var s := FlatControl(ImageFor(c, TableOf(c)), p.pos, idx, ops[0]);
        TracksAt(c, TableOf(c), Advance(g, ops[0], 0).to, p2, ks2, s.pc, s.idx);
        TracksSeen(c, g, p, ks, idx, ops[0], p2, ks2, s);
        RunsAgree(c, Advance(g, ops[0], 0).to, p2, ks2, s.idx, ops[1..]);
      }
    }
  }

  lemma StoppedSame(c: Ctx, r: Move, s: FlatMove, p: Point, ks: seq<Nest>)
    requires Validate(c).Some? && Matched(c, TableOf(c), r, s, p, ks)
    ensures r.Go? <==> s.FGo?
    ensures !r.Go? ==> SameControl(c, r, s)
  {
  }

  lemma TracksSeen(c: Ctx, g: Cfg, p: Point, ks: seq<Nest>, idx: nat, a: nat, p2: Point, ks2: seq<Nest>, s: FlatMove)
    requires Validate(c).Some? && Tracks(c, TableOf(c), g, p, ks, p.pos, idx) && Seen(c, p, ks)
    requires Arrives(c, p, ks, a, p2, ks2) && Matched(c, TableOf(c), Advance(g, a, 0), s, p2, ks2) && s.FGo?
    ensures Seen(c, p2, ks2)
  {
    hide Validate, Here, Arrives, Seen, Met, MirrorsLabel;
    SeenStep(c, TableOf(c), p, ks, a, p2, ks2);
  }

  lemma TracksAt(c: Ctx, jt: seq<Entry>, g: Cfg, p: Point, ks: seq<Nest>, pc: nat, idx: nat)
    requires Tracks(c, jt, g, p, ks, pc, idx)
    ensures pc == p.pos
  {
  }

  // The decoder's walk starts where the machine does.
  lemma StartSeen(c: Ctx, b: Body)
    requires Accepted(c, b)
    ensures Seen(c, Point(0, b, Begin(c)), [])
  {
    hide Validate, Decode;
    LaidDecodes(c, 0, b);
    VisitsSelf(c.m, c.f.code, 0);
  }

  // The control theorem.
  lemma ControlCorrect(c: Ctx, b: Body, ops: seq<nat>)
    requires Accepted(c, b) && Fits(c)
    ensures SameControl(c, ControlRun(Cfg(b, []), ops), FlatWalk(ImageFor(c, TableOf(c)), 0, 0, ops))
  {
    hide Accepted, Tracks, SameControl, Seen;
    TableLinked(c, b);
    StartTracks(c, b);
    StartSeen(c, b);
    RunsAgree(c, Cfg(b, []), Point(0, b, Begin(c)), [], 0, ops);
  }
}
