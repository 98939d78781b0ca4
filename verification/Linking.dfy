/**
 Import linking of functions and globals: over any history of instantiations, successful or not,
 every address that has been linked is the definition that the chain of exports leads to.
 */
module Linking {
  import opened Basics
  import opened Wasm

  datatype Space = Functions | Globals

  // What an import has to match: a function type, or a global's type and mutability.
  datatype Extern = FuncExtern(ftype: FuncType) | GlobalExtern(mutable: bool, ty: ValType)

  datatype Path = Path(from: string, field: string)

  // An entry of a module's index space; imported entries have a path.
  datatype Decl = Decl(extern: Extern, path: Option<Path>, exported: bool)

  datatype Export = Export(name: string, space: Space, idx: nat)

  datatype Interface = Interface(names: seq<string>, funcs: seq<Decl>, globals: seq<Decl>, exports: seq<Export>)

  function Decls(m: Interface, space: Space): seq<Decl> {
    if space.Functions? then m.funcs else m.globals
  }

  // The parser marks whatever is exported.
  predicate Marked(m: Interface) {
    forall e :: e in m.exports ==> e.idx < |Decls(m, e.space)| && Decls(m, e.space)[e.idx].exported
  }

  // Entry idx of instance inst.
  datatype Addr = Addr(inst: nat, idx: nat)

  datatype Progress = Uninitialized | Ready | Failed

  datatype Inst = Inst(m: Interface, state: Progress, funcs: seq<Option<Addr>>, globals: seq<Option<Addr>>)

  function Addrs(inst: Inst, space: Space): seq<Option<Addr>> {
    if space.Functions? then inst.funcs else inst.globals
  }

  function Interfaces(insts: seq<Inst>): (r: seq<Interface>)
    ensures |r| == |insts|
  {
    seq(|insts|, i requires 0 <= i < |insts| => insts[i].m)
  }

  // ----- What an import denotes -----

  // The last instance with a name wins.
  function FindInst(ms: seq<Interface>, name: string): (r: Option<nat>)
    ensures r.Some? ==> r.value < |ms|
  {
    if ms == [] then None
    else if name in ms[|ms| - 1].names then Some(|ms| - 1)
    else FindInst(ms[..|ms| - 1], name)
  }

  // The first export with a name and a kind.
  function FindExport(es: seq<Export>, space: Space, name: string): (r: Option<nat>)
    ensures r.Some? ==> exists e :: e in es && e.space == space && e.idx == r.value
  {
    if es == [] then None
    else if es[0].space == space && es[0].name == name then assert es[0] in es; Some(es[0].idx)
    else
      var r := FindExport(es[1..], space, name);
      assert forall e :: e in es[1..] ==> e in es;
      r
  }

  // The two searches, said without them: the last instance that has the name, and the first export
  // that has both the name and the kind.
  predicate LastNamed(ms: seq<Interface>, name: string, t: nat) {
    t < |ms| && name in ms[t].names && forall k :: t < k < |ms| ==> name !in ms[k].names
  }

  predicate FirstNamed(es: seq<Export>, space: Space, name: string, j: nat) {
    && j < |es| && es[j].space == space && es[j].name == name
    && forall k :: 0 <= k < j ==> es[k].space != space || es[k].name != name
  }

  predicate IsLast(ms: seq<Interface>, name: string, r: Option<nat>) {
    match r
    case Some(t) => LastNamed(ms, name, t)
    case None => forall k :: 0 <= k < |ms| ==> name !in ms[k].names
  }

  ghost predicate IsFirst(es: seq<Export>, space: Space, name: string, r: Option<nat>) {
    match r
    case Some(e) => exists j: nat :: FirstNamed(es, space, name, j) && es[j].idx == e
    case None => forall k :: 0 <= k < |es| ==> es[k].space != space || es[k].name != name
  }

  // Each is the one answer of its search.
  lemma {:induction false} FindInstIs(ms: seq<Interface>, name: string)
    ensures forall r :: IsLast(ms, name, r) <==> r == FindInst(ms, name)
    decreases |ms|
  {
    if ms != [] {
      var n := |ms| - 1;
      FindInstIs(ms[..n], name);
      assert IsLast(ms[..n], name, FindInst(ms[..n], name));
    }
  }

  lemma {:induction false} FindExportIs(es: seq<Export>, space: Space, name: string)
    ensures forall r :: IsFirst(es, space, name, r) <==> r == FindExport(es, space, name)
    decreases |es|
  {
    FirstOnly(es, space, name);
    if es != [] {
      FindExportIs(es[1..], space, name);
      var r := FindExport(es, space, name);
      assert IsFirst(es, space, name, r) by {
        if es[0].space == space && es[0].name == name {
          assert FirstNamed(es, space, name, 0);
        } else {
          FirstLater(es, space, name, r);
        }
      }
    }
  }

  // No two answers.
  lemma FirstOnly(es: seq<Export>, space: Space, name: string)
    ensures forall a, b :: IsFirst(es, space, name, a) && IsFirst(es, space, name, b) ==> a == b
  {
  }

  lemma FirstLater(es: seq<Export>, space: Space, name: string, r: Option<nat>)
    requires es != [] && (es[0].space != space || es[0].name != name) && IsFirst(es[1..], space, name, r)
    ensures IsFirst(es, space, name, r)
  {
    if r.Some? {
      var j: nat :| FirstNamed(es[1..], space, name, j) && es[1..][j].idx == r.value;
      assert FirstNamed(es, space, name, j + 1);
    } else {
      forall k | 0 <= k < |es| ensures es[k].space != space || es[k].name != name {
        if k > 0 { assert es[1..][k - 1] == es[k]; }
      }
    }
  }

  // Follows imports from entry i of instance k to a definition. An import sees the instances up to
  // its own, and of its own instance only the entries linked before it.
  function Denotes(ms: seq<Interface>, k: nat, space: Space, i: nat): Option<Addr>
    decreases k, i
  {
    if k >= |ms| || i >= |Decls(ms[k], space)| then None
    else
      var d := Decls(ms[k], space)[i];
      if d.path.None? then Some(Addr(k, i))
      else
        var t :- FindInst(ms[..k + 1], d.path.value.from);
        var e :- FindExport(ms[t].exports, space, d.path.value.field);
        if t < k || e < i then Denotes(ms, t, space, e) else None
  }

  // A linked address: what the import denotes, a definition of the declared type, exported if it
  // was reached through an import.
  ghost predicate Right(ms: seq<Interface>, k: nat, space: Space, i: nat, a: Addr)
    requires k < |ms| && i < |Decls(ms[k], space)|
  {
    && Denotes(ms, k, space, i) == Some(a)
    && a.inst < |ms| && a.idx < |Decls(ms[a.inst], space)|
    && var there, here := Decls(ms[a.inst], space)[a.idx], Decls(ms[k], space)[i];
    && there.path.None? && there.extern == here.extern && (here.path.Some? ==> there.exported)
  }

  // The imports of entry i lead to a definition of the declared type.
  predicate Resolves(ms: seq<Interface>, k: nat, space: Space, i: nat) {
    var a := Denotes(ms, k, space, i);
    && a.Some? && k < |ms| && i < |Decls(ms[k], space)|
    && a.value.inst < |ms| && a.value.idx < |Decls(ms[a.value.inst], space)|
    && Decls(ms[a.value.inst], space)[a.value.idx].extern == Decls(ms[k], space)[i].extern
  }

  predicate AllResolve(ms: seq<Interface>, k: nat, space: Space)
    requires k < |ms|
  {
    forall i :: 0 <= i < |Decls(ms[k], space)| ==> Resolves(ms, k, space, i)
  }

  predicate Complete(addrs: seq<Option<Addr>>) {
    forall i :: 0 <= i < |addrs| ==> addrs[i].Some?
  }

  ghost predicate SpaceOk(ms: seq<Interface>, inst: Inst, k: nat, space: Space)
    requires k < |ms|
  {
    && inst.m == ms[k] && |Addrs(inst, space)| == |Decls(ms[k], space)|
    && (forall i :: 0 <= i < |Addrs(inst, space)| && Addrs(inst, space)[i].Some? ==>
          Right(ms, k, space, i, Addrs(inst, space)[i].value))
    && (inst.state.Ready? ==> Complete(Addrs(inst, space)))
  }

  // What one import finds: the instance and the export, and an address there that is not null.
  predicate Finds(insts: seq<Inst>, space: Space, i: nat, t: nat, e: nat)
    requires insts != []
  {
    var m := insts[|insts| - 1].m;
    && i < |Decls(m, space)| && Decls(m, space)[i].path.Some?
    && t < |insts| && FindInst(Interfaces(insts), Decls(m, space)[i].path.value.from) == Some(t)
    && FindExport(insts[t].m.exports, space, Decls(m, space)[i].path.value.field) == Some(e)
  }

  // Entry i of the last instance names export j of instance t, which is linked there to a: the last
  // instance with the imported name, and the first export there with the imported name and kind.
  predicate Named(insts: seq<Inst>, space: Space, i: nat, t: nat, j: nat, a: Addr)
    requires insts != []
  {
    var m := insts[|insts| - 1].m;
    && i < |Decls(m, space)| && Decls(m, space)[i].path.Some?
    && var p := Decls(m, space)[i].path.value;
    && t < |insts| && p.from in insts[t].m.names && (forall k :: t < k < |insts| ==> p.from !in insts[k].m.names)
    && FirstNamed(insts[t].m.exports, space, p.field, j)
    && var e := insts[t].m.exports[j].idx;
    e < |Addrs(insts[t], space)| && Addrs(insts[t], space)[e] == Some(a)
  }

  lemma NamedFound(insts: seq<Inst>, space: Space, i: nat, t: nat, e: nat, a: Addr)
    requires insts != [] && Finds(insts, space, i, t, e) && e < |Addrs(insts[t], space)|
    requires Addrs(insts[t], space)[e] == Some(a)
    ensures exists j: nat :: Named(insts, space, i, t, j, a)
  {
    hide FindInst, FindExport;
    var ms, p := Interfaces(insts), Decls(insts[|insts| - 1].m, space)[i].path.value;
    FindInstIs(ms, p.from);
    FindExportIs(insts[t].m.exports, space, p.field);
    assert IsLast(ms, p.from, Some(t)) && IsFirst(insts[t].m.exports, space, p.field, Some(e));
    forall k | t < k < |insts| ensures p.from !in insts[k].m.names {
      assert ms[k] == insts[k].m;
    }
    var j: nat :| FirstNamed(insts[t].m.exports, space, p.field, j) && insts[t].m.exports[j].idx == e;
    assert Named(insts, space, i, t, j, a);
  }

  // Entry i of the last instance has got the address of the export that it names.
  ghost predicate LinksNamed(was: seq<Inst>, now: seq<Inst>, space: Space, i: nat) {
    && was != [] && now != [] && i < |Addrs(now[|now| - 1], space)|
    && exists t: nat, j: nat, a: Addr ::
         Named(was, space, i, t, j, a) && Addrs(now[|now| - 1], space)[i] == Some(a)
  }

  lemma LinksFound(insts: seq<Inst>, space: Space, i: nat, t: nat, e: nat, a: Addr)
    requires insts != [] && Finds(insts, space, i, t, e) && e < |Addrs(insts[t], space)|
    requires Addrs(insts[t], space)[e] == Some(a) && i < |Addrs(insts[|insts| - 1], space)|
    ensures LinksNamed(insts, insts[|insts| - 1 := WithAddr(insts[|insts| - 1], space, i, a)], space, i)
  {
    hide Finds, Named;
    NamedFound(insts, space, i, t, e, a);
  }

  // An import that can be joined: it finds an address, of a definition of its own type.
  ghost predicate Joins(insts: seq<Inst>, space: Space, i: nat)
    requires insts != []
  {
    exists t: nat, e: nat :: Finds(insts, space, i, t, e) && JoinsAt(insts, space, i, t, e)
  }

  predicate JoinsAt(insts: seq<Inst>, space: Space, i: nat, t: nat, e: nat)
    requires insts != [] && t < |insts|
  {
    var m := insts[|insts| - 1].m;
    && i < |Decls(m, space)| && e < |Addrs(insts[t], space)| && Addrs(insts[t], space)[e].Some?
    && var a := Addrs(insts[t], space)[e].value;
    a.inst < |insts| && a.idx < |Decls(insts[a.inst].m, space)|
        && Decls(insts[a.inst].m, space)[a.idx].extern == Decls(m, space)[i].extern
  }

  // An import that follows a null address.
  ghost predicate Dangles(insts: seq<Inst>, space: Space, i: nat)
    requires insts != []
  {
    exists t: nat, e: nat :: Finds(insts, space, i, t, e) && e < |Addrs(insts[t], space)|
        && Addrs(insts[t], space)[e].None?
  }

  // Every import of the last instance that has an address was joined to it.
  ghost predicate EachJoins(insts: seq<Inst>, space: Space)
    requires insts != []
  {
    forall i: nat :: Imported(insts[|insts| - 1], space, i) ==> Joins(insts, space, i)
  }

  predicate Imported(inst: Inst, space: Space, i: nat) {
    && i < |Addrs(inst, space)| && i < |Decls(inst.m, space)|
    && Decls(inst.m, space)[i].path.Some? && Addrs(inst, space)[i].Some?
  }

  // Linking a space of the last instance stops at entry i: the first that is not linked, an import
  // that cannot be joined.
  ghost predicate Stops(insts: seq<Inst>, space: Space, i: nat)
    requires insts != []
  {
    var last := insts[|insts| - 1];
    && i < |Addrs(last, space)| && i < |Decls(last.m, space)| && Decls(last.m, space)[i].path.Some?
    && NullFrom(Addrs(last, space), i) && Complete(Addrs(last, space)[..i]) && !Joins(insts, space, i)
  }

  // How linking a space ended, by what it left: no entry that stops it; or one, whose import either
  // follows a null address or not.
  ghost predicate SpaceEnded(insts: seq<Inst>, space: Space, status: LinkStatus)
    requires insts != []
  {
    && EachJoins(insts, space)
    && if status.Joined? then Complete(Addrs(insts[|insts| - 1], space))
       else exists i: nat :: Stops(insts, space, i) && (status.Dangling? <==> Dangles(insts, space, i))
  }

  // The functions come first.
  ghost predicate SpacesEnded(insts: seq<Inst>, status: LinkStatus)
    requires insts != []
  {
    if Complete(insts[|insts| - 1].funcs)
        then SpaceEnded(insts, Functions, Joined) && SpaceEnded(insts, Globals, status)
    else SpaceEnded(insts, Functions, status) && NullFrom(insts[|insts| - 1].globals, 0)
  }

  // The instances that the last one imports from are ready; it may import from itself.
  ghost predicate TargetReady(insts: seq<Inst>, space: Space, i: nat)
    requires insts != []
  {
    forall t: nat, e: nat :: Finds(insts, space, i, t, e) && t < |insts| - 1 ==> insts[t].state.Ready?
  }

  ghost predicate TargetsReady(insts: seq<Inst>, space: Space)
    requires insts != []
  {
    forall i: nat :: TargetReady(insts, space, i)
  }

  // An address, once right, stays right as more modules are instantiated.
  lemma {:induction false} DenotesStable(ms: seq<Interface>, more: Interface, k: nat, space: Space, i: nat)
    requires k < |ms|
    ensures Denotes(ms + [more], k, space, i) == Denotes(ms, k, space, i)
    decreases k, i
  {
    hide FindInst, FindExport, Denotes;
    var all := ms + [more];
    assert all[..k + 1] == ms[..k + 1] && all[k] == ms[k];
    DenotesUnfold(ms, k, space, i);
    DenotesUnfold(all, k, space, i);
    if i < |Decls(ms[k], space)| && Decls(ms[k], space)[i].path.Some? {
      var p := Decls(ms[k], space)[i].path.value;
      var t := FindInst(ms[..k + 1], p.from);
      if t.Some? {
        assert all[t.value] == ms[t.value];
        var e := FindExport(ms[t.value].exports, space, p.field);
        if e.Some? && (t.value < k || e.value < i) {
          DenotesStable(ms, more, t.value, space, e.value);
        }
      }
    }
  }

  lemma DenotesUnfold(ms: seq<Interface>, k: nat, space: Space, i: nat)
    requires k < |ms|
    ensures Denotes(ms, k, space, i)
         == if i >= |Decls(ms[k], space)| then None
            else if Decls(ms[k], space)[i].path.None? then Some(Addr(k, i))
            else
              var p := Decls(ms[k], space)[i].path.value;
              var t := FindInst(ms[..k + 1], p.from);
              if t.None? then None
              else
                var e := FindExport(ms[t.value].exports, space, p.field);
                if e.Some? && (t.value < k || e.value < i) then Denotes(ms, t.value, space, e.value) else None
  {
    hide FindInst, FindExport;
  }

  lemma SpaceStable(ms: seq<Interface>, more: Interface, inst: Inst, k: nat, space: Space)
    requires k < |ms| && SpaceOk(ms, inst, k, space)
    ensures SpaceOk(ms + [more], inst, k, space)
  {
    forall i | 0 <= i < |Addrs(inst, space)| && Addrs(inst, space)[i].Some?
      ensures Right(ms + [more], k, space, i, Addrs(inst, space)[i].value)
    {
      assert Right(ms, k, space, i, Addrs(inst, space)[i].value);
      DenotesStable(ms, more, k, space, i);
    }
  }

  // One import: the address found at its target is right for it too.
  lemma ImportRight(ms: seq<Interface>, k: nat, space: Space, i: nat, t: nat, e: nat, a: Addr)
    requires k < |ms| && i < |Decls(ms[k], space)| && Decls(ms[k], space)[i].path.Some? && t < |ms|
    requires FindInst(ms[..k + 1], Decls(ms[k], space)[i].path.value.from) == Some(t)
    requires FindExport(ms[t].exports, space, Decls(ms[k], space)[i].path.value.field) == Some(e)
    requires (t < k || e < i) && Marked(ms[t]) && e < |Decls(ms[t], space)| && Right(ms, t, space, e, a)
    requires Decls(ms[a.inst], space)[a.idx].extern == Decls(ms[k], space)[i].extern
    ensures Right(ms, k, space, i, a)
  {
    hide FindInst;
    if Decls(ms[t], space)[e].path.None? {
      assert a == Addr(t, e);
    }
  }

  // ----- The virtual machine -----

  // Dangling: an address that is still null was followed.
  datatype LinkStatus = Joined | Refused | Dangling

  function WithAddr(inst: Inst, space: Space, i: nat, a: Addr): Inst
    requires i < |Addrs(inst, space)|
  {
    if space.Functions? then inst.(funcs := inst.funcs[i := Some(a)]) else inst.(globals := inst.globals[i := Some(a)])
  }

  ghost predicate InstOk(ms: seq<Interface>, inst: Inst, k: nat)
    requires k < |ms|
  {
    && SpaceOk(ms, inst, k, Functions) && SpaceOk(ms, inst, k, Globals) && Marked(inst.m)
    && (inst.state.Failed? ==> !Complete(inst.funcs) || !Complete(inst.globals))
  }

  ghost predicate AllOk(insts: seq<Inst>) {
    forall k :: 0 <= k < |insts| ==> InstOk(Interfaces(insts), insts[k], k)
  }

  predicate NullFrom(addrs: seq<Option<Addr>>, i: nat) {
    i <= |addrs| && forall j :: i <= j < |addrs| ==> addrs[j].None?
  }

  // Nothing but entry i has changed, and that only on success.
  ghost predicate OneEntry(was: Inst, now: Inst, space: Space, i: nat, status: LinkStatus) {
    && i < |Addrs(was, space)|
    && if status.Joined?
          then i < |Addrs(now, space)| && Addrs(now, space)[i].Some?
              && now == WithAddr(was, space, i, Addrs(now, space)[i].value)
       else now == was
  }

  predicate InProgress(insts: seq<Inst>, space: Space, i: nat) {
    && insts != [] && insts[|insts| - 1].state.Uninitialized? && NullFrom(Addrs(insts[|insts| - 1], space), i)
    && Complete(Addrs(insts[|insts| - 1], space)[..i])
  }

  class Vm {
    var insts: seq<Inst>

    ghost predicate Valid()
      reads this
    {
      AllOk(insts)
    }

    constructor ()
      ensures Valid() && insts == []
    {
      insts := [];
    }

    // Goes through all instances; a later match replaces an earlier one.
    method Find(name: string) returns (r: Option<nat>)
      ensures r == FindInst(Interfaces(insts), name)
      ensures IsLast(Interfaces(insts), name, r)
    {
      r := None;
      var k := 0;
      ghost var ms := Interfaces(insts);
      while k < |insts|
        invariant k <= |insts| && r == FindInst(ms[..k], name)
      {
        assert ms[..k + 1][..k] == ms[..k] && ms[k] == insts[k].m;
        if name in insts[k].m.names {
          r := Some(k);
        }
        k := k + 1;
      }
      assert ms[..k] == ms;
      FindInstIs(ms, name);
    }

    // The last instance is being linked: entries before i are, those from i on are still null.
    ghost predicate Linking(space: Space, i: nat)
      reads this
    {
      InProgress(insts, space, i)
    }

    twostate predicate OnlyEntry(space: Space, i: nat, status: LinkStatus)
      reads this
    {
      && old(insts) != [] && |insts| == |old(insts)| && insts[..|insts| - 1] == old(insts)[..|insts| - 1]
      && OneEntry(old(insts)[|insts| - 1], insts[|insts| - 1], space, i, status)
      && Interfaces(insts) == old(Interfaces(insts))
    }

    // Links entry i of the last instance.
    method LinkImport(space: Space, i: nat) returns (status: LinkStatus)
      requires Valid() && Linking(space, i) && i < |Addrs(insts[|insts| - 1], space)|
      requires i < |Decls(insts[|insts| - 1].m, space)| && Decls(insts[|insts| - 1].m, space)[i].path.Some?
      modifies this
      ensures Valid() && OnlyEntry(space, i, status)
      ensures status.Joined? <==> Joins(old(insts), space, i)
      ensures status.Dangling? <==> Dangles(old(insts), space, i)
      ensures status.Joined? ==> LinksNamed(old(insts), insts, space, i)
      ensures TargetReady(old(insts), space, i) ==>
              (status.Joined? <==> Resolves(Interfaces(insts), |insts| - 1, space, i))
    {
      hide AllOk, Joins, Dangles, TargetReady, Resolves, FindInst, FindExport, Complete, NullFrom, Right, Denotes,
        LinksNamed, IsFirst, IsLast;
      var k := |insts| - 1;
      var d := Decls(insts[k].m, space)[i];
      var t := Find(d.path.value.from);
      if t.None? { NothingFound(insts, space, i); return Refused; }
      var e := Lookup(insts[t.value].m.exports, space, d.path.value.field);
      if e.None? { NothingFound(insts, space, i); return Refused; }
      ExportedEntry(insts, space, t.value, e.value, d.path.value.field);
      var a := Addrs(insts[t.value], space)[e.value];
      if a.None? { NullFound(insts, space, i, t.value, e.value); return Dangling; }
      var there := Decls(insts[a.value.inst].m, space)[a.value.idx];
      AddressFound(insts, space, i, t.value, e.value, a.value);
      if d.extern != there.extern { return Refused; }
      LinksFound(insts, space, i, t.value, e.value, a.value);
      JoinRight(insts, space, i, t.value, e.value, a.value);
      insts := insts[k := WithAddr(insts[k], space, i, a.value)];
      return Joined;
    }

    // A definition of the last instance is its own address.
    method LinkOwn(space: Space, i: nat)
      requires Valid() && Linking(space, i) && i < |Addrs(insts[|insts| - 1], space)|
      requires i < |Decls(insts[|insts| - 1].m, space)| && Decls(insts[|insts| - 1].m, space)[i].path.None?
      modifies this
      ensures Valid() && OnlyEntry(space, i, Joined)
    {
      hide AllOk, FindInst, SpaceOk, Right, Marked;
      var k := |insts| - 1;
      AllAt(insts, k);
      OwnRight(Interfaces(insts), k, space, i);
      SetRight(Interfaces(insts), insts[k], k, space, i, Addr(k, i));
      OneReplaced(insts, k, WithAddr(insts[k], space, i, Addr(k, i)));
      insts := insts[k := WithAddr(insts[k], space, i, Addr(k, i))];
    }

    // Links entry i of the last instance, whatever it is.
    method LinkEntry(space: Space, i: nat) returns (status: LinkStatus)
      requires Valid() && Linking(space, i) && i < |Addrs(insts[|insts| - 1], space)|
      modifies this
      ensures Valid() && LastChanged(old(insts), insts)
      ensures Addrs(insts[|insts| - 1], Other(space)) == Addrs(old(insts)[|insts| - 1], Other(space))
      ensures |Addrs(insts[|insts| - 1], space)| == |Addrs(old(insts)[|insts| - 1], space)|
      ensures if status.Joined? then Linking(space, i + 1) else insts == old(insts)
      ensures status.Dangling? ==> Unready(insts)
      ensures EachJoins(old(insts), space) ==> EachJoins(insts, space)
      ensures !status.Joined? ==> Stops(insts, space, i) && (status.Dangling? <==> Dangles(insts, space, i))
      ensures !status.Joined? && TargetReady(old(insts), space, i) ==>
              !Resolves(Interfaces(insts), |insts| - 1, space, i)
    {
      hide AllOk, FindInst, InstOk, WithAddr, NullFrom, Complete, TargetReady, Resolves, Joins, Dangles, Unready,
        EachJoins;
      var k := |insts| - 1;
      Sizes(insts, k, space);
      if Decls(insts[k].m, space)[i].path.None? {
        LinkOwn(space, i);
        status := Joined;
      } else {
        status := LinkImport(space, i);
      }
      InterfacesAt(insts, k);
      if status.Joined? {
        LinkedMore(old(insts)[k], insts[k], space, i);
        JoinsKept(old(insts), insts, space, i);
      } else {
        SameEnds(old(insts), insts);
        if status.Dangling? { DanglesUnready(insts, space, i); }
      }
    }

    // Links one index space of the last instance, entry by entry.
    method LinkSpace(space: Space) returns (status: LinkStatus)
      requires Valid() && Linking(space, 0)
      modifies this
      ensures Valid() && LastChanged(old(insts), insts)
      ensures Addrs(insts[|insts| - 1], Other(space)) == Addrs(old(insts)[|insts| - 1], Other(space))
      ensures status.Joined? <==> Complete(Addrs(insts[|insts| - 1], space))
      ensures SpaceEnded(insts, space, status)
      ensures status.Dangling? ==> Unready(insts)
      ensures TargetsReady(old(insts), space) ==>
              (status.Joined? <==> AllResolve(Interfaces(insts), |insts| - 1, space))
    {
      hide AllOk, NullFrom, Complete, TargetsReady, TargetReady, Resolves, AllResolve, Unready, LastChanged,
        EachJoins, Stops, Dangles;
      var k := |insts| - 1;
      var i := 0;
      NothingChanged(insts);
      NoneJoined(insts, space);
      while i < |Addrs(insts[k], space)|
        invariant Valid() && |insts| == k + 1 && LastChanged(old(insts), insts)
        invariant Addrs(insts[k], Other(space)) == Addrs(old(insts)[k], Other(space))
        invariant |Addrs(insts[k], space)| == |Addrs(old(insts)[k], space)|
        invariant i <= |Addrs(insts[k], space)| && Linking(space, i) && EachJoins(insts, space)
        decreases |Addrs(old(insts)[k], space)| - i
      {
        ghost var was := insts;
        status := LinkEntry(space, i);
        LastFacts(was, insts);
        LastAgain(old(insts), was, insts);
        if !status.Joined? {
          StillReady(old(insts), insts, space, i);
          Sizes(insts, k, space);
          Incomplete(insts, space, i);
          InterfacesAt(insts, k);
          Unresolved(Interfaces(insts), k, space, i);
          return;
        }
        i := i + 1;
      }
      assert Addrs(insts[k], space)[..i] == Addrs(insts[k], space);
      CompleteResolves(insts, k, space);
      status := Joined;
    }

    // Instantiation: the new instance is in the list before its imports are linked, and stays there
    // if linking fails.
    method Instantiate(m: Interface) returns (status: LinkStatus)
      requires Valid() && Marked(m)
      modifies this
      ensures Valid() && |insts| == |old(insts)| + 1 && insts[..|old(insts)|] == old(insts)
      ensures insts[|old(insts)|].m == m
      ensures status.Joined? <==> insts[|old(insts)|].state.Ready?
      ensures !insts[|old(insts)|].state.Uninitialized?
      ensures SpacesEnded(insts, status)
      ensures status.Dangling? ==> Unready(insts)
      ensures var all := old(insts) + [NewInst(m)];
              TargetsReady(all, Functions) && TargetsReady(all, Globals) ==>
              (status.Joined? <==>
               AllResolve(Interfaces(all), |all| - 1, Functions) && AllResolve(Interfaces(all), |all| - 1, Globals))
    {
      hide AllOk, FindInst, TargetsReady, AllResolve, Unready, Complete, SpaceEnded, NullFrom, LastChanged;
      PushedOk(insts, m);
      NewInProgress(insts, m);
      insts := insts + [NewInst(m)];
      ghost var all := insts;
      var k := |insts| - 1;
      status := LinkSpace(Functions);
      LastFacts(all, insts);
      if status.Joined? {
        StillAllReady(all, insts, Globals);
        ghost var half := insts;
        NoneLinked(half, Globals);
        status := LinkSpace(Globals);
        LastFacts(half, insts);
        EndedKept(half, insts, Functions, Joined);
      }
      SetState(insts, k, if status.Joined? then Ready else Failed);
      if status.Dangling? { StillUnready(insts); }
      StateApart(insts, if status.Joined? then Ready else Failed, status);
      insts := insts[k := insts[k].(state := if status.Joined? then Ready else Failed)];
    }
  }

  // Only the last instance has changed, and only in its addresses.
  predicate LastChanged(was: seq<Inst>, now: seq<Inst>) {
    && was != [] && |now| == |was| && now[..|now| - 1] == was[..|was| - 1] && Interfaces(now) == Interfaces(was)
    && now[|now| - 1].m == was[|was| - 1].m && now[|now| - 1].state == was[|was| - 1].state
  }

  lemma NothingChanged(insts: seq<Inst>)
    requires insts != []
    ensures LastChanged(insts, insts)
  {
  }

  lemma LastFacts(was: seq<Inst>, now: seq<Inst>)
    requires LastChanged(was, now)
    ensures |now| == |was| > 0 && now[..|now| - 1] == was[..|was| - 1] && Interfaces(now) == Interfaces(was)
    ensures now[|now| - 1].m == was[|was| - 1].m && now[|now| - 1].state == was[|was| - 1].state
  {
  }

  lemma LastAgain(first: seq<Inst>, was: seq<Inst>, now: seq<Inst>)
    requires LastChanged(first, was) && |now| == |was| && now[..|now| - 1] == was[..|was| - 1]
    requires Interfaces(now) == Interfaces(was)
    requires now[|now| - 1].m == was[|was| - 1].m && now[|now| - 1].state == was[|was| - 1].state
    ensures LastChanged(first, now)
  {
  }

  lemma SameEnds(was: seq<Inst>, now: seq<Inst>)
    requires was != [] && |now| == |was| && now[..|now| - 1] == was[..|was| - 1] && now[|now| - 1] == was[|was| - 1]
    ensures now == was
  {
    assert now == now[..|now| - 1] + [now[|now| - 1]] && was == was[..|was| - 1] + [was[|was| - 1]];
  }

  // Where an import leads depends on nothing that linking changes.
  lemma StillReady(was: seq<Inst>, now: seq<Inst>, space: Space, i: nat)
    requires LastChanged(was, now)
    ensures TargetsReady(was, space) ==> TargetReady(now, space, i)
  {
    hide FindInst, FindExport;
    if TargetsReady(was, space) {
      assert TargetReady(was, space, i);
      forall t: nat, e: nat | Finds(now, space, i, t, e) && t < |now| - 1 ensures now[t].state.Ready? {
        assert now[t] == now[..|now| - 1][t] == was[t];
        assert Finds(was, space, i, t, e);
      }
    }
  }

  lemma StillAllReady(was: seq<Inst>, now: seq<Inst>, space: Space)
    requires LastChanged(was, now)
    ensures TargetsReady(was, space) ==> TargetsReady(now, space)
  {
    hide TargetReady, LastChanged;
    LastFacts(was, now);
    forall i: nat ensures TargetsReady(was, space) ==> TargetReady(now, space, i) {
      StillReady(was, now, space, i);
    }
  }

  lemma DanglesUnready(insts: seq<Inst>, space: Space, i: nat)
    requires AllOk(insts) && insts != [] && Dangles(insts, space, i)
    ensures Unready(insts)
  {
    hide AllOk, FindInst, FindExport, Right;
    var t: nat, e: nat :| Finds(insts, space, i, t, e) && e < |Addrs(insts[t], space)|
        && Addrs(insts[t], space)[e].None?;
    AllAt(insts, t);
    assert ImportsUnready(insts, space, i);
  }

  // ----- What has been joined stays joined -----

  lemma NoneJoined(insts: seq<Inst>, space: Space)
    requires InProgress(insts, space, 0)
    ensures EachJoins(insts, space)
  {
  }

  // The instances before the last are the same, and of the last what has an address keeps it.
  ghost predicate SameBefore(was: seq<Inst>, now: seq<Inst>, space: Space) {
    && was != [] && |now| == |was| && now[..|now| - 1] == was[..|was| - 1] && Interfaces(now) == Interfaces(was)
    && now[|now| - 1].m == was[|was| - 1].m
    && var a, b := Addrs(was[|was| - 1], space), Addrs(now[|now| - 1], space);
    |a| == |b| && forall j :: 0 <= j < |a| && a[j].Some? ==> b[j] == a[j]
  }

  lemma GrownEnds(was: seq<Inst>, now: seq<Inst>, space: Space)
    requires SameBefore(was, now, space)
    ensures was != [] && |now| == |was|
  {
  }

  lemma FindsSame(was: seq<Inst>, now: seq<Inst>, space: Space, i: nat, t: nat, e: nat)
    requires SameBefore(was, now, space)
    ensures Finds(was, space, i, t, e) == Finds(now, space, i, t, e)
    ensures t < |was| - 1 ==> now[t] == was[t]
    ensures forall k :: 0 <= k < |was| ==> now[k].m == was[k].m
  {
    hide FindInst, FindExport;
    assert t < |was| - 1 ==> now[..|now| - 1][t] == was[..|was| - 1][t];
    forall k | 0 <= k < |was| ensures now[k].m == was[k].m {
      InterfacesAt(was, k);
      InterfacesAt(now, k);
    }
  }

  lemma JoinKept(was: seq<Inst>, now: seq<Inst>, space: Space, i: nat)
    requires SameBefore(was, now, space) && Joins(was, space, i)
    ensures Joins(now, space, i)
  {
    hide FindInst, FindExport, SameBefore;
    assert was != [] && now != [] by { GrownEnds(was, now, space); }
    var t: nat, e: nat :| Finds(was, space, i, t, e) && JoinsAt(was, space, i, t, e);
    FindsSame(was, now, space, i, t, e);
    JoinAtKept(was, now, space, i, t, e);
    assert Finds(now, space, i, t, e) && JoinsAt(now, space, i, t, e);
  }

  lemma JoinAtKept(was: seq<Inst>, now: seq<Inst>, space: Space, i: nat, t: nat, e: nat)
    requires SameBefore(was, now, space) && t < |was| && JoinsAt(was, space, i, t, e)
    ensures JoinsAt(now, space, i, t, e)
  {
    FindsSame(was, now, space, i, t, e);
  }

  // Entry i has been linked, by joining if it is an import.
  lemma JoinsKept(was: seq<Inst>, now: seq<Inst>, space: Space, i: nat)
    requires LastChanged(was, now) && OneEntry(was[|was| - 1], now[|now| - 1], space, i, Joined)
    requires NullFrom(Addrs(was[|was| - 1], space), i) && i < |Decls(was[|was| - 1].m, space)|
    requires Decls(was[|was| - 1].m, space)[i].path.Some? ==> Joins(was, space, i)
    ensures EachJoins(was, space) ==> EachJoins(now, space)
  {
    hide Joins;
    assert SameBefore(was, now, space);
    var last := now[|now| - 1];
    if EachJoins(was, space) {
      forall j: nat | Imported(last, space, j) ensures Joins(now, space, j) {
        assert j != i ==> Imported(was[|was| - 1], space, j);
        JoinKept(was, now, space, j);
      }
    }
  }

  lemma NoneLinked(insts: seq<Inst>, space: Space)
    requires insts != [] && insts[|insts| - 1].state.Uninitialized? && NullFrom(Addrs(insts[|insts| - 1], space), 0)
    ensures InProgress(insts, space, 0)
  {
  }

  // Linking the other space changes nothing of how this one ended.
  lemma EndedKept(was: seq<Inst>, now: seq<Inst>, space: Space, status: LinkStatus)
    requires LastChanged(was, now) && Addrs(now[|now| - 1], space) == Addrs(was[|was| - 1], space)
    requires SpaceEnded(was, space, status)
    ensures SpaceEnded(now, space, status)
  {
    hide Joins, Dangles, Complete, NullFrom;
    assert SameBefore(was, now, space) && SameBefore(now, was, space);
    forall i: nat ensures Joins(was, space, i) == Joins(now, space, i)
        && Dangles(was, space, i) == Dangles(now, space, i) {
      if Joins(was, space, i) { JoinKept(was, now, space, i); }
      if Joins(now, space, i) { JoinKept(now, was, space, i); }
      DanglesSame(was, now, space, i);
      DanglesSame(now, was, space, i);
    }
    if !status.Joined? {
      var i: nat :| Stops(was, space, i) && (status.Dangling? <==> Dangles(was, space, i));
      assert Stops(now, space, i);
    }
  }

  lemma DanglesSame(was: seq<Inst>, now: seq<Inst>, space: Space, i: nat)
    requires SameBefore(was, now, space) && Addrs(now[|now| - 1], space) == Addrs(was[|was| - 1], space)
    ensures Dangles(was, space, i) ==> Dangles(now, space, i)
  {
    hide FindInst, FindExport, SameBefore;
    assert was != [] && |now| == |was| by { GrownEnds(was, now, space); }
    if Dangles(was, space, i) {
      var t: nat, e: nat :| Finds(was, space, i, t, e) && e < |Addrs(was[t], space)| && Addrs(was[t], space)[e].None?;
      FindsSame(was, now, space, i, t, e);
      assert Addrs(now[t], space) == Addrs(was[t], space) by { GrownAddrs(was, now, space, t); }
    }
  }

  lemma GrownAddrs(was: seq<Inst>, now: seq<Inst>, space: Space, t: nat)
    requires SameBefore(was, now, space) && Addrs(now[|now| - 1], space) == Addrs(was[|was| - 1], space) && t < |was|
    ensures t < |now| && Addrs(now[t], space) == Addrs(was[t], space)
  {
    assert t < |was| - 1 ==> now[..|now| - 1][t] == was[..|was| - 1][t];
  }

  // Nor does setting its state.
  lemma StateApart(insts: seq<Inst>, state: Progress, status: LinkStatus)
    requires insts != [] && SpacesEnded(insts, status)
    ensures SpacesEnded(insts[|insts| - 1 := insts[|insts| - 1].(state := state)], status)
  {
    hide SpaceEnded, Complete, NullFrom;
    var now := insts[|insts| - 1 := insts[|insts| - 1].(state := state)];
    StateEnded(insts, state, Functions, if Complete(insts[|insts| - 1].funcs) then Joined else status);
    if Complete(insts[|insts| - 1].funcs) {
      StateEnded(insts, state, Globals, status);
    }
  }

  lemma StateEnded(insts: seq<Inst>, state: Progress, space: Space, status: LinkStatus)
    requires insts != [] && SpaceEnded(insts, space, status)
    ensures SpaceEnded(insts[|insts| - 1 := insts[|insts| - 1].(state := state)], space, status)
  {
    hide Joins, Dangles, Complete, NullFrom;
    var now := insts[|insts| - 1 := insts[|insts| - 1].(state := state)];
    assert Interfaces(now) == Interfaces(insts);
    assert SameBefore(insts, now, space) && SameBefore(now, insts, space);
    forall i: nat ensures Joins(insts, space, i) == Joins(now, space, i)
        && Dangles(insts, space, i) == Dangles(now, space, i) {
      if Joins(insts, space, i) { JoinKept(insts, now, space, i); }
      if Joins(now, space, i) { JoinKept(now, insts, space, i); }
      DanglesSame(insts, now, space, i);
      DanglesSame(now, insts, space, i);
    }
    if !status.Joined? {
      var i: nat :| Stops(insts, space, i) && (status.Dangling? <==> Dangles(insts, space, i));
      assert Stops(now, space, i);
    }
  }

  // What linking leaves says which way it ended.
  lemma EndedOnce(insts: seq<Inst>, a: LinkStatus, b: LinkStatus)
    requires insts != [] && SpacesEnded(insts, a) && SpacesEnded(insts, b)
    ensures a == b
  {
    hide Joins, Dangles, EachJoins;
    var space := if Complete(insts[|insts| - 1].funcs) then Globals else Functions;
    JoinedComplete(insts, space, a);
    JoinedComplete(insts, space, b);
    var addrs := Addrs(insts[|insts| - 1], space);
    if !Complete(addrs) {
      var i: nat :| Stops(insts, space, i) && (a.Dangling? <==> Dangles(insts, space, i));
      var j: nat :| Stops(insts, space, j) && (b.Dangling? <==> Dangles(insts, space, j));
      FirstNull(addrs, i, j);
    }
  }

  lemma JoinedComplete(insts: seq<Inst>, space: Space, status: LinkStatus)
    requires insts != [] && SpaceEnded(insts, space, status)
    ensures status.Joined? <==> Complete(Addrs(insts[|insts| - 1], space))
  {
    hide Joins, Dangles, EachJoins;
    if !status.Joined? {
      var i: nat :| Stops(insts, space, i);
      assert Addrs(insts[|insts| - 1], space)[i].None?;
    }
  }

  lemma FirstNull(addrs: seq<Option<Addr>>, i: nat, j: nat)
    requires i < |addrs| && NullFrom(addrs, i) && Complete(addrs[..i])
    requires j < |addrs| && NullFrom(addrs, j) && Complete(addrs[..j])
    ensures i == j
  {
    NullAt(addrs, i);
    NullAt(addrs, j);
  }

  lemma NullAt(addrs: seq<Option<Addr>>, i: nat)
    requires i < |addrs| && NullFrom(addrs, i) && Complete(addrs[..i])
    ensures addrs[i].None? && forall k :: 0 <= k < i ==> addrs[k].Some?
  {
    forall k | 0 <= k < i ensures addrs[k].Some? {
      assert addrs[..i][k].Some?;
    }
  }

  lemma Incomplete(insts: seq<Inst>, space: Space, i: nat)
    requires InProgress(insts, space, i) && i < |Addrs(insts[|insts| - 1], space)|
    ensures !Complete(Addrs(insts[|insts| - 1], space))
  {
    assert Addrs(insts[|insts| - 1], space)[i].None?;
  }

  lemma Unresolved(ms: seq<Interface>, k: nat, space: Space, i: nat)
    requires k < |ms| && i < |Decls(ms[k], space)|
    ensures !Resolves(ms, k, space, i) ==> !AllResolve(ms, k, space)
  {
    hide Resolves;
  }

  // Whatever has been linked leads to a definition of the declared type.
  lemma CompleteResolves(insts: seq<Inst>, k: nat, space: Space)
    requires AllOk(insts) && k < |insts| && Complete(Addrs(insts[k], space))
    ensures AllResolve(Interfaces(insts), k, space)
  {
    hide AllOk, Denotes;
    AllAt(insts, k);
    forall i | 0 <= i < |Decls(insts[k].m, space)| ensures Resolves(Interfaces(insts), k, space, i) {
      assert Right(Interfaces(insts), k, space, i, Addrs(insts[k], space)[i].value);
    }
  }

  // Once linking is over an instance is ready exactly if every entry of both its spaces is linked.
  lemma ReadyIffComplete(insts: seq<Inst>, k: nat)
    requires AllOk(insts) && k < |insts| && !insts[k].state.Uninitialized?
    ensures insts[k].state.Ready? <==> Complete(insts[k].funcs) && Complete(insts[k].globals)
  {
    hide Right, Complete;
    AllAt(insts, k);
    assert SpaceOk(Interfaces(insts), insts[k], k, Functions) && SpaceOk(Interfaces(insts), insts[k], k, Globals);
  }

  lemma NewInProgress(insts: seq<Inst>, m: Interface)
    ensures var all := insts + [NewInst(m)]; InProgress(all, Functions, 0) && InProgress(all, Globals, 0)
  {
  }

  // ----- What becomes of an import -----

  // The addresses that entries of the last instance find are those of its own entries before them, or of
  // instances before it: an import denotes what the entry it finds denotes.
  lemma DenotesThrough(insts: seq<Inst>, space: Space, i: nat, t: nat, e: nat)
    requires insts != [] && Finds(insts, space, i, t, e)
    ensures var ms, k := Interfaces(insts), |insts| - 1;
            Denotes(ms, k, space, i) == if t < k || e < i then Denotes(ms, t, space, e) else None
  {
    hide FindInst, FindExport;
    var ms, k := Interfaces(insts), |insts| - 1;
    InterfacesAt(insts, k);
    InterfacesAt(insts, t);
    assert ms[..k + 1] == ms;
  }

  lemma NothingFound(insts: seq<Inst>, space: Space, i: nat)
    requires insts != [] && i < |Decls(insts[|insts| - 1].m, space)| && Decls(insts[|insts| - 1].m, space)[i].path.Some?
    requires var p := Decls(insts[|insts| - 1].m, space)[i].path.value;
             var t := FindInst(Interfaces(insts), p.from);
             t.None? || FindExport(insts[t.value].m.exports, space, p.field).None?
    ensures !Joins(insts, space, i) && !Dangles(insts, space, i) && !Resolves(Interfaces(insts), |insts| - 1, space, i)
  {
    hide FindInst, FindExport;
    var ms, k := Interfaces(insts), |insts| - 1;
    InterfacesAt(insts, k);
    assert ms[..k + 1] == ms;
    var t := FindInst(ms, Decls(insts[k].m, space)[i].path.value.from);
    if t.Some? {
      InterfacesAt(insts, t.value);
    }
  }

  lemma NullFound(insts: seq<Inst>, space: Space, i: nat, t: nat, e: nat)
    requires AllOk(insts) && InProgress(insts, space, i) && i < |Addrs(insts[|insts| - 1], space)|
    requires Finds(insts, space, i, t, e) && e < |Addrs(insts[t], space)| && Addrs(insts[t], space)[e].None?
    ensures !Joins(insts, space, i) && Dangles(insts, space, i)
    ensures TargetReady(insts, space, i) ==> !Resolves(Interfaces(insts), |insts| - 1, space, i)
  {
    hide AllOk, Finds, Joins, Dangles, Resolves, TargetReady, Complete, NullFrom;
    OneNull(insts, space, i, t, e);
    if TargetReady(insts, space, i) {
      NullDenotes(insts, space, i, t, e);
      NotResolved(Interfaces(insts), |insts| - 1, space, i);
    }
  }

  lemma OneNull(insts: seq<Inst>, space: Space, i: nat, t: nat, e: nat)
    requires insts != [] && Finds(insts, space, i, t, e) && e < |Addrs(insts[t], space)|
    requires Addrs(insts[t], space)[e].None?
    ensures !Joins(insts, space, i) && Dangles(insts, space, i)
  {
    hide FindInst, FindExport;
  }

  lemma NullDenotes(insts: seq<Inst>, space: Space, i: nat, t: nat, e: nat)
    requires AllOk(insts) && InProgress(insts, space, i) && TargetReady(insts, space, i)
    requires Finds(insts, space, i, t, e) && e < |Addrs(insts[t], space)| && Addrs(insts[t], space)[e].None?
    ensures Denotes(Interfaces(insts), |insts| - 1, space, i) == None
  {
    hide AllOk, FindInst, FindExport, Denotes, TargetReady, Right;
    DenotesThrough(insts, space, i, t, e);
    NullUnready(insts, space, t, e);
    ReadyTarget(insts, space, i, t, e);
  }

  lemma ReadyTarget(insts: seq<Inst>, space: Space, i: nat, t: nat, e: nat)
    requires insts != [] && TargetReady(insts, space, i) && Finds(insts, space, i, t, e)
    ensures t < |insts| - 1 ==> insts[t].state.Ready?
  {
    hide FindInst, FindExport;
  }

  lemma NullUnready(insts: seq<Inst>, space: Space, t: nat, e: nat)
    requires AllOk(insts) && t < |insts| && e < |Addrs(insts[t], space)| && Addrs(insts[t], space)[e].None?
    ensures !insts[t].state.Ready?
  {
    hide AllOk, Right;
    AllAt(insts, t);
  }

  lemma NotResolved(ms: seq<Interface>, k: nat, space: Space, i: nat)
    requires Denotes(ms, k, space, i) == None
    ensures !Resolves(ms, k, space, i)
  {
    hide Denotes;
  }

  lemma AddressFound(insts: seq<Inst>, space: Space, i: nat, t: nat, e: nat, a: Addr)
    requires AllOk(insts) && InProgress(insts, space, i) && i < |Addrs(insts[|insts| - 1], space)|
    requires Finds(insts, space, i, t, e) && e < |Addrs(insts[t], space)| && Addrs(insts[t], space)[e] == Some(a)
    requires a.inst < |insts| && a.idx < |Decls(insts[a.inst].m, space)|
    ensures !Dangles(insts, space, i)
    ensures Joins(insts, space, i)
            <==> Decls(insts[a.inst].m, space)[a.idx].extern == Decls(insts[|insts| - 1].m, space)[i].extern
    ensures Resolves(Interfaces(insts), |insts| - 1, space, i) <==> Joins(insts, space, i)
  {
    hide AllOk, Finds, Joins, Dangles, Resolves, InProgress;
    assert insts != [] by { ProgressSome(insts, space, i); }
    OneFound(insts, space, i, t, e, a);
    AddressDenotes(insts, space, i, t, e, a);
    InterfacesAt(insts, a.inst);
    InterfacesAt(insts, |insts| - 1);
    ResolvesTo(Interfaces(insts), |insts| - 1, space, i, a);
  }

  lemma ProgressSome(insts: seq<Inst>, space: Space, i: nat)
    requires InProgress(insts, space, i)
    ensures insts != []
  {
  }

  lemma OneFound(insts: seq<Inst>, space: Space, i: nat, t: nat, e: nat, a: Addr)
    requires insts != [] && Finds(insts, space, i, t, e) && e < |Addrs(insts[t], space)|
    requires Addrs(insts[t], space)[e] == Some(a)
    requires a.inst < |insts| && a.idx < |Decls(insts[a.inst].m, space)|
    ensures i < |Decls(insts[|insts| - 1].m, space)| && !Dangles(insts, space, i)
    ensures Joins(insts, space, i)
            <==> Decls(insts[a.inst].m, space)[a.idx].extern == Decls(insts[|insts| - 1].m, space)[i].extern
  {
    hide FindInst, FindExport;
    assert JoinsAt(insts, space, i, t, e)
        <==> Decls(insts[a.inst].m, space)[a.idx].extern == Decls(insts[|insts| - 1].m, space)[i].extern;
  }

  lemma AddressDenotes(insts: seq<Inst>, space: Space, i: nat, t: nat, e: nat, a: Addr)
    requires AllOk(insts) && InProgress(insts, space, i)
    requires Finds(insts, space, i, t, e) && e < |Addrs(insts[t], space)| && Addrs(insts[t], space)[e] == Some(a)
    ensures Denotes(Interfaces(insts), |insts| - 1, space, i) == Some(a)
  {
    hide FindInst, FindExport, AllOk, Denotes, Complete;
    DenotesThrough(insts, space, i, t, e);
    AllAt(insts, t);
    assert Right(Interfaces(insts), t, space, e, a);
  }

  lemma ResolvesTo(ms: seq<Interface>, k: nat, space: Space, i: nat, a: Addr)
    requires k < |ms| && i < |Decls(ms[k], space)| && a.inst < |ms| && a.idx < |Decls(ms[a.inst], space)|
    requires Denotes(ms, k, space, i) == Some(a)
    ensures Resolves(ms, k, space, i) <==> Decls(ms[a.inst], space)[a.idx].extern == Decls(ms[k], space)[i].extern
  {
    hide Denotes;
  }

  function Other(space: Space): Space {
    if space.Functions? then Globals else Functions
  }

  // One more entry has been linked.
  lemma LinkedMore(was: Inst, now: Inst, space: Space, i: nat)
    requires OneEntry(was, now, space, i, Joined) && NullFrom(Addrs(was, space), i) && Complete(Addrs(was, space)[..i])
    ensures |Addrs(now, space)| == |Addrs(was, space)| && Addrs(now, Other(space)) == Addrs(was, Other(space))
    ensures NullFrom(Addrs(now, space), i + 1) && Complete(Addrs(now, space)[..i + 1])
    ensures now.m == was.m && now.state == was.state
  {
  }

  lemma OwnRight(ms: seq<Interface>, k: nat, space: Space, i: nat)
    requires k < |ms| && i < |Decls(ms[k], space)| && Decls(ms[k], space)[i].path.None?
    ensures Right(ms, k, space, i, Addr(k, i))
  {
  }

  // Some import of the last module goes to an instance that is not ready.
  ghost predicate Unready(insts: seq<Inst>) {
    insts != [] && exists space, i :: ImportsUnready(insts, space, i)
  }

  ghost predicate ImportsUnready(insts: seq<Inst>, space: Space, i: nat)
    requires insts != []
  {
    var m := insts[|insts| - 1].m;
    && i < |Decls(m, space)| && Decls(m, space)[i].path.Some?
    && var t := FindInst(Interfaces(insts), Decls(m, space)[i].path.value.from);
    t.Some? && !insts[t.value].state.Ready?
  }

  lemma StillUnready(insts: seq<Inst>)
    requires Unready(insts)
    ensures Unready(insts[|insts| - 1 := insts[|insts| - 1].(state := Failed)])
  {
    hide FindInst;
    var next := insts[|insts| - 1 := insts[|insts| - 1].(state := Failed)];
    assert Interfaces(next) == Interfaces(insts);
    var space, i :| ImportsUnready(insts, space, i);
    assert ImportsUnready(next, space, i);
  }

  lemma InterfacesAt(insts: seq<Inst>, k: nat)
    requires k < |insts|
    ensures Interfaces(insts)[k] == insts[k].m
  {
  }

  function NewInst(m: Interface): Inst {
    Inst(m, Uninitialized, seq(|m.funcs|, _ => None), seq(|m.globals|, _ => None))
  }

  lemma PushedOk(insts: seq<Inst>, m: Interface)
    requires AllOk(insts) && Marked(m)
    ensures AllOk(insts + [NewInst(m)]) && Interfaces(insts + [NewInst(m)]) == Interfaces(insts) + [m]
  {
    hide SpaceOk, Marked;
    var more := insts + [NewInst(m)];
    var ms := Interfaces(more);
    assert ms == Interfaces(insts) + [m];
    forall k | 0 <= k < |more| ensures InstOk(ms, more[k], k) {
      if k < |insts| {
        AllAt(insts, k);
        SpaceStable(Interfaces(insts), m, insts[k], k, Functions);
        SpaceStable(Interfaces(insts), m, insts[k], k, Globals);
      } else {
        NewOk(ms, m, k);
      }
    }
  }

  lemma NewOk(ms: seq<Interface>, m: Interface, k: nat)
    requires k < |ms| && ms[k] == m
    ensures SpaceOk(ms, NewInst(m), k, Functions) && SpaceOk(ms, NewInst(m), k, Globals)
  {
  }

  lemma SetState(insts: seq<Inst>, k: nat, state: Progress)
    requires AllOk(insts) && k < |insts| && !state.Uninitialized?
    requires state.Ready? <==> Complete(insts[k].funcs) && Complete(insts[k].globals)
    ensures AllOk(insts[k := insts[k].(state := state)])
  {
    AllAt(insts, k);
    OneReplaced(insts, k, insts[k].(state := state));
  }

  // Goes through the exports to the first match.
  method Lookup(es: seq<Export>, space: Space, name: string) returns (r: Option<nat>)
    ensures r == FindExport(es, space, name)
    ensures IsFirst(es, space, name, r)
  {
    FindExportIs(es, space, name);
    var j := 0;
    assert es[0..] == es;
    while j < |es|
      invariant j <= |es| && FindExport(es, space, name) == FindExport(es[j..], space, name)
    {
      assert es[j..][0] == es[j] && es[j..][1..] == es[j + 1..];
      if es[j].space == space && es[j].name == name { return Some(es[j].idx); }
      j := j + 1;
    }
    return None;
  }

  // An exported entry exists, and if it is linked it leads to a definition.
  lemma ExportedEntry(insts: seq<Inst>, space: Space, t: nat, e: nat, name: string)
    requires AllOk(insts) && t < |insts| && FindExport(insts[t].m.exports, space, name) == Some(e)
    ensures e < |Addrs(insts[t], space)| == |Decls(insts[t].m, space)|
    ensures Addrs(insts[t], space)[e].Some? ==>
              var a := Addrs(insts[t], space)[e].value;
              a.inst < |insts| && a.idx < |Decls(insts[a.inst].m, space)| && Right(Interfaces(insts), t, space, e, a)
    ensures insts[t].state.Ready? ==> Addrs(insts[t], space)[e].Some?
  {
    hide Denotes;
    assert InstOk(Interfaces(insts), insts[t], t);
    var x :| x in insts[t].m.exports && x.space == space && x.idx == e;
    assert e < |Decls(insts[t].m, space)|;
    if Addrs(insts[t], space)[e].Some? {
      assert Right(Interfaces(insts), t, space, e, Addrs(insts[t], space)[e].value);
    }
  }

  // Entry e of instance t, linked to a, is what entry i of the last instance imports.
  predicate Candidate(insts: seq<Inst>, space: Space, i: nat, t: nat, e: nat, a: Addr) {
    && insts != [] && t < |insts|
    && var last := insts[|insts| - 1];
    && last.state.Uninitialized? && i < |Addrs(last, space)| && i < |Decls(last.m, space)|
    && NullFrom(Addrs(last, space), i)
    && Decls(last.m, space)[i].path.Some?
    && FindInst(Interfaces(insts), Decls(last.m, space)[i].path.value.from) == Some(t)
    && FindExport(insts[t].m.exports, space, Decls(last.m, space)[i].path.value.field) == Some(e)
    && e < |Addrs(insts[t], space)| && Addrs(insts[t], space)[e] == Some(a)
    && a.inst < |insts| && a.idx < |Decls(insts[a.inst].m, space)|
    && Decls(insts[a.inst].m, space)[a.idx].extern == Decls(last.m, space)[i].extern
  }

  lemma JoinRight(insts: seq<Inst>, space: Space, i: nat, t: nat, e: nat, a: Addr)
    requires AllOk(insts) && Candidate(insts, space, i, t, e, a)
    ensures AllOk(insts[|insts| - 1 := WithAddr(insts[|insts| - 1], space, i, a)])
    ensures Interfaces(insts[|insts| - 1 := WithAddr(insts[|insts| - 1], space, i, a)]) == Interfaces(insts)
  {
    hide AllOk, FindInst, FindExport, Denotes, Right, Marked, SpaceOk;
    var k := |insts| - 1;
    var ms := Interfaces(insts);
    ExportedEntry(insts, space, t, e, Decls(insts[k].m, space)[i].path.value.field);
    AllAt(insts, t);
    AllAt(insts, k);
    assert ms[..k + 1] == ms;
    ImportRight(ms, k, space, i, t, e, a);
    SetRight(ms, insts[k], k, space, i, a);
    OneReplaced(insts, k, WithAddr(insts[k], space, i, a));
  }

  lemma AllAt(insts: seq<Inst>, k: nat)
    requires AllOk(insts) && k < |insts|
    ensures InstOk(Interfaces(insts), insts[k], k)
  {
  }

  lemma Sizes(insts: seq<Inst>, k: nat, space: Space)
    requires AllOk(insts) && k < |insts|
    ensures |Addrs(insts[k], space)| == |Decls(insts[k].m, space)|
  {
    hide Right;
    AllAt(insts, k);
  }

  lemma OneReplaced(insts: seq<Inst>, k: nat, inst: Inst)
    requires AllOk(insts) && k < |insts| && inst.m == insts[k].m && InstOk(Interfaces(insts), inst, k)
    ensures AllOk(insts[k := inst]) && Interfaces(insts[k := inst]) == Interfaces(insts)
  {
    hide InstOk;
    assert Interfaces(insts[k := inst]) == Interfaces(insts);
  }

  lemma SetRight(ms: seq<Interface>, inst: Inst, k: nat, space: Space, i: nat, a: Addr)
    requires k < |ms| && SpaceOk(ms, inst, k, Functions) && SpaceOk(ms, inst, k, Globals) && inst.state.Uninitialized?
    requires i < |Addrs(inst, space)| && Right(ms, k, space, i, a)
    ensures SpaceOk(ms, WithAddr(inst, space, i, a), k, Functions)
    ensures SpaceOk(ms, WithAddr(inst, space, i, a), k, Globals)
  {
    hide Right;
  }

  // ----- A null address, followed -----

  function Nullary(): Extern {
    FuncExtern(FuncType([], []))
  }

  // "a" imports a function that nobody exports, and exports one of its own, which comes after it.
  function HalfLinked(): Interface {
    Interface(["a"], [Decl(Nullary(), Some(Path("x", "g")), false), Decl(Nullary(), None, true)], [],
        [Export("f", Functions, 1)])
  }

  // "b" imports what "a" exports.
  function Importer(): Interface {
    Interface(["b"], [Decl(Nullary(), Some(Path("a", "f")), false)], [], [])
  }

  // Nothing is left of the first module but null addresses.
  lemma HalfRefused(insts: seq<Inst>, status: LinkStatus)
    requires |insts| == 1 && insts[0].m == HalfLinked() && |insts[0].funcs| == 2 && SpacesEnded(insts, status)
    ensures status.Refused? && insts[0].funcs == [None, None]
  {
    hide FindExport, Complete;
    InterfacesAt(insts, 0);
    assert Interfaces(insts)[..0] == [];
    assert FindInst(Interfaces(insts), "x") == None;
    assert !Joins(insts, Functions, 0) && !Dangles(insts, Functions, 0);
    JoinedComplete(insts, Functions, if Complete(insts[0].funcs) then Joined else status);
    CompleteJoins(insts, Functions, 0);
    var i: nat :| Stops(insts, Functions, i) && (status.Dangling? <==> Dangles(insts, Functions, i));
    assert i == 0;
  }

  // Where everything is linked, every import was joined.
  lemma CompleteJoins(insts: seq<Inst>, space: Space, i: nat)
    requires insts != [] && i < |Addrs(insts[|insts| - 1], space)| && i < |Decls(insts[|insts| - 1].m, space)|
    requires EachJoins(insts, space) && Decls(insts[|insts| - 1].m, space)[i].path.Some?
    ensures Complete(Addrs(insts[|insts| - 1], space)) ==> Joins(insts, space, i)
  {
    hide Joins;
    assert Addrs(insts[|insts| - 1], space)[i].Some? ==> Imported(insts[|insts| - 1], space, i);
  }

  // What the second finds there is null, although it denotes a definition of the right type.
  lemma ImporterDangles(insts: seq<Inst>, status: LinkStatus)
    requires |insts| == 2 && insts[0].m == HalfLinked() && insts[0].funcs == [None, None]
    requires insts[1].m == Importer() && |insts[1].funcs| == 1 && SpacesEnded(insts, status)
    ensures status.Dangling? && Denotes(Interfaces(insts), 1, Functions, 0) == Some(Addr(0, 1))
  {
    hide Complete;
    var ms := Interfaces(insts);
    assert ms == [HalfLinked(), Importer()] && ms[..1] == [HalfLinked()] && ms[..2] == ms;
    assert FindInst(ms[..1], "a") == Some(0);
    assert FindInst(ms, "a") == Some(0);
    assert FindExport(HalfLinked().exports, Functions, "f") == Some(1);
    assert Denotes(ms, 0, Functions, 1) == Some(Addr(0, 1));
    hide FindInst, FindExport;
    assert Finds(insts, Functions, 0, 0, 1);
    OneNull(insts, Functions, 0, 0, 1);
    JoinedComplete(insts, Functions, if Complete(insts[1].funcs) then Joined else status);
    CompleteJoins(insts, Functions, 0);
    var i: nat :| Stops(insts, Functions, i) && (status.Dangling? <==> Dangles(insts, Functions, i));
    assert i == 0;
  }

  // A history that ends with a null address followed: the first instantiation fails and stays in the
  // list, the second imports from it.
  method FollowNull() returns (vm: Vm, first: LinkStatus, second: LinkStatus)
    ensures first.Refused? && second.Dangling?
    ensures |vm.insts| == 2 && Denotes(Interfaces(vm.insts), 1, Functions, 0) == Some(Addr(0, 1))
  {
    hide AllOk, SpacesEnded;
    vm := new Vm();
    first := vm.Instantiate(HalfLinked());
    Sizes(vm.insts, 0, Functions);
    HalfRefused(vm.insts, first);
    ghost var was := vm.insts;
    second := vm.Instantiate(Importer());
    assert vm.insts[..1][0] == was[0];
    Sizes(vm.insts, 1, Functions);
    ImporterDangles(vm.insts, second);
  }

  // ----- An import by name -----

  // "a" defines and exports two functions of one type.
  function TwoExports(): Interface {
    Interface(["a"], [Decl(Nullary(), None, true), Decl(Nullary(), None, true)], [],
        [Export("f", Functions, 0), Export("g", Functions, 1)])
  }

  // "b" imports the second.
  function ByName(): Interface {
    Interface(["b"], [Decl(Nullary(), Some(Path("a", "g")), false)], [], [])
  }

  lemma ByNameDenotes()
    ensures var ms := [TwoExports(), ByName()]; Denotes(ms, 1, Functions, 0) == Some(Addr(0, 1))
    ensures AllResolve([TwoExports(), ByName()], 1, Functions) && AllResolve([TwoExports(), ByName()], 1, Globals)
  {
    var ms := [TwoExports(), ByName()];
    assert ms[..1] == [TwoExports()] && ms[..2] == ms;
    assert FindInst(ms[..1], "a") == Some(0);
    assert FindInst(ms, "a") == Some(0);
    assert ms[0].exports[1..] == [Export("g", Functions, 1)];
    assert FindExport(ms[0].exports, Functions, "g") == Some(1);
    assert Denotes(ms, 0, Functions, 1) == Some(Addr(0, 1));
  }

  lemma OwnOnly(insts: seq<Inst>)
    requires |insts| == 1 && insts[0].m == TwoExports()
    ensures TargetsReady(insts, Functions) && TargetsReady(insts, Globals)
    ensures AllResolve(Interfaces(insts), 0, Functions) && AllResolve(Interfaces(insts), 0, Globals)
  {
  }

  lemma FirstReady(insts: seq<Inst>)
    requires |insts| == 2 && insts[0].state.Ready?
    ensures TargetsReady(insts, Functions) && TargetsReady(insts, Globals)
  {
    hide Finds;
  }

  // Both instantiations succeed, and the import is the second function, not the first.
  method FollowName() returns (vm: Vm, first: LinkStatus, second: LinkStatus)
    ensures first.Joined? && second.Joined?
    ensures |vm.insts| == 2 && vm.insts[1].funcs == [Some(Addr(0, 1))]
  {
    hide AllOk, SpacesEnded, TargetsReady, AllResolve, Denotes;
    vm := new Vm();
    OwnOnly([NewInst(TwoExports())]);
    assert vm.insts + [NewInst(TwoExports())] == [NewInst(TwoExports())];
    first := vm.Instantiate(TwoExports());
    ghost var all := vm.insts + [NewInst(ByName())];
    FirstReady(all);
    ByNameDenotes();
    assert Interfaces(all) == [TwoExports(), ByName()];
    second := vm.Instantiate(ByName());
    assert vm.insts[..1] == all[..1] && vm.insts[0] == vm.insts[..1][0] == all[0];
    assert Interfaces(vm.insts) == [TwoExports(), ByName()];
    SecondLinked(vm.insts);
  }

  lemma SecondLinked(insts: seq<Inst>)
    requires AllOk(insts) && Interfaces(insts) == [TwoExports(), ByName()] && insts[1].state.Ready?
    ensures insts[1].funcs == [Some(Addr(0, 1))]
  {
    hide Denotes;
    ByNameDenotes();
    AllAt(insts, 1);
    assert SpaceOk(Interfaces(insts), insts[1], 1, Functions);
    assert insts[1].funcs[0].Some?;
    assert Right(Interfaces(insts), 1, Functions, 0, insts[1].funcs[0].value);
  }
}
