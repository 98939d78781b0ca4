/**
 The check that names are UTF-8: it accepts exactly the concatenations of encodings of Unicode
 scalar values in the sense of sections 3 and 4 of RFC 3629.
 */
module Utf8 {
  import opened Basics

  // ----- What is meant -----

  predicate Scalar(c: nat) {
    c < 0xD800 || 0xE000 <= c < 0x11_0000
  }

  // A continuation byte carries six bits.
  function Cont(c: nat): byte {
    0x80 + c % 0x40
  }

  function EncodeScalar(c: nat): (s: seq<byte>)
    requires Scalar(c)
    ensures 0 < |s| <= 4
  {
    if c < 0x80 then [c]
    else if c < 0x800 then [0xC0 + c / 0x40, Cont(c)]
    else if c < 0x1_0000 then [0xE0 + c / 0x40 / 0x40, Cont(c / 0x40), Cont(c)]
    else [0xF0 + c / 0x40 / 0x40 / 0x40, Cont(c / 0x40 / 0x40), Cont(c / 0x40), Cont(c)]
  }

  // The table of section 3 of RFC 3629: how many bytes, the marker bits of each, and the number that the
  // bits left spell.
  predicate Tabled(c: nat, u: seq<byte>) {
    if c <= 0x7F then |u| == 1 && u[0] == c
    else if c <= 0x7FF then
      |u| == 2 && u[0] / 0x20 == 0x06 && u[1] / 0x40 == 0x02 && c == 0x40 * Low(u[0], 0x20) + Low(u[1], 0x40)
    else if c <= 0xFFFF then
      && |u| == 3 && u[0] / 0x10 == 0x0E && u[1] / 0x40 == 0x02 && u[2] / 0x40 == 0x02
      && c == 0x1000 * Low(u[0], 0x10) + 0x40 * Low(u[1], 0x40) + Low(u[2], 0x40)
    else
      && |u| == 4 && u[0] / 0x08 == 0x1E && u[1] / 0x40 == 0x02 && u[2] / 0x40 == 0x02 && u[3] / 0x40 == 0x02
      && c == 0x4_0000 * Low(u[0], 0x08) + 0x1000 * Low(u[1], 0x40) + 0x40 * Low(u[2], 0x40) + Low(u[3], 0x40)
  }

  function Low(b: byte, m: nat): nat
    requires m > 0
  {
    b % m
  }

  lemma EncodedByTable(c: nat)
    ensures Scalar(c) <==> c <= 0xD7FF || 0xE000 <= c <= 0x10FFFF
    ensures Scalar(c) ==> Tabled(c, EncodeScalar(c))
  {
    if Scalar(c) && c < 0x800 {
      LowTwo(c);
    } else if Scalar(c) && c < 0x1_0000 {
      LowThree(c);
    } else if Scalar(c) {
      LowFour(c);
    }
  }

  lemma LowTwo(c: nat)
    requires Scalar(c) && c < 0x800
    ensures Tabled(c, EncodeScalar(c))
  {
  }

  lemma LowThree(c: nat)
    requires Scalar(c) && 0x800 <= c < 0x1_0000
    ensures Tabled(c, EncodeScalar(c))
  {
  }

  lemma LowFour(c: nat)
    requires Scalar(c) && 0x1_0000 <= c
    ensures Tabled(c, EncodeScalar(c))
  {
  }

  predicate Scalars(cs: seq<nat>) {
    forall i :: 0 <= i < |cs| ==> Scalar(cs[i])
  }

  function EncodeAll(cs: seq<nat>): seq<byte>
    requires Scalars(cs)
  {
    if cs == [] then [] else EncodeScalar(cs[0]) + EncodeAll(cs[1..])
  }

  ghost predicate IsText(s: seq<byte>) {
    exists cs :: Scalars(cs) && EncodeAll(cs) == s
  }

  // ----- The table and the checks -----

  // Length of an encoding by its first byte, 0 for bytes that start none.
  function LengthOf(b: byte): (n: nat)
    ensures n <= 4
  {
    if b < 0x80 then 1
    else if b < 0xC2 then 0
    else if b < 0xE0 then 2
    else if b < 0xF0 then 3
    else if b < 0xF5 then 4
    else 0
  }

  predicate IsCont(b: byte) {
    0x80 <= b < 0xC0
  }

  // The bytes of one encoding, its length known.
  predicate WellFormed(u: seq<byte>) {
    match |u|
    case 1 => u[0] < 0x80
    case 2 => 0xC2 <= u[0] < 0xE0 && IsCont(u[1])
    case 3 =>
      && 0xE0 <= u[0] < 0xF0 && IsCont(u[1]) && IsCont(u[2])
      && !(u[0] == 0xE0 && u[1] < 0xA0) && !(u[0] == 0xED && u[1] >= 0xA0)
    case 4 =>
      && 0xF0 <= u[0] < 0xF5 && IsCont(u[1]) && IsCont(u[2]) && IsCont(u[3])
      && !(u[0] == 0xF0 && u[1] < 0x90) && !(u[0] == 0xF4 && u[1] >= 0x90)
    case _ => false
  }

  // Six more bits.
  function Shift(c: nat, b: byte): nat
    requires IsCont(b)
  {
    c * 0x40 + (b as int - 0x80)
  }

  // The scalar value that accepted bytes encode.
  function DecodeScalar(u: seq<byte>): (c: nat)
    requires WellFormed(u)
  {
    if |u| == 1 then u[0]
    else if |u| == 2 then Shift(u[0] as int - 0xC0, u[1])
    else if |u| == 3 then Shift(Shift(u[0] as int - 0xE0, u[1]), u[2])
    else Shift(Shift(Shift(u[0] as int - 0xF0, u[1]), u[2]), u[3])
  }

  lemma ShiftBack(c: nat, b: byte)
    requires IsCont(b)
    ensures Shift(c, b) / 0x40 == c && Cont(Shift(c, b)) == b
  {
  }

  lemma ContShift(c: nat)
    ensures IsCont(Cont(c)) && Shift(c / 0x40, Cont(c)) == c
  {
  }

  // The checks accept exactly the encodings of scalar values.
  lemma AcceptedEncodes(u: seq<byte>)
    requires WellFormed(u)
    ensures Scalar(DecodeScalar(u)) && EncodeScalar(DecodeScalar(u)) == u
  {
    hide Cont;
    if |u| == 2 {
      ShiftBack(u[0] as int - 0xC0, u[1]);
    } else if |u| == 3 {
      ThreeEncode(u);
    } else if |u| == 4 {
      FourEncode(u);
    }
  }

  lemma ThreeEncode(u: seq<byte>)
    requires |u| == 3 && WellFormed(u)
    ensures Scalar(DecodeScalar(u)) && EncodeScalar(DecodeScalar(u)) == u
  {
    hide Cont;
    var c0: nat := u[0] as int - 0xE0;
    var c1 := Shift(c0, u[1]);
    var c2 := Shift(c1, u[2]);
    assert 0x20 <= c1 < 0x400 && !(0x360 <= c1 < 0x380);
    assert 0x800 <= c2 < 0x1_0000 && !(0xD800 <= c2 < 0xE000);
    ShiftBack(c0, u[1]);
    ShiftBack(c1, u[2]);
    hide Shift;
    assert [0xE0 + c0, u[1], u[2]] == u;
  }

  lemma FourEncode(u: seq<byte>)
    requires |u| == 4 && WellFormed(u)
    ensures Scalar(DecodeScalar(u)) && EncodeScalar(DecodeScalar(u)) == u
  {
    hide Cont;
    var c0: nat := u[0] as int - 0xF0;
    var c1 := Shift(c0, u[1]);
    var c2 := Shift(c1, u[2]);
    var c3 := Shift(c2, u[3]);
    assert 0x10 <= c1 < 0x110;
    assert 0x400 <= c2 < 0x4400;
    assert 0x1_0000 <= c3 < 0x11_0000;
    ShiftBack(c0, u[1]);
    ShiftBack(c1, u[2]);
    ShiftBack(c2, u[3]);
    hide Shift;
    assert [0xF0 + c0, u[1], u[2], u[3]] == u;
  }

  lemma EncodesAccepted(c: nat)
    requires Scalar(c)
    ensures WellFormed(EncodeScalar(c)) && LengthOf(EncodeScalar(c)[0]) == |EncodeScalar(c)|
    ensures DecodeScalar(EncodeScalar(c)) == c
  {
    hide Shift;
    ContShift(c);
    ContShift(c / 0x40);
    ContShift(c / 0x40 / 0x40);
  }

  // ----- One encoding at a time -----

  lemma TextCons(u: seq<byte>, rest: seq<byte>)
    requires WellFormed(u) && IsText(rest)
    ensures IsText(u + rest)
  {
    hide EncodeScalar, DecodeScalar, WellFormed, Scalar;
    AcceptedEncodes(u);
    var cs :| Scalars(cs) && EncodeAll(cs) == rest;
    var more := [DecodeScalar(u)] + cs;
    assert more[1..] == cs;
    assert EncodeAll(more) == u + rest;
  }

  lemma TextHead(s: seq<byte>)
    requires IsText(s) && s != []
    ensures var n := LengthOf(s[0]); 0 < n <= |s| && WellFormed(s[..n]) && IsText(s[n..])
  {
    hide EncodeScalar, DecodeScalar, WellFormed, Scalar, LengthOf;
    var cs :| Scalars(cs) && EncodeAll(cs) == s;
    var u := EncodeScalar(cs[0]);
    EncodesAccepted(cs[0]);
    assert s == u + EncodeAll(cs[1..]);
    assert s[0] == u[0] && s[..|u|] == u && s[|u|..] == EncodeAll(cs[1..]);
    assert Scalars(cs[1..]);
  }

  lemma TextEmpty()
    ensures IsText([])
  {
    assert Scalars([]) && EncodeAll([]) == [];
  }

  // Text from p on is an encoding at p and text after it.
  lemma TextStep(s: seq<byte>, p: nat)
    requires p < |s|
    ensures var n := LengthOf(s[p]);
            IsText(s[p..]) <==> 0 < n <= |s| - p && WellFormed(s[p..p + n]) && IsText(s[p + n..])
  {
    hide WellFormed, LengthOf, IsText;
    var n := LengthOf(s[p]);
    var t := s[p..];
    if IsText(t) {
      TextHead(t);
      assert t[..n] == s[p..p + n] && t[n..] == s[p + n..];
    }
    if 0 < n <= |s| - p && WellFormed(s[p..p + n]) && IsText(s[p + n..]) {
      assert t == s[p..p + n] + s[p + n..];
      TextCons(s[p..p + n], s[p + n..]);
    }
  }

  // The loop accepts exactly the text.
  method IsValid(s: seq<byte>) returns (ok: bool)
    ensures ok <==> IsText(s)
  {
    hide IsText;
    var p := 0;
    assert s[0..] == s;
    while p < |s|
      invariant p <= |s| && (IsText(s) <==> IsText(s[p..]))
    {
      var cu0 := s[p];
      var length := LengthOf(cu0);
      TextStep(s, p);
      if p + length > |s| { return false; }
      ghost var u := s[p..p + length];
      match length
      case 1 =>
        p := p + 1;
      case 2 =>
        if !IsCont(s[p + 1]) { return false; }
        p := p + 2;
      case 3 =>
        var cu1, cu2 := s[p + 1], s[p + 2];
        if !(IsCont(cu1) && IsCont(cu2)) || (cu0 == 0xE0 && cu1 < 0xA0)
            || (cu0 == 0xED && cu1 >= 0xA0) { return false; }
        p := p + 3;
      case 4 =>
        var cu1, cu2, cu3 := s[p + 1], s[p + 2], s[p + 3];
        if !(IsCont(cu1) && IsCont(cu2) && IsCont(cu3)) || (cu0 == 0xF0 && cu1 < 0x90)
            || (cu0 == 0xF4 && cu1 >= 0x90) { return false; }
        p := p + 4;
      case _ => return false;
    }
    assert s[p..] == [];
    TextEmpty();
    return true;
  }
}
