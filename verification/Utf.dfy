/**
 UTF-16 to UTF-8 and back, as `src/utility/utf_conversion.cpp` does it. Bit fields are written as quotients and
 remainders, and the OR of fields that do not meet as a sum.
 */
module Utf {
  import opened Words

  newtype unit = x: int | 0 <= x < 0x1_0000

  predicate High(c: unit) { 0xD800 <= c < 0xDC00 }

  predicate Low(c: unit) { 0xDC00 <= c < 0xE000 }

  /** A surrogate pair stands at the front. */
  predicate PairAt(u: seq<unit>) {
    |u| > 1 && High(u[0]) && Low(u[1])
  }

  function CodePoint(c: unit, d: unit): nat
    requires High(c) && Low(d)
  {
    (c as nat % 0x400) * 0x400 + d as nat % 0x400 + 0x1_0000
  }

  // ---------------------------------------------------------------- UTF-16 to UTF-8

  function Two(c: nat): seq<byte>
    requires 0x80 <= c < 0x800
  {
    [(0xC0 + c / 0x40) as byte, (0x80 + c % 0x40) as byte]
  }

  function Three(c: nat): seq<byte>
    requires 0x800 <= c < 0x1_0000
  {
    [(0xE0 + c / 0x1000) as byte, (0x80 + c / 0x40 % 0x40) as byte, (0x80 + c % 0x40) as byte]
  }

  function Four(c: nat): seq<byte>
    requires 0x1_0000 <= c < 0x11_0000
  {
    [(0xF0 + c / 0x4_0000) as byte, (0x80 + c / 0x1000 % 0x40) as byte, (0x80 + c / 0x40 % 0x40) as byte, (0x80 + c % 0x40) as byte]
  }

  /** Units the front of the text takes. */
  function Taken(u: seq<unit>): nat
    requires u != []
  {
    if PairAt(u) then 2 else 1
  }

  /** Bytes for the front of the text; none for an unpaired surrogate. */
  function Front(u: seq<unit>): seq<byte>
    requires u != []
  {
    var c := u[0] as nat;
    if c < 0x80 then [c as byte]
    else if c < 0x800 then Two(c)
    else if PairAt(u) then Four(CodePoint(u[0], u[1]))
    else if High(u[0]) || Low(u[0]) then []
    else Three(c)
  }

  function Encode(u: seq<unit>): seq<byte> {
    if u == [] then [] else Front(u) + Encode(u[Taken(u)..])
  }

  /** The text without its unpaired surrogates. */
  function Clean(u: seq<unit>): seq<unit> {
    if u == [] then []
    else if PairAt(u) then u[..2] + Clean(u[2..])
    else if High(u[0]) || Low(u[0]) then Clean(u[1..])
    else [u[0]] + Clean(u[1..])
  }

  /** Every surrogate is in a pair. */
  predicate Paired(u: seq<unit>) {
    u == [] || if PairAt(u) then Paired(u[2..]) else !High(u[0]) && !Low(u[0]) && Paired(u[1..])
  }

  lemma {:induction false} CleanIsPaired(u: seq<unit>)
    ensures Paired(Clean(u)) && (Clean(u) == u <==> Paired(u))
    ensures |Clean(u)| <= |u|
  {
    if u != [] {
      if PairAt(u) {
        CleanIsPaired(u[2..]);
        var v := Clean(u);
        assert v[2..] == Clean(u[2..]) && u == u[..2] + u[2..];
      } else {
        CleanIsPaired(u[1..]);
        if !High(u[0]) && !Low(u[0]) {
          assert Clean(u)[1..] == Clean(u[1..]);
          assert u == [u[0]] + u[1..];
        } else {
          assert |Clean(u)| < |u|;
        }
      }
    }
  }

  // ---------------------------------------------------------------- UTF-8

  predicate Cont(b: byte) { 0x80 <= b < 0xC0 }

  /** Length of the well-formed sequence at the front, by the grammar of section 4 of RFC 3629; 0 if there is none. */
  function SeqLen(b: seq<byte>): nat
    requires b != []
  {
    if b[0] < 0x80 then 1
    else if 0xC2 <= b[0] < 0xE0 then if |b| >= 2 && Cont(b[1]) then 2 else 0
    else if 0xE0 <= b[0] < 0xF0 then
      if |b| >= 3 && Cont(b[1]) && Cont(b[2]) && (b[0] == 0xE0 ==> b[1] >= 0xA0) && (b[0] == 0xED ==> b[1] < 0xA0) then 3 else 0
    else if 0xF0 <= b[0] < 0xF5 then
      if |b| >= 4 && Cont(b[1]) && Cont(b[2]) && Cont(b[3]) && (b[0] == 0xF0 ==> b[1] >= 0x90) && (b[0] == 0xF4 ==> b[1] < 0x90)
      then 4 else 0
    else 0
  }

  predicate WellFormed(b: seq<byte>) {
    b == [] || (0 < SeqLen(b) <= |b| && WellFormed(b[SeqLen(b)..]))
  }

  /** The code point of the sequence at the front. */
  function Value(b: seq<byte>): nat
    requires b != [] && SeqLen(b) > 0
  {
    match SeqLen(b)
    case 1 => b[0] as nat
    case 2 => (b[0] as nat % 0x20) * 0x40 + b[1] as nat % 0x40
    case 3 => (b[0] as nat % 0x10) * 0x1000 + (b[1] as nat % 0x40) * 0x40 + b[2] as nat % 0x40
    case _ => (b[0] as nat % 8) * 0x4_0000 + (b[1] as nat % 0x40) * 0x1000 + (b[2] as nat % 0x40) * 0x40 + b[3] as nat % 0x40
  }

  lemma ValueBounds(b: seq<byte>)
    requires b != [] && SeqLen(b) > 0
    ensures SeqLen(b) == 1 ==> Value(b) < 0x80
    ensures SeqLen(b) == 2 ==> 0x80 <= Value(b) < 0x800
    ensures SeqLen(b) == 3 ==> 0x800 <= Value(b) < 0x1_0000 && !(0xD800 <= Value(b) < 0xE000)
    ensures SeqLen(b) == 4 ==> 0x1_0000 <= Value(b) < 0x11_0000
    ensures SeqLen(b) <= 4
  {
  }

  /** The code units of a code point. */
  function Units(cp: nat): seq<unit>
    requires cp < 0x11_0000
  {
    if cp < 0x1_0000 then [cp as unit]
    else [((cp - 0x1_0000) / 0x400 + 0xD800) as unit, ((cp - 0x1_0000) % 0x400 + 0xDC00) as unit]
  }

  function Decode(b: seq<byte>): seq<unit>
    requires WellFormed(b)
  {
    if b == [] then [] else ValueBounds(b); Units(Value(b)) + Decode(b[SeqLen(b)..])
  }

  // ---------------------------------------------------------------- round trips

  lemma TwoSeq(c: nat, rest: seq<byte>)
    requires 0x80 <= c < 0x800
    ensures SeqLen(Two(c) + rest) == 2 && Value(Two(c) + rest) == c
  {
  }

  lemma ThreeSeq(c: nat, rest: seq<byte>)
    requires 0x800 <= c < 0x1_0000 && !(0xD800 <= c < 0xE000)
    ensures SeqLen(Three(c) + rest) == 3 && Value(Three(c) + rest) == c
  {
    ThreeDigits(c);
    var b := Three(c) + rest;
    assert b[0] as nat == 0xE0 + c / 0x1000 && b[1] as nat == 0x80 + c / 0x40 % 0x40 && b[2] as nat == 0x80 + c % 0x40;
  }

  lemma ThreeDigits(c: nat)
    ensures c == c / 0x1000 * 0x1000 + c / 0x40 % 0x40 * 0x40 + c % 0x40
    ensures 0x800 <= c < 0x1_0000 && c / 0x1000 == 0 ==> c / 0x40 % 0x40 >= 0x20
    ensures !(0xD800 <= c < 0xE000) && c / 0x1000 == 0xD ==> c / 0x40 % 0x40 < 0x20
  {
    var x := c / 0x40;
    assert c / 0x1000 == x / 0x40;
  }

  lemma FourSeq(c: nat, rest: seq<byte>)
    requires 0x1_0000 <= c < 0x11_0000
    ensures SeqLen(Four(c) + rest) == 4 && Value(Four(c) + rest) == c
  {
    var g, h, m, l := c / 0x4_0000, c / 0x1000 % 0x40, c / 0x40 % 0x40, c % 0x40;
    FourDigits(c);
    var b := Four(c) + rest;
    assert b[0] as nat == 0xF0 + g && b[1] as nat == 0x80 + h && b[2] as nat == 0x80 + m && b[3] as nat == 0x80 + l;
  }

  lemma FourDigits(c: nat)
    ensures c == c / 0x4_0000 * 0x4_0000 + c / 0x1000 % 0x40 * 0x1000 + c / 0x40 % 0x40 * 0x40 + c % 0x40
  {
    var x := c / 0x40;
    var y := x / 0x40;
    assert c / 0x1000 == y && c / 0x4_0000 == y / 0x40;
  }

  lemma PairUnits(c: unit, d: unit)
    requires High(c) && Low(d)
    ensures 0x1_0000 <= CodePoint(c, d) < 0x11_0000 && Units(CodePoint(c, d)) == [c, d]
  {
    var a, b := c as nat % 0x400, d as nat % 0x400;
    assert c as nat == 0xD800 + a && d as nat == 0xDC00 + b;
    var x := a * 0x400 + b;
    assert x / 0x400 == a && x % 0x400 == b;
  }

  /** What the front of the text turns into is one well-formed sequence for the same code units. */
  lemma FrontSeq(u: seq<unit>, rest: seq<byte>)
    requires u != [] && Front(u) != []
    ensures SeqLen(Front(u) + rest) == |Front(u)| && Value(Front(u) + rest) < 0x11_0000
    ensures Units(Value(Front(u) + rest)) == u[..Taken(u)]
  {
    hide Two, Three, Four, SeqLen, Value, CodePoint, Units;
    var c := u[0] as nat;
    if c < 0x80 {
      OneSeq(c, rest);
      assert u[..1] == [u[0]];
    } else if c < 0x800 {
      TwoSeq(c, rest);
      Lengths(c);
      OneUnit(u[0]);
      assert u[..1] == [u[0]];
    } else if PairAt(u) {
      PairUnits(u[0], u[1]);
      FourSeq(CodePoint(u[0], u[1]), rest);
      Lengths(CodePoint(u[0], u[1]));
      assert u[..2] == [u[0], u[1]];
    } else {
      ThreeSeq(c, rest);
      Lengths(c);
      OneUnit(u[0]);
      assert u[..1] == [u[0]];
    }
  }

  lemma OneSeq(c: nat, rest: seq<byte>)
    requires c < 0x80
    ensures SeqLen([c as byte] + rest) == 1 && Value([c as byte] + rest) == c && Units(c) == [c as unit]
  {
  }

  lemma OneUnit(c: unit)
    ensures Units(c as nat) == [c]
  {
  }

  lemma Lengths(c: nat)
    ensures 0x80 <= c < 0x800 ==> |Two(c)| == 2
    ensures 0x800 <= c < 0x1_0000 ==> |Three(c)| == 3
    ensures 0x1_0000 <= c < 0x11_0000 ==> |Four(c)| == 4
  {
  }

  lemma DropFront(f: seq<byte>, rest: seq<byte>)
    ensures (f + rest)[|f|..] == rest
  {
  }

  lemma {:induction false} EncodeWellFormed(u: seq<unit>)
    ensures WellFormed(Encode(u))
  {
    hide Front, SeqLen;
    if u != [] {
      var rest := Encode(u[Taken(u)..]);
      EncodeWellFormed(u[Taken(u)..]);
      if Front(u) != [] {
        FrontSeq(u, rest);
        DropFront(Front(u), rest);
      } else {
        assert [] + rest == rest;
      }
    }
  }

  /** An unpaired surrogate leaves no bytes, and everything else does. */
  lemma FrontEmpty(u: seq<unit>)
    requires u != []
    ensures Front(u) == [] <==> !PairAt(u) && (High(u[0]) || Low(u[0]))
  {
  }

  /** To UTF-8 and back: the text without its unpaired surrogates. */
  lemma {:induction false} DecodeEncode(u: seq<unit>)
    ensures WellFormed(Encode(u)) && Decode(Encode(u)) == Clean(u)
    decreases |u|
  {
    hide Front, SeqLen, Value, Units;
    EncodeWellFormed(u);
    if u != [] {
      var rest := Encode(u[Taken(u)..]);
      DecodeEncode(u[Taken(u)..]);
      FrontEmpty(u);
      if Front(u) != [] {
        FrontSeq(u, rest);
        DropFront(Front(u), rest);
        if !PairAt(u) { assert u[..1] == [u[0]]; }
      } else {
        assert [] + rest == rest;
      }
    }
  }

  /** The bytes of a well-formed sequence are what its code units turn into. */
  lemma SeqFront(b: seq<byte>, rest: seq<unit>)
    requires b != [] && 0 < SeqLen(b) <= |b| && Value(b) < 0x11_0000
    ensures |Units(Value(b))| > 0 && Front(Units(Value(b)) + rest) == b[..SeqLen(b)]
    ensures Taken(Units(Value(b)) + rest) == |Units(Value(b))|
  {
    ValueBounds(b);
    var u := Units(Value(b)) + rest;
    var n := SeqLen(b);
    if n == 1 {
      assert b[..1] == [b[0]];
    } else if n == 2 {
      assert b[..2] == [b[0], b[1]];
    } else if n == 3 {
      SeqThree(b, u);
    } else {
      SeqFour(b, rest);
    }
  }

  lemma SeqThree(b: seq<byte>, u: seq<unit>)
    requires b != [] && SeqLen(b) == 3 <= |b| && u != [] && u[0] as nat == Value(b)
    ensures Front(u) == b[..3] && Taken(u) == 1
  {
    hide SeqLen, Value;
    ValueBounds(b);
    ValueThree(b);
    ThreeParts(b[0] as nat - 0xE0, b[1] as nat - 0x80, b[2] as nat - 0x80, Value(b));
    assert b[..3] == [b[0], b[1], b[2]];
  }

  lemma ThreeParts(h: nat, m: nat, l: nat, c: nat)
    requires m < 0x40 && l < 0x40 && c == h * 0x1000 + m * 0x40 + l
    ensures c / 0x1000 == h && c / 0x40 % 0x40 == m && c % 0x40 == l
  {
    assert c / 0x40 == h * 0x40 + m;
  }

  lemma ValueThree(b: seq<byte>)
    requires b != [] && SeqLen(b) == 3 <= |b|
    ensures 0xE0 <= b[0] < 0xF0 && Cont(b[1]) && Cont(b[2])
    ensures Value(b) == (b[0] as nat - 0xE0) * 0x1000 + (b[1] as nat - 0x80) * 0x40 + (b[2] as nat - 0x80)
  {
  }

  lemma SeqFour(b: seq<byte>, rest: seq<unit>)
    requires b != [] && SeqLen(b) == 4 <= |b| && 0x1_0000 <= Value(b) < 0x11_0000
    ensures Front(Units(Value(b)) + rest) == b[..4] && Taken(Units(Value(b)) + rest) == 2
  {
    hide SeqLen, Value, Four, CodePoint, Units;
    var c := Value(b);
    FourValue(b);
    UnitsPair(c);
    var u := Units(c) + rest;
    assert u[0] == Units(c)[0] && u[1] == Units(c)[1];
    assert b[..4] == [b[0], b[1], b[2], b[3]];
  }

  lemma UnitsPair(c: nat)
    requires 0x1_0000 <= c < 0x11_0000
    ensures |Units(c)| == 2 && High(Units(c)[0]) && Low(Units(c)[1]) && CodePoint(Units(c)[0], Units(c)[1]) == c
  {
    var x := c - 0x1_0000;
    var h, l := x / 0x400, x % 0x400;
    assert x == h * 0x400 + l && h < 0x400;
    assert (0xD800 + h) % 0x400 == h && (0xDC00 + l) % 0x400 == l;
  }

  lemma FourParts(g: nat, h: nat, m: nat, l: nat, c: nat)
    requires h < 0x40 && m < 0x40 && l < 0x40 && c == g * 0x4_0000 + h * 0x1000 + m * 0x40 + l
    ensures c / 0x4_0000 == g && c / 0x1000 % 0x40 == h && c / 0x40 % 0x40 == m && c % 0x40 == l
  {
    assert c / 0x40 == g * 0x1000 + h * 0x40 + m;
    assert c / 0x1000 == g * 0x40 + h;
  }

  lemma ValueFour(b: seq<byte>)
    requires b != [] && SeqLen(b) == 4 <= |b|
    ensures 0xF0 <= b[0] < 0xF5 && Cont(b[1]) && Cont(b[2]) && Cont(b[3])
    ensures Value(b) == (b[0] as nat - 0xF0) * 0x4_0000 + (b[1] as nat - 0x80) * 0x1000 + (b[2] as nat - 0x80) * 0x40 + (b[3] as nat - 0x80)
  {
  }

  lemma FourValue(b: seq<byte>)
    requires b != [] && SeqLen(b) == 4 <= |b| && 0x1_0000 <= Value(b) < 0x11_0000
    ensures Four(Value(b)) == [b[0], b[1], b[2], b[3]]
  {
    hide SeqLen, Value;
    ValueFour(b);
    FourParts(b[0] as nat - 0xF0, b[1] as nat - 0x80, b[2] as nat - 0x80, b[3] as nat - 0x80, Value(b));
  }

  /** Well-formed UTF-8 comes back byte for byte. */
  lemma {:induction false} EncodeDecode(b: seq<byte>)
    requires WellFormed(b)
    ensures Encode(Decode(b)) == b
    decreases |b|
  {
    hide Front, SeqLen, Value, Units, Taken;
    if b != [] {
      var rest := b[SeqLen(b)..];
      ValueBounds(b);
      EncodeDecode(rest);
      SeqFront(b, Decode(rest));
      var f := Units(Value(b));
      assert (f + Decode(rest))[|f|..] == Decode(rest);
      assert b == b[..SeqLen(b)] + rest;
    }
  }

  // ---------------------------------------------------------------- order

  predicate Scalar(c: nat) {
    c < 0xD800 || 0xE000 <= c < 0x11_0000
  }

  /** The numbers of `a` come before those of `b`, as words in a dictionary. */
  predicate Before(a: seq<int>, b: seq<int>) {
    b != [] && (a == [] || a[0] < b[0] || (a[0] == b[0] && Before(a[1..], b[1..])))
  }

  function Bytes(b: seq<byte>): (r: seq<int>)
    ensures |r| == |b|
  {
    seq(|b|, i requires 0 <= i < |b| => b[i] as int)
  }

  function Numbers(u: seq<unit>): (r: seq<int>)
    ensures |r| == |u|
  {
    seq(|u|, i requires 0 <= i < |u| => u[i] as int)
  }

  /** The bytes of one code point. */
  lemma ScalarBytes(c: nat)
    requires Scalar(c)
    ensures Encode(Units(c)) == if c < 0x80 then [c as byte] else if c < 0x800 then Two(c) else if c < 0x1_0000 then Three(c) else Four(c)
  {
    hide Two, Three, Four;
    if c >= 0x1_0000 {
      UnitsPair(c);
      assert Units(c)[2..] == [];
    } else {
      assert Units(c)[1..] == [];
    }
  }

  lemma FirstDiffers(a: seq<int>, b: seq<int>, i: nat)
    requires i < |a| && i < |b| && a[i] < b[i] && forall j :: 0 <= j < i ==> a[j] == b[j]
    ensures Before(a, b)
    decreases i
  {
    if i > 0 { FirstDiffers(a[1..], b[1..], i - 1); }
  }

  lemma TwoOrder(c: nat, d: nat)
    requires 0x80 <= c < d < 0x800
    ensures Before(Bytes(Two(c)), Bytes(Two(d)))
  {
    FirstDiffers(Bytes(Two(c)), Bytes(Two(d)), if c / 0x40 < d / 0x40 then 0 else 1);
  }

  lemma ThreeOrder(c: nat, d: nat)
    requires 0x800 <= c < d < 0x1_0000
    ensures Before(Bytes(Three(c)), Bytes(Three(d)))
  {
    ThreeDigits(c);
    ThreeDigits(d);
    FirstDiffers(Bytes(Three(c)), Bytes(Three(d)),
      if c / 0x1000 < d / 0x1000 then 0 else if c / 0x40 % 0x40 < d / 0x40 % 0x40 then 1 else 2);
  }

  lemma FourOrder(c: nat, d: nat)
    requires 0x1_0000 <= c < d < 0x11_0000
    ensures Before(Bytes(Four(c)), Bytes(Four(d)))
  {
    FourDigits(c);
    FourDigits(d);
    FirstDiffers(Bytes(Four(c)), Bytes(Four(d)),
      if c / 0x4_0000 < d / 0x4_0000 then 0 else if c / 0x1000 % 0x40 < d / 0x1000 % 0x40 then 1
      else if c / 0x40 % 0x40 < d / 0x40 % 0x40 then 2 else 3);
  }

  lemma Leads(c: nat)
    ensures 0x80 <= c < 0x800 ==> Two(c) != [] && 0xC0 <= Two(c)[0] < 0xE0
    ensures 0x800 <= c < 0x1_0000 ==> Three(c) != [] && 0xE0 <= Three(c)[0] < 0xF0
    ensures 0x1_0000 <= c < 0x11_0000 ==> Four(c) != [] && 0xF0 <= Four(c)[0]
  {
  }

  lemma PairOrder(c: nat, d: nat)
    requires Scalar(c) && Scalar(d) && c < d && (c >= 0x1_0000 || d < 0x1_0000)
    ensures Before(Numbers(Units(c)), Numbers(Units(d)))
  {
    FirstDiffers(Numbers(Units(c)), Numbers(Units(d)), if c < 0x1_0000 || (c - 0x1_0000) / 0x400 < (d - 0x1_0000) / 0x400 then 0 else 1);
  }

  /** UTF-8 keeps the order of code points (section 1 of RFC 3629), and so do surrogate pairs among themselves. */
  lemma OrderKept(c: nat, d: nat)
    requires Scalar(c) && Scalar(d) && c < d
    ensures Before(Bytes(Encode(Units(c))), Bytes(Encode(Units(d))))
    ensures c >= 0x1_0000 || d < 0x1_0000 ==> Before(Numbers(Units(c)), Numbers(Units(d)))
  {
    hide Encode, Units, Two, Three, Four, Before;
    ScalarBytes(c);
    ScalarBytes(d);
    Leads(c);
    Leads(d);
    if c >= 0x1_0000 || d < 0x1_0000 { PairOrder(c, d); }
    if 0x80 <= c && d < 0x800 {
      TwoOrder(c, d);
    } else if 0x800 <= c && d < 0x1_0000 {
      ThreeOrder(c, d);
    } else if 0x1_0000 <= c {
      FourOrder(c, d);
    } else {
      FirstDiffers(Bytes(Encode(Units(c))), Bytes(Encode(Units(d))), 0);
    }
  }

  // ---------------------------------------------------------------- room

  lemma {:induction false} EncodeBound(u: seq<unit>)
    ensures |Encode(u)| <= 3 * |u|
  {
    if u != [] { EncodeBound(u[Taken(u)..]); }
  }

  /** Bytes `insert_str_utf16` reserves for `len` bytes of UTF-16, in 32-bit arithmetic. */
  function Reserved(len: u32): nat {
    (len * 3) % TWO32 / 2 + 1
  }

  /** A text of three-byte characters. */
  function Wide(n: nat): seq<unit> {
    seq(n, i => 0x800)
  }

  lemma {:induction false} WideBytes(n: nat)
    ensures |Encode(Wide(n))| == 3 * n
  {
    if n > 0 {
      assert Wide(n)[1..] == Wide(n - 1);
      WideBytes(n - 1);
    }
  }

  /** The reserve is enough for every text exactly as long as the product does not wrap. */
  lemma ReserveExact(len: u32)
    ensures (forall u: seq<unit> :: |u| == len / 2 ==> |Encode(u)| <= Reserved(len)) <==> len * 3 < TWO32
  {
    hide Encode;
    if len * 3 < TWO32 {
      forall u: seq<unit> | |u| == len / 2 ensures |Encode(u)| <= Reserved(len) { EncodeBound(u); }
    } else {
      WideBytes(len / 2);
      assert |Wide(len / 2)| == len / 2;
    }
  }

  // ---------------------------------------------------------------- the loops

  method Put(dst: array<byte>, k: nat, b: seq<byte>)
    requires k + |b| <= dst.Length
    modifies dst
    ensures dst[..k + |b|] == old(dst[..k]) + b
  {
    for j := 0 to |b|
      invariant dst[..k + j] == old(dst[..k]) + b[..j]
    {
      dst[k + j] := b[j];
      assert dst[..k + j + 1] == dst[..k + j] + [b[j]];
    }
    assert b[..|b|] == b;
  }

  /** `k` bytes are out and the units from `i` on are left. */
  ghost predicate Under(dst: seq<byte>, src: seq<unit>, i: nat) {
    i <= |src| && dst + Encode(src[i..]) == Encode(src)
  }

  lemma UnderRoom(dst: seq<byte>, src: seq<unit>, i: nat)
    requires Under(dst, src, i) && i < |src|
    ensures |dst| + |Front(src[i..])| <= |Encode(src)|
    ensures Under(dst + Front(src[i..]), src, i + Taken(src[i..]))
  {
    hide Front;
    var u := src[i..];
    assert u[Taken(u)..] == src[i + Taken(u)..];
    assert dst + (Front(u) + Encode(u[Taken(u)..])) == (dst + Front(u)) + Encode(u[Taken(u)..]);
  }

  /** `utf16_to_utf8_sw` into a buffer with room for the result. */
  method ToUtf8(src: seq<unit>, dst: array<byte>) returns (n: nat)
    requires |Encode(src)| <= dst.Length
    modifies dst
    ensures n == |Encode(src)| && dst[..n] == Encode(src)
  {
    hide Encode, Two, Three, Four, CodePoint, Under;
    n := 0;
    var i := 0;
    UnderStart(src);
    assert dst[..0] == [];
    while i < |src|
      invariant n <= dst.Length && i <= |src| && Under(dst[..n], src, i)
      decreases |src| - i
    {
      ghost var was := dst[..n];
      UnderRoom(was, src, i);
      var c := src[i] as nat;
      if c < 0x80 {
        Put(dst, n, [c as byte]);
        n, i := n + 1, i + 1;
        while i < |src| && src[i] < 0x80
          invariant n <= dst.Length && i <= |src| && Under(dst[..n], src, i)
        {
          UnderRoom(dst[..n], src, i);
          Put(dst, n, [src[i] as byte]);
          n, i := n + 1, i + 1;
        }
      } else if c < 0x800 {
        Lengths(c);
        Put(dst, n, Two(c));
        n, i := n + 2, i + 1;
      } else if 0xD800 <= c <= 0xDFFF {
        i := i + 1;
        if c < 0xDC00 && i < |src| && 0xDC00 <= src[i] <= 0xDFFF {
          PairUnits(src[i - 1], src[i]);
          Lengths(CodePoint(src[i - 1], src[i]));
          Put(dst, n, Four(CodePoint(src[i - 1], src[i])));
          n, i := n + 4, i + 1;
        } else {
          assert was + [] == was;
        }
      } else {
        Lengths(c);
        Put(dst, n, Three(c));
        n, i := n + 3, i + 1;
      }
    }
    UnderEnd(dst[..n], src, i);
  }

  lemma UnderStart(src: seq<unit>)
    ensures Under([], src, 0)
  {
    assert src[0..] == src && [] + Encode(src) == Encode(src);
  }

  lemma UnderEnd(dst: seq<byte>, src: seq<unit>, i: nat)
    requires Under(dst, src, i) && i >= |src|
    ensures dst == Encode(src)
  {
    assert src[i..] == [] && dst + [] == dst;
  }

  // ---------------------------------------------------------------- the decoder on any bytes

  /** Bytes the decoder takes, by the first alone. */
  function Lead(b: byte): nat {
    if b < 0x80 then 1 else if 0xC0 <= b < 0xE0 then 2 else if 0xE0 <= b < 0xF0 then 3 else 4
  }

  /** The decoder never reads past the end. */
  predicate Fits(b: seq<byte>) {
    b == [] || (Lead(b[0]) <= |b| && Fits(b[Lead(b[0])..]))
  }

  /** What it makes of the front, well formed or not; the subtraction and the casts are modular. */
  function RawUnits(b: seq<byte>): seq<unit>
    requires b != [] && Lead(b[0]) <= |b|
  {
    match Lead(b[0])
    case 1 => [b[0] as unit]
    case 2 => [((b[0] as nat % 0x20) * 0x40 + b[1] as nat % 0x40) as unit]
    case 3 => [((b[0] as nat % 0x10) * 0x1000 + (b[1] as nat % 0x40) * 0x40 + b[2] as nat % 0x40) as unit]
    case _ =>
      var cp := (b[0] as nat % 8) * 0x4_0000 + (b[1] as nat % 0x40) * 0x1000 + (b[2] as nat % 0x40) * 0x40 + b[3] as nat % 0x40;
      var x := U32(cp - 0x1_0000);
      [((x / 0x400 + 0xD800) % 0x1_0000) as unit, (x % 0x400 + 0xDC00) as unit]
  }

  function RawDecode(b: seq<byte>): seq<unit>
    requires Fits(b)
  {
    if b == [] then [] else RawUnits(b) + RawDecode(b[Lead(b[0])..])
  }

  lemma RawFront(b: seq<byte>)
    requires b != [] && SeqLen(b) > 0
    ensures Lead(b[0]) == SeqLen(b) <= |b| && Value(b) < 0x11_0000 && RawUnits(b) == Units(Value(b))
  {
    ValueBounds(b);
    if SeqLen(b) == 4 {
      var x := Value(b) - 0x1_0000;
      assert U32(x) == x && x / 0x400 < 0x400;
    }
  }

  /** On well-formed bytes it is the decoding. */
  lemma {:induction false} RawIsDecode(b: seq<byte>)
    requires WellFormed(b)
    ensures Fits(b) && RawDecode(b) == Decode(b)
  {
    hide SeqLen, Value, Units, RawUnits, Lead;
    if b != [] {
      RawFront(b);
      RawIsDecode(b[SeqLen(b)..]);
    }
  }

  /** `k` units are out and the bytes from `i` on are left. */
  ghost predicate Back(dst: seq<unit>, src: seq<byte>, i: nat) {
    && Fits(src)
    && i <= |src| && Fits(src[i..]) && dst + RawDecode(src[i..]) == RawDecode(src)
  }

  lemma BackStep(dst: seq<unit>, src: seq<byte>, i: nat)
    requires Fits(src) && Back(dst, src, i) && i < |src|
    ensures var b := src[i..];
      && i + Lead(b[0]) <= |src|
      && |dst| + |RawUnits(b)| <= |RawDecode(src)| && Back(dst + RawUnits(b), src, i + Lead(b[0]))
  {
    hide RawUnits, Lead;
    var b := src[i..];
    assert b[Lead(b[0])..] == src[i + Lead(b[0])..];
    var f, rest := RawUnits(b), RawDecode(b[Lead(b[0])..]);
    assert dst + (f + rest) == (dst + f) + rest;
  }

  method PutUnits(dst: array<unit>, k: nat, u: seq<unit>)
    requires k + |u| <= dst.Length
    modifies dst
    ensures dst[..k + |u|] == old(dst[..k]) + u
  {
    for j := 0 to |u|
      invariant dst[..k + j] == old(dst[..k]) + u[..j]
    {
      dst[k + j] := u[j];
      assert dst[..k + j + 1] == dst[..k + j] + [u[j]];
    }
    assert u[..|u|] == u;
  }

  /** `utf8_to_utf16_sw` of any bytes it does not read past, into a buffer with room for the result. */
  method ToUtf16(src: seq<byte>, dst: array<unit>) returns (n: nat)
    requires Fits(src) && |RawDecode(src)| <= dst.Length
    modifies dst
    ensures n == |RawDecode(src)| && dst[..n] == RawDecode(src)
  {
    hide Fits, RawDecode, Back, U32;
    n := 0;
    var i := 0;
    BackStart(src);
    assert dst[..0] == [];
    while i < |src|
      invariant n <= dst.Length && i <= |src| && Back(dst[..n], src, i)
      decreases |src| - i
    {
      BackStep(dst[..n], src, i);
      var c := src[i];
      if c < 0x80 {
        PutUnits(dst, n, [c as unit]);
        n, i := n + 1, i + 1;
        while i < |src| && src[i] < 0x80
          invariant n <= dst.Length && i <= |src| && Back(dst[..n], src, i)
        {
          BackStep(dst[..n], src, i);
          PutUnits(dst, n, [src[i] as unit]);
          n, i := n + 1, i + 1;
        }
      } else if 0xC0 <= c < 0xE0 {
        PutUnits(dst, n, [((c as nat % 0x20) * 0x40 + src[i + 1] as nat % 0x40) as unit]);
        n, i := n + 1, i + 2;
      } else if 0xE0 <= c < 0xF0 {
        PutUnits(dst, n, [((c as nat % 0x10) * 0x1000 + (src[i + 1] as nat % 0x40) * 0x40 + src[i + 2] as nat % 0x40) as unit]);
        n, i := n + 1, i + 3;
      } else {
        var cp := (c as nat % 8) * 0x4_0000 + (src[i + 1] as nat % 0x40) * 0x1000 + (src[i + 2] as nat % 0x40) * 0x40 + src[i + 3] as nat % 0x40;
        var x := U32(cp - 0x1_0000);
        PutUnits(dst, n, [((x / 0x400 + 0xD800) % 0x1_0000) as unit, (x % 0x400 + 0xDC00) as unit]);
        n, i := n + 2, i + 4;
      }
    }
    BackEnd(dst[..n], src, i);
  }

  lemma BackStart(src: seq<byte>)
    requires Fits(src)
    ensures Back([], src, 0)
  {
    assert src[0..] == src && [] + RawDecode(src) == RawDecode(src);
  }

  lemma BackEnd(dst: seq<unit>, src: seq<byte>, i: nat)
    requires Fits(src) && Back(dst, src, i) && i >= |src|
    ensures dst == RawDecode(src)
  {
    assert src[i..] == [] && dst + [] == dst;
  }
}
