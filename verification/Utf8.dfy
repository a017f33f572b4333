/**
 UTF-8 (RFC 3629): well-formed byte sequences, and decoding that replaces what is ill-formed.
 */
module Utf8 {

  type Byte = b: nat | b < 256

  predicate IsContinuation(b: Byte) {
    0x80 <= b <= 0xBF
  }

  /** The length a first byte announces, or 0 for a byte no character starts with. */
  function LeadLength(b: Byte): (n: nat)
    ensures n <= 4
  {
    if b < 0x80 then 1
    else if 0xC2 <= b <= 0xDF then 2
    else if 0xE0 <= b <= 0xEF then 3
    else if 0xF0 <= b <= 0xF4 then 4
    else 0
  }

  /** The second byte excludes overlong forms, surrogates and numbers beyond the last character. */
  predicate SecondFits(lead: Byte, b: Byte) {
    && IsContinuation(b)
    && (lead == 0xE0 ==> 0xA0 <= b) && (lead == 0xED ==> b <= 0x9F)
    && (lead == 0xF0 ==> 0x90 <= b) && (lead == 0xF4 ==> b <= 0x8F)
  }

  /** The length of the character at the front, or 0 if there is no well-formed one. */
  function CharLength(s: seq<Byte>): (n: nat)
    ensures n <= |s|
  {
    if s == [] then 0
    else
      var n := LeadLength(s[0]);
      if n == 1 then 1
      else if n == 0 || |s| < n || !SecondFits(s[0], s[1]) then 0
      else if n >= 3 && !IsContinuation(s[2]) then 0
      else if n == 4 && !IsContinuation(s[3]) then 0
      else n
  }

  predicate Valid(s: seq<Byte>) {
    s == [] || (CharLength(s) > 0 && Valid(s[CharLength(s)..]))
  }

  /** A Python string, as its UTF-8 bytes. */
  type Text = s: seq<Byte> | Valid(s)

  const REPLACEMENT: seq<Byte> := [0xEF, 0xBF, 0xBD]

  /** How many bytes at the front one replacement character stands for: the longest beginning of a character. */
  function BrokenLength(s: seq<Byte>): (n: nat)
    requires s != [] && CharLength(s) == 0
    ensures 0 < n <= |s|
  {
    var n := LeadLength(s[0]);
    if n <= 2 || |s| < 2 || !SecondFits(s[0], s[1]) then 1
    else if n == 3 || |s| < 3 || !IsContinuation(s[2]) then 2
    else 3
  }

  /** How much of the front is read at once, and what is made of it. */
  function Consumed(s: seq<Byte>): (n: nat)
    requires s != []
    ensures 0 < n <= |s|
  {
    if CharLength(s) > 0 then CharLength(s) else BrokenLength(s)
  }

  function Emitted(s: seq<Byte>): seq<Byte>
    requires s != []
  {
    if CharLength(s) > 0 then s[..CharLength(s)] else REPLACEMENT
  }

  /** `decode("utf-8", "replace")`. */
  function Repair(s: seq<Byte>): seq<Byte>
    decreases |s|
  {
    if s == [] then [] else Emitted(s) + Repair(s[Consumed(s)..])
  }

  lemma CharStands(c: seq<Byte>, rest: seq<Byte>)
    requires c != [] && CharLength(c) == |c|
    ensures CharLength(c + rest) == |c|
  {
  }

  lemma PrependChar(c: seq<Byte>, rest: seq<Byte>)
    requires c != [] && CharLength(c) == |c|
    ensures Valid(c + rest) <==> Valid(rest)
    ensures Repair(c + rest) == c + Repair(rest)
  {
    CharStands(c, rest);
    assert (c + rest)[|c|..] == rest && (c + rest)[..|c|] == c;
  }

  lemma FrontIsChar(s: seq<Byte>)
    requires CharLength(s) > 0
    ensures CharLength(s[..CharLength(s)]) == CharLength(s)
  {
  }

  /** Well-formed text is left alone. */
  lemma {:induction false} RepairKeepsValid(s: seq<Byte>)
    requires Valid(s)
    ensures Repair(s) == s
    decreases |s|
  {
    if s == [] {
    } else {
      RepairKeepsValid(s[CharLength(s)..]);
    }
  }

  /** And whatever comes in, well-formed text comes out. */
  lemma {:induction false} RepairIsValid(s: seq<Byte>)
    ensures Valid(Repair(s))
    decreases |s|
  {
    if s == [] {
    } else if CharLength(s) > 0 {
      RepairIsValid(s[CharLength(s)..]);
      FrontIsChar(s);
      PrependChar(s[..CharLength(s)], Repair(s[CharLength(s)..]));
    } else {
      RepairIsValid(s[BrokenLength(s)..]);
      PrependChar(REPLACEMENT, Repair(s[BrokenLength(s)..]));
    }
  }

  lemma {:induction false} AsciiIsValid(s: seq<Byte>)
    requires forall i :: 0 <= i < |s| ==> s[i] < 0x80
    ensures Valid(s)
  {
    if s == [] {
    } else {
      AsciiIsValid(s[1..]);
    }
  }

  /** A broken beginning in front of a character is the same as at the end. */
  lemma SameFront(a: seq<Byte>, rest: seq<Byte>)
    requires a != [] && rest != [] && !IsContinuation(rest[0])
    ensures CharLength(a + rest) == CharLength(a)
    ensures CharLength(a) == 0 ==> BrokenLength(a + rest) == BrokenLength(a)
  {
    var s := a + rest;
    assert s[0] == a[0];
    assert forall i :: 0 <= i < |a| ==> s[i] == a[i];
    assert s[|a|] == rest[0];
  }

  lemma SameUnit(a: seq<Byte>, rest: seq<Byte>)
    requires a != [] && rest != [] && !IsContinuation(rest[0])
    ensures Consumed(a + rest) == Consumed(a) && Emitted(a + rest) == Emitted(a)
  {
    hide CharLength, BrokenLength;
    SameFront(a, rest);
    assert CharLength(a) > 0 ==> (a + rest)[..CharLength(a)] == a[..CharLength(a)];
  }

  lemma SameRest(a: seq<Byte>, rest: seq<Byte>, n: nat)
    requires n <= |a|
    ensures (a + rest)[n..] == a[n..] + rest
  {
  }

  /** Repairing can be done piece by piece before every byte that may begin a character. */
  lemma {:induction false} RepairSplits(a: seq<Byte>, rest: seq<Byte>)
    requires rest != [] && !IsContinuation(rest[0])
    ensures Repair(a + rest) == Repair(a) + Repair(rest)
    decreases |a|
  {
    hide CharLength, Consumed, Emitted, IsContinuation;
    if a == [] {
      assert a + rest == rest;
    } else {
      SameUnit(a, rest);
      RepairSplits(a[Consumed(a)..], rest);
      SameRest(a, rest, Consumed(a));
      assert Repair(a + rest) == Emitted(a) + (Repair(a[Consumed(a)..]) + Repair(rest));
    }
  }

  // ---- What well-formed means ------------------------------------------------------------------

  /** A Unicode scalar value: any number of a character but the surrogates. */
  type Scalar = v: nat | v < 0xD800 || 0xE000 <= v < 0x11_0000

  /** The table of section 3 of RFC 3629. */
  function Encoded(v: Scalar): seq<Byte> {
    if v < 0x80 then [v]
    else if v < 0x800 then [0xC0 + v / 0x40, 0x80 + v % 0x40]
    else if v < 0x1_0000 then [0xE0 + v / 0x1000, 0x80 + v / 0x40 % 0x40, 0x80 + v % 0x40]
    else [0xF0 + v / 0x4_0000, 0x80 + v / 0x1000 % 0x40, 0x80 + v / 0x40 % 0x40, 0x80 + v % 0x40]
  }

  function EncodedAll(values: seq<Scalar>): seq<Byte> {
    if values == [] then [] else Encoded(values[0]) + EncodedAll(values[1..])
  }

  lemma EncodedIsChar(v: Scalar)
    ensures Encoded(v) != [] && CharLength(Encoded(v)) == |Encoded(v)|
  {
  }

  /** The three places of a number in base 64, the first one open. */
  lemma Places(high: nat, middle: nat, low: nat)
    requires middle < 0x40 && low < 0x40
    ensures var v := high * 0x1000 + middle * 0x40 + low;
      v / 0x1000 == high && v / 0x40 == high * 0x40 + middle && v / 0x40 % 0x40 == middle && v % 0x40 == low
  {
  }

  lemma FourEncode(lead: nat, first: nat, middle: nat, low: nat) returns (v: Scalar)
    requires lead < 5 && first < 0x40 && middle < 0x40 && low < 0x40 && 0x10 <= lead * 0x40 + first < 0x110
    ensures Encoded(v) == [0xF0 + lead, 0x80 + first, 0x80 + middle, 0x80 + low]
  {
    v := (lead * 0x40 + first) * 0x1000 + middle * 0x40 + low;
    Places(lead * 0x40 + first, middle, low);
    assert v / 0x4_0000 == lead;
  }

  lemma ThreeEncode(lead: nat, middle: nat, low: nat) returns (v: Scalar)
    requires lead < 0x10 && middle < 0x40 && low < 0x40
    requires (lead == 0 ==> middle >= 0x20) && (lead == 0xD ==> middle < 0x20)
    ensures Encoded(v) == [0xE0 + lead, 0x80 + middle, 0x80 + low]
  {
    v := lead * 0x1000 + middle * 0x40 + low;
    Places(lead, middle, low);
  }

  lemma TwoEncode(lead: nat, low: nat) returns (v: Scalar)
    requires 2 <= lead < 0x20 && low < 0x40
    ensures Encoded(v) == [0xC0 + lead, 0x80 + low]
  {
    v := lead * 0x40 + low;
  }

  lemma CharEncodes(c: seq<Byte>) returns (v: Scalar)
    requires c != [] && CharLength(c) == |c|
    ensures Encoded(v) == c
  {
    hide Encoded;
    if |c| == 1 {
      v := OneEncodes(c);
    } else if |c| == 2 {
      v := TwoEncode(c[0] - 0xC0, c[1] - 0x80);
      assert c == [c[0], c[1]];
    } else if |c| == 3 {
      v := ThreeEncode(c[0] - 0xE0, c[1] - 0x80, c[2] - 0x80);
      assert c == [c[0], c[1], c[2]];
    } else {
      assert LeadLength(c[0]) == 4;
      v := FourEncode(c[0] - 0xF0, c[1] - 0x80, c[2] - 0x80, c[3] - 0x80);
      assert c == [c[0], c[1], c[2], c[3]];
    }
  }

  lemma OneEncodes(c: seq<Byte>) returns (v: Scalar)
    requires |c| == 1 && CharLength(c) == 1
    ensures Encoded(v) == c
  {
    v := c[0];
  }

  /** Well-formed byte sequences are exactly the encodings of sequences of scalar values. */
  lemma {:induction false} ValidIffEncodes(s: seq<Byte>)
    ensures Valid(s) <==> exists values :: EncodedAll(values) == s
  {
    if Valid(s) {
      var values := ValidEncodes(s);
    }
    if values :| EncodedAll(values) == s {
      EncodedAllIsValid(values);
    }
  }

  lemma {:induction false} ValidEncodes(s: seq<Byte>) returns (values: seq<Scalar>)
    requires Valid(s)
    ensures EncodedAll(values) == s
    decreases |s|
  {
    hide CharLength, Encoded;
    if s == [] {
      values := [];
    } else {
      var n := CharLength(s);
      FrontIsChar(s);
      var v := CharEncodes(s[..n]);
      var rest := ValidEncodes(s[n..]);
      values := [v] + rest;
      assert s == s[..n] + s[n..];
    }
  }

  lemma {:induction false} EncodedAllIsValid(values: seq<Scalar>)
    ensures Valid(EncodedAll(values))
  {
    hide CharLength, Encoded;
    if values == [] {
    } else {
      EncodedAllIsValid(values[1..]);
      EncodedIsChar(values[0]);
      PrependChar(Encoded(values[0]), EncodedAll(values[1..]));
    }
  }

  /** The bytes are the beginning of the encoding of some scalar value. */
  ghost predicate Begins(p: seq<Byte>) {
    exists v: Scalar :: p <= Encoded(v)
  }

  lemma BeginningFits(p: seq<Byte>)
    requires |p| >= 2 && Begins(p)
    ensures |p| <= LeadLength(p[0]) && SecondFits(p[0], p[1])
    ensures forall i :: 2 <= i < |p| ==> IsContinuation(p[i])
  {
    var v: Scalar :| p <= Encoded(v);
    EncodedIsChar(v);
  }

  lemma FittingBegins(p: seq<Byte>)
    requires 2 <= |p| <= LeadLength(p[0]) && SecondFits(p[0], p[1])
    requires forall i :: 2 <= i < |p| ==> IsContinuation(p[i])
    ensures Begins(p)
  {
    var n := LeadLength(p[0]);
    var c := p + seq(n - |p|, _ => 0x80);
    assert |c| == n && c[0] == p[0] && c[1] == p[1];
    var v := CharEncodes(c);
    assert p <= Encoded(v);
  }

  /** One replacement character stands for the longest beginning of a character that is there, or for one byte. */
  lemma BrokenIsTheLongestBeginning(s: seq<Byte>)
    requires s != [] && CharLength(s) == 0
    ensures BrokenLength(s) == 1 || Begins(s[..BrokenLength(s)])
    ensures forall m :: BrokenLength(s) < m <= |s| ==> !Begins(s[..m])
  {
    var n := BrokenLength(s);
    if n > 1 {
      FittingBegins(s[..n]);
    }
    forall m | n < m <= |s|
      ensures !Begins(s[..m])
    {
      assert forall i :: 0 <= i < m ==> s[..m][i] == s[i];
      if Begins(s[..m]) {
        BeginningFits(s[..m]);
      }
    }
  }
}
