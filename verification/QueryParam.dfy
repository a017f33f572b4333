/**
 The compound query parameter: JSON text, percent-encoded (section 2.1 of RFC 3986), then Base64 (section 4 of
 RFC 4648) with the padding left off.  Text is its UTF-8 bytes; parsing JSON is a parameter.
 */
module QueryParam {
  import opened Common
  import opened Utf8

  type Sextet = d: nat | d < 64

  // ---- Percent-encoding ------------------------------------------------------------------------

  const PERCENT: Byte := 0x25

  /** Letters, digits, `_.-~` and the slash stay as they are. */
  predicate IsSafe(b: Byte) {
    0x41 <= b <= 0x5A || 0x61 <= b <= 0x7A || 0x30 <= b <= 0x39 || b == 0x5F || b == 0x2E || b == 0x2D || b == 0x7E
        || b == 0x2F
  }

  function HexDigit(n: nat): Byte
    requires n < 16
  {
    if n < 10 then 0x30 + n else 0x41 + (n - 10)
  }

  /** Both cases are read. */
  function HexValue(b: Byte): Option<nat> {
    if 0x30 <= b <= 0x39 then Some(b - 0x30)
    else if 0x41 <= b <= 0x46 then Some(b - 0x41 + 10)
    else if 0x61 <= b <= 0x66 then Some(b - 0x61 + 10)
    else None
  }

  function Quote(text: seq<Byte>): seq<Byte> {
    if text == [] then []
    else if IsSafe(text[0]) then [text[0]] + Quote(text[1..])
    else [PERCENT, HexDigit(text[0] / 16), HexDigit(text[0] % 16)] + Quote(text[1..])
  }

  predicate StartsEscape(text: seq<Byte>) {
    |text| >= 3 && text[0] == PERCENT && HexValue(text[1]).Some? && HexValue(text[2]).Some?
  }

  function EscapedByte(text: seq<Byte>): Byte
    requires StartsEscape(text)
  {
    16 * HexValue(text[1]).value + HexValue(text[2]).value
  }

  /** A percent sign that starts no escape stays. */
  function Unquote(text: seq<Byte>): seq<Byte> {
    if text == [] then []
    else if StartsEscape(text) then [EscapedByte(text)] + Unquote(text[3..])
    else [text[0]] + Unquote(text[1..])
  }

  lemma HexReadsBack(n: nat)
    requires n < 16
    ensures HexValue(HexDigit(n)) == Some(n)
  {
  }

  /** Escapes are read in either case, and from nothing else. */
  lemma HexIsReadInBothCases(b: Byte, n: nat)
    requires n < 16
    ensures HexValue(b) == Some(n) <==> b == HEX[n] as int || (n >= 10 && b == HEX[n] as int + 0x20)
  {
    if n < 10 {
      DigitAt(n);
    }
  }

  lemma {:induction false} UnquoteInvertsQuote(text: seq<Byte>)
    ensures Unquote(Quote(text)) == text
  {
    if text == [] {
    } else {
      UnquoteInvertsQuote(text[1..]);
      var rest := Quote(text[1..]);
      if IsSafe(text[0]) {
        assert Quote(text)[1..] == rest;
      } else {
        HexReadsBack(text[0] / 16);
        HexReadsBack(text[0] % 16);
        assert Quote(text)[3..] == rest;
      }
    }
  }

  /** The output of Quote is plain ASCII, so decoding it as UTF-8 changes nothing. */
  lemma {:induction false} QuoteIsAscii(text: seq<Byte>)
    ensures forall i :: 0 <= i < |Quote(text)| ==> Quote(text)[i] < 128
  {
    if text == [] {
    } else {
      QuoteIsAscii(text[1..]);
    }
  }

  const UPPER: string := "ABCDEFGHIJKLMNOPQRSTUVWXYZ"
  const LOWER: string := "abcdefghijklmnopqrstuvwxyz"
  const DIGITS: string := "0123456789"
  const UNRESERVED: string := UPPER + LOWER + DIGITS + "-._~"
  const HEX: string := DIGITS + "ABCDEF"

  lemma UpperAt(i: nat)
    requires i < 26
    ensures UPPER[i] as int == 'A' as int + i
  {
  }

  lemma LowerAt(i: nat)
    requires i < 26
    ensures LOWER[i] as int == 'a' as int + i
  {
  }

  lemma DigitAt(i: nat)
    requires i < 10
    ensures DIGITS[i] as int == '0' as int + i
  {
  }

  lemma IsUpper(c: char)
    ensures c in UPPER <==> 'A' <= c <= 'Z'
  {
    if 'A' <= c <= 'Z' {
      UpperAt(c as int - 'A' as int);
    }
  }

  lemma IsLower(c: char)
    ensures c in LOWER <==> 'a' <= c <= 'z'
  {
    if 'a' <= c <= 'z' {
      LowerAt(c as int - 'a' as int);
    }
  }

  lemma IsDigit(c: char)
    ensures c in DIGITS <==> '0' <= c <= '9'
  {
    if '0' <= c <= '9' {
      DigitAt(c as int - '0' as int);
    }
  }

  /** The unreserved characters of section 2.3 of RFC 3986 and the slash stay; every other byte becomes a percent sign
      and its two upper-case digits. */
  lemma QuotesByTheTable(b: Byte)
    ensures Quote([b]) ==
      if b as char in UNRESERVED || b == '/' as int then [b] else [PERCENT, HEX[b / 16] as int, HEX[b % 16] as int]
  {
    IsUpper(b as char);
    IsLower(b as char);
    IsDigit(b as char);
    assert b as char in UNRESERVED <==>
        b as char in UPPER || b as char in LOWER || b as char in DIGITS || b as char in "-._~";
    assert [b][1..] == [];
    assert forall n: nat :: n < 16 ==> HexDigit(n) == HEX[n] as int;
  }

  // ---- Base64 ----------------------------------------------------------------------------------

  const PAD: char := '='

  function Letter(d: Sextet): char {
    if d < 26 then 'A' + d as char
    else if d < 52 then 'a' + (d - 26) as char
    else if d < 62 then '0' + (d - 52) as char
    else if d == 62 then '+' else '/'
  }

  function Value(c: char): Option<Sextet> {
    if 'A' <= c <= 'Z' then Some((c - 'A') as nat)
    else if 'a' <= c <= 'z' then Some((c - 'a') as nat + 26)
    else if '0' <= c <= '9' then Some((c - '0') as nat + 52)
    else if c == '+' then Some(62)
    else if c == '/' then Some(63)
    else None
  }

  predicate IsLetter(c: char) {
    Value(c).Some?
  }

  /** The last group of an input that leaves one byte over, or two. */
  function OneByte(b0: Byte): (s: string)
    ensures |s| == 4
  {
    [Letter(b0 / 4), Letter(b0 % 4 * 16), PAD, PAD]
  }

  function TwoBytes(b0: Byte, b1: Byte): (s: string)
    ensures |s| == 4
  {
    [Letter(b0 / 4), Letter(b0 % 4 * 16 + b1 / 16), Letter(b1 % 16 * 4), PAD]
  }

  function ThreeBytes(b0: Byte, b1: Byte, b2: Byte): (s: string)
    ensures |s| == 4
  {
    [Letter(b0 / 4), Letter(b0 % 4 * 16 + b1 / 16), Letter(b1 % 16 * 4 + b2 / 64), Letter(b2 % 64)]
  }

  function Encode(data: seq<Byte>): string
    decreases |data|
  {
    if data == [] then ""
    else if |data| == 1 then OneByte(data[0])
    else if |data| == 2 then TwoBytes(data[0], data[1])
    else ThreeBytes(data[0], data[1], data[2]) + Encode(data[3..])
  }

  function First(s: string): Byte
    requires |s| >= 2 && IsLetter(s[0]) && IsLetter(s[1])
  {
    Value(s[0]).value * 4 + Value(s[1]).value / 16
  }

  function Second(s: string): Byte
    requires |s| >= 3 && IsLetter(s[1]) && IsLetter(s[2])
  {
    Value(s[1]).value % 16 * 16 + Value(s[2]).value / 4
  }

  function Third(s: string): Byte
    requires |s| >= 4 && IsLetter(s[2]) && IsLetter(s[3])
  {
    Value(s[2]).value % 4 * 64 + Value(s[3]).value
  }

  /** Strict decoding: groups of four, padding only at the very end; unused trailing bits are ignored. */
  function Decode(s: string): Option<seq<Byte>>
    decreases |s|
  {
    if s == "" then Some([])
    else if |s| < 4 || !IsLetter(s[0]) || !IsLetter(s[1]) then None
    else if s[2..] == [PAD, PAD] then Some([First(s)])
    else if !IsLetter(s[2]) then None
    else if s[3..] == [PAD] then Some([First(s), Second(s)])
    else if !IsLetter(s[3]) then None
    else
      var rest := Decode(s[4..]);
      if rest.None? then None else Some([First(s), Second(s), Third(s)] + rest.value)
  }

  const BASE64: string := UPPER + LOWER + DIGITS + "+/"

  /** The alphabet of section 4 of RFC 4648. */
  lemma LettersAreTheAlphabet(d: Sextet)
    ensures Letter(d) == BASE64[d]
  {
    if d < 26 {
      UpperAt(d);
    } else if d < 52 {
      assert BASE64[d] == LOWER[d - 26];
      LowerAt(d - 26);
    } else if d < 62 {
      assert BASE64[d] == DIGITS[d - 52];
      DigitAt(d - 52);
    }
  }

  lemma OnlyLettersHaveValues(c: char)
    ensures IsLetter(c) <==> c in BASE64
  {
    IsUpper(c);
    IsLower(c);
    IsDigit(c);
    assert c in BASE64 <==> c in UPPER || c in LOWER || c in DIGITS || c in "+/";
  }

  lemma LetterReadsBack(d: Sextet)
    ensures Value(Letter(d)) == Some(d) && Letter(d) != PAD
  {
  }

  lemma GroupReadsBack(b0: Byte, b1: Byte, b2: Byte, s: string)
    requires |s| >= 4 && s[..4] == ThreeBytes(b0, b1, b2)
    ensures forall i :: 0 <= i < 4 ==> IsLetter(s[i])
    ensures First(s) == b0 && Second(s) == b1 && Third(s) == b2
  {
    hide Letter, Value;
    assert s[0] == s[..4][0] && s[1] == s[..4][1] && s[2] == s[..4][2] && s[3] == s[..4][3];
    LetterReadsBack(b0 / 4);
    LetterReadsBack(b0 % 4 * 16 + b1 / 16);
    LetterReadsBack(b1 % 16 * 4 + b2 / 64);
    LetterReadsBack(b2 % 64);
  }

  lemma LastByteReadsBack(b0: Byte)
    ensures Decode(OneByte(b0)) == Some([b0]) && IsPadded(OneByte(b0), 2)
  {
    hide Letter, Value;
    LetterReadsBack(b0 / 4);
    LetterReadsBack(b0 % 4 * 16);
    assert OneByte(b0)[2..] == [PAD, PAD];
  }

  lemma LastTwoReadBack(b0: Byte, b1: Byte)
    ensures Decode(TwoBytes(b0, b1)) == Some([b0, b1]) && IsPadded(TwoBytes(b0, b1), 1)
  {
    hide Letter, Value;
    LetterReadsBack(b0 / 4);
    LetterReadsBack(b0 % 4 * 16 + b1 / 16);
    LetterReadsBack(b1 % 16 * 4);
    assert TwoBytes(b0, b1)[2..][0] != PAD && TwoBytes(b0, b1)[3..] == [PAD];
  }

  lemma DecodeOfGroup(b0: Byte, b1: Byte, b2: Byte, rest: string)
    requires Decode(rest).Some?
    ensures Decode(ThreeBytes(b0, b1, b2) + rest) == Some([b0, b1, b2] + Decode(rest).value)
  {
    hide Letter, Value;
    var s := ThreeBytes(b0, b1, b2) + rest;
    GroupReadsBack(b0, b1, b2, s);
    assert s[4..] == rest && IsLetter(s[2..][0]) && IsLetter(s[3..][0]) && !IsLetter(PAD) by {
      assert Value(PAD).None? by { PadIsNoLetter(); }
    }
  }

  lemma PadIsNoLetter()
    ensures !IsLetter(PAD)
  {
  }

  lemma {:induction false} DecodeInvertsEncode(data: seq<Byte>)
    ensures Decode(Encode(data)) == Some(data)
    decreases |data|
  {
    hide Decode, OneByte, TwoBytes, ThreeBytes;
    if data == [] {
      EmptyDecodes();
    } else if |data| == 1 {
      LastByteReadsBack(data[0]);
      assert data == [data[0]];
    } else if |data| == 2 {
      LastTwoReadBack(data[0], data[1]);
      assert data == [data[0], data[1]];
    } else {
      DecodeInvertsEncode(data[3..]);
      DecodeOfGroup(data[0], data[1], data[2], Encode(data[3..]));
      assert data == [data[0], data[1], data[2]] + data[3..];
    }
  }

  lemma EmptyDecodes()
    ensures Decode("") == Some([])
  {
  }

  function Pads(k: nat): string {
    seq(k, _ => PAD)
  }

  /** Strict decoding accepts exactly letters in a multiple of four with at most two trailing padding characters. */
  lemma {:induction false} DecodeAcceptsExactly(s: string)
    ensures Decode(s).Some? <==> exists k: nat :: IsPadded(s, k)
    decreases |s|
  {
    if s == "" {
      assert IsPadded(s, 0);
    } else if |s| < 4 {
    } else if |s| == 4 {
      OneGroup(s);
    } else {
      DecodeAcceptsExactly(s[4..]);
      forall k: nat
        ensures IsPadded(s, k) <==> IsPadded(s[4..], k) && forall i :: 0 <= i < 4 ==> IsLetter(s[i])
      {
        MoreGroups(s, k);
      }
    }
  }

  predicate IsPadded(s: string, k: nat) {
    && |s| % 4 == 0 && k <= 2 && k <= |s|
    && (forall i :: 0 <= i < |s| - k ==> IsLetter(s[i]))
    && (forall i :: |s| - k <= i < |s| ==> s[i] == PAD)
  }

  lemma OneGroup(s: string)
    requires |s| == 4
    ensures Decode(s).Some? <==> exists k: nat :: IsPadded(s, k)
  {
    hide Letter;
    assert s[2..] == [s[2], s[3]] && s[3..] == [s[3]] && s[4..] == "";
    assert !IsLetter(PAD);
    if Decode(s).Some? {
      assert IsPadded(s, if s[2] == PAD then 2 else if s[3] == PAD then 1 else 0);
    }
  }

  lemma MoreGroups(s: string, k: nat)
    requires |s| > 4
    ensures IsPadded(s, k) <==> IsPadded(s[4..], k) && forall i :: 0 <= i < 4 ==> IsLetter(s[i])
  {
    hide IsLetter;
    var rest := s[4..];
    assert forall i :: 0 <= i < |rest| ==> rest[i] == s[i + 4];
    assert forall i :: 4 <= i < |s| ==> s[i] == rest[i - 4];
  }

  // ---- Base64 as a string of bits --------------------------------------------------------------

  /** The first letter with bits of byte `i`, six bits to the letter and eight to the byte. */
  function LetterOf(i: nat): nat {
    8 * i / 6
  }

  /** The eight bits of byte `i` among the twelve of its two letters. */
  function EightBits(i: nat, high: Sextet, low: Sextet): nat {
    (high * 64 + low) / (if 8 * i % 6 == 0 then 16 else if 8 * i % 6 == 2 then 4 else 1) % 256
  }

  predicate ReadsBits(s: string, i: nat, b: Byte) {
    var k := LetterOf(i);
    k + 1 < |s| && IsLetter(s[k]) && IsLetter(s[k + 1]) && b == EightBits(i, Value(s[k]).value, Value(s[k + 1]).value)
  }

  lemma ShiftedBy16(q: nat, r: nat)
    requires r < 16
    ensures (16 * q + r) / 16 == q
  {
  }

  lemma ShiftedBy4(q: nat, r: nat)
    requires r < 4
    ensures (4 * q + r) / 4 == q
  {
  }

  lemma LowByte(q: nat, r: nat)
    requires r < 256
    ensures (256 * q + r) % 256 == r
  {
  }

  lemma BitsOfFirst(high: Sextet, low: Sextet)
    ensures EightBits(0, high, low) == high * 4 + low / 16
  {
    var x: nat := high * 64 + low;
    assert x == 16 * (high * 4 + low / 16) + low % 16;
    ShiftedBy16(high * 4 + low / 16, low % 16);
    LowByte(0, high * 4 + low / 16);
  }

  lemma BitsOfSecond(high: Sextet, low: Sextet)
    ensures EightBits(1, high, low) == high % 16 * 16 + low / 4
  {
    var x: nat := high * 64 + low;
    assert x == 4 * (high * 16 + low / 4) + low % 4;
    ShiftedBy4(high * 16 + low / 4, low % 4);
    assert high * 16 + low / 4 == 256 * (high / 16) + (high % 16 * 16 + low / 4);
    LowByte(high / 16, high % 16 * 16 + low / 4);
  }

  lemma BitsOfThird(high: Sextet, low: Sextet)
    ensures EightBits(2, high, low) == high % 4 * 64 + low
  {
    assert high * 64 + low == 256 * (high / 4) + (high % 4 * 64 + low);
    LowByte(high / 4, high % 4 * 64 + low);
  }

  lemma FirstBits(s: string)
    requires |s| >= 2 && IsLetter(s[0]) && IsLetter(s[1])
    ensures ReadsBits(s, 0, First(s))
    ensures |s| >= 3 && IsLetter(s[2]) ==> ReadsBits(s, 1, Second(s))
    ensures |s| >= 4 && IsLetter(s[2]) && IsLetter(s[3]) ==> ReadsBits(s, 2, Third(s))
  {
    hide Value, EightBits;
    assert LetterOf(0) == 0 && LetterOf(1) == 1 && LetterOf(2) == 2;
    BitsOfFirst(Value(s[0]).value, Value(s[1]).value);
    if |s| >= 3 && IsLetter(s[2]) {
      BitsOfSecond(Value(s[1]).value, Value(s[2]).value);
    }
    if |s| >= 4 && IsLetter(s[2]) && IsLetter(s[3]) {
      BitsOfThird(Value(s[2]).value, Value(s[3]).value);
    }
  }

  /** Every byte strict decoding yields consists of the bits at its place in the letters. */
  lemma {:induction false} DecodeReadsTheBits(s: string, i: nat)
    requires Decode(s).Some? && i < |Decode(s).value|
    ensures ReadsBits(s, i, Decode(s).value[i])
    decreases i
  {
    hide First, Second, Third, ReadsBits;
    FirstBits(s);
    if i >= 3 {
      DecodeReadsTheBits(s[4..], i - 3);
      assert Decode(s).value[i] == Decode(s[4..]).value[i - 3];
      LaterBits(s, i, Decode(s).value[i]);
    }
  }

  lemma LaterBits(s: string, i: nat, b: Byte)
    requires |s| >= 4 && i >= 3 && ReadsBits(s[4..], i - 3, b)
    ensures ReadsBits(s, i, b)
  {
    hide Value;
    assert LetterOf(i) == LetterOf(i - 3) + 4 && 8 * i % 6 == 8 * (i - 3) % 6;
  }

  // ---- Leaving the padding off -----------------------------------------------------------------

  /** `rstrip("=")`. */
  function Strip(s: string): string {
    if s != "" && s[|s| - 1] == PAD then Strip(s[..|s| - 1]) else s
  }

  /** The decoder's padding, computed from the length alone. */
  function Repad(s: string): string {
    if |s| % 4 == 0 then s else s + Pads(4 - |s| % 4)
  }

  function PadCount(data: seq<Byte>): nat {
    (3 - |data| % 3) % 3
  }

  lemma GroupThenPadded(b0: Byte, b1: Byte, b2: Byte, rest: string, k: nat)
    requires IsPadded(rest, k) && k <= |rest|
    ensures IsPadded(ThreeBytes(b0, b1, b2) + rest, k)
  {
    hide ThreeBytes, IsLetter;
    var s := ThreeBytes(b0, b1, b2) + rest;
    assert s[..4] == ThreeBytes(b0, b1, b2);
    GroupReadsBack(b0, b1, b2, s);
    assert forall i :: 4 <= i < |s| ==> s[i] == rest[i - 4];
  }

  lemma PadCountOfRest(data: seq<Byte>)
    requires |data| >= 3
    ensures PadCount(data[3..]) == PadCount(data)
  {
  }

  lemma EmptyIsPadded()
    ensures IsPadded("", 0)
  {
  }

  lemma {:induction false} EncodeIsPadded(data: seq<Byte>)
    ensures IsPadded(Encode(data), PadCount(data)) && PadCount(data) <= |Encode(data)|
    decreases |data|
  {
    hide OneByte, TwoBytes, ThreeBytes, IsPadded;
    if data == [] {
      EmptyIsPadded();
    } else if |data| == 1 {
      LastByteReadsBack(data[0]);
    } else if |data| == 2 {
      LastTwoReadBack(data[0], data[1]);
    } else {
      hide PadCount;
      EncodeIsPadded(data[3..]);
      PadCountOfRest(data);
      GroupThenPadded(data[0], data[1], data[2], Encode(data[3..]), PadCount(data));
    }
  }

  lemma {:induction false} StripTakesThePads(s: string, k: nat)
    requires IsPadded(s, k)
    ensures Strip(s) == s[..|s| - k]
  {
    StripTakesTrailing(s, k);
  }

  lemma {:induction false} StripTakesTrailing(s: string, k: nat)
    requires k <= |s|
    requires forall i :: 0 <= i < |s| - k ==> IsLetter(s[i])
    requires forall i :: |s| - k <= i < |s| ==> s[i] == PAD
    ensures Strip(s) == s[..|s| - k]
    decreases k
  {
    assert !IsLetter(PAD);
    if k == 0 {
      assert s[..|s|] == s;
    } else {
      StripTakesTrailing(s[..|s| - 1], k - 1);
      assert s[..|s| - 1][..|s| - k] == s[..|s| - k];
    }
  }

  /** The length says how much padding is missing, and the stripped length is never 1 modulo 4. */
  lemma RepadInvertsStrip(data: seq<Byte>)
    ensures Repad(Strip(Encode(data))) == Encode(data)
    ensures |Strip(Encode(data))| % 4 != 1
    ensures forall i :: 0 <= i < |Strip(Encode(data))| ==> IsLetter(Strip(Encode(data))[i])
  {
    hide Encode, Strip, IsLetter;
    var s, k := Encode(data), PadCount(data);
    EncodeIsPadded(data);
    StripTakesThePads(s, k);
    assert s == s[..|s| - k] + Pads(k);
  }

  // ---- The parameter ---------------------------------------------------------------------------

  function EncodeParam(text: Text): string {
    Strip(Encode(Quote(text)))
  }

  /** Query parsing may have turned a plus sign into a space. */
  function Restore(value: string): string {
    seq(|value|, i requires 0 <= i < |value| => if value[i] == ' ' then '+' else value[i])
  }

  /** The bytes a value carries, if strict Base64 accepts it. */
  function Carried(value: string): Option<seq<Byte>> {
    Decode(Repad(Restore(value)))
  }

  /** The decoded text, before JSON: None for the empty value, for what strict Base64 refuses, and for bytes that are
      not well-formed UTF-8.  Escapes that are not well-formed are replaced instead. */
  function DecodeText(value: string): Option<Text> {
    if value == "" then None
    else
      var carried := Carried(value);
      if carried.None? || !Valid(carried.value) then None
      else
        RepairIsValid(Unquote(carried.value));
        Some(Repair(Unquote(carried.value)))
  }

  function DecodeParam<P>(value: string, parse: Text -> Option<P>): Option<P> {
    var text := DecodeText(value);
    if text.None? then None else parse(text.value)
  }

  lemma EscapeEndsBefore(a: seq<Byte>, rest: seq<Byte>)
    requires a != [] && rest != [] && rest[0] >= 0x80
    ensures StartsEscape(a + rest) <==> StartsEscape(a)
    ensures StartsEscape(a) ==> |a| >= 3 && EscapedByte(a + rest) == EscapedByte(a) && (a + rest)[3..] == a[3..] + rest
    ensures (a + rest)[0] == a[0] && (a + rest)[1..] == a[1..] + rest
  {
  }

  lemma {:induction false} UnquoteSplits(a: seq<Byte>, rest: seq<Byte>)
    requires rest != [] && rest[0] >= 0x80
    ensures Unquote(a + rest) == Unquote(a) + Unquote(rest)
    decreases |a|
  {
    hide EscapedByte, StartsEscape;
    if a == [] {
      assert a + rest == rest;
    } else {
      EscapeEndsBefore(a, rest);
      UnquoteSplits(if StartsEscape(a) then a[3..] else a[1..], rest);
    }
  }

  lemma {:induction false} UnquoteKeepsHigh(c: seq<Byte>, b: seq<Byte>)
    requires forall i :: 0 <= i < |c| ==> c[i] >= 0x80
    ensures Unquote(c + b) == c + Unquote(b)
  {
    if c == [] {
      assert c + b == b;
    } else {
      UnquoteKeepsHigh(c[1..], b);
      assert (c + b)[1..] == c[1..] + b;
    }
  }

  /** Between characters that are not ASCII, each stretch of the text is unquoted and repaired on its own. */
  lemma StretchesAreIndependent(a: seq<Byte>, c: seq<Byte>, b: seq<Byte>)
    requires |c| > 1 && CharLength(c) == |c|
    ensures Repair(Unquote(a + (c + b))) == Repair(Unquote(a)) + (c + Repair(Unquote(b)))
  {
    assert forall i :: 0 <= i < |c| ==> c[i] >= 0x80;
    UnquoteSplits(a, c + b);
    UnquoteKeepsHigh(c, b);
    RepairSplits(Unquote(a), c + Unquote(b));
    PrependChar(c, Unquote(b));
  }

  /** `value` arrives as `sent`, some plus signs having become spaces. */
  predicate ArrivesAs(sent: string, value: string) {
    |value| == |sent| && forall i :: 0 <= i < |sent| ==> value[i] == sent[i] || (sent[i] == '+' && value[i] == ' ')
  }

  lemma RestoreInverts(sent: string, value: string)
    requires ArrivesAs(sent, value) && forall i :: 0 <= i < |sent| ==> IsLetter(sent[i])
    ensures Restore(value) == sent
  {
    assert !IsLetter(' ');
  }

  lemma {:induction false} EncodedIsEmptyOnlyForEmpty(text: Text)
    ensures EncodeParam(text) == "" <==> text == []
  {
    var data := Quote(text);
    RepadInvertsStrip(data);
    DecodeInvertsEncode(data);
    UnquoteInvertsQuote(text);
    if EncodeParam(text) == "" {
      assert Encode(data) == Repad("") == "";
    }
  }

  /** Whatever the text, and whichever plus signs the query string turned into spaces, decoding gives back exactly
      that text, unless it is empty; no JSON text is. */
  lemma RoundTrip(text: Text, value: string)
    requires ArrivesAs(EncodeParam(text), value)
    ensures DecodeText(value) == if text == [] then None else Some(text)
  {
    hide Encode, Decode, Quote, Unquote, Strip, Repad, Restore, Valid, Repair;
    QuoteIsAscii(text);
    AsciiIsValid(Quote(text));
    RepairKeepsValid(text);
    RepadInvertsStrip(Quote(text));
    RestoreInverts(EncodeParam(text), value);
    EncodedIsEmptyOnlyForEmpty(text);
    DecodeInvertsEncode(Quote(text));
    UnquoteInvertsQuote(text);
  }

  /** So the decoder returns what the JSON parser makes of the text that was encoded. */
  lemma ParamRoundTrip<P>(text: Text, value: string, parse: Text -> Option<P>)
    requires ArrivesAs(EncodeParam(text), value) && text != []
    ensures DecodeParam(value, parse) == parse(text)
  {
    RoundTrip(text, value);
  }

  /** A length of 1 modulo 4, which no encoder output has, is always refused. */
  lemma ImpossibleLengthIsRefused(value: string)
    requires |value| % 4 == 1
    ensures DecodeText(value) == None
  {
    var padded := Repad(Restore(value));
    DecodeAcceptsExactly(padded);
    assert padded[|padded| - 3] == PAD && padded[|padded| - 2] == PAD && padded[|padded| - 1] == PAD;
    forall k: nat
      ensures !IsPadded(padded, k)
    {
      assert k <= 2 ==> !IsLetter(padded[|padded| - 3]);
    }
  }

  /** Base64 letters, with spaces for plus signs, then `j` padding characters; together with those the decoder adds
      there are at most two. */
  predicate Acceptable(value: string, j: nat) {
    && j <= |value| && j + Added(value) <= 2
    && (forall i :: 0 <= i < |value| - j ==> IsLetter(value[i]) || value[i] == ' ')
    && (forall i :: |value| - j <= i < |value| ==> value[i] == PAD)
  }

  function Added(value: string): nat {
    (4 - |value| % 4) % 4
  }

  lemma RepaddedAt(value: string, i: nat)
    requires i < |value| + Added(value)
    ensures |Repad(Restore(value))| == |value| + Added(value) && |Repad(Restore(value))| % 4 == 0
    ensures i >= |value| ==> Repad(Restore(value))[i] == PAD
    ensures i < |value| ==> (IsLetter(Repad(Restore(value))[i]) <==> IsLetter(value[i]) || value[i] == ' ')
    ensures i < |value| ==> (Repad(Restore(value))[i] == PAD <==> value[i] == PAD)
  {
    hide Value;
    RestoredLetters(value);
  }

  lemma PaddedIffAcceptable(value: string, j: nat)
    requires value != ""
    ensures IsPadded(Repad(Restore(value)), j + Added(value)) <==> Acceptable(value, j)
  {
    hide Repad, Restore, Added, IsLetter;
    var padded := Repad(Restore(value));
    RepaddedAt(value, 0);
    if Acceptable(value, j) {
      forall i: nat | i < |padded|
        ensures i < |padded| - (j + Added(value)) ==> IsLetter(padded[i])
        ensures i >= |padded| - (j + Added(value)) ==> padded[i] == PAD
      {
        RepaddedAt(value, i);
      }
    }
    if IsPadded(padded, j + Added(value)) {
      forall i: nat | i < |value|
        ensures i < |value| - j ==> IsLetter(value[i]) || value[i] == ' '
        ensures i >= |value| - j ==> value[i] == PAD
      {
        RepaddedAt(value, i);
      }
    }
  }

  lemma RestoredLetters(value: string)
    ensures forall i :: 0 <= i < |value| ==> (IsLetter(Restore(value)[i]) <==> IsLetter(value[i]) || value[i] == ' ')
    ensures forall i :: 0 <= i < |value| ==> (Restore(value)[i] == PAD <==> value[i] == PAD)
  {
    assert IsLetter('+') && !IsLetter(' ');
  }

  /** Exactly which values strict Base64 accepts. */
  lemma CarriedExactly(value: string)
    requires value != ""
    ensures Carried(value).Some? <==> exists j: nat :: Acceptable(value, j)
  {
    hide Decode, IsPadded, Repad, Acceptable;
    var padded := Repad(Restore(value));
    DecodeAcceptsExactly(padded);
    if j: nat :| Acceptable(value, j) {
      PaddedIffAcceptable(value, j);
    }
    if exists k: nat :: IsPadded(padded, k) {
      var k: nat :| IsPadded(padded, k);
      PadsCoverTheAdded(value, k);
      PaddedIffAcceptable(value, k - Added(value));
    }
  }

  /** Exactly which values decode to a text: those that strict Base64 accepts and that carry well-formed UTF-8.  JSON
      may still refuse the text. */
  lemma AcceptedExactly(value: string)
    ensures DecodeText(value).Some? <==>
      value != "" && (exists j: nat :: Acceptable(value, j)) && Carried(value).Some? && Valid(Carried(value).value)
  {
    hide Carried, Acceptable, Valid, Repair;
    if value != "" {
      CarriedExactly(value);
    }
  }

  /** Good Base64 alone is not enough: these letters carry the byte 0xFF, which no character contains. */
  lemma IllFormedBytesAreRefused()
    ensures Acceptable("/w", 0) && Carried("/w") == Some([0xFF]) && DecodeText("/w") == None
  {
    var value := "/w";
    assert Restore(value) == value;
    assert Repad(value) == "/w==";
    var padded := "/w==";
    assert Value('/') == Some(63) && Value('w') == Some(48);
    assert padded[2..] == [PAD, PAD];
    assert Decode(padded) == Some([0xFF]);
  }

  lemma PadsCoverTheAdded(value: string, k: nat)
    requires IsPadded(Repad(Restore(value)), k)
    ensures Added(value) <= k
  {
    var padded := Repad(Restore(value));
    assert !IsLetter(PAD);
    assert |value| % 4 != 0 ==> padded[|value|] == PAD;
  }
}
