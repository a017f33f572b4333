/**
 `new_ulid`: 48 bits of milliseconds and 80 random bits as 26 Crockford Base32 characters, written from the end.
 */
module Ulid {
  import opened Common

  const ALPHABET: string := "0123456789abcdefghjkmnpqrstvwxyz"
  const LENGTH: nat := 26
  const RANDOM_RANGE: nat := 0x1_0000_0000_0000_0000_0000
  const MAX_TIMESTAMP: nat := 0xFFFF_FFFF_FFFF

  type Digit = d: nat | d < 32

  // ---- Numbers as bits and as digits -----------------------------------------------------------

  function Bit(a: nat, b: nat): nat {
    if a % 2 == 1 || b % 2 == 1 then 1 else 0
  }

  /** Bitwise or. */
  function Or(a: nat, b: nat): nat {
    if a == 0 then b else if b == 0 then a else 2 * Or(a / 2, b / 2) + Bit(a, b)
  }

  function Pow(base: nat, n: nat): nat {
    if n == 0 then 1 else base * Pow(base, n - 1)
  }

  function ShiftLeft(a: nat, n: nat): nat {
    a * Pow(2, n)
  }

  /** Bit `k` of the number is set. */
  predicate IsSet(a: nat, k: nat) {
    if k == 0 then a % 2 == 1 else IsSet(a / 2, k - 1)
  }

  lemma {:induction false} ZeroHasNoBits(k: nat)
    ensures !IsSet(0, k)
  {
    if k > 0 {
      ZeroHasNoBits(k - 1);
    }
  }

  lemma {:induction false} OrIsBitwise(a: nat, b: nat, k: nat)
    ensures IsSet(Or(a, b), k) <==> IsSet(a, k) || IsSet(b, k)
    decreases k
  {
    ZeroHasNoBits(k);
    if k > 0 && a > 0 && b > 0 {
      OrIsBitwise(a / 2, b / 2, k - 1);
      assert Or(a, b) / 2 == Or(a / 2, b / 2);
    }
  }

  /** Or-ing a shifted number with one that fits below it is adding them. */
  lemma {:induction false} OrOfShiftedAdds(a: nat, n: nat, b: nat)
    requires b < Pow(2, n)
    ensures Or(ShiftLeft(a, n), b) == ShiftLeft(a, n) + b
    decreases n
  {
    if n == 0 {
    } else {
      assert ShiftLeft(a, n) == 2 * ShiftLeft(a, n - 1) by {
        assert a * (2 * Pow(2, n - 1)) == 2 * (a * Pow(2, n - 1));
      }
      OrOfShiftedAdds(a, n - 1, b / 2);
    }
  }

  /** The last `n` Base32 digits of `value`, most significant first. */
  function Digits(value: nat, n: nat): (s: string)
    ensures |s| == n
  {
    if n == 0 then [] else Digits(value / 32, n - 1) + [ALPHABET[value % 32]]
  }

  /** The position of `c` in `alphabet`, or its length. */
  function Position(alphabet: string, c: char): nat {
    if alphabet == [] then 0 else if alphabet[0] == c then 0 else 1 + Position(alphabet[1..], c)
  }

  /** Reading a Base32 text as a number, the most significant character first. */
  function Decode(s: string): nat {
    if s == [] then 0 else 32 * Decode(s[..|s| - 1]) + Position(ALPHABET, s[|s| - 1])
  }

  /** The order of texts, by the first difference. */
  predicate Before(s: string, t: string) {
    if s == [] || t == [] then s == [] && t != []
    else s[0] < t[0] || (s[0] == t[0] && Before(s[1..], t[1..]))
  }

  // ---- Reading back ----------------------------------------------------------------------------

  lemma AlphabetAscends(d: nat)
    requires d < 31
    ensures ALPHABET[d] < ALPHABET[d + 1]
  {
  }

  lemma {:induction false} AlphabetIsOrdered(d: nat, e: nat)
    requires d < e < 32
    ensures ALPHABET[d] < ALPHABET[e]
  {
    AlphabetAscends(e - 1);
    if d < e - 1 {
      AlphabetIsOrdered(d, e - 1);
    }
  }

  lemma {:induction false} PositionIsFirst(alphabet: string, d: nat)
    requires d < |alphabet| && forall e :: 0 <= e < d ==> alphabet[e] != alphabet[d]
    ensures Position(alphabet, alphabet[d]) == d
  {
    if d == 0 {
    } else {
      PositionIsFirst(alphabet[1..], d - 1);
    }
  }

  lemma PositionOfDigit(d: Digit)
    ensures Position(ALPHABET, ALPHABET[d]) == d
  {
    forall e | 0 <= e < d
      ensures ALPHABET[e] != ALPHABET[d]
    {
      AlphabetIsOrdered(e, d);
    }
    PositionIsFirst(ALPHABET, d);
  }

  /** Decoding inverts encoding. */
  lemma {:induction false} RoundTrip(value: nat, n: nat)
    requires value < Pow(32, n)
    ensures Decode(Digits(value, n)) == value
    decreases n
  {
    if n == 0 {
    } else {
      RoundTrip(value / 32, n - 1);
      PositionOfDigit(value % 32);
    }
  }

  /** The numbers that fill at most the three low bits of the first of `n` characters. */
  function Bound(n: nat): nat {
    if n == 0 then 1 else 8 * Pow(32, n - 1)
  }

  lemma {:induction false} FirstCharacter(value: nat, n: nat)
    requires n > 0 && value < Bound(n)
    ensures '0' <= Digits(value, n)[0] <= '7'
    decreases n
  {
    if n == 1 {
      assert Digits(value, 1) == [ALPHABET[value]];
    } else {
      FirstCharacter(value / 32, n - 1);
    }
  }

  // ---- Order -----------------------------------------------------------------------------------

  lemma {:induction false} BeforeByLast(s: string, t: string, c: char, d: char)
    requires |s| == |t|
    ensures Before(s + [c], t + [d]) <==> Before(s, t) || (s == t && c < d)
  {
    if s == [] {
    } else {
      BeforeByLast(s[1..], t[1..], c, d);
      assert (s + [c])[1..] == s[1..] + [c] && (t + [d])[1..] == t[1..] + [d];
      assert s == [s[0]] + s[1..] && t == [t[0]] + t[1..];
    }
  }

  /** Texts of `n` characters are ordered as the numbers they stand for. */
  lemma {:induction false} OrderIsNumeric(a: nat, b: nat, n: nat)
    requires a < Pow(32, n) && b < Pow(32, n)
    ensures Before(Digits(a, n), Digits(b, n)) <==> a < b
    decreases n
  {
    if n == 0 {
    } else {
      hide Before, Position;
      OrderIsNumeric(a / 32, b / 32, n - 1);
      BeforeByLast(Digits(a / 32, n - 1), Digits(b / 32, n - 1), ALPHABET[a % 32], ALPHABET[b % 32]);
      SameDigitsSameNumber(a / 32, b / 32, n - 1);
      DigitOrder(a % 32, b % 32);
    }
  }

  lemma SameDigitsSameNumber(a: nat, b: nat, n: nat)
    requires a < Pow(32, n) && b < Pow(32, n)
    ensures Digits(a, n) == Digits(b, n) <==> a == b
  {
    RoundTrip(a, n);
    RoundTrip(b, n);
  }

  lemma DigitOrder(d: Digit, e: Digit)
    ensures ALPHABET[d] < ALPHABET[e] <==> d < e
  {
    if d < e {
      AlphabetIsOrdered(d, e);
    } else if e < d {
      AlphabetIsOrdered(e, d);
    }
  }

  // ---- The encoder -----------------------------------------------------------------------------

  function Number(timestampMs: nat, random: nat): nat {
    Or(ShiftLeft(timestampMs, 80), random)
  }

  lemma {:induction false} PowAdds(base: nat, m: nat, n: nat)
    ensures Pow(base, m + n) == Pow(base, m) * Pow(base, n)
    decreases m
  {
    if m == 0 {
    } else {
      PowAdds(base, m - 1, n);
      assert base * (Pow(base, m - 1) * Pow(base, n)) == base * Pow(base, m - 1) * Pow(base, n);
    }
  }

  lemma PowersOfTwo()
    ensures Pow(2, 80) == RANDOM_RANGE
    ensures Pow(32, 25) == 0x2000_0000_0000_0000_0000_0000_0000_0000
  {
    assert Pow(2, 10) == 0x400;
    PowAdds(2, 10, 10);
    PowAdds(2, 20, 20);
    PowAdds(2, 40, 40);
    assert Pow(32, 5) == 0x200_0000;
    PowAdds(32, 5, 5);
    PowAdds(32, 10, 10);
    PowAdds(32, 20, 5);
  }

  lemma NumberIsSum(timestampMs: nat, random: nat)
    requires timestampMs <= MAX_TIMESTAMP && random < RANDOM_RANGE
    ensures Number(timestampMs, random) == timestampMs * RANDOM_RANGE + random
    ensures Number(timestampMs, random) < Bound(LENGTH) <= Pow(32, LENGTH)
  {
    PowersOfTwo();
    OrOfShiftedAdds(timestampMs, 80, random);
  }

  lemma LastDigit(value: nat, n: nat)
    requires value < Bound(n + 1)
    ensures Digits(value, n + 1) == Digits(value / 32, n) + [ALPHABET[value % 32]]
    ensures value / 32 < Bound(n)
  {
  }

  lemma NothingFits(value: nat)
    requires value < Bound(0)
    ensures value == 0 && Digits(value, 0) == []
  {
  }

  lemma ReadsBack(timestampMs: nat, random: nat)
    requires timestampMs <= MAX_TIMESTAMP && random < RANDOM_RANGE
    ensures var id := Digits(Number(timestampMs, random), LENGTH);
      Decode(id) == timestampMs * RANDOM_RANGE + random && '0' <= id[0] <= '7'
  {
    NumberIsSum(timestampMs, random);
    RoundTrip(Number(timestampMs, random), LENGTH);
    FirstCharacter(Number(timestampMs, random), LENGTH);
  }

  /** `leftover` is what remains of the shifted value after the loop. */
  method NewUlid(timestampMs: int, random: nat) returns (r: Outcome<string, ()>, leftover: nat)
    requires random < RANDOM_RANGE
    ensures r.Returned? <==> 0 <= timestampMs <= MAX_TIMESTAMP
    ensures r.Returned? ==> r.value == Digits(Number(timestampMs, random), LENGTH) && leftover == 0
    ensures r.Returned? ==> Decode(r.value) == timestampMs * RANDOM_RANGE + random && '0' <= r.value[0] <= '7'
  {
    hide Digits, Bound, Pow, Decode, Position, Or, ShiftLeft;
    if !(0 <= timestampMs <= MAX_TIMESTAMP) {
      return Raised(()), 0;
    }
    NumberIsSum(timestampMs, random);
    var value: nat := Or(ShiftLeft(timestampMs, 80), random);
    var encoded := new char[LENGTH](_ => '0');
    var index := LENGTH;
    while index > 0
      invariant 0 <= index <= LENGTH
      invariant Digits(Number(timestampMs, random), LENGTH) == Digits(value, index) + encoded[index..]
      invariant value < Bound(index)
    {
      index := index - 1;
      LastDigit(value, index);
      encoded[index] := ALPHABET[value % 32];
      assert encoded[index..] == [encoded[index]] + encoded[index + 1..];
      value := value / 32;
    }
    NothingFits(value);
    ReadsBack(timestampMs, random);
    r, leftover := Returned(encoded[..]), value;
  }

  /** Identifiers sort first by millisecond and then by their random part. */
  lemma SortsByTimeThenRandom(t1: nat, r1: nat, t2: nat, r2: nat)
    requires t1 <= MAX_TIMESTAMP && r1 < RANDOM_RANGE && t2 <= MAX_TIMESTAMP && r2 < RANDOM_RANGE
    ensures Before(Digits(Number(t1, r1), LENGTH), Digits(Number(t2, r2), LENGTH)) <==> t1 < t2 || (t1 == t2 && r1 < r2)
  {
    NumberIsSum(t1, r1);
    NumberIsSum(t2, r2);
    OrderIsNumeric(Number(t1, r1), Number(t2, r2), LENGTH);
  }

  /** Distinct inputs give distinct identifiers. */
  lemma IsInjective(t1: nat, r1: nat, t2: nat, r2: nat)
    requires t1 <= MAX_TIMESTAMP && r1 < RANDOM_RANGE && t2 <= MAX_TIMESTAMP && r2 < RANDOM_RANGE
    requires Digits(Number(t1, r1), LENGTH) == Digits(Number(t2, r2), LENGTH)
    ensures t1 == t2 && r1 == r2
  {
    NumberIsSum(t1, r1);
    NumberIsSum(t2, r2);
    RoundTrip(Number(t1, r1), LENGTH);
    RoundTrip(Number(t2, r2), LENGTH);
  }
}
