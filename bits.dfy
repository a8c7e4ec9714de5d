/** The 8-bit arithmetic the engine performs on `uint8_t` values, and the
    MSB-first byte format of the I2C bus (UM10204, section 3.1.5): a byte
    travels as 8 levels, most significant bit first. */
module I2cBits {

  /** An `uint8_t` value. */
  type Byte = x: int | 0 <= x < 256

  /** A logic level on one line: 0 (low) or 1 (high). */
  type Level = x: int | 0 <= x < 2

  function Pow2(n: nat): (p: nat)
    ensures p >= 1
  {
    if n == 0 then 1 else 2 * Pow2(n - 1)
  }

  /** `x & 0x80` is non-zero. */
  predicate Msb(x: Byte) {
    x >= 128
  }

  /** `x <<= 1` on an `uint8_t`: the top bit falls off. */
  function Shl(x: Byte): Byte {
    (x * 2) % 256
  }

  /** `x |= 0x01` on an `uint8_t`. */
  function OrLsb(x: Byte): Byte {
    if x % 2 == 0 then x + 1 else x
  }

  /** C truthiness of a level read back from the port: any non-zero value is 1. */
  function LevelOf(v: Byte): Level {
    if v != 0 then 1 else 0
  }

  /** The levels a sequence of read-back values stand for. */
  function Levels(vs: seq<Byte>): (s: seq<Level>)
    ensures |s| == |vs|
  {
    if vs == [] then [] else Levels(vs[..|vs| - 1]) + [LevelOf(vs[|vs| - 1])]
  }

  lemma {:induction false} LevelsAt(vs: seq<Byte>, k: nat)
    requires k < |vs|
    ensures Levels(vs)[k] == LevelOf(vs[k])
  {
    if k < |vs| - 1 {
      LevelsAt(vs[..|vs| - 1], k);
    }
  }

  /** The number a sequence of levels stands for, first level most
      significant: the sum of s[k] * 2^(|s|-1-k). */
  function Value(s: seq<Level>): nat {
    if s == [] then 0 else s[0] * Pow2(|s| - 1) + Value(s[1..])
  }

  /** The n-bit MSB-first representation of x: the last level is x's least
      significant bit, the rest represent x / 2. */
  function ToBits(x: nat, n: nat): (s: seq<Level>)
    ensures |s| == n
  {
    if n == 0 then [] else ToBits(x / 2, n - 1) + [x % 2]
  }

  function Zeros(n: nat): (s: seq<Level>)
    ensures |s| == n
  {
    if n == 0 then [] else Zeros(n - 1) + [0]
  }

  /** Appending a level doubles the value and adds the level: the
      shift-and-or accumulation reading a byte performs. */
  lemma {:induction false} ValueSnoc(s: seq<Level>, l: Level)
    ensures Value(s + [l]) == 2 * Value(s) + l
  {
    if s != [] {
      var p := Pow2(|s| - 1);
      assert (s + [l])[0] == s[0] && (s + [l])[1..] == s[1..] + [l];
      assert Pow2(|s|) == 2 * p;
      assert (s[0] as int) * (2 * p) == 2 * ((s[0] as int) * p);
      ValueSnoc(s[1..], l);
    }
  }

  /** n levels stand for a number below 2^n. */
  lemma {:induction false} ValueBound(s: seq<Level>)
    ensures Value(s) < Pow2(|s|)
  {
    if s != [] {
      ValueBound(s[1..]);
    }
  }

  /** Encoding then decoding gives back the number (for one that fits). */
  lemma {:induction false} ValueOfToBits(x: nat, n: nat)
    requires x < Pow2(n)
    ensures Value(ToBits(x, n)) == x
  {
    if n > 0 {
      ValueOfToBits(x / 2, n - 1);
      ValueSnoc(ToBits(x / 2, n - 1), x % 2);
    }
  }

  /** Decoding then encoding gives back the levels. */
  lemma {:induction false} ToBitsOfValue(s: seq<Level>)
    ensures ToBits(Value(s), |s|) == s
  {
    if s != [] {
      var init, l := s[..|s| - 1], s[|s| - 1];
      assert s == init + [l];
      ValueSnoc(init, l);
      ToBitsOfValue(init);
      assert Value(s) / 2 == Value(init) && Value(s) % 2 == l;
    }
  }

  /** The level sent in position k of ToBits(x, n) is bit n-1-k of x. */
  lemma {:induction false} ToBitsAt(x: nat, n: nat, k: nat)
    requires k < n
    ensures ToBits(x, n)[k] == (x / Pow2(n - 1 - k)) % 2
  {
    if k < n - 1 {
      ToBitsAt(x / 2, n - 1, k);
      DivTwice(x, Pow2(n - 2 - k));
    }
  }

  lemma DivTwice(x: nat, p: nat)
    requires p >= 1
    ensures (x / 2) / p == x / (2 * p)
  {
    var q, c := (x / 2) / p, (x / 2) % p;
    assert x / 2 == p * q + c;
    assert x == (2 * p) * q + (2 * c + x % 2);
    DivUnique(x, 2 * p, q, 2 * c + x % 2);
  }

  lemma DivUnique(x: nat, d: nat, q: nat, r: nat)
    requires d >= 1 && x == d * q + r && r < d
    ensures x / d == q
  {
    var q', r' := x / d, x % d;
    assert x == d * q' + r';
    if q' > q {
      MulStep(d, q, q');
    } else if q' < q {
      MulStep(d, q', q);
    }
  }

  /** For a < b, d * b is at least d * a + d. */
  lemma {:induction false} MulStep(d: nat, a: nat, b: nat)
    requires a < b
    ensures d * b >= d * a + d
    decreases b - a
  {
    if b > a + 1 {
      MulStep(d, a, b - 1);
      assert d * b == d * (b - 1) + d;
    } else {
      assert d * b == d * a + d;
    }
  }

  lemma {:induction false} Pow2Mono(m: nat, n: nat)
    requires m <= n
    ensures Pow2(m) <= Pow2(n)
  {
    if m < n {
      Pow2Mono(m, n - 1);
    }
  }

  lemma Pow2Bound(n: nat)
    requires n < 8
    ensures Pow2(n) <= 128
  {
    Pow2Mono(n, 7);
    Pow2Seven();
  }

  lemma Pow2Seven()
    ensures Pow2(7) == 128 && Pow2(8) == 256
  {
  }

  /** `byte & 0x80` tests the first level of the byte's 8-bit form. */
  lemma MsbIsFirstBit(x: Byte)
    ensures Msb(x) <==> ToBits(x, 8)[0] == 1
  {
    var s := ToBits(x, 8);
    Pow2Seven();
    ValueOfToBits(x, 8);
    ValueBound(s[1..]);
  }

  /** `byte <<= 1` drops the first level of the byte's 8-bit form and
      appends a 0. */
  lemma ShlDropsFirstBit(x: Byte)
    ensures ToBits(Shl(x), 8) == ToBits(x, 8)[1..] + [0]
  {
    var s := ToBits(x, 8);
    var t := s[1..] + [0];
    Pow2Seven();
    ValueOfToBits(x, 8);
    ValueBound(s[1..]);
    ValueSnoc(s[1..], 0);
    ShlOfSplit(x, s[0], Value(s[1..]));
    ToBitsOfValue(t);
  }

  /** Shifting x = hi * 128 + low left by one in 8 bits leaves 2 * low. */
  lemma ShlOfSplit(x: Byte, hi: Level, low: nat)
    requires x == hi * 128 + low && low < 128
    ensures Shl(x) == 2 * low
  {
    if hi == 1 {
      assert x * 2 == 256 + 2 * low;
    }
  }

  /** The byte after i executions of `byte <<= 1`. */
  function Shifted(x: Byte, i: nat): Byte {
    if i == 0 then x else Shl(Shifted(x, i - 1))
  }

  /** After i shifts the 8-bit form is what is left of x's, followed by i
      zeros. */
  lemma {:induction false} ShiftedBits(x: Byte, i: nat)
    requires i <= 8
    ensures ToBits(Shifted(x, i), 8) == ToBits(x, 8)[i..] + Zeros(i)
  {
    if i > 0 {
      var s := ToBits(x, 8);
      ShiftedBits(x, i - 1);
      ShlDropsFirstBit(Shifted(x, i - 1));
      DropFirst(s[i - 1..], Zeros(i - 1));
      assert s[i - 1..][1..] == s[i..];
    }
  }

  lemma DropFirst(t: seq<Level>, z: seq<Level>)
    requires |t| >= 1
    ensures (t + z)[1..] + [0] == t[1..] + (z + [0])
  {
    assert (t + z)[1..] == t[1..] + z;
  }

  /** The top bit tested in iteration i of the write loop is level i of
      the byte's 8-bit form. */
  lemma ShiftedMsb(x: Byte, i: nat)
    requires i < 8
    ensures ToBits(x, 8)[i] == if Msb(Shifted(x, i)) then 1 else 0
  {
    ShiftedBits(x, i);
    MsbIsFirstBit(Shifted(x, i));
  }

  /** Below 128, `x <<= 1` doubles and then `x |= 0x01` adds one. */
  lemma ShlSmall(x: Byte)
    requires x < 128
    ensures Shl(x) == 2 * x && OrLsb(Shl(x)) == 2 * x + 1
  {
  }

  /** The last level of the 8-bit form is the least significant bit. */
  lemma LastBitIsLsb(x: Byte)
    ensures ToBits(x, 8)[7] == x % 2
  {
  }
}
