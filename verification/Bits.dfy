/**
 * Machine words as natural numbers: powers of two, single bits, and the bitwise
 * operators of C on unsigned integers, defined by their binary digits.
 */
module Bits {
  type byte = n: nat | n < 256
  type word = n: nat | n < 0x1_0000_0000

  const U32 := 0x1_0000_0000

  function Pow2(n: nat): (p: nat)
    ensures p > 0
  {
    if n == 0 then 1 else 2 * Pow2(n - 1)
  }

  predicate Bit(w: nat, k: nat) { if k == 0 then w % 2 == 1 else Bit(w / 2, k - 1) }

  function Digit(b: bool): nat { if b then 1 else 0 }

  function And(a: nat, b: nat): nat {
    if a == 0 || b == 0 then 0 else 2 * And(a / 2, b / 2) + Digit(a % 2 == 1 && b % 2 == 1)
  }

  function Or(a: nat, b: nat): nat
    decreases a + b
  {
    if a == 0 && b == 0 then 0 else 2 * Or(a / 2, b / 2) + Digit(a % 2 == 1 || b % 2 == 1)
  }

  function Xor(a: nat, b: nat): nat
    decreases a + b
  {
    if a == 0 && b == 0 then 0 else 2 * Xor(a / 2, b / 2) + Digit(a % 2 != b % 2)
  }

  // ----- powers of two

  lemma Assoc(a: int, b: int, c: int)
    ensures a * (b * c) == a * b * c
  {
  }

  lemma Regroup(q: int, b: int, c: int, p: int)
    ensures q * (c * p) + b * p == (q * c + b) * p
  {
  }

  lemma {:induction false} Pow2Add(a: nat, b: nat)
    ensures Pow2(a + b) == Pow2(a) * Pow2(b)
  {
    if a > 0 {
      Pow2Add(a - 1, b);
      assert Pow2(a + b) == 2 * Pow2(a - 1 + b);
    }
  }

  lemma Pow2Values()
    ensures Pow2(0) == 1 && Pow2(8) == 256 && Pow2(16) == 0x1_0000 && Pow2(24) == 0x100_0000
    ensures Pow2(31) == 0x8000_0000 && Pow2(32) == U32
  {
  }

  lemma {:induction false} Pow2Mono(a: nat, b: nat)
    requires a <= b
    ensures Pow2(a) <= Pow2(b)
  {
    if a < b { Pow2Mono(a, b - 1); }
  }

  // ----- division by a power of two

  lemma DivStep(w: nat, p: nat)
    requires p > 0
    ensures w / (2 * p) == (w / 2) / p && w / (2 * p) == (w / p) / 2
  {
    var q := w / (2 * p);
    var r := w % (2 * p);
    assert w == 2 * p * q + r;
    assert (w / 2) == p * q + r / 2;
    assert (p * q + r / 2) / p == q by { DivUnique(p * q + r / 2, p, q, r / 2); }
    assert w == p * (2 * q) + r;
    if r < p {
      DivUnique(w, p, 2 * q, r);
    } else {
      assert w == p * (2 * q + 1) + (r - p);
      DivUnique(w, p, 2 * q + 1, r - p);
    }
  }

  lemma MulAtLeast(d: nat, x: nat)
    requires x >= 1
    ensures d * x >= d
  {
  }

  lemma DivUnique(w: int, d: nat, q: int, r: nat)
    requires d > 0 && w == d * q + r && r < d
    ensures w / d == q && w % d == r
  {
    var q', r' := w / d, w % d;
    assert w == d * q' + r';
    assert d * (q - q') == d * q - d * q';
    if q > q' { MulAtLeast(d, q - q'); assert false; }
    if q < q' { MulAtLeast(d, q' - q); assert false; }
  }

  /** w >> n */
  function Shr(w: nat, n: nat): nat { if n == 0 then w else Shr(w / 2, n - 1) }

  lemma {:induction false} ShrDivides(w: nat, n: nat)
    ensures Shr(w, n) == w / Pow2(n)
  {
    if n > 0 {
      DivStep(w, Pow2(n - 1));
      ShrDivides(w / 2, n - 1);
    }
  }

  lemma {:induction false} BitShr(w: nat, n: nat, k: nat)
    ensures Bit(Shr(w, n), k) == Bit(w, n + k)
  {
    if n > 0 { BitShr(w / 2, n - 1, k); }
  }

  lemma {:induction false} BitSplit(hi: nat, lo: nat, n: nat, k: nat)
    requires lo < Pow2(n)
    ensures Bit(hi * Pow2(n) + lo, k) == if k < n then Bit(lo, k) else Bit(hi, k - n)
  {
    if n > 0 {
      var w := hi * Pow2(n) + lo;
      assert w == 2 * (hi * Pow2(n - 1)) + lo;
      assert w / 2 == hi * Pow2(n - 1) + lo / 2 && w % 2 == lo % 2;
      if k > 0 { BitSplit(hi, lo / 2, n - 1, k - 1); }
    }
  }

  lemma ModStep(w: nat, p: nat)
    requires p > 0
    ensures w % (2 * p) == 2 * ((w / 2) % p) + w % 2
  {
    var q, r := (w / 2) / p, (w / 2) % p;
    assert w / 2 == p * q + r;
    Assoc(2, p, q);
    DivUnique(w, 2 * p, q, 2 * r + w % 2);
  }

  lemma {:induction false} BitMod(w: nat, n: nat, k: nat)
    ensures Bit(w % Pow2(n), k) == (k < n && Bit(w, k))
  {
    if n == 0 {
      ZeroBits(k);
    } else {
      var r, h := w % Pow2(n), (w / 2) % Pow2(n - 1);
      ModStep(w, Pow2(n - 1));
      assert r / 2 == h && r % 2 == w % 2;
      if k > 0 { BitMod(w / 2, n - 1, k - 1); }
    }
  }

  lemma {:induction false} ZeroBits(k: nat)
    ensures !Bit(0, k)
  {
    if k > 0 { ZeroBits(k - 1); }
  }

  /** Numbers with the same bits are equal. */
  lemma {:induction false} BitExt(a: nat, b: nat)
    requires forall k: nat :: Bit(a, k) == Bit(b, k)
    ensures a == b
    decreases a
  {
    assert Bit(a, 0) == Bit(b, 0);
    if a == 0 {
      if b > 0 {
        var k := SomeBit(b);
        ZeroBits(k);
      }
    } else {
      forall k: nat ensures Bit(a / 2, k) == Bit(b / 2, k) {
        assert Bit(a, k + 1) == Bit(b, k + 1);
      }
      BitExt(a / 2, b / 2);
    }
  }

  lemma {:induction false} SomeBit(w: nat) returns (k: nat)
    requires w > 0
    ensures Bit(w, k)
  {
    if w % 2 == 1 {
      k := 0;
    } else {
      k := SomeBit(w / 2);
      k := k + 1;
    }
  }

  // ----- the operators, bit by bit

  lemma OrHalves(a: nat, b: nat)
    ensures Or(a, b) / 2 == Or(a / 2, b / 2) && (Or(a, b) % 2 == 1 <==> a % 2 == 1 || b % 2 == 1)
  {
  }

  lemma {:induction false} BitOr(a: nat, b: nat, k: nat)
    ensures Bit(Or(a, b), k) == (Bit(a, k) || Bit(b, k))
    decreases k
  {
    OrHalves(a, b);
    if k > 0 { BitOr(a / 2, b / 2, k - 1); }
  }

  lemma AndHalves(a: nat, b: nat)
    ensures And(a, b) / 2 == And(a / 2, b / 2) && (And(a, b) % 2 == 1 <==> a % 2 == 1 && b % 2 == 1)
  {
  }

  lemma {:induction false} BitAnd(a: nat, b: nat, k: nat)
    ensures Bit(And(a, b), k) == (Bit(a, k) && Bit(b, k))
    decreases k
  {
    AndHalves(a, b);
    if k > 0 { BitAnd(a / 2, b / 2, k - 1); }
  }

  lemma XorHalves(a: nat, b: nat)
    ensures Xor(a, b) / 2 == Xor(a / 2, b / 2) && (Xor(a, b) % 2 == 1 <==> a % 2 != b % 2)
  {
  }

  lemma {:induction false} BitXor(a: nat, b: nat, k: nat)
    ensures Bit(Xor(a, b), k) == (Bit(a, k) != Bit(b, k))
    decreases k
  {
    XorHalves(a, b);
    if k > 0 { BitXor(a / 2, b / 2, k - 1); }
  }

  lemma {:induction false} NoHighBit(w: nat, n: nat, k: nat)
    requires w < Pow2(n) && k >= n
    ensures !Bit(w, k)
    decreases k
  {
    if n > 0 { NoHighBit(w / 2, n - 1, k - 1); } else if k > 0 { NoHighBit(0, 0, k - 1); }
  }

  /** A number below 2^n has no bit from n upwards, and conversely. */
  lemma {:induction false} HighBits(w: nat, n: nat)
    ensures w < Pow2(n) <==> forall k: nat :: k >= n ==> !Bit(w, k)
  {
    if w < Pow2(n) {
      forall k: nat | k >= n ensures !Bit(w, k) { NoHighBit(w, n, k); }
    } else {
      var q := w / Pow2(n);
      assert q > 0 by { assert w == q * Pow2(n) + w % Pow2(n); }
      var k := SomeBit(q);
      ShrDivides(w, n);
      BitShr(w, n, k);
    }
  }

  lemma {:induction false} HighBitBelow(w: nat, n: nat)
    requires Pow2(n) <= w < Pow2(n + 1)
    ensures Bit(w, n)
  {
    if n > 0 { HighBitBelow(w / 2, n - 1); }
  }

  lemma BitPow2(n: nat, k: nat)
    ensures Bit(Pow2(n), k) == (k == n)
  {
    BitSplit(1, 0, n, k);
    if k < n { ZeroBits(k); } else if k > n { ZeroBits(k - n - 1); }
  }

  /** w << n, without truncation. */
  function Shl(w: nat, n: nat): nat
    decreases n
  {
    if n == 0 then w else Shl(2 * w, n - 1)
  }

  lemma {:induction false} ShlStep(w: nat, n: nat)
    ensures Shl(w, n + 1) == 2 * Shl(w, n)
    decreases n
  {
    if n > 0 { ShlStep(2 * w, n - 1); }
  }

  lemma {:induction false} ShlMultiplies(w: nat, n: nat)
    ensures Shl(w, n) == w * Pow2(n)
    decreases n
  {
    if n > 0 {
      ShlMultiplies(2 * w, n - 1);
      Twice(w, Pow2(n - 1));
    }
  }

  lemma Twice(w: nat, p: nat)
    ensures 2 * w * p == w * (2 * p)
  {
  }

  lemma {:induction false} ShlShl(w: nat, m: nat, n: nat)
    ensures Shl(Shl(w, m), n) == Shl(w, m + n)
    decreases m
  {
    if m > 0 { ShlShl(2 * w, m - 1, n); }
  }

  lemma {:induction false} ShlAdds(v: nat, w: nat, n: nat)
    ensures Shl(v + w, n) == Shl(v, n) + Shl(w, n)
    decreases n
  {
    if n > 0 { ShlAdds(2 * v, 2 * w, n - 1); }
  }

  lemma {:induction false} ShlBound(w: nat, n: nat, m: nat)
    ensures Shl(w, n) < Pow2(m + n) <==> w < Pow2(m)
    decreases n
  {
    if n > 0 { ShlBound(2 * w, n - 1, m + 1); }
  }

  lemma {:induction false} ScaledBound(hi: nat, lo: nat, n: nat, b: nat)
    requires lo < Pow2(n)
    ensures hi * Pow2(n) + lo < Pow2(b + n) <==> hi < Pow2(b)
  {
    if n > 0 {
      var w := hi * Pow2(n) + lo;
      assert w == 2 * (hi * Pow2(n - 1)) + lo;
      assert w / 2 == hi * Pow2(n - 1) + lo / 2;
      ScaledBound(hi, lo / 2, n - 1, b);
    }
  }

  /** ~w on n bits. */
  function Not(w: nat, n: nat): nat
    requires w < Pow2(n)
  {
    Pow2(n) - 1 - w
  }

  lemma {:induction false} BitNot(w: nat, n: nat, k: nat)
    requires w < Pow2(n)
    ensures Bit(Not(w, n), k) == (k < n && !Bit(w, k))
    decreases n
  {
    if n == 0 {
      ZeroBits(k);
    } else if k > 0 {
      HalfNot(w, Pow2(n - 1));
      BitNot(w / 2, n - 1, k - 1);
    } else {
      HalfNot(w, Pow2(n - 1));
    }
  }

  lemma HalfNot(w: nat, p: nat)
    requires w < 2 * p
    ensures w / 2 < p && (2 * p - 1 - w) / 2 == p - 1 - w / 2
    ensures (2 * p - 1 - w) % 2 == 1 <==> w % 2 != 1
  {
  }

  lemma {:induction false} BitBelow(a: nat, b: nat, n: nat)
    requires a < Pow2(n) && b < Pow2(n)
    ensures Or(a, b) < Pow2(n) && And(a, b) < Pow2(n) && Xor(a, b) < Pow2(n)
  {
    if n > 0 { BitBelow(a / 2, b / 2, n - 1); }
  }

  /** Filling in low bits that are zero is addition. */
  lemma OrAdds(hi: nat, lo: nat, n: nat)
    requires lo < Pow2(n)
    ensures Or(hi * Pow2(n), lo) == hi * Pow2(n) + lo
  {
    var w := hi * Pow2(n) + lo;
    forall k: nat ensures Bit(Or(hi * Pow2(n), lo), k) == Bit(w, k) {
      BitOr(hi * Pow2(n), lo, k);
      BitSplit(hi, lo, n, k);
      BitSplit(hi, 0, n, k);
      BitSplit(0, lo, n, k);
      if k < n { ZeroBits(k); } else { ZeroBits(k - n); }
    }
    BitExt(Or(hi * Pow2(n), lo), w);
  }

  lemma {:induction false} XorUndoes(a: nat, b: nat)
    ensures Xor(Xor(a, b), b) == a
    decreases a + b
  {
    if a > 0 || b > 0 {
      XorHalves(a, b);
      XorHalves(Xor(a, b), b);
      XorUndoes(a / 2, b / 2);
    }
  }

  // ----- big-endian byte strings

  function BE(s: seq<byte>): nat {
    if s == [] then 0 else BE(s[..|s| - 1]) * 256 + s[|s| - 1]
  }

  lemma {:induction false} BEBound(s: seq<byte>)
    ensures BE(s) < Pow2(8 * |s|)
  {
    if s != [] {
      BEBound(s[..|s| - 1]);
      Pow2Add(8 * (|s| - 1), 8);
      Pow2Values();
    }
  }

  lemma Append256(v: nat, p: nat, u: nat, d: nat)
    ensures (v * p + u) * 256 + d == v * (p * 256) + (u * 256 + d)
  {
    Assoc(v, p, 256);
  }

  lemma {:induction false} BEConcat(a: seq<byte>, b: seq<byte>)
    ensures BE(a + b) == BE(a) * Pow2(8 * |b|) + BE(b)
  {
    if b == [] {
      assert a + b == a;
    } else {
      var b0, d := b[..|b| - 1], b[|b| - 1];
      assert (a + b)[..|a + b| - 1] == a + b0 && (a + b)[|a + b| - 1] == d;
      BEConcat(a, b0);
      assert Pow2(8 * |b|) == Pow2(8 * |b0|) * 256 by {
        Pow2Add(8 * |b0|, 8);
        Pow2Values();
      }
      Append256(BE(a), Pow2(8 * |b0|), BE(b0), d);
    }
  }

  /** A byte string whose k-th byte from the end is the k-th base-256 digit of `v`. */
  lemma {:induction false} BEFromDigits(s: seq<byte>, v: nat)
    requires v < Pow2(8 * |s|)
    requires forall k :: 0 <= k < |s| ==> s[|s| - 1 - k] == Shr(v, 8 * k) % 256
    ensures BE(s) == v
  {
    if s == [] {
      assert v == 0;
    } else {
      var s0 := s[..|s| - 1];
      assert s[|s| - 1 - 0] == Shr(v, 8 * 0) % 256;
      Pow2Add(8, 8 * |s0|);
      Pow2Values();
      assert v / 256 < Pow2(8 * |s0|);
      forall k | 0 <= k < |s0| ensures s0[|s0| - 1 - k] == Shr(v / 256, 8 * k) % 256 {
        assert s[|s| - 1 - (k + 1)] == Shr(v, 8 * (k + 1)) % 256;
        ShrShr(v, 8, 8 * k);
        ShrDivides(v, 8);
      }
      BEFromDigits(s0, v / 256);
    }
  }

  lemma {:induction false} ShrShr(w: nat, a: nat, b: nat)
    ensures Shr(Shr(w, a), b) == Shr(w, a + b)
  {
    if a > 0 { ShrShr(w / 2, a - 1, b); }
  }

  /** No leading zero byte: the shortest string for its value. */
  predicate Canonical(s: seq<byte>) { s == [] || s[0] != 0 }

  function StripZeros(s: seq<byte>): seq<byte> {
    if s != [] && s[0] == 0 then StripZeros(s[1..]) else s
  }

  lemma {:induction false} StripKeepsValue(s: seq<byte>)
    ensures BE(StripZeros(s)) == BE(s) && Canonical(StripZeros(s))
  {
    if s != [] && s[0] == 0 {
      StripKeepsValue(s[1..]);
      assert s == [0] + s[1..];
      BEConcat([0], s[1..]);
      assert BE([0]) == 0;
    }
  }

  lemma HeadByte(b: byte)
    ensures BE([b]) == b
  {
  }

  lemma CanonicalBounds(s: seq<byte>)
    requires Canonical(s) && s != []
    ensures Pow2(8 * (|s| - 1)) <= BE(s) < Pow2(8 * |s|)
  {
    BEBound(s);
    var t := s[1..];
    var p := Pow2(8 * |t|);
    assert s == [s[0]] + t;
    BEConcat([s[0]], t);
    HeadByte(s[0]);
    var n: nat := s[0];
    MulAtLeast(p, n);
    assert n * p == p * n;
  }

  /** Each number has one canonical string. */
  lemma {:induction false} CanonicalUnique(s: seq<byte>, t: seq<byte>)
    requires Canonical(s) && Canonical(t) && BE(s) == BE(t)
    ensures s == t
    decreases |s|
  {
    if s == [] || t == [] {
      CanonicalZero(s);
      CanonicalZero(t);
    } else {
      var p, q := s[..|s| - 1], t[..|t| - 1];
      DivUnique(BE(s), 256, BE(p), s[|s| - 1]);
      DivUnique(BE(t), 256, BE(q), t[|t| - 1]);
      CanonicalUnique(p, q);
      assert s == p + [s[|s| - 1]] && t == q + [t[|t| - 1]];
    }
  }

  lemma {:induction false} CanonicalZero(s: seq<byte>)
    requires Canonical(s)
    ensures BE(s) == 0 <==> s == []
  {
    if |s| > 1 { CanonicalZero(s[..|s| - 1]); }
  }

  // ----- words as digits of a number

  function Limbs(ws: seq<word>): nat {
    if ws == [] then 0 else Limbs(ws[1..]) * U32 + ws[0]
  }

  /** Bit n of the number is bit n mod 32 of word n / 32. */
  lemma {:induction false} LimbBit(ws: seq<word>, n: nat)
    ensures Bit(Limbs(ws), n) == (n / 32 < |ws| && Bit(ws[n / 32], n % 32))
  {
    if ws == [] {
      ZeroBits(n);
    } else {
      LimbBitHead(ws, n);
      if n >= 32 {
        LimbBit(ws[1..], n - 32);
        assert (n - 32) / 32 == n / 32 - 1 && (n - 32) % 32 == n % 32;
      }
    }
  }

  lemma LimbBitHead(ws: seq<word>, n: nat)
    requires ws != []
    ensures Bit(Limbs(ws), n) == if n < 32 then Bit(ws[0], n) else Bit(Limbs(ws[1..]), n - 32)
  {
    Pow2Values();
    BitSplit(Limbs(ws[1..]), ws[0], 32, n);
  }

  lemma {:induction false} LimbsBound(ws: seq<word>)
    ensures Limbs(ws) < Pow2(32 * |ws|)
  {
    if ws != [] {
      LimbsBound(ws[1..]);
      Pow2Add(32 * (|ws| - 1), 32);
      Pow2Values();
    }
  }

  lemma SameLowByte(a: nat, b: nat)
    requires forall t: nat :: t < 8 ==> Bit(a, t) == Bit(b, t)
    ensures a % 256 == b % 256
  {
    Pow2Values();
    forall t: nat ensures Bit(a % 256, t) == Bit(b % 256, t) {
      BitMod(a, 8, t);
      BitMod(b, 8, t);
    }
    BitExt(a % 256, b % 256);
  }

  lemma LimbByteBit(ws: seq<word>, i: nat, j: nat, t: nat)
    requires i < |ws| && j < 4 && t < 8
    ensures Bit(Shr(ws[i], j * 8), t) == Bit(Shr(Limbs(ws), 8 * (4 * i + j)), t)
  {
    var n := 8 * (4 * i + j) + t;
    BitShr(ws[i], j * 8, t);
    BitShr(Limbs(ws), 8 * (4 * i + j), t);
    LimbBit(ws, n);
    assert n / 32 == i && n % 32 == j * 8 + t;
  }

  lemma LimbByte(ws: seq<word>, i: nat, j: nat)
    requires i < |ws| && j < 4
    ensures Shr(ws[i], j * 8) % 256 == Shr(Limbs(ws), 8 * (4 * i + j)) % 256
  {
    var a, b := Shr(ws[i], j * 8), Shr(Limbs(ws), 8 * (4 * i + j));
    forall t: nat | t < 8 ensures Bit(a, t) == Bit(b, t) { LimbByteBit(ws, i, j, t); }
    SameLowByte(a, b);
  }

  /** Words above the top one carry no value. */
  lemma {:induction false} ZeroLimbs(ws: seq<word>)
    requires forall i :: 0 <= i < |ws| ==> ws[i] == 0
    ensures Limbs(ws) == 0
  {
    if ws != [] { ZeroLimbs(ws[1..]); }
  }
}
