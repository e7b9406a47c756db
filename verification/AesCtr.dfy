/**
 * AES in counter mode (cipher-aesctr.c). The block cipher is a parameter; the
 * counter, the rolling block of keystream and the buffers are as in the source.
 */
module AesCtr {
  import opened Bits
  import opened StreamMode

  type Block = s: seq<byte> | |s| == 16 witness seq(16, _ => 0)

  // ----- the counter

  function IncByte(b: byte): byte { if b == 255 then 0 else b + 1 }

  /** One more, with carry from the last byte to the first. */
  function IncBytes(s: seq<byte>): (r: seq<byte>)
    ensures |r| == |s|
  {
    if s == [] then []
    else
      var last := IncByte(s[|s| - 1]);
      if last != 0 then s[..|s| - 1] + [last] else IncBytes(s[..|s| - 1]) + [last]
  }

  lemma IncSnoc(s: seq<byte>, b: byte)
    ensures IncBytes(s + [b]) == (if b != 255 then s else IncBytes(s)) + [IncByte(b)]
  {
  }

  /** Incrementing the string increments the big-endian number, modulo 256 to its length. */
  lemma {:induction false} IncBytesVal(s: seq<byte>)
    ensures BE(IncBytes(s)) == if BE(s) + 1 == Pow2(8 * |s|) then 0 else BE(s) + 1
  {
    if s != [] {
      var s0, b := s[..|s| - 1], s[|s| - 1];
      assert s == s0 + [b];
      IncBytesVal(s0);
      IncSnocVal(s0, b);
      BEBound(s0);
      Pow2Add(8 * |s0|, 8);
      Pow2Values();
      CarryVal(BE(s0), BE(IncBytes(s0)), Pow2(8 * |s0|), b);
    }
  }

  /** The carry into v, which stays below p. */
  lemma CarryVal(v: nat, v': nat, p: nat, b: byte)
    requires v < p && v' == if v + 1 == p then 0 else v + 1
    ensures (if b != 255 then v * 256 + b + 1 else v' * 256)
            == if v * 256 + b + 1 == p * 256 then 0 else v * 256 + b + 1
  {
  }

  lemma IncSnocVal(s: seq<byte>, b: byte)
    ensures BE(s + [b]) == BE(s) * 256 + b
    ensures BE(IncBytes(s + [b])) == if b != 255 then BE(s) * 256 + b + 1 else BE(IncBytes(s)) * 256
  {
    IncSnoc(s, b);
    BEAppend(s, b);
    BEAppend(if b != 255 then s else IncBytes(s), IncByte(b));
  }

  lemma BEAppend(s: seq<byte>, b: byte)
    ensures BE(s + [b]) == BE(s) * 256 + b
  {
    assert (s + [b])[..|s|] == s;
  }

  /** `t` agrees with `s` below position n, and from there on with `r`. */
  predicate Meets(t: seq<byte>, s: seq<byte>, r: seq<byte>, n: int) {
    0 <= n <= |t| == |s| == |r| && t[..n] == s[..n] && t[n..] == r[n..]
  }

  lemma MeetsStep(t: seq<byte>, u: seq<byte>, s: seq<byte>, r: seq<byte>, n: nat)
    requires n > 0 && Meets(t, s, r, n) && u == t[n - 1 := r[n - 1]]
    ensures Meets(u, s, r, n - 1)
  {
  }

  lemma MeetsEnd(t: seq<byte>, s: seq<byte>, r: seq<byte>, n: nat)
    requires Meets(t, s, r, n) && s[..n] == r[..n]
    ensures t == r
  {
  }

  /** One byte of the increment of an n-byte prefix. */
  lemma IncUnfolds(s: seq<byte>, r: seq<byte>, n: nat)
    requires 0 < n <= |s| == |r| && r[..n] == IncBytes(s[..n])
    ensures r[n - 1] == IncByte(s[n - 1])
    ensures r[..n - 1] == if r[n - 1] != 0 then s[..n - 1] else IncBytes(s[..n - 1])
  {
    assert s[..n] == s[..n - 1] + [s[n - 1]];
    IncSnoc(s[..n - 1], s[n - 1]);
    assert r[..n] == r[..n - 1] + [r[n - 1]];
  }

  /** aesctr_inc, early exit. */
  method Inc(ctr: array<byte>)
    modifies ctr
    ensures ctr[..] == IncBytes(old(ctr[..]))
  {
    ghost var s := ctr[..];
    ghost var r := IncBytes(s);
    var i := ctr.Length - 1;
    assert s[..ctr.Length] == s && r[..ctr.Length] == r;
    while i >= 0
      invariant -1 <= i < ctr.Length
      invariant Meets(ctr[..], s, r, i + 1) && r[..i + 1] == IncBytes(s[..i + 1])
    {
      ghost var t := ctr[..];
      assert t[i] == t[..i + 1][i] == s[i];
      IncUnfolds(s, r, i + 1);
      ctr[i] := IncByte(ctr[i]);
      MeetsStep(t, ctr[..], s, r, i + 1);
      if ctr[i] != 0 {
        MeetsEnd(ctr[..], s, r, i);
        return;
      }
      i := i - 1;
    }
    MeetsEnd(ctr[..], s, r, 0);
  }

  /** x = (x | (x >> h)) & (2^h - 1) */
  function Fold(x: nat, h: nat): nat { And(Or(x, Shr(x, h)), Not(0, h)) }

  /** x = ctr[i] ? 1 : 0, without a branch. */
  function NonZero(x: byte): nat { Fold(Fold(Fold(x, 4), 2), 1) }

  /** Some bit below n is set. */
  predicate Any(x: nat, n: nat) { n > 0 && (Bit(x, n - 1) || Any(x, n - 1)) }

  lemma FoldBit(x: nat, h: nat, k: nat)
    ensures Bit(Fold(x, h), k) == (k < h && (Bit(x, k) || Bit(x, k + h)))
  {
    BitAnd(Or(x, Shr(x, h)), Not(0, h), k);
    BitOr(x, Shr(x, h), k);
    BitShr(x, h, k);
    BitNot(0, h, k);
    ZeroBits(k);
  }

  lemma {:induction false} FoldAny(x: nat, h: nat, n: nat)
    requires n <= h
    ensures Any(Fold(x, h), n) == (Any(x, n) || AnyFrom(x, h, n))
  {
    if n > 0 {
      FoldBit(x, h, n - 1);
      FoldAny(x, h, n - 1);
    }
  }

  /** Some of the n bits from h upwards is set. */
  predicate AnyFrom(x: nat, h: nat, n: nat) { n > 0 && (Bit(x, h + n - 1) || AnyFrom(x, h, n - 1)) }

  lemma {:induction false} AnySplits(x: nat, h: nat, n: nat)
    ensures Any(x, h + n) == (Any(x, h) || AnyFrom(x, h, n))
  {
    if n > 0 { AnySplits(x, h, n - 1); }
  }

  /** Folding at h keeps whether any of the low 2 h bits is set. */
  lemma FoldKeepsAny(x: nat, h: nat)
    ensures Any(Fold(x, h), h) == Any(x, h + h)
  {
    FoldAny(x, h, h);
    AnySplits(x, h, h);
  }

  lemma {:induction false} AnyMeansNonZero(x: nat, n: nat)
    requires x < Pow2(n)
    ensures Any(x, n) == (x != 0)
  {
    if x == 0 {
      NoneInZero(n);
    } else {
      var k := SomeBit(x);
      if k >= n { NoHighBit(x, n, k); }
      AnyHas(x, n, k);
    }
  }

  lemma {:induction false} NoneInZero(n: nat)
    ensures !Any(0, n)
  {
    if n > 0 {
      ZeroBits(n - 1);
      NoneInZero(n - 1);
    }
  }

  lemma {:induction false} AnyHas(x: nat, n: nat, k: nat)
    requires k < n && Bit(x, k)
    ensures Any(x, n)
  {
    if k < n - 1 { AnyHas(x, n - 1, k); }
  }

  lemma FoldBelow(x: nat, h: nat)
    ensures Fold(x, h) < Pow2(h)
  {
    forall k: nat | k >= h ensures !Bit(Fold(x, h), k) { FoldBit(x, h, k); }
    HighBits(Fold(x, h), h);
  }

  lemma NonZeroIsNonZero(x: byte)
    ensures NonZero(x) == if x == 0 then 0 else 1
  {
    var a := Fold(x, 4);
    var b := Fold(a, 2);
    var c := Fold(b, 1);
    FoldKeepsAny(x, 4);
    FoldKeepsAny(a, 2);
    FoldKeepsAny(b, 1);
    Pow2Values();
    AnyMeansNonZero(x, 8);
    FoldBelow(b, 1);
    AnyMeansNonZero(c, 1);
  }

  /** aesctr_inc, CONSTANT_TIME_INCREMENT: the same function without early exit. */
  method IncConstantTime(ctr: array<byte>)
    modifies ctr
    ensures ctr[..] == IncBytes(old(ctr[..]))
  {
    ghost var s := ctr[..];
    ghost var r := IncBytes(s);
    var add := 1;
    var i := ctr.Length - 1;
    assert s[..ctr.Length] == s && r[..ctr.Length] == r;
    while i >= 0
      invariant -1 <= i < ctr.Length && Carried(ctr[..], s, r, i + 1, add)
    {
      add := IncAt(ctr, i, add, s, r);
      i := i - 1;
    }
    MeetsEnd(ctr[..], s, r, 0);
  }

  /** The carry `add` is still to be added to the first n bytes. */
  ghost predicate Carried(t: seq<byte>, s: seq<byte>, r: seq<byte>, n: int, add: nat) {
    && Meets(t, s, r, n) && (add == 0 || add == 1)
    && r[..n] == if add == 1 then IncBytes(s[..n]) else s[..n]
  }

  /** One byte of the constant-time loop: the carry is multiplied, never tested. */
  method IncAt(ctr: array<byte>, i: nat, add: nat, ghost s: seq<byte>, ghost r: seq<byte>)
    returns (add': nat)
    requires i < ctr.Length && Carried(ctr[..], s, r, i + 1, add)
    modifies ctr
    ensures Carried(ctr[..], s, r, i, add')
  {
    ghost var t := ctr[..];
    assert t[i] == t[..i + 1][i] == s[i];
    if add == 1 { IncUnfolds(s, r, i + 1); } else { assert r[i] == r[..i + 1][i]; }
    ctr[i] := (ctr[i] + add) % 256;
    MeetsStep(t, ctr[..], s, r, i + 1);
    assert s[..i] == s[..i + 1][..i] && r[..i] == r[..i + 1][..i];
    var x := NonZero(ctr[i]);
    NonZeroIsNonZero(ctr[i]);
    add' := add * (1 - x);                            // x ^ 1 for a single bit
  }

  // ----- the cipher

  function Encrypt(e: Block -> Block, x: Block): Block { e(x) }

  function Ctr(e: Block -> Block): Mode<Block> {
    Mode<Block>.Mode(16, (x: Block) => Encrypt(e, x), (x: Block) => IncBytes(x))
  }

  lemma CtrMode(e: Block -> Block)
    ensures Proper(Ctr(e)) && Ctr(e).len == 16
    ensures forall x: Block :: Out(Ctr(e), x) == Encrypt(e, x)
    ensures forall x: Block :: Next(Ctr(e), x) == IncBytes(x)
  {
  }

  /** Section 4 of RFC 4344: block k is encrypted under counter + k modulo 2^128. */
  lemma {:induction false} AdvanceVal(e: Block -> Block, ctr: Block, k: nat)
    requires k < Pow2(8 * |ctr|)
    ensures BE(Advance(Ctr(e), ctr, k)) == if BE(ctr) + k < Pow2(8 * |ctr|) then BE(ctr) + k
                                           else BE(ctr) + k - Pow2(8 * |ctr|)
  {
    BEBound(ctr);
    if k > 0 {
      AdvanceVal(e, ctr, k - 1);
      CtrMode(e);
      IncBytesVal(Advance(Ctr(e), ctr, k - 1));
    }
  }

  /** Counting never repeats a counter block within 2^128 blocks. */
  lemma CountersDiffer(e: Block -> Block, ctr: Block, j: nat, k: nat)
    requires j < k < Pow2(8 * |ctr|)
    ensures Advance(Ctr(e), ctr, j) != Advance(Ctr(e), ctr, k)
  {
    AdvanceVal(e, ctr, j);
    AdvanceVal(e, ctr, k);
  }

  ghost function CryptCtr(e: Block -> Block, ctr: Block, m: seq<byte>): (c: seq<byte>)
    ensures |c| == |m|
  {
    CtrMode(e);
    Crypt(Ctr(e), ctr, m)
  }

  /** Byte i is combined with byte i mod 16 of the encrypted counter + i / 16. */
  lemma KeystreamAt(e: Block -> Block, ctr: Block, m: seq<byte>, i: nat)
    requires i < |m|
    ensures CryptCtr(e, ctr, m)[i] == XorByte(Encrypt(e, Advance(Ctr(e), ctr, i / 16))[i % 16], m[i])
  {
    CtrMode(e);
    CryptAt(Ctr(e), ctr, m, i / 16, i % 16, i);
  }

  // ----- the byte loop

  /** Keystream left in the block when n bytes of it are used; none at a boundary. */
  function Left(buf: Block, n: nat): seq<byte>
    requires n <= 16
  {
    if n == 0 then [] else buf[n..]
  }

  /** The block in use and the counter, for the byte at offset n of a block. */
  function BufAt(e: Block -> Block, ctr: Block, buf: Block, n: nat): Block {
    if n == 0 then Encrypt(e, ctr) else buf
  }

  function CtrAt(ctr: Block, n: nat): Block { if n == 0 then IncBytes(ctr) else ctr }

  ghost predicate Going(e: Block -> Block, whole: seq<byte>, done: seq<byte>, ctr: Block,
                        left: seq<byte>, m: seq<byte>)
  {
    CtrMode(e);
    Split(Ctr(e), whole, done, ctr, left, m)
  }

  lemma ByteStep(e: Block -> Block, whole: seq<byte>, done: seq<byte>, ctr: Block, buf: Block,
                 n: nat, m: seq<byte>)
    requires n < 16 && m != [] && Going(e, whole, done, ctr, Left(buf, n), m)
    ensures Going(e, whole, done + [XorByte(BufAt(e, ctr, buf, n)[n], m[0])], CtrAt(ctr, n),
                  Left(BufAt(e, ctr, buf, n), (n + 1) % 16), m[1..])
  {
    CtrMode(e);
    var b := BufAt(e, ctr, buf, n);
    SplitByte(Ctr(e), whole, done, ctr, Left(buf, n), m);
    assert b[n..][1..] == Left(b, (n + 1) % 16) && (n == 0 ==> b[n..] == b);
  }

  lemma CountStep(i: nat)
    ensures Blocks(16, i + 1) == if i % 16 == 0 then Blocks(16, i) + 1 else Blocks(16, i)
    ensures (i + 1) % 16 == (i % 16 + 1) % 16
  {
  }

  class Context {
    const e: Block -> Block
    const ctr: array<byte>

    ghost predicate Valid() { ctr.Length == 16 }

    ghost function Counter(): Block
      requires Valid()
      reads ctr
    {
      ctr[..]
    }

    constructor (e: Block -> Block, iv: Block)
      ensures Valid() && this.e == e && Counter() == iv && fresh(ctr)
    {
      this.e := e;
      ctr := new byte[16](i requires 0 <= i < 16 => iv[i]);
    }

    /** The next block of keystream, when the last one is used up. */
    method NextBlock(n: nat, buf0: Block) returns (buf: Block)
      requires Valid() && n < 16
      modifies ctr
      ensures buf == BufAt(e, old(Counter()), buf0, n) && Counter() == CtrAt(old(Counter()), n)
    {
      buf := buf0;
      if n == 0 {
        buf := Encrypt(e, ctr[..]);
        Inc(ctr);
      }
    }

    /** aesctr_encrypt_bytes; the destination may be the source. */
    method EncryptBytes(m: array<byte>, c: array<byte>, bytes: nat)
      requires Valid() && bytes <= m.Length && bytes <= c.Length && m != ctr && c != ctr
      modifies ctr, c
      ensures c[..bytes] == CryptCtr(e, old(Counter()), old(m[..bytes]))
      ensures c[bytes..] == old(c[bytes..])
      ensures Counter() == Advance(Ctr(e), old(Counter()), Blocks(16, bytes))
    {
      ghost var ctr0, done, rest := Counter(), [], m[..bytes];
      ghost var out := CryptCtr(e, ctr0, rest);
      var i := 0;
      var buf: Block := seq(16, _ => 0);
      assert m[0..bytes] == rest;
      StartStep(e, ctr0, rest);
      while i < bytes
        invariant 0 <= i <= bytes && Turned(e, ctr0, out, Counter(), buf, i, done, rest)
        invariant Placed(m[..], c[..], old(c[..]), i, bytes, done, rest)
      {
        buf, done, rest := EncryptByte(m, c, i, bytes, buf, ctr0, old(c[..]), out, done, rest);
        i := i + 1;
      }
    }

    /** One round of the loop: byte i, at offset i mod 16 of its block. */
    method EncryptByte(m: array<byte>, c: array<byte>, i: nat, bytes: nat, buf: Block,
                       ghost ctr0: Block, ghost c0: seq<byte>, ghost out: seq<byte>,
                       ghost done: seq<byte>, ghost rest: seq<byte>)
      returns (buf': Block, ghost done': seq<byte>, ghost rest': seq<byte>)
      requires Valid() && i < bytes <= m.Length && bytes <= c.Length && m != ctr && c != ctr
      requires Turned(e, ctr0, out, Counter(), buf, i, done, rest)
      requires Placed(m[..], c[..], c0, i, bytes, done, rest)
      modifies ctr, c
      ensures Turned(e, ctr0, out, Counter(), buf', i + 1, done', rest')
      ensures Placed(m[..], c[..], c0, i + 1, bytes, done', rest')
    {
      var n := i % 16;
      Turn(e, ctr0, out, Counter(), buf, i, done, rest);
      assert m[i] == rest[0] && m[i + 1..bytes] == rest[1..];
      buf' := NextBlock(n, buf);
      c[i] := XorByte(buf'[n], m[i]);
      done', rest' := done + [XorByte(buf'[n], rest[0])], rest[1..];
    }
  }

  /** Where the loop is after i bytes: counter, block in use, output and input. */
  ghost predicate Turned(e: Block -> Block, ctr0: Block, out: seq<byte>, ctr: Block, buf: Block,
                         i: nat, done: seq<byte>, rest: seq<byte>)
  {
    && ctr == Advance(Ctr(e), ctr0, Blocks(16, i)) && Going(e, out, done, ctr, Left(buf, i % 16), rest)
  }

  ghost predicate Placed(m: seq<byte>, c: seq<byte>, c0: seq<byte>, i: nat, bytes: nat,
                         done: seq<byte>, rest: seq<byte>)
  {
    && i <= bytes <= |m| && bytes <= |c| == |c0|
    && c[..i] == done && m[i..bytes] == rest && c[bytes..] == c0[bytes..]
  }

  lemma Turn(e: Block -> Block, ctr0: Block, out: seq<byte>, ctr: Block, buf: Block, i: nat,
             done: seq<byte>, rest: seq<byte>)
    requires Turned(e, ctr0, out, ctr, buf, i, done, rest) && rest != []
    ensures var b := BufAt(e, ctr, buf, i % 16);
      Turned(e, ctr0, out, CtrAt(ctr, i % 16), b, i + 1, done + [XorByte(b[i % 16], rest[0])], rest[1..])
  {
    CountStep(i);
    CounterStep(e, ctr0, i);
    ByteStep(e, out, done, ctr, buf, i % 16, rest);
  }

  lemma StartStep(e: Block -> Block, ctr: Block, m: seq<byte>)
    ensures Going(e, CryptCtr(e, ctr, m), [], ctr, [], m)
  {
  }

  lemma CounterStep(e: Block -> Block, ctr0: Block, i: nat)
    ensures CtrAt(Advance(Ctr(e), ctr0, Blocks(16, i)), i % 16) == Advance(Ctr(e), ctr0, Blocks(16, i + 1))
  {
    CountStep(i);
    CtrMode(e);
  }
}
