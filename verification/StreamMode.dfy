/**
 * A block function run as a stream cipher: a message is combined byte by byte with the
 * blocks that successive states give. AES in counter mode and ChaCha are two such modes.
 */
module StreamMode {
  import opened Bits

  // ----- combining bytes

  function XorByte(a: byte, b: byte): byte {
    Pow2Values();
    BitBelow(a, b, 8);
    Xor(a, b)
  }

  lemma XorSwaps(a: byte, b: byte)
    ensures XorByte(a, b) == XorByte(b, a)
  {
    forall k: nat ensures Bit(Xor(a, b), k) == Bit(Xor(b, a), k) {
      BitXor(a, b, k);
      BitXor(b, a, k);
    }
    BitExt(Xor(a, b), Xor(b, a));
  }

  lemma XorByteUndoes(k: byte, m: byte)
    ensures XorByte(k, XorByte(k, m)) == m
  {
    XorSwaps(k, m);
    XorSwaps(k, XorByte(k, m));
    XorUndoes(m, k);
  }

  /** A message combined with as much keystream. */
  function Mask(k: seq<byte>, m: seq<byte>): (c: seq<byte>)
    requires |m| <= |k|
    ensures |c| == |m|
  {
    seq(|m|, i requires 0 <= i < |m| => XorByte(k[i], m[i]))
  }

  lemma MaskUndoes(k: seq<byte>, m: seq<byte>)
    requires |m| <= |k|
    ensures Mask(k, Mask(k, m)) == m
  {
    forall i | 0 <= i < |m| ensures Mask(k, Mask(k, m))[i] == m[i] {
      XorByteUndoes(k[i], m[i]);
    }
  }

  lemma MaskHead(k: seq<byte>, m: seq<byte>)
    requires 0 < |m| <= |k|
    ensures Mask(k, m) == [XorByte(k[0], m[0])] + Mask(k[1..], m[1..])
  {
  }

  // ----- modes

  /** The length of a block, the block a state gives, and the state after it. */
  datatype Mode<!S> = Mode(len: nat, block: S -> seq<byte>, next: S -> S)

  function Out<S>(g: Mode<S>, s: S): seq<byte> { g.block(s) }

  function Next<S>(g: Mode<S>, s: S): S { g.next(s) }

  ghost predicate Proper<S(!new)>(g: Mode<S>) { g.len > 0 && forall s: S :: |Out(g, s)| == g.len }

  /** The state k blocks later. */
  function Advance<S>(g: Mode<S>, s: S, k: nat): S {
    if k == 0 then s else Next(g, Advance(g, s, k - 1))
  }

  lemma {:induction false} AdvanceAdd<S>(g: Mode<S>, s: S, j: nat, k: nat)
    ensures Advance(g, Advance(g, s, j), k) == Advance(g, s, j + k)
  {
    if k > 0 { AdvanceAdd(g, s, j, k - 1); }
  }

  lemma AdvanceFirst<S>(g: Mode<S>, s: S, k: nat)
    requires k > 0
    ensures Advance(g, Next(g, s), k - 1) == Advance(g, s, k)
  {
    AdvanceAdd(g, s, 1, k - 1);
    assert Advance(g, s, 1) == Next(g, Advance(g, s, 0));
  }

  /** Block by block, each under the next state. */
  ghost function Crypt<S(!new)>(g: Mode<S>, s: S, m: seq<byte>): (c: seq<byte>)
    requires Proper(g)
    ensures |c| == |m|
    decreases |m|
  {
    if |m| <= g.len then Mask(Out(g, s), m)
    else Mask(Out(g, s), m[..g.len]) + Crypt(g, Next(g, s), m[g.len..])
  }

  /** Blocks of keystream needed for n bytes. */
  function Blocks(len: nat, n: nat): nat
    requires len > 0
  {
    (n + len - 1) / len
  }

  lemma Peel<S(!new)>(g: Mode<S>, s: S, m: seq<byte>)
    requires Proper(g) && |m| >= g.len
    ensures Crypt(g, s, m) == Mask(Out(g, s), m[..g.len]) + Crypt(g, Next(g, s), m[g.len..])
  {
    if |m| == g.len { assert m[..g.len] == m; }
  }

  /** Decryption is encryption again. */
  lemma {:induction false} CryptUndoes<S(!new)>(g: Mode<S>, s: S, m: seq<byte>)
    requires Proper(g)
    ensures Crypt(g, s, Crypt(g, s, m)) == m
    decreases |m|
  {
    var k, c, n := Out(g, s), Crypt(g, s, m), g.len;
    if |m| <= n {
      MaskUndoes(k, m);
    } else {
      CryptParts(g, s, m);
      MaskUndoes(k, m[..n]);
      CryptUndoes(g, Next(g, s), m[n..]);
      Peel(g, s, c);
      assert m == m[..n] + m[n..];
    }
  }

  /** The first block of output, and the rest. */
  lemma CryptParts<S(!new)>(g: Mode<S>, s: S, m: seq<byte>)
    requires Proper(g) && |m| >= g.len
    ensures var c := Crypt(g, s, m);
      c[..g.len] == Mask(Out(g, s), m[..g.len]) && c[g.len..] == Crypt(g, Next(g, s), m[g.len..])
  {
    Peel(g, s, m);
  }

  /** Byte n of block q is combined with byte n of the block of the q-th state. */
  lemma {:induction false} CryptAt<S(!new)>(g: Mode<S>, s: S, m: seq<byte>, q: nat, n: nat, i: nat)
    requires Proper(g) && n < g.len && i == q * g.len + n < |m|
    ensures Crypt(g, s, m)[i] == XorByte(Out(g, Advance(g, s, q))[n], m[i])
    decreases q
  {
    if q > 0 {
      BlockBefore(q, g.len);
      CryptPast(g, s, m, i);
      CryptAt(g, Next(g, s), m[g.len..], q - 1, n, i - g.len);
      AdvanceFirst(g, s, q);
      assert m[g.len..][i - g.len] == m[i];
    } else {
      CryptFirst(g, s, m, i);
    }
  }

  lemma CryptFirst<S(!new)>(g: Mode<S>, s: S, m: seq<byte>, i: nat)
    requires Proper(g) && i < g.len && i < |m|
    ensures Crypt(g, s, m)[i] == XorByte(Out(g, s)[i], m[i])
  {
  }

  lemma BlockBefore(q: nat, len: nat)
    requires q > 0
    ensures q * len == (q - 1) * len + len
  {
  }

  /** Past the first block the output is that of the rest under the next state. */
  lemma CryptPast<S(!new)>(g: Mode<S>, s: S, m: seq<byte>, i: nat)
    requires Proper(g) && g.len <= i < |m|
    ensures Crypt(g, s, m)[i] == Crypt(g, Next(g, s), m[g.len..])[i - g.len]
  {
    CryptParts(g, s, m);
  }

  /** Encrypting `a` from here and `b` from state `t` is encrypting both at once. */
  ghost predicate Joins<S(!new)>(g: Mode<S>, s: S, t: S, a: seq<byte>, b: seq<byte>)
    requires Proper(g)
  {
    Crypt(g, s, a + b) == Crypt(g, s, a) + Crypt(g, t, b)
  }

  lemma PeelBoth<S(!new)>(g: Mode<S>, s: S, t: S, a: seq<byte>, b: seq<byte>)
    requires Proper(g) && |a| >= g.len && Joins(g, Next(g, s), t, a[g.len..], b)
    ensures Joins(g, s, t, a, b)
  {
    Peel(g, s, a);
    assert (a + b)[..g.len] == a[..g.len] && (a + b)[g.len..] == a[g.len..] + b;
    Peel(g, s, a + b);
    ConcatAssoc(Mask(Out(g, s), a[..g.len]), Crypt(g, Next(g, s), a[g.len..]), Crypt(g, t, b));
  }

  lemma ConcatAssoc(x: seq<byte>, y: seq<byte>, z: seq<byte>)
    ensures x + (y + z) == (x + y) + z
  {
  }

  /** A message cut at a block boundary may be processed in two calls. */
  lemma {:induction false} CryptSplits<S(!new)>(g: Mode<S>, s: S, k: nat, a: seq<byte>, b: seq<byte>)
    requires Proper(g) && |a| == k * g.len
    ensures Joins(g, s, Advance(g, s, k), a, b)
    decreases k
  {
    if k == 0 {
      assert a + b == b;
    } else {
      BlockBefore(k, g.len);
      CryptSplits(g, Next(g, s), k - 1, a[g.len..], b);
      AdvanceFirst(g, s, k);
      PeelBoth(g, s, Advance(g, s, k), a, b);
    }
  }

  /** The state moves on by the number of blocks, whether in one call or two. */
  lemma BlocksSplit<S>(g: Mode<S>, s: S, k: nat, b: nat)
    requires g.len > 0
    ensures Advance(g, Advance(g, s, k), Blocks(g.len, b)) == Advance(g, s, Blocks(g.len, k * g.len + b))
  {
    AdvanceAdd(g, s, k, Blocks(g.len, b));
    BlocksAdd(g.len, k, b);
  }

  lemma BlocksAdd(len: nat, k: nat, b: nat)
    requires len > 0
    ensures Blocks(len, k * len + b) == k + Blocks(len, b)
  {
    var t := b + len - 1;
    assert t == len * (t / len) + t % len;
    assert len * (k + t / len) == len * k + len * (t / len);
    assert len * k == k * len;
    DivUnique(k * len + t, len, k + t / len, t % len);
  }

  // ----- keystream left over from a block

  /** The output for `m` when the bytes `left` of the last block are still to be used. */
  ghost function Rest<S(!new)>(g: Mode<S>, s: S, left: seq<byte>, m: seq<byte>): seq<byte>
    requires Proper(g)
  {
    if m == [] then []
    else if left == [] then Crypt(g, s, m)
    else [XorByte(left[0], m[0])] + Rest(g, s, left[1..], m[1..])
  }

  lemma {:induction false} RestShort<S(!new)>(g: Mode<S>, s: S, left: seq<byte>, m: seq<byte>)
    requires Proper(g) && |m| <= |left|
    ensures Rest(g, s, left, m) == Mask(left, m)
  {
    if m != [] {
      MaskHead(left, m);
      RestShort(g, s, left[1..], m[1..]);
    }
  }

  lemma {:induction false} RestLong<S(!new)>(g: Mode<S>, s: S, left: seq<byte>, m: seq<byte>)
    requires Proper(g) && |m| > |left|
    ensures Rest(g, s, left, m) == Mask(left, m[..|left|]) + Crypt(g, s, m[|left|..])
  {
    if left == [] {
      assert m[0..] == m;
    } else {
      var n := |left|;
      RestLong(g, s, left[1..], m[1..]);
      LongerMask(left, m, n);
      ConcatAssoc([XorByte(left[0], m[0])], Mask(left[1..], m[1..][..n - 1]), Crypt(g, s, m[n..]));
    }
  }

  lemma LongerMask(left: seq<byte>, m: seq<byte>, n: nat)
    requires 0 < n == |left| <= |m|
    ensures m[1..][n - 1..] == m[n..]
    ensures Mask(left, m[..n]) == [XorByte(left[0], m[0])] + Mask(left[1..], m[1..][..n - 1])
  {
    assert m[..n][1..] == m[1..][..n - 1] && m[..n][0] == m[0];
    MaskHead(left, m[..n]);
  }

  /** At a block boundary the next block may be made first. */
  lemma Refill<S(!new)>(g: Mode<S>, s: S, m: seq<byte>)
    requires Proper(g) && m != []
    ensures Rest(g, s, [], m) == Rest(g, Next(g, s), Out(g, s), m)
  {
    if |m| <= g.len {
      RestShort(g, Next(g, s), Out(g, s), m);
    } else {
      RestLong(g, Next(g, s), Out(g, s), m);
    }
  }

  /** The output so far and the output still to come make up the whole. */
  ghost predicate Split<S(!new)>(g: Mode<S>, whole: seq<byte>, done: seq<byte>, s: S,
                                 left: seq<byte>, m: seq<byte>)
    requires Proper(g)
  {
    whole == done + Rest(g, s, left, m)
  }

  /** One block, or the whole of what is left if that is less. */
  lemma SplitBlock<S(!new)>(g: Mode<S>, whole: seq<byte>, done: seq<byte>, s: S, m: seq<byte>, n: nat)
    requires Proper(g) && Split(g, whole, done, s, [], m) && m != []
    requires n == if |m| < g.len then |m| else g.len
    ensures Split(g, whole, done + Mask(Out(g, s), m[..n]), Next(g, s), [], m[n..])
  {
    if |m| < g.len {
      assert m[..n] == m;
    } else {
      Peel(g, s, m);
      if m[n..] == [] { assert Crypt(g, Next(g, s), m[n..]) == []; }
    }
  }

  /** One byte, with the next block made first if none is left over. */
  lemma SplitByte<S(!new)>(g: Mode<S>, whole: seq<byte>, done: seq<byte>, s: S, left: seq<byte>,
                           m: seq<byte>)
    requires Proper(g) && Split(g, whole, done, s, left, m) && m != []
    ensures var buf, s' := if left == [] then Out(g, s) else left, if left == [] then Next(g, s) else s;
      buf != [] && Split(g, whole, done + [XorByte(buf[0], m[0])], s', buf[1..], m[1..])
  {
    if left == [] { Refill(g, s, m); }
  }
}
