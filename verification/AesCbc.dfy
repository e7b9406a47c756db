/**
 * AES in CBC mode (cipher-aes.c, ssh_rijndael_cbc): encryption runs forwards,
 * decryption backwards so that it can work in place, and the last ciphertext block
 * becomes the initialisation vector of the next call. The block cipher and its inverse
 * are parameters.
 */
module AesCbc {
  import opened Bits
  import opened StreamMode

  type Block = s: seq<byte> | |s| == 16 witness seq(16, _ => 0)

  function Apply(f: Block -> Block, x: Block): Block { f(x) }

  /** The two block functions undo each other. */
  ghost predicate Inverses(e: Block -> Block, d: Block -> Block) {
    forall x: Block :: Apply(d, Apply(e, x)) == x
  }

  ghost predicate Whole(m: seq<byte>) { |m| % 16 == 0 }

  // ----- the mode, as section 6.2 of NIST SP 800-38A defines it

  function Enc(e: Block -> Block, iv: Block, m: seq<byte>): (c: seq<byte>)
    requires Whole(m)
    ensures |c| == |m|
    decreases |m|
  {
    if m == [] then []
    else
      var c0 := Apply(e, Mask(iv, m[..16]));
      c0 + Enc(e, c0, m[16..])
  }

  function Dec(d: Block -> Block, iv: Block, c: seq<byte>): (m: seq<byte>)
    requires Whole(c)
    ensures |m| == |c|
    decreases |c|
  {
    if c == [] then []
    else Mask(iv, Apply(d, c[..16])) + Dec(d, c[..16], c[16..])
  }

  /** The initialisation vector left behind by a call with ciphertext c. */
  function NextIv(iv: Block, c: seq<byte>): Block
    requires Whole(c)
  {
    if c == [] then iv else c[|c| - 16..]
  }

  lemma {:induction false} DecUndoesEnc(e: Block -> Block, d: Block -> Block, iv: Block, m: seq<byte>)
    requires Whole(m) && Inverses(e, d)
    ensures Dec(d, iv, Enc(e, iv, m)) == m
    decreases |m|
  {
    if m != [] {
      var x := Mask(iv, m[..16]);
      var c0, c := Apply(e, x), Enc(e, iv, m);
      assert c[..16] == c0 && c[16..] == Enc(e, c0, m[16..]);
      assert Apply(d, c0) == x;
      MaskUndoes(iv, m[..16]);
      DecUndoesEnc(e, d, c0, m[16..]);
    }
  }

  /** A message cut at a block boundary may be encrypted in two calls. */
  lemma {:induction false} EncSplits(e: Block -> Block, iv: Block, a: seq<byte>, b: seq<byte>)
    requires Whole(a) && Whole(b)
    ensures Enc(e, iv, a + b) == Enc(e, iv, a) + Enc(e, NextIv(iv, Enc(e, iv, a)), b)
    decreases |a|
  {
    if a == [] {
      assert a + b == b;
    } else {
      var c0 := Apply(e, Mask(iv, a[..16]));
      assert (a + b)[..16] == a[..16] && (a + b)[16..] == a[16..] + b;
      EncSplits(e, c0, a[16..], b);
      NextIvStep(iv, c0, Enc(e, c0, a[16..]));
    }
  }

  lemma NextIvStep(iv: Block, c0: Block, c: seq<byte>)
    requires Whole(c)
    ensures NextIv(iv, c0 + c) == NextIv(c0, c)
  {
  }

  lemma {:induction false} DecSplits(d: Block -> Block, iv: Block, a: seq<byte>, b: seq<byte>)
    requires Whole(a) && Whole(b)
    ensures Dec(d, iv, a + b) == Dec(d, iv, a) + Dec(d, NextIv(iv, a), b)
    decreases |a|
  {
    if a == [] {
      assert a + b == b;
    } else {
      var c0 := a[..16];
      assert (a + b)[..16] == c0 && (a + b)[16..] == a[16..] + b && a == c0 + a[16..];
      DecSplits(d, c0, a[16..], b);
      NextIvStep(iv, c0, a[16..]);
    }
  }

  // ----- a session: many calls, the vector carried from one to the next

  ghost predicate AllWhole(ms: seq<seq<byte>>) { forall i :: 0 <= i < |ms| ==> Whole(ms[i]) }

  function EncAll(e: Block -> Block, iv: Block, ms: seq<seq<byte>>): (cs: seq<seq<byte>>)
    requires AllWhole(ms)
    ensures |cs| == |ms| && AllWhole(cs)
    decreases |ms|
  {
    if ms == [] then []
    else
      var c := Enc(e, iv, ms[0]);
      [c] + EncAll(e, NextIv(iv, c), ms[1..])
  }

  function DecAll(d: Block -> Block, iv: Block, cs: seq<seq<byte>>): seq<seq<byte>>
    requires AllWhole(cs)
    decreases |cs|
  {
    if cs == [] then [] else [Dec(d, iv, cs[0])] + DecAll(d, NextIv(iv, cs[0]), cs[1..])
  }

  function IvAfter(iv: Block, cs: seq<seq<byte>>): Block
    requires AllWhole(cs)
    decreases |cs|
  {
    if cs == [] then iv else IvAfter(NextIv(iv, cs[0]), cs[1..])
  }

  function Joined(ms: seq<seq<byte>>): (m: seq<byte>)
    requires AllWhole(ms)
    ensures Whole(m)
  {
    if ms == [] then [] else ms[0] + Joined(ms[1..])
  }

  /** Every message of a session comes back, however the stream was cut into messages. */
  lemma {:induction false} SessionRoundTrip(e: Block -> Block, d: Block -> Block, iv: Block,
                                            ms: seq<seq<byte>>)
    requires AllWhole(ms) && Inverses(e, d)
    ensures DecAll(d, iv, EncAll(e, iv, ms)) == ms
    decreases |ms|
  {
    if ms != [] {
      var m, t := ms[0], ms[1..];
      var c := Enc(e, iv, m);
      var cs := EncAll(e, NextIv(iv, c), t);
      DecUndoesEnc(e, d, iv, m);
      SessionRoundTrip(e, d, NextIv(iv, c), t);
      DecAllCons(d, iv, c, cs);
      assert EncAll(e, iv, ms) == [c] + cs && [m] + t == ms;
    }
  }

  lemma DecAllCons(d: Block -> Block, iv: Block, c: seq<byte>, cs: seq<seq<byte>>)
    requires Whole(c) && AllWhole(cs)
    ensures AllWhole([c] + cs)
    ensures DecAll(d, iv, [c] + cs) == [Dec(d, iv, c)] + DecAll(d, NextIv(iv, c), cs)
  {
    assert ([c] + cs)[1..] == cs;
  }

  /** The calls of a session produce the ciphertext of one call on the whole stream. */
  lemma {:induction false} SessionIsOneCall(e: Block -> Block, iv: Block, ms: seq<seq<byte>>)
    requires AllWhole(ms)
    ensures Joined(EncAll(e, iv, ms)) == Enc(e, iv, Joined(ms))
    ensures IvAfter(iv, EncAll(e, iv, ms)) == NextIv(iv, Enc(e, iv, Joined(ms)))
    decreases |ms|
  {
    if ms != [] {
      var c, rest := Enc(e, iv, ms[0]), Joined(ms[1..]);
      var iv' := NextIv(iv, c);
      SessionIsOneCall(e, iv', ms[1..]);
      assert EncAll(e, iv, ms)[1..] == EncAll(e, iv', ms[1..]);
      EncSplits(e, iv, ms[0], rest);
      NextIvConcat(iv, c, Enc(e, iv', rest));
    }
  }

  lemma NextIvConcat(iv: Block, a: seq<byte>, b: seq<byte>)
    requires Whole(a) && Whole(b)
    ensures NextIv(iv, a + b) == NextIv(NextIv(iv, a), b)
  {
  }

  // ----- the loops, each as the rest of its call sees it

  datatype Outcome = Ok | Fatal

  /** `t` is `s` with the bytes from `at` on replaced by `b`. */
  ghost predicate Replaced(t: seq<byte>, s: seq<byte>, at: nat, b: seq<byte>) {
    at + |b| <= |s| && t == s[..at] + b + s[at + |b|..]
  }

  /** b[j] = k[j] ^ a[j], over one block. */
  method XorBlock(k: Block, a: array<byte>, at: nat) returns (r: Block)
    requires at + 16 <= a.Length
    ensures r == Mask(k, a[at..at + 16])
  {
    var buf := new byte[16];
    var j := 0;
    while j < 16
      invariant 0 <= j <= 16
      invariant forall t :: 0 <= t < j ==> buf[t] == XorByte(k[t], a[at + t])
    {
      buf[j] := XorByte(k[j], a[at + j]);
      j := j + 1;
    }
    r := buf[..];
  }

  method PutBlock(a: array<byte>, at: nat, b: Block)
    requires at + 16 <= a.Length
    modifies a
    ensures Replaced(a[..], old(a[..]), at, b)
  {
    forall j | 0 <= j < 16 { a[at + j] := b[j]; }
  }

  /** The output so far and the output still to come make up the whole. */
  ghost predicate Going(e: Block -> Block, whole: seq<byte>, done: seq<byte>, iv: Block, rest: seq<byte>) {
    Whole(rest) && whole == done + Enc(e, iv, rest)
  }

  lemma EncStep(e: Block -> Block, whole: seq<byte>, done: seq<byte>, iv: Block, rest: seq<byte>)
    requires rest != [] && Going(e, whole, done, iv, rest)
    ensures |rest| >= 16
    ensures Going(e, whole, done + Apply(e, Mask(iv, rest[..16])), Apply(e, Mask(iv, rest[..16])),
                  rest[16..])
  {
  }

  /** One block of encryption: buf := plain ^ cprev, then enciphered to cnow. */
  method EncryptBlock(e: Block -> Block, dest: array<byte>, src: array<byte>, at: nat, len: nat,
                      cprev: Block, ghost rest: seq<byte>) returns (cnow: Block)
    requires at + 16 <= len <= src.Length && len <= dest.Length && src[at..len] == rest
    modifies dest
    ensures cnow == Apply(e, Mask(cprev, rest[..16]))
    ensures dest[..at + 16] == old(dest[..at]) + cnow && dest[len..] == old(dest[len..])
    ensures src[at + 16..len] == rest[16..]
  {
    assert src[at..at + 16] == rest[..16] && src[at + 16..len] == rest[16..];
    var buf := XorBlock(cprev, src, at);
    cnow := Apply(e, buf);
    PutBlock(dest, at, cnow);
    ReplacedParts(dest[..], old(dest[..]), at, cnow, len);
  }

  lemma ReplacedParts(t: seq<byte>, s: seq<byte>, at: nat, b: Block, len: nat)
    requires at + 16 <= len <= |s| && Replaced(t, s, at, b)
    ensures |t| == |s| && t[..at + 16] == s[..at] + b && t[at..at + 16] == b
    ensures t[at + 16..len] == s[at + 16..len] && t[len..] == s[len..] && t[..at] == s[..at]
    ensures t[at..len] == b + s[at + 16..len]
  {
  }

  method EncryptLoop(e: Block -> Block, iv: Block, dest: array<byte>, src: array<byte>, len: nat)
    returns (cprev: Block)
    requires 0 < len && len % 16 == 0 && len <= src.Length && len <= dest.Length
    modifies dest
    ensures dest[..len] == Enc(e, iv, old(src[..len])) && dest[len..] == old(dest[len..])
    ensures cprev == NextIv(iv, dest[..len])
  {
    ghost var done, rest := [], src[..len];
    ghost var out := Enc(e, iv, rest);
    cprev := iv;
    var at := 0;
    assert rest == src[0..len];
    while at < len
      invariant Encrypted(e, iv, out, done, cprev, rest, at, len)
      invariant Placed(dest[..], old(dest[..]), src[..], at, len, done, rest)
    {
      cprev, at, done, rest :=
        EncryptTurn(e, iv, dest, src, at, len, cprev, old(dest[..]), out, done, rest);
    }
  }

  /** Where the loop is with `at` bytes done. */
  ghost predicate Encrypted(e: Block -> Block, iv: Block, out: seq<byte>, done: seq<byte>, cprev: Block,
                            rest: seq<byte>, at: nat, len: nat)
  {
    && at % 16 == 0 && |done| == at && |rest| == len - at
    && Going(e, out, done, cprev, rest) && cprev == NextIv(iv, done)
  }

  ghost predicate Placed(dest: seq<byte>, dest0: seq<byte>, src: seq<byte>, at: nat, len: nat,
                         done: seq<byte>, rest: seq<byte>)
  {
    && at <= len <= |src| && len <= |dest| == |dest0|
    && dest[..at] == done && src[at..len] == rest && dest[len..] == dest0[len..]
  }

  method EncryptTurn(e: Block -> Block, ghost iv: Block, dest: array<byte>, src: array<byte>, at: nat,
                     len: nat, cprev: Block, ghost dest0: seq<byte>, ghost out: seq<byte>,
                     ghost done: seq<byte>, ghost rest: seq<byte>)
    returns (cnow: Block, at': nat, ghost done': seq<byte>, ghost rest': seq<byte>)
    requires at < len && Encrypted(e, iv, out, done, cprev, rest, at, len)
    requires Placed(dest[..], dest0, src[..], at, len, done, rest)
    modifies dest
    ensures at' > at && Encrypted(e, iv, out, done', cnow, rest', at', len)
    ensures Placed(dest[..], dest0, src[..], at', len, done', rest')
  {
    EncStepped(e, iv, out, done, cprev, rest, at, len);
    cnow := EncryptBlock(e, dest, src, at, len, cprev, rest);
    at', done', rest' := at + 16, done + cnow, rest[16..];
  }

  lemma EncStepped(e: Block -> Block, iv: Block, out: seq<byte>, done: seq<byte>, cprev: Block,
                   rest: seq<byte>, at: nat, len: nat)
    requires at < len && Encrypted(e, iv, out, done, cprev, rest, at, len)
    ensures |rest| >= 16 && at + 16 <= len
    ensures var c := Apply(e, Mask(cprev, rest[..16]));
      Encrypted(e, iv, out, done + c, c, rest[16..], at + 16, len)
  {
    EncStep(e, out, done, cprev, rest);
    NextIvSnoc(iv, done, Apply(e, Mask(cprev, rest[..16])));
  }

  lemma NextIvSnoc(iv: Block, done: seq<byte>, c: Block)
    requires Whole(done)
    ensures Whole(done + c) && NextIv(iv, done + c) == c
  {
  }

  /**
   * One block of decryption: decipher cnow to plain, then combine with the ciphertext
   * block before it, which is still in place since the loop runs backwards.
   */
  method DecryptBlock(d: Block -> Block, iv: Block, dest: array<byte>, src: array<byte>, at: nat,
                      len: nat, ghost c: seq<byte>)
    requires at % 16 == 0 && at + 16 <= len <= src.Length && len <= dest.Length && len == |c|
    requires src[..at + 16] == c[..at + 16]
    modifies dest
    ensures dest[at..len] ==
            Mask(if at == 0 then iv else c[at - 16..at], Apply(d, c[at..at + 16])) + old(dest[at + 16..len])
    ensures src[..at] == c[..at] && dest[len..] == old(dest[len..])
  {
    ghost var d0 := dest[..];
    assert src[at..at + 16] == src[..at + 16][at..] == c[at..at + 16];
    assert src[..at] == src[..at + 16][..at] == c[..at];
    var plain := Apply(d, src[at..at + 16]);
    PutBlock(dest, at, plain);
    ghost var d1 := dest[..];
    ReplacedParts(d1, d0, at, plain, len);
    assert src[..at] == c[..at];
    assert at > 0 ==> src[at - 16..at] == src[..at][at - 16..] == c[at - 16..at];
    var ivp: Block := if at == 0 then iv else src[at - 16..at];
    var x := XorBlock(ivp, dest, at);
    PutBlock(dest, at, x);
    ReplacedParts(dest[..], d1, at, x, len);
  }

  method DecryptLoop(d: Block -> Block, iv: Block, dest: array<byte>, src: array<byte>, len: nat)
    requires 0 < len && len % 16 == 0 && len <= src.Length && len <= dest.Length
    modifies dest
    ensures dest[..len] == Dec(d, iv, old(src[..len])) && dest[len..] == old(dest[len..])
  {
    ghost var c := src[..len];
    var at: nat := len;
    while at > 0
      invariant at <= len && Decrypted(d, iv, c, at, dest[..], old(dest[..]), src[..])
    {
      at := DecryptTurn(d, iv, dest, src, at, len, c, old(dest[..]));
    }
    assert c[0..] == c && dest[0..len] == dest[..len];
  }

  /** From position `at` on the blocks are decrypted; below it the ciphertext is still there. */
  ghost predicate Decrypted(d: Block -> Block, iv: Block, c: seq<byte>, at: nat, dest: seq<byte>,
                            dest0: seq<byte>, src: seq<byte>)
  {
    && Whole(c) && at % 16 == 0 && at <= |c| <= |src| && |c| <= |dest| == |dest0|
    && dest[at..|c|] == Dec(d, Before(iv, c, at), c[at..])
    && src[..at] == c[..at] && dest[|c|..] == dest0[|c|..]
  }

  method DecryptTurn(d: Block -> Block, iv: Block, dest: array<byte>, src: array<byte>, at: nat,
                     len: nat, ghost c: seq<byte>, ghost dest0: seq<byte>) returns (at': nat)
    requires at > 0 && len == |c| && Decrypted(d, iv, c, at, dest[..], dest0, src[..])
    modifies dest
    ensures at' < at && Decrypted(d, iv, c, at', dest[..], dest0, src[..])
  {
    at' := at - 16;
    DecTail(d, iv, c, at');
    DecryptBlock(d, iv, dest, src, at', len, c);
  }

  /** The block before position `at`. */
  function Before(iv: Block, c: seq<byte>, at: nat): Block
    requires at <= |c| && at % 16 == 0
  {
    if at == 0 then iv else c[at - 16..at]
  }

  lemma DecTail(d: Block -> Block, iv: Block, c: seq<byte>, at: nat)
    requires Whole(c) && at % 16 == 0 && at + 16 <= |c|
    ensures Dec(d, Before(iv, c, at), c[at..]) ==
            Mask(Before(iv, c, at), Apply(d, c[at..at + 16])) + Dec(d, c[at..at + 16], c[at + 16..])
  {
    assert c[at..][..16] == c[at..at + 16] && c[at..][16..] == c[at + 16..];
  }

  // ----- the context

  class Context {
    const e: Block -> Block
    const d: Block -> Block
    const r_iv: array<byte>

    ghost predicate Valid() { r_iv.Length == 16 }

    ghost function Iv(): Block
      requires Valid()
      reads r_iv
    {
      r_iv[..]
    }

    constructor (e: Block -> Block, d: Block -> Block, iv: Block)
      ensures Valid() && this.e == e && this.d == d && Iv() == iv && fresh(r_iv)
    {
      this.e, this.d := e, d;
      r_iv := new byte[16](i requires 0 <= i < 16 => iv[i]);
    }

    method SetIv(s: Block)
      requires Valid()
      modifies r_iv
      ensures Iv() == s
    {
      forall i | 0 <= i < 16 { r_iv[i] := s[i]; }
    }

    /** The encrypting branch; the destination may be the source. */
    method Encrypt(dest: array<byte>, src: array<byte>, len: nat) returns (r: Outcome)
      requires Valid() && len <= src.Length && len <= dest.Length && dest != r_iv && src != r_iv
      modifies r_iv, dest
      ensures len % 16 != 0 ==> r == Fatal && dest[..] == old(dest[..]) && Iv() == old(Iv())
      ensures len % 16 == 0 ==> r == Ok && dest[..len] == Enc(e, old(Iv()), old(src[..len]))
      ensures len % 16 == 0 ==> Iv() == NextIv(old(Iv()), dest[..len])
      ensures dest[len..] == old(dest[len..])
    {
      if len == 0 { return Ok; }
      if len % 16 != 0 { return Fatal; }
      var cprev := EncryptLoop(e, r_iv[..], dest, src, len);
      SetIv(cprev);
      return Ok;
    }

    /** The decrypting branch: the same vector is left behind as on the other side. */
    method Decrypt(dest: array<byte>, src: array<byte>, len: nat) returns (r: Outcome)
      requires Valid() && len <= src.Length && len <= dest.Length && dest != r_iv && src != r_iv
      modifies r_iv, dest
      ensures len % 16 != 0 ==> r == Fatal && dest[..] == old(dest[..]) && Iv() == old(Iv())
      ensures len % 16 == 0 ==> r == Ok && dest[..len] == Dec(d, old(Iv()), old(src[..len]))
      ensures len % 16 == 0 ==> Iv() == NextIv(old(Iv()), old(src[..len]))
      ensures dest[len..] == old(dest[len..])
    {
      if len == 0 { return Ok; }
      if len % 16 != 0 { return Fatal; }
      var buf := src[len - 16..len];
      assert buf == src[..len][len - 16..];
      DecryptLoop(d, r_iv[..], dest, src, len);
      SetIv(buf);
      return Ok;
    }
  }
}
