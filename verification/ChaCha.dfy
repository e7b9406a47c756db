/**
 * The ChaCha stream cipher (chacha.c): sixteen words of state with a 64-bit block
 * counter in words 12 and 13, and buffers processed 64 bytes at a time with a
 * temporary block for the tail. The rounds are a parameter: they map a state to the
 * sixteen words that are combined with the message.
 */
module ChaCha {
  import opened Bits
  import opened StreamMode

  type State = s: seq<word> | |s| == 16 witness seq(16, _ => 0)

  // ----- words and bytes, little-endian

  /** Byte t of a word: (w >> 8 t) & 0xff */
  function ByteOf(w: nat, t: nat): byte {
    if t == 0 then w % 256 else ByteOf(w / 256, t - 1)
  }

  /** The word whose bytes start at `at`: the bytes do not overlap, so | is +. */
  function WordIn(s: seq<byte>, at: int): word
    requires 0 <= at && at + 4 <= |s|
  {
    var w3: nat := s[at + 3];
    var w2: nat := s[at + 2] + 256 * w3;
    var w1: nat := s[at + 1] + 256 * w2;
    s[at] + 256 * w1
  }

  function XorWord(a: word, b: word): word {
    Pow2Values();
    BitBelow(a, b, 32);
    Xor(a, b)
  }

  lemma XorParts(w: nat, v: nat)
    ensures Xor(w, v) % 256 == Xor(w % 256, v % 256)
    ensures Xor(w, v) / 256 == Xor(w / 256, v / 256)
  {
    Pow2Values();
    forall k: nat ensures Bit(Xor(w, v) % 256, k) == Bit(Xor(w % 256, v % 256), k) {
      BitMod(Xor(w, v), 8, k);
      BitMod(w, 8, k);
      BitMod(v, 8, k);
      BitXor(w, v, k);
      BitXor(w % 256, v % 256, k);
    }
    BitExt(Xor(w, v) % 256, Xor(w % 256, v % 256));
    XorHigh(w, v);
  }

  lemma XorHigh(w: nat, v: nat)
    ensures Xor(w, v) / 256 == Xor(w / 256, v / 256)
  {
    Pow2Values();
    ShrDivides(Xor(w, v), 8);
    ShrDivides(w, 8);
    ShrDivides(v, 8);
    forall k: nat ensures Bit(Shr(Xor(w, v), 8), k) == Bit(Xor(Shr(w, 8), Shr(v, 8)), k) {
      BitShr(Xor(w, v), 8, k);
      BitShr(w, 8, k);
      BitShr(v, 8, k);
      BitXor(w, v, 8 + k);
      BitXor(Shr(w, 8), Shr(v, 8), k);
    }
    BitExt(Shr(Xor(w, v), 8), Xor(Shr(w, 8), Shr(v, 8)));
  }

  lemma {:induction false} XorByteOf(w: nat, v: nat, t: nat)
    ensures ByteOf(Xor(w, v), t) == Xor(ByteOf(w, t), ByteOf(v, t))
  {
    XorParts(w, v);
    if t > 0 { XorByteOf(w / 256, v / 256, t - 1); }
  }

  lemma ByteOfWord(s: seq<byte>, at: nat, t: nat)
    requires at + 4 <= |s| && t < 4
    ensures ByteOf(WordIn(s, at), t) == s[at + t]
  {
    var w3: nat := s[at + 3];
    var w2: nat := s[at + 2] + 256 * w3;
    var w1: nat := s[at + 1] + 256 * w2;
    assert ByteOf(w2, 1) == ByteOf(w3, 0);
    assert ByteOf(w1, 1) == ByteOf(w2, 0) && ByteOf(w1, 2) == ByteOf(w2, 1);
    assert WordIn(s, at) / 256 == w1;
  }

  /** Combining words combines their bytes. */
  lemma XorBytes(w: word, s: seq<byte>, at: nat, t: nat)
    requires at + 4 <= |s| && t < 4
    ensures ByteOf(XorWord(w, WordIn(s, at)), t) == XorByte(ByteOf(w, t), s[at + t])
  {
    XorByteOf(w, WordIn(s, at), t);
    ByteOfWord(s, at, t);
  }

  // ----- the keystream of one state

  function Core(f: State -> State, j: State): State { f(j) }

  /** Words written out one after the other. */
  function Written(x: seq<word>): (r: seq<byte>)
    ensures |r| == 4 * |x|
  {
    if x == [] then []
    else [ByteOf(x[0], 0), ByteOf(x[0], 1), ByteOf(x[0], 2), ByteOf(x[0], 3)] + Written(x[1..])
  }

  lemma {:induction false} WrittenAt(x: seq<word>, w: nat, t: nat)
    requires w < |x| && t < 4
    ensures Written(x)[4 * w + t] == ByteOf(x[w], t)
  {
    if w > 0 { WrittenAt(x[1..], w - 1, t); }
  }

  function Block(f: State -> State, j: State): (r: seq<byte>)
    ensures |r| == 64
  {
    Written(Core(f, j))
  }

  // ----- the counter

  function PlusOne(w: word): word { if w == U32 - 1 then 0 else w + 1 }

  function Tick(s: State): State {
    var low := PlusOne(s[12]);
    if low == 0 then s[12 := low][13 := PlusOne(s[13])] else s[12 := low]
  }

  function Cha(f: State -> State): Mode<State> {
    Mode<State>.Mode(64, (s: State) => Block(f, s), (s: State) => Tick(s))
  }

  lemma ChaMode(f: State -> State)
    ensures Proper(Cha(f)) && Cha(f).len == 64
    ensures forall s: State :: Out(Cha(f), s) == Block(f, s)
    ensures forall s: State :: Next(Cha(f), s) == Tick(s)
  {
  }

  function Counter(s: State): nat { s[13] * U32 + s[12] }

  const COUNTERS: nat := U32 * U32

  lemma TickVal(s: State)
    ensures Counter(Tick(s)) == if Counter(s) + 1 == COUNTERS then 0 else Counter(s) + 1
    ensures Counter(s) < COUNTERS
    ensures Tick(s)[..12] == s[..12] && Tick(s)[14..] == s[14..]
  {
  }

  /** The block counter is a 64-bit number, low word first. */
  lemma {:induction false} AdvanceVal(f: State -> State, s: State, k: nat)
    requires k < COUNTERS
    ensures Counter(Advance(Cha(f), s, k)) == if Counter(s) + k < COUNTERS then Counter(s) + k
                                              else Counter(s) + k - COUNTERS
  {
    TickVal(s);
    if k > 0 {
      AdvanceVal(f, s, k - 1);
      ChaMode(f);
      TickVal(Advance(Cha(f), s, k - 1));
    }
  }

  lemma {:induction false} OnlyTheCounterMoves(f: State -> State, s: State, k: nat)
    ensures Advance(Cha(f), s, k)[..12] == s[..12] && Advance(Cha(f), s, k)[14..] == s[14..]
  {
    if k > 0 {
      OnlyTheCounterMoves(f, s, k - 1);
      ChaMode(f);
      TickVal(Advance(Cha(f), s, k - 1));
    }
  }

  /** No state (key, nonce and counter) recurs within 2^64 blocks of one nonce. */
  lemma StatesDiffer(f: State -> State, s: State, j: nat, k: nat)
    requires j < k < COUNTERS
    ensures Advance(Cha(f), s, j) != Advance(Cha(f), s, k)
  {
    AdvanceVal(f, s, j);
    AdvanceVal(f, s, k);
  }

  // ----- the cipher

  ghost function CryptCha(f: State -> State, s: State, m: seq<byte>): (c: seq<byte>)
    ensures |c| == |m|
  {
    ChaMode(f);
    Crypt(Cha(f), s, m)
  }

  /** Byte i is combined with byte i mod 64 of the block of counter + i / 64. */
  lemma KeystreamAt(f: State -> State, s: State, m: seq<byte>, i: nat)
    requires i < |m|
    ensures CryptCha(f, s, m)[i] == XorByte(Block(f, Advance(Cha(f), s, i / 64))[i % 64], m[i])
  {
    ChaMode(f);
    CryptAt(Cha(f), s, m, i / 64, i % 64, i);
  }

  // ----- set-up

  const SIGMA: seq<byte> := [101, 120, 112, 97, 110, 100, 32, 51, 50, 45, 98, 121, 116, 101, 32, 107]
  const TAU: seq<byte> := [101, 120, 112, 97, 110, 100, 32, 49, 54, 45, 98, 121, 116, 101, 32, 107]

  /** Words 0 to 11 for a key of 256 bits, or for any other `kbits` of 128. */
  function KeyWords(k: seq<byte>, kbits: nat): (r: seq<word>)
    requires |k| >= if kbits == 256 then 32 else 16
    ensures |r| == 12
  {
    var c, h := if kbits == 256 then SIGMA else TAU, if kbits == 256 then 16 else 0;
    [WordIn(c, 0), WordIn(c, 4), WordIn(c, 8), WordIn(c, 12),
     WordIn(k, 0), WordIn(k, 4), WordIn(k, 8), WordIn(k, 12),
     WordIn(k, h), WordIn(k, h + 4), WordIn(k, h + 8), WordIn(k, h + 12)]
  }

  /** The state for a nonce and a starting counter; no counter means zero. */
  function Start(key: seq<word>, iv: seq<byte>, counter: seq<byte>): State
    requires |key| == 12 && |iv| == 8 && (counter == [] || |counter| == 8)
  {
    key + [if counter == [] then 0 else WordIn(counter, 0),
           if counter == [] then 0 else WordIn(counter, 4),
           WordIn(iv, 0), WordIn(iv, 4)]
  }

  class Context {
    const f: State -> State
    const input: array<word>

    ghost predicate Valid() { input.Length == 16 }

    ghost function View(): State
      requires Valid()
      reads input
    {
      input[..]
    }

    /** chacha_keysetup on a fresh context; words 12 to 15 are not set yet. */
    constructor (f: State -> State, k: seq<byte>, kbits: nat)
      requires |k| >= if kbits == 256 then 32 else 16
      ensures Valid() && View()[..12] == KeyWords(k, kbits) && fresh(input) && this.f == f
    {
      var w := KeyWords(k, kbits);
      this.f := f;
      input := new word[16](i => if 0 <= i < 12 then w[i] else 0);
    }

    /** chacha_ivsetup */
    method IvSetup(iv: seq<byte>, counter: seq<byte>)
      requires Valid() && |iv| == 8 && (counter == [] || |counter| == 8)
      modifies input
      ensures View() == Start(old(View())[..12], iv, counter)
    {
      input[12] := if counter == [] then 0 else WordIn(counter, 0);
      input[13] := if counter == [] then 0 else WordIn(counter, 4);
      input[14] := WordIn(iv, 0);
      input[15] := WordIn(iv, 4);
    }

    /**
     * chacha_encrypt_bytes on m[mo..] and c[co..]; the destination may be the source.
     * A tail shorter than a block goes through `tmp`, whose other bytes stay unset.
     */
    method EncryptBytes(m: array<byte>, mo: nat, c: array<byte>, co: nat, bytes: nat)
      requires Valid() && mo + bytes <= m.Length && co + bytes <= c.Length
      requires m != c || mo == co
      modifies input, c
      ensures View() == Advance(Cha(f), old(View()), Blocks(64, bytes))
      ensures c[co..co + bytes] == CryptCha(f, old(View()), old(m[mo..mo + bytes]))
      ensures Outside(c[..], old(c[..]), co, bytes)
    {
      if bytes == 0 { return; }
      var j := EncryptLoop(f, input[..], m, mo, c, co, bytes);
      OnlyTheCounterMoves(f, input[..], Blocks(64, bytes));
      input[12], input[13] := j[12], j[13];
    }
  }

  /** `t` equals `s` outside n positions from `at` on. */
  ghost predicate Outside(t: seq<byte>, s: seq<byte>, at: nat, n: nat) {
    |t| == |s| && forall i :: 0 <= i < |t| && !(at <= i < at + n) ==> t[i] == s[i]
  }

  /** The bytes from `at` on are those of word `w`. */
  predicate Holds(s: seq<byte>, at: int, w: word) {
    0 <= at && at + 4 <= |s| && forall t :: 0 <= t < 4 ==> s[at + t] == ByteOf(w, t)
  }

  lemma WordsCombine(x0: State, x: State, m: seq<byte>, c: seq<byte>)
    requires |m| == |c| == 64
    requires forall w :: 0 <= w < 16 ==> x[w] == XorWord(x0[w], WordIn(m, 4 * w))
    requires forall w :: 0 <= w < 16 ==> Holds(c, 4 * w, x[w])
    ensures c == Mask(Written(x0), m)
  {
    forall i | 0 <= i < 64 ensures c[i] == XorByte(Written(x0)[i], m[i]) {
      WrittenAt(x0, i / 4, i % 4);
      WordCombines(x0, x, m, c, i / 4, i % 4);
    }
  }

  lemma WordCombines(x0: State, x: State, m: seq<byte>, c: seq<byte>, w: nat, t: nat)
    requires |m| == |c| == 64 && w < 16 && t < 4
    requires x[w] == XorWord(x0[w], WordIn(m, 4 * w)) && Holds(c, 4 * w, x[w])
    ensures c[4 * w + t] == XorByte(ByteOf(x0[w], t), m[4 * w + t])
  {
    XorBytes(x0[w], m, 4 * w, t);
  }

  /** Word w of a block is the same word wherever the slice starts. */
  lemma WordInPlace(s: seq<byte>, mo: nat, w: nat)
    requires mo + 64 <= |s| && w < 16
    ensures WordIn(s[mo + 4 * w..mo + 4 * w + 4], 0) == WordIn(s[mo..mo + 64], 4 * w)
  {
    var one, all := s[mo + 4 * w..mo + 4 * w + 4], s[mo..mo + 64];
    assert one[0] == all[4 * w] && one[1] == all[4 * w + 1];
    assert one[2] == all[4 * w + 2] && one[3] == all[4 * w + 3];
  }

  method Combine(x0: State, m: array<byte>, mo: nat) returns (x: State)
    requires mo + 64 <= m.Length
    ensures forall w :: 0 <= w < 16 ==> x[w] == XorWord(x0[w], WordIn(m[mo..mo + 64], 4 * w))
  {
    x := x0;
    var w := 0;
    while w < 16
      invariant 0 <= w <= 16
      invariant forall i :: w <= i < 16 ==> x[i] == x0[i]
      invariant forall i :: 0 <= i < w ==> x[i] == XorWord(x0[i], WordIn(m[mo..mo + 64], 4 * i))
    {
      var at := mo + 4 * w;
      WordInPlace(m[..], mo, w);
      x := x[w := XorWord(x[w], WordIn(m[at..at + 4], 0))];
      w := w + 1;
    }
  }

  method WriteWords(x: State, c: array<byte>, co: nat)
    requires co + 64 <= c.Length
    modifies c
    ensures forall w :: 0 <= w < 16 ==> Holds(c[co..co + 64], 4 * w, x[w])
    ensures Outside(c[..], old(c[..]), co, 64)
  {
    var w := 0;
    while w < 16
      invariant 0 <= w <= 16
      invariant forall i :: 0 <= i < w ==> Holds(c[..], co + 4 * i, x[i])
      invariant Outside(c[..], old(c[..]), co, 64)
    {
      WriteWord(x[w], c, co + 4 * w);
      w := w + 1;
    }
  }

  /** U32TO8_LITTLE */
  method WriteWord(w: word, c: array<byte>, at: nat)
    requires at + 4 <= c.Length
    modifies c
    ensures Holds(c[..], at, w) && Outside(c[..], old(c[..]), at, 4)
  {
    c[at], c[at + 1], c[at + 2], c[at + 3] := ByteOf(w, 0), ByteOf(w, 1), ByteOf(w, 2), ByteOf(w, 3);
  }

  /**
   * One block of output: all sixteen words are read and combined before the first
   * is written, so the destination may be the source.
   */
  method EncryptBlock(f: State -> State, j: State, m: array<byte>, mo: nat, c: array<byte>, co: nat)
    requires mo + 64 <= m.Length && co + 64 <= c.Length
    modifies c
    ensures c[co..co + 64] == Mask(Block(f, j), old(m[mo..mo + 64]))
    ensures Outside(c[..], old(c[..]), co, 64)
  {
    ghost var src := m[mo..mo + 64];
    var x := Combine(Core(f, j), m, mo);
    WriteWords(x, c, co);
    WordsCombine(Core(f, j), x, src, c[co..co + 64]);
  }

  ghost predicate Going(f: State -> State, whole: seq<byte>, done: seq<byte>, j: State, rest: seq<byte>) {
    ChaMode(f);
    Split(Cha(f), whole, done, j, [], rest)
  }

  lemma Started(f: State -> State, j: State, m: seq<byte>)
    ensures Going(f, CryptCha(f, j, m), [], j, m)
  {
  }

  lemma BlockStep(f: State -> State, whole: seq<byte>, done: seq<byte>, j: State, rest: seq<byte>,
                  n: nat)
    requires Going(f, whole, done, j, rest) && rest != []
    requires n == if |rest| < 64 then |rest| else 64
    ensures Going(f, whole, done + Mask(Block(f, j), rest[..n]), Tick(j), rest[n..])
  {
    ChaMode(f);
    SplitBlock(Cha(f), whole, done, j, rest, n);
  }

  function Chunk(left: nat): nat { if left < 64 then left else 64 }

  /** Where the loop is after q rounds. */
  ghost predicate Turned(f: State -> State, s0: State, whole: seq<byte>, j: State, q: int, at: int,
                         bytes: nat, done: seq<byte>, rest: seq<byte>)
  {
    && 0 <= q && 0 <= at <= bytes && j == Advance(Cha(f), s0, q)
    && (if at < bytes then at == 64 * q else q == Blocks(64, bytes))
    && |rest| == bytes - at && Going(f, whole, done, j, rest)
  }

  lemma Turn(f: State -> State, s0: State, whole: seq<byte>, j: State, q: int, at: int, bytes: nat,
             done: seq<byte>, rest: seq<byte>, n: nat)
    requires Turned(f, s0, whole, j, q, at, bytes, done, rest) && at < bytes
    requires n == Chunk(bytes - at)
    ensures Turned(f, s0, whole, Tick(j), q + 1, at + n, bytes, done + Mask(Block(f, j), rest[..n]),
                   rest[n..])
  {
    ChaMode(f);
    BlockStep(f, whole, done, j, rest, n);
  }

  /** The block loop: the last round is the one with at most 64 bytes left. */
  method EncryptLoop(f: State -> State, s0: State, m: array<byte>, mo: nat, c: array<byte>, co: nat,
                     bytes: nat) returns (j: State)
    requires 0 < bytes && mo + bytes <= m.Length && co + bytes <= c.Length && (m != c || mo == co)
    modifies c
    ensures j == Advance(Cha(f), s0, Blocks(64, bytes))
    ensures c[co..co + bytes] == CryptCha(f, s0, old(m[mo..mo + bytes]))
    ensures Outside(c[..], old(c[..]), co, bytes)
  {
    j := s0;
    var at := 0;
    ghost var q, done, rest := 0, [], m[mo..mo + bytes];
    ghost var out := CryptCha(f, s0, rest);
    Started(f, s0, rest);
    while at < bytes
      invariant Turned(f, s0, out, j, q, at, bytes, done, rest)
      invariant Buffers(m[..], mo, c[..], co, old(c[..]), at, bytes, done, rest)
    {
      j, at, done, rest := EncryptTurn(f, s0, out, j, q, m, mo, c, co, old(c[..]), at, bytes, done, rest);
      q := q + 1;
    }
    Finished(f, s0, out, j, q, at, bytes, done, rest);
  }

  /** One round of the loop. */
  method EncryptTurn(f: State -> State, ghost s0: State, ghost out: seq<byte>, j: State, ghost q: int,
                     m: array<byte>, mo: nat, c: array<byte>, co: nat, ghost c0: seq<byte>,
                     at: nat, bytes: nat, ghost done: seq<byte>, ghost rest: seq<byte>)
    returns (j': State, at': nat, ghost done': seq<byte>, ghost rest': seq<byte>)
    requires mo + bytes <= m.Length && co + bytes <= c.Length && (m != c || mo == co)
    requires Turned(f, s0, out, j, q, at, bytes, done, rest) && at < bytes
    requires Buffers(m[..], mo, c[..], co, c0, at, bytes, done, rest)
    modifies c
    ensures at' > at && Turned(f, s0, out, j', q + 1, at', bytes, done', rest')
    ensures Buffers(m[..], mo, c[..], co, c0, at', bytes, done', rest')
  {
    var n := Chunk(bytes - at);
    Turn(f, s0, out, j, q, at, bytes, done, rest, n);
    done', rest' := EncryptSome(f, j, m, mo, c, co, at, n, bytes, c0, done, rest);
    j', at' := Tick(j), at + n;
  }

  lemma Finished(f: State -> State, s0: State, whole: seq<byte>, j: State, q: int, at: int,
                 bytes: nat, done: seq<byte>, rest: seq<byte>)
    requires Turned(f, s0, whole, j, q, at, bytes, done, rest) && at == bytes
    ensures j == Advance(Cha(f), s0, Blocks(64, bytes)) && whole == done
  {
  }

  /** What the loop keeps of the buffers: `done` is written, `rest` is still to be read. */
  ghost predicate Buffers(m: seq<byte>, mo: nat, c: seq<byte>, co: nat, c0: seq<byte>, at: int,
                          bytes: nat, done: seq<byte>, rest: seq<byte>)
  {
    && 0 <= at <= bytes && mo + bytes <= |m| && co + bytes <= |c|
    && c[co..co + at] == done && m[mo + at..mo + bytes] == rest && Outside(c, c0, co, bytes)
  }

  /** One round of the loop, as the loop sees it. */
  method EncryptSome(f: State -> State, j: State, m: array<byte>, mo: nat, c: array<byte>, co: nat,
                     at: nat, n: nat, bytes: nat, ghost c0: seq<byte>, ghost done: seq<byte>,
                     ghost rest: seq<byte>)
    returns (ghost done': seq<byte>, ghost rest': seq<byte>)
    requires mo + bytes <= m.Length && co + bytes <= c.Length && (m != c || mo == co)
    requires n <= 64 && at + n <= bytes && Buffers(m[..], mo, c[..], co, c0, at, bytes, done, rest)
    modifies c
    ensures n <= |rest| && done' == done + Mask(Block(f, j), rest[..n]) && rest' == rest[n..]
    ensures Buffers(m[..], mo, c[..], co, c0, at + n, bytes, done', rest')
  {
    ghost var m1, c1 := m[..], c[..];
    assert m[mo + at..mo + at + n] == rest[..n];
    EncryptPart(f, j, m, mo + at, c, co + at, n);
    BuffersMove(m1, m[..], mo, c1, c[..], co, c0, at, n, bytes, done, rest);
    done', rest' := done + Mask(Block(f, j), rest[..n]), rest[n..];
  }

  lemma BuffersMove(m: seq<byte>, m': seq<byte>, mo: nat, c: seq<byte>, c': seq<byte>, co: nat,
                    c0: seq<byte>, at: nat, n: nat, bytes: nat, done: seq<byte>, rest: seq<byte>)
    requires Buffers(m, mo, c, co, c0, at, bytes, done, rest) && at + n <= bytes
    requires Outside(c', c, co + at, n) && (m' == m || (m == c && m' == c' && mo == co))
    ensures Buffers(m', mo, c', co, c0, at + n, bytes, done + c'[co + at..co + at + n], rest[n..])
  {
    assert c'[co..co + at + n] == c[co..co + at] + c'[co + at..co + at + n];
    assert m[mo + at + n..mo + bytes] == rest[n..];
    assert m'[mo + at + n..mo + bytes] == m[mo + at + n..mo + bytes];
  }

  lemma MaskPrefix(k: seq<byte>, m: seq<byte>, n: nat)
    requires n <= |m| <= |k|
    ensures Mask(k, m)[..n] == Mask(k, m[..n])
  {
  }

  /** A whole block, or the last n bytes by way of a temporary block. */
  method EncryptPart(f: State -> State, j: State, m: array<byte>, mo: nat, c: array<byte>, co: nat,
                     n: nat)
    requires n <= 64 && mo + n <= m.Length && co + n <= c.Length
    modifies c
    ensures c[co..co + n] == Mask(Block(f, j), old(m[mo..mo + n]))
    ensures Outside(c[..], old(c[..]), co, n)
  {
    if n < 64 {
      var tmp := new byte[64];
      ghost var src := m[mo..mo + n];
      forall i | 0 <= i < n { tmp[i] := m[mo + i]; }
      ghost var whole := tmp[0..64];
      assert whole[..n] == src;
      EncryptBlock(f, j, tmp, 0, tmp, 0);
      ghost var out := tmp[0..64];
      MaskPrefix(Block(f, j), whole, n);
      forall i | 0 <= i < n { c[co + i] := tmp[i]; }
      assert c[co..co + n] == out[..n];
    } else {
      EncryptBlock(f, j, m, mo, c, co);
    }
  }
}
