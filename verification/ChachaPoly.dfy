/**
 * The chacha20-poly1305@openssh.com packet cipher (cipher-chachapoly.c): one ChaCha
 * context for the packet and one for its length, keyed from one 64-byte key, and a
 * Poly1305 tag over the ciphertext. Poly1305 and the ChaCha rounds are parameters.
 */
module ChachaPoly {
  import opened Common
  import opened Bits
  import opened StreamMode
  import opened ChaCha

  const TAGLEN := 16
  const SSH_ERR_MESSAGE_INCOMPLETE := -3
  const SSH_ERR_MAC_INVALID := -30

  /** The two keys, as the words chacha_keysetup makes of them. */
  datatype Keys = Keys(main: seq<word>, header: seq<word>)

  ghost predicate Keyed(k: Keys) { |k.main| == 12 && |k.header| == 12 }

  type Tag = s: seq<byte> | |s| == 16 witness seq(16, _ => 0)

  function Auth(mac: (seq<byte>, seq<byte>) -> Tag, m: seq<byte>, key: seq<byte>): Tag {
    mac(m, key)
  }

  // ----- nonces and counters

  /** POKE_U64 of a 32-bit sequence number. */
  function SeqBuf(seqnr: word): seq<byte> {
    [0, 0, 0, 0, ByteOf(seqnr, 3), ByteOf(seqnr, 2), ByteOf(seqnr, 1), ByteOf(seqnr, 0)]
  }

  const ONE: seq<byte> := [1, 0, 0, 0, 0, 0, 0, 0]

  /** The states in which the key for the tag, the length and the packet start. */
  function TagState(k: Keys, seqnr: word): State
    requires Keyed(k)
  {
    Start(k.main, SeqBuf(seqnr), [])
  }

  function HeaderState(k: Keys, seqnr: word): State
    requires Keyed(k)
  {
    Start(k.header, SeqBuf(seqnr), [])
  }

  function PacketState(k: Keys, seqnr: word): State
    requires Keyed(k)
  {
    Start(k.main, SeqBuf(seqnr), ONE)
  }

  /** Four bytes hold their word: distinct words have distinct bytes. */
  lemma {:induction false} BytesOfWord(w: word)
    ensures w == ByteOf(w, 0) + 256 * (ByteOf(w, 1) as nat) + 0x1_0000 * (ByteOf(w, 2) as nat)
                 + 0x100_0000 * (ByteOf(w, 3) as nat)
  {
    assert ByteOf(w, 1) == ByteOf(w / 256, 0);
    assert ByteOf(w, 2) == ByteOf(w / 256, 1) == ByteOf(w / 256 / 256, 0);
    assert ByteOf(w, 3) == ByteOf(w / 256, 2) == ByteOf(w / 256 / 256, 1) == ByteOf(w / 256 / 256 / 256, 0);
  }

  /** A state fixes the sequence number it was made for. */
  lemma NonceFixesSequenceNumber(key: seq<word>, a: word, b: word, ca: seq<byte>, cb: seq<byte>)
    requires |key| == 12 && (ca == [] || |ca| == 8) && (cb == [] || |cb| == 8)
    requires Start(key, SeqBuf(a), ca)[14..] == Start(key, SeqBuf(b), cb)[14..]
    ensures a == b
  {
    var u, v := SeqBuf(a), SeqBuf(b);
    assert WordIn(u, 4) == Start(key, u, ca)[14..][1];
    assert WordIn(v, 4) == Start(key, v, cb)[14..][1];
    forall t: nat | t < 4 ensures ByteOf(a, t) == ByteOf(b, t) {
      ByteOfWord(u, 4, 3 - t);
      ByteOfWord(v, 4, 3 - t);
    }
    BytesOfWord(a);
    BytesOfWord(b);
  }

  lemma StartCounters(k: Keys, seqnr: word)
    requires Keyed(k)
    ensures Counter(TagState(k, seqnr)) == 0
    ensures Counter(PacketState(k, seqnr)) == 1
    ensures TagState(k, seqnr)[14..] == PacketState(k, seqnr)[14..] == Start(k.main, SeqBuf(seqnr), [])[14..]
  {
  }

  /**
   * The main key's cipher never comes to the same state (nonce and counter) twice: block 0 of a
   * sequence number makes the key of its tag and no byte of any packet is made from its state,
   * and packets with different sequence numbers share no state.
   */
  lemma MainKeyBlocksDiffer(f: State -> State, k: Keys, a: word, b: word, i: nat, j: nat)
    requires Keyed(k) && i < U32 && j < U32
    ensures Advance(Cha(f), PacketState(k, a), i / 64) != TagState(k, b)
    ensures Advance(Cha(f), PacketState(k, a), i / 64) == Advance(Cha(f), PacketState(k, b), j / 64)
            ==> a == b && i / 64 == j / 64
  {
    var p, q := PacketState(k, a), PacketState(k, b);
    StartCounters(k, a);
    StartCounters(k, b);
    AdvanceVal(f, p, i / 64);
    AdvanceVal(f, q, j / 64);
    OnlyTheCounterMoves(f, p, i / 64);
    OnlyTheCounterMoves(f, q, j / 64);
    if Advance(Cha(f), p, i / 64) == Advance(Cha(f), q, j / 64) {
      NonceFixesSequenceNumber(k.main, a, b, ONE, ONE);
    }
  }

  // ----- sealing and opening a packet

  function ZeroKey(): seq<byte> { seq(32, _ => 0) }

  ghost function PolyKey(f: State -> State, k: Keys, seqnr: word): seq<byte>
    requires Keyed(k)
  {
    CryptCha(f, TagState(k, seqnr), ZeroKey())
  }

  /** The length under the header key, the rest under the main key from block 1. */
  ghost function Body(f: State -> State, k: Keys, seqnr: word, m: seq<byte>, aadlen: nat): (r: seq<byte>)
    requires Keyed(k) && aadlen <= |m|
    ensures |r| == |m|
  {
    CryptCha(f, HeaderState(k, seqnr), m[..aadlen]) + CryptCha(f, PacketState(k, seqnr), m[aadlen..])
  }

  ghost function TagOf(f: State -> State, mac: (seq<byte>, seq<byte>) -> Tag, k: Keys, seqnr: word,
                 c: seq<byte>): Tag
    requires Keyed(k)
  {
    Auth(mac, c, PolyKey(f, k, seqnr))
  }

  ghost function Seal(f: State -> State, mac: (seq<byte>, seq<byte>) -> Tag, k: Keys, seqnr: word,
                m: seq<byte>, aadlen: nat): (r: seq<byte>)
    requires Keyed(k) && aadlen <= |m|
    ensures |r| == |m| + TAGLEN
  {
    var c := Body(f, k, seqnr, m, aadlen);
    c + TagOf(f, mac, k, seqnr, c)
  }

  ghost function Open(f: State -> State, mac: (seq<byte>, seq<byte>) -> Tag, k: Keys, seqnr: word,
                c: seq<byte>, aadlen: nat): Option<seq<byte>>
    requires Keyed(k) && aadlen + TAGLEN <= |c|
  {
    var n := |c| - TAGLEN;
    if TagOf(f, mac, k, seqnr, c[..n]) != c[n..] then None
    else Some(Body(f, k, seqnr, c[..n], aadlen))
  }

  lemma UndoesCha(f: State -> State, s: State, m: seq<byte>)
    ensures CryptCha(f, s, CryptCha(f, s, m)) == m
  {
    ChaMode(f);
    CryptUndoes(Cha(f), s, m);
  }

  lemma BodyUndoes(f: State -> State, k: Keys, seqnr: word, m: seq<byte>, aadlen: nat)
    requires Keyed(k) && aadlen <= |m|
    ensures Body(f, k, seqnr, Body(f, k, seqnr, m, aadlen), aadlen) == m
  {
    var c := Body(f, k, seqnr, m, aadlen);
    assert c[..aadlen] == CryptCha(f, HeaderState(k, seqnr), m[..aadlen]);
    assert c[aadlen..] == CryptCha(f, PacketState(k, seqnr), m[aadlen..]);
    UndoesCha(f, HeaderState(k, seqnr), m[..aadlen]);
    UndoesCha(f, PacketState(k, seqnr), m[aadlen..]);
    assert m[..aadlen] + m[aadlen..] == m;
  }

  /** Opening a sealed packet gives back header and payload. */
  lemma OpenUndoesSeal(f: State -> State, mac: (seq<byte>, seq<byte>) -> Tag, k: Keys, seqnr: word,
                       m: seq<byte>, aadlen: nat)
    requires Keyed(k) && aadlen <= |m|
    ensures Open(f, mac, k, seqnr, Seal(f, mac, k, seqnr, m, aadlen), aadlen) == Some(m)
  {
    var c, s := Body(f, k, seqnr, m, aadlen), Seal(f, mac, k, seqnr, m, aadlen);
    assert s[..|m|] == c && s[|m|..] == TagOf(f, mac, k, seqnr, c);
    BodyUndoes(f, k, seqnr, m, aadlen);
  }

  /** A packet opens exactly when it is what sealing its content would give. */
  lemma OnlySealedPacketsOpen(f: State -> State, mac: (seq<byte>, seq<byte>) -> Tag, k: Keys,
                              seqnr: word, c: seq<byte>, aadlen: nat, m: seq<byte>)
    requires Keyed(k) && aadlen + TAGLEN <= |c|
    ensures Open(f, mac, k, seqnr, c, aadlen) == Some(m) <==>
            aadlen <= |m| && c == Seal(f, mac, k, seqnr, m, aadlen)
  {
    var n := |c| - TAGLEN;
    if Open(f, mac, k, seqnr, c, aadlen) == Some(m) {
      BodyUndoes(f, k, seqnr, c[..n], aadlen);
      assert c[..n] + c[n..] == c;
    }
    if aadlen <= |m| && c == Seal(f, mac, k, seqnr, m, aadlen) {
      OpenUndoesSeal(f, mac, k, seqnr, m, aadlen);
    }
  }

  /** PEEK_U32 of the first four bytes under the header key. */
  ghost function LengthOf(f: State -> State, k: Keys, seqnr: word, c: seq<byte>): nat
    requires Keyed(k) && |c| >= 4
  {
    BE(CryptCha(f, HeaderState(k, seqnr), c[..4]))
  }

  /** The length can be read from the ciphertext alone, before the tag has arrived. */
  lemma LengthIsReadable(f: State -> State, mac: (seq<byte>, seq<byte>) -> Tag, k: Keys, seqnr: word,
                         m: seq<byte>, aadlen: nat)
    requires Keyed(k) && 4 <= aadlen <= |m|
    ensures LengthOf(f, k, seqnr, Seal(f, mac, k, seqnr, m, aadlen)) == BE(m[..4])
  {
    var h, s := HeaderState(k, seqnr), Seal(f, mac, k, seqnr, m, aadlen);
    var a := m[..aadlen];
    assert s[..4] == CryptCha(f, h, a)[..4];
    CryptPrefix(f, h, a, 4);
    assert a[..4] == m[..4];
    UndoesCha(f, h, m[..4]);
  }

  /** The first bytes of a message encrypt to the first bytes of its ciphertext. */
  lemma CryptPrefix(f: State -> State, s: State, m: seq<byte>, n: nat)
    requires n <= |m|
    ensures CryptCha(f, s, m)[..n] == CryptCha(f, s, m[..n])
  {
    forall i | 0 <= i < n ensures CryptCha(f, s, m)[i] == CryptCha(f, s, m[..n])[i] {
      KeystreamAt(f, s, m, i);
      KeystreamAt(f, s, m[..n], i);
    }
  }

  lemma TwoParts(d0: seq<byte>, d1: seq<byte>, d2: seq<byte>, a: nat, len: nat)
    requires a + len <= |d0| && Outside(d1, d0, 0, a) && Outside(d2, d1, a, len)
    ensures d2[..a + len] == d1[..a] + d2[a..a + len] && Outside(d2, d0, 0, a + len)
  {
  }

  // ----- the cipher context

  class Cipher {
    const f: State -> State
    const mac: (seq<byte>, seq<byte>) -> Tag
    const main: Context
    const header: Context
    ghost const keys: Keys

    /** Both contexts still hold their keys; nonce and counter are set anew by each call. */
    ghost predicate Valid()
      reads main.input, header.input
    {
      Keyed(keys) && main.Valid() && header.Valid() && main.input != header.input &&
      main.f == f && header.f == f &&
      main.View()[..12] == keys.main && header.View()[..12] == keys.header
    }

    constructor Make(f: State -> State, mac: (seq<byte>, seq<byte>) -> Tag, key: seq<byte>)
      requires |key| == 64
      ensures Valid() && fresh(main) && fresh(header) && fresh(main.input) && fresh(header.input)
      ensures this.f == f && this.mac == mac
      ensures keys == Keys(KeyWords(key[..32], 256), KeyWords(key[32..], 256))
    {
      this.f, this.mac := f, mac;
      var a := new Context(f, key[..32], 256);
      var b := new Context(f, key[32..], 256);
      main, header := a, b;
      keys := Keys(KeyWords(key[..32], 256), KeyWords(key[32..], 256));
    }

    /** The key of the tag: 32 zero bytes encrypted with block 0. */
    method MakePolyKey(seqnr: word) returns (key: array<byte>)
      requires Valid()
      modifies main.input
      ensures Valid() && fresh(key) && key[..] == PolyKey(f, keys, seqnr)
    {
      key := new byte[32](_ => 0);
      main.IvSetup(SeqBuf(seqnr), []);
      assert key[0..32] == ZeroKey();
      main.EncryptBytes(key, 0, key, 0, 32);
      OnlyTheCounterMoves(f, TagState(keys, seqnr), Blocks(64, 32));
      assert key[..] == key[0..32];
    }

    method CryptHeader(seqnr: word, dest: array<byte>, src: array<byte>, aadlen: nat)
      requires Valid() && aadlen <= src.Length && aadlen <= dest.Length
      modifies header.input, dest
      ensures Valid() && dest[..aadlen] == CryptCha(f, HeaderState(keys, seqnr), old(src[..aadlen]))
      ensures Outside(dest[..], old(dest[..]), 0, aadlen)
    {
      if aadlen != 0 {
        header.IvSetup(SeqBuf(seqnr), []);
        assert src[0..aadlen] == src[..aadlen];
        header.EncryptBytes(src, 0, dest, 0, aadlen);
        OnlyTheCounterMoves(f, HeaderState(keys, seqnr), Blocks(64, aadlen));
        assert dest[..aadlen] == dest[0..aadlen];
      }
    }

    method CryptPayload(seqnr: word, dest: array<byte>, src: array<byte>, aadlen: nat, len: nat)
      requires Valid() && aadlen + len <= src.Length && aadlen + len <= dest.Length
      modifies main.input, dest
      ensures Valid()
      ensures dest[aadlen..aadlen + len] ==
              CryptCha(f, PacketState(keys, seqnr), old(src[aadlen..aadlen + len]))
      ensures Outside(dest[..], old(dest[..]), aadlen, len)
    {
      main.IvSetup(SeqBuf(seqnr), ONE);
      main.EncryptBytes(src, aadlen, dest, aadlen, len);
      OnlyTheCounterMoves(f, PacketState(keys, seqnr), Blocks(64, len));
    }

    /** Both parts; the destination may be the source. */
    method CryptBody(seqnr: word, dest: array<byte>, src: array<byte>, aadlen: nat, len: nat)
      requires Valid() && aadlen + len <= src.Length && aadlen + len <= dest.Length
      modifies main.input, header.input, dest
      ensures Valid()
      ensures dest[..aadlen + len] == Body(f, keys, seqnr, old(src[..aadlen + len]), aadlen)
      ensures Outside(dest[..], old(dest[..]), 0, aadlen + len)
    {
      ghost var m, d0 := src[..aadlen + len], dest[..];
      assert m[..aadlen] == src[..aadlen] && m[aadlen..] == src[aadlen..aadlen + len];
      CryptHeader(seqnr, dest, src, aadlen);
      ghost var d1 := dest[..];
      assert src[aadlen..aadlen + len] == m[aadlen..];
      CryptPayload(seqnr, dest, src, aadlen, len);
      TwoParts(d0, d1, dest[..], aadlen, len);
    }

    /**
     * chachapoly_crypt. Encrypting appends the tag; decrypting checks it first and
     * leaves the destination as it was when it does not match.
     */
    method CryptPacket(seqnr: word, dest: array<byte>, src: array<byte>, len: nat, aadlen: nat,
                       encrypt: bool) returns (r: int)
      requires Valid() && aadlen + len < U32
      requires aadlen + len + (if encrypt then 0 else TAGLEN) <= src.Length
      requires aadlen + len + (if encrypt then TAGLEN else 0) <= dest.Length
      modifies main.input, header.input, dest
      ensures Valid()
      ensures encrypt ==> Encrypted(seqnr, r, old(src[..aadlen + len]), aadlen, old(dest[..]), dest[..])
      ensures !encrypt ==>
                Decrypted(seqnr, r, old(src[..aadlen + len + TAGLEN]), aadlen, old(dest[..]), dest[..])
    {
      var n := aadlen + len;
      var key := MakePolyKey(seqnr);
      if !encrypt {
        ghost var c := src[..n + TAGLEN];
        assert c[..n] == src[..n] && c[n..] == src[n..n + TAGLEN];
        if Auth(mac, src[..n], key[..]) != src[n..n + TAGLEN] {
          return SSH_ERR_MAC_INVALID;
        }
      }
      CryptBody(seqnr, dest, src, aadlen, len);
      if encrypt {
        WriteTag(Auth(mac, dest[..n], key[..]), dest, n);
      }
      r := 0;
    }

    method WriteTag(tag: Tag, dest: array<byte>, n: nat)
      requires n + TAGLEN <= dest.Length
      modifies dest
      ensures dest[..n + TAGLEN] == old(dest[..n]) + tag
      ensures Outside(dest[..], old(dest[..]), n, TAGLEN)
    {
      forall i | 0 <= i < TAGLEN { dest[n + i] := tag[i]; }
    }

    ghost predicate Encrypted(seqnr: word, r: int, m: seq<byte>, aadlen: nat, d0: seq<byte>, d: seq<byte>)
      requires Keyed(keys) && aadlen <= |m| && |m| + TAGLEN <= |d|
    {
      r == 0 && d[..|m| + TAGLEN] == Seal(f, mac, keys, seqnr, m, aadlen) &&
      Outside(d, d0, 0, |m| + TAGLEN)
    }

    ghost predicate Decrypted(seqnr: word, r: int, c: seq<byte>, aadlen: nat, d0: seq<byte>, d: seq<byte>)
      requires Keyed(keys) && aadlen + TAGLEN <= |c| <= |d| + TAGLEN
    {
      match Open(f, mac, keys, seqnr, c, aadlen)
      case None => r == SSH_ERR_MAC_INVALID && d == d0
      case Some(m) => r == 0 && |m| == |c| - TAGLEN && d[..|m|] == m && Outside(d, d0, 0, |m|)
    }

    /** chachapoly_get_length */
    method GetLength(seqnr: word, cp: array<byte>, len: nat) returns (r: int, plen: nat)
      requires Valid() && len <= cp.Length
      modifies header.input
      ensures Valid()
      ensures len < 4 ==> r == SSH_ERR_MESSAGE_INCOMPLETE
      ensures len >= 4 ==> r == 0 && plen == LengthOf(f, keys, seqnr, cp[..len])
    {
      if len < 4 { return SSH_ERR_MESSAGE_INCOMPLETE, 0; }
      var buf := new byte[4];
      header.IvSetup(SeqBuf(seqnr), []);
      header.EncryptBytes(cp, 0, buf, 0, 4);
      OnlyTheCounterMoves(f, HeaderState(keys, seqnr), Blocks(64, 4));
      assert cp[..len][..4] == cp[0..4] && buf[..] == buf[0..4];
      return 0, BE(buf[..]);
    }
  }

  /** chachapoly_new: any other key length is refused. */
  method New(f: State -> State, mac: (seq<byte>, seq<byte>) -> Tag, key: seq<byte>)
    returns (c: Cipher?)
    ensures c == null <==> |key| != 64
    ensures c != null ==> c.Valid() && fresh(c) && c.f == f && c.mac == mac
    ensures c != null ==> c.keys == Keys(KeyWords(key[..32], 256), KeyWords(key[32..], 256))
  {
    if |key| != 64 { return null; }
    c := new Cipher.Make(f, mac, key);
  }
}
