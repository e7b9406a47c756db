/**
 * The bit vector of bitmap.c: an array of 32-bit words that grows on demand and an
 * index `top` that says where to stop looking. It stands for a number, whose binary
 * digits are the set of bits; the byte strings are that number in big-endian form.
 */
module Bitmap {
  import opened Common
  import opened Bits

  const BITMAP_MAX := 0x100_0000      // 1 << 24
  const BITMAP_BITS := 32
  const BITMAP_BYTES := 4

  lemma {:induction false} LimbsConcat(a: seq<word>, b: seq<word>)
    ensures Limbs(a + b) == Limbs(b) * Pow2(32 * |a|) + Limbs(a)
  {
    Pow2Values();
    if a == [] {
      assert a + b == b;
    } else {
      assert (a + b)[1..] == a[1..] + b;
      LimbsConcat(a[1..], b);
      Pow2Add(32 * (|a| - 1), 32);
      Assoc(Limbs(b), Pow2(32 * (|a| - 1)), U32);
    }
  }

  /** Adding to word o adds that many times 2^(32 o). */
  lemma LimbsUpdate(ws: seq<word>, o: nat, w: word, d: nat)
    requires o < |ws| && w == ws[o] + d
    ensures Limbs(ws[o := w]) == Limbs(ws) + Shl(d, 32 * o)
  {
    var a, b := ws[..o], ws[o + 1..];
    assert ws == a + ([ws[o]] + b) && ws[o := w] == a + ([w] + b);
    LimbsConcat(a, [ws[o]] + b);
    LimbsConcat(a, [w] + b);
    assert ([ws[o]] + b)[1..] == b && ([w] + b)[1..] == b;
    ShlMultiplies(d, 32 * o);
    Spread(Limbs(b) * U32 + ws[o], d, Pow2(32 * o));
  }

  lemma Spread(h: nat, d: nat, p: nat)
    ensures (h + d) * p == h * p + d * p
  {
  }

  /** The set a number stands for. */
  ghost function Elements(v: nat): iset<nat> { iset n: nat | Bit(v, n) }

  /** No bit beyond BITMAP_MAX is ever set. */
  ghost predicate Small(v: nat) { forall n: nat :: Bit(v, n) ==> n <= BITMAP_MAX }

  /** `v` has its highest bit at position n - 1; 0 has no bit. */
  ghost predicate HighestBit(v: nat, n: nat) {
    v < Pow2(n) && (n > 0 ==> v >= Pow2(n - 1))
  }

  /** nbits is one more than the largest element, or 0 for the empty set. */
  lemma HighestIsMax(v: nat, n: nat)
    requires HighestBit(v, n)
    ensures n == 0 <==> Elements(v) == iset{}
    ensures n > 0 ==> n - 1 in Elements(v)
    ensures forall k :: k in Elements(v) ==> k < n
  {
    forall k: nat | Bit(v, k) ensures k < n {
      if k >= n { NoHighBit(v, n, k); }
    }
    if n > 0 {
      HighBitBelow(v, n - 1);
      assert n - 1 in Elements(v);
    }
  }

  class Bitmap {
    var d: array<word>
    var len: nat
    var top: nat

    ghost predicate Valid()
      reads this, d
    {
      && d.Length == len && top < len
      && (forall i :: top < i < len ==> d[i] == 0)
      && Small(Value())
    }

    ghost function Value(): nat
      reads this, d
    {
      Limbs(d[..])
    }

    constructor ()
      ensures Valid() && fresh(d) && Value() == 0
    {
      d := new word[1](_ => 0);
      len := 1;
      top := 0;
      new;
      ZeroLimbs(d[..]);
      ZeroIsSmall();
    }

    method Zero()
      requires Valid()
      modifies this, d
      ensures Valid() && d == old(d) && len == old(len) && Value() == 0
      ensures forall k :: 0 <= k < len ==> d[k] == 0
    {
      var i := 0;
      while i < len
        invariant i <= len == d.Length && d == old(d)
        invariant forall k :: 0 <= k < i ==> d[k] == 0
      {
        d[i] := 0;
        i := i + 1;
      }
      top := 0;
      ZeroLimbs(d[..]);
      ZeroIsSmall();
    }

    method TestBit(n: nat) returns (r: bool)
      requires Valid()
      ensures r <==> n in Elements(Value())
    {
      LimbBit(d[..], n);
      if top >= len {
        return false;
      }
      if len == 0 || n / BITMAP_BITS > top {
        assert n / 32 < len ==> d[..][n / 32] == 0;
        ZeroBits(n % 32);
        return false;
      }
      var w := Shr(d[n / BITMAP_BITS], n % BITMAP_BITS);
      BitShr(d[n / BITMAP_BITS], n % BITMAP_BITS, 0);
      return w % 2 == 1;
    }

    /** Makes room for bit n; `alloc` says whether recallocarray can succeed. */
    method Reserve(n: nat, alloc: bool) returns (ok: bool)
      requires Valid()
      modifies this
      ensures Valid() && Value() == old(Value()) && top == old(top)
      ensures ok <==> n <= BITMAP_MAX && (alloc || n / BITMAP_BITS < old(len))
      ensures ok ==> n / BITMAP_BITS < len
      ensures d == old(d) || fresh(d)
      ensures !ok ==> d == old(d) && len == old(len)
    {
      if top >= len || n > BITMAP_MAX {
        return false;
      }
      var nlen := n / BITMAP_BITS + 1;
      if len < nlen {
        if !alloc {
          return false;
        }
        d := Grown(d, nlen);
        len := nlen;
      }
      return true;
    }

    method SetBit(n: nat, alloc: bool) returns (ok: bool)
      requires Valid()
      modifies this, d
      ensures Valid()
      ensures ok <==> n <= BITMAP_MAX && (alloc || n / BITMAP_BITS < old(len))
      ensures Elements(Value()) == if ok then old(Elements(Value())) + iset{n} else old(Elements(Value()))
    {
      ok := Reserve(n, alloc);
      if !ok {
        return;
      }
      var offset := n / BITMAP_BITS;
      if offset > top {
        top := offset;
      }
      ghost var before := d[..];
      SetBitValue(before, n);
      d[offset] := SetInWord(d[offset], n % BITMAP_BITS);
      assert d[..] == before[offset := d[offset]];
      forall k: nat | Bit(Value(), k) ensures k <= BITMAP_MAX {
        assert Bit(Limbs(before), k) || k == n;
      }
    }

    /** Moves `top` down to the highest word that is not zero. */
    method Retop()
      requires d.Length == len && top < len && (forall i :: top < i < len ==> d[i] == 0)
      modifies this`top
      ensures top < len && forall i :: top < i < len ==> d[i] == 0
      ensures top == 0 || d[top] != 0
    {
      if top >= len {
        return;
      }
      while top > 0 && d[top] == 0
        invariant top < len && forall i :: top < i < len ==> d[i] == 0
      {
        top := top - 1;
      }
    }

    method ClearBit(n: nat)
      requires Valid()
      modifies this`top, d
      ensures Valid()
      ensures Elements(Value()) == old(Elements(Value())) - iset{n}
    {
      LimbBit(d[..], n);
      if top >= len || n > BITMAP_MAX {
        return;
      }
      var offset := n / BITMAP_BITS;
      if offset > top {
        assert offset < len ==> d[..][offset] == 0;
        ZeroBits(n % 32);
        return;
      }
      ghost var before := d[..];
      ClearBitValue(before, n);
      d[offset] := ClearInWord(d[offset], n % BITMAP_BITS);
      assert d[..] == before[offset := d[offset]];
      ghost var mid := d[..];
      Retop();
      assert d[..] == mid;
      forall k: nat | Bit(Limbs(mid), k) ensures k <= BITMAP_MAX {
        assert Bit(Limbs(before), k);
      }
    }

    /** One more than the highest bit, or 0. */
    method NBits() returns (bits: nat)
      requires Valid()
      modifies this`top
      ensures Valid() && Value() == old(Value()) && HighestBit(Value(), bits)
    {
      ghost var ws := d[..];
      Retop();
      assert d[..] == ws;
      TopWord(ws, top);
      if len == 0 || (top == 0 && d[0] == 0) {
        return 0;
      }
      bits := CountBits(d[top], top, ws);
    }

    method NBytes() returns (n: nat)
      requires Valid()
      modifies this`top
      ensures Valid() && Value() == old(Value())
      ensures Value() < Pow2(8 * n) && (n > 0 ==> Value() >= Pow2(8 * (n - 1)))
    {
      var bits := NBits();
      n := (bits + 7) / 8;
      Pow2Mono(bits, 8 * n);
      if bits > 0 { Pow2Mono(8 * (n - 1), bits - 1); }
    }

    /** Writes the number as a canonical big-endian string at the start of `p`. */
    method ToString(p: array<byte>, l: nat) returns (ok: bool, need: nat)
      requires Valid() && l <= p.Length
      modifies this`top, p
      ensures Valid() && Value() == old(Value())
      ensures Value() < Pow2(8 * need) && (need > 0 ==> Value() >= Pow2(8 * (need - 1)))
      ensures ok <==> need <= l
      ensures ok ==> BE(p[..need]) == Value() && Canonical(p[..need]) && p[need..] == old(p[need..])
      ensures !ok ==> p[..] == old(p[..])
    {
      need := NBytes();
      if l < need || top >= len {
        return false, need;
      }
      ghost var ws, p0, t := d[..], p[..], top;
      NeedBound(ws, top, need);
      var i, k := 0, 0;
      while i < top + 1
        invariant i <= top + 1 && top == t && d[..] == ws
        invariant k == Min(4 * i, need) && Writing(p[..], p0, need, k, ws)
        decreases top + 1 - i
      {
        k := WriteWord(d[i], i, p, need, k, ws, p0);
        i := i + 1;
      }
      BEFromDigits(p[..need], Value());
      LeadingByte(p[..need], Value());
      return true, need;
    }

    /** The byte loop of bitmap_from_string, on zeroed words. */
    method LoadBytes(s: seq<byte>)
      requires d.Length == len && s != [] && (|s| - 1) / 4 == top < len
      requires forall k :: 0 <= k < len ==> d[k] == 0
      modifies d
      ensures Limbs(d[..]) == BE(s) && forall k :: top < k < len ==> d[k] == 0
    {
      var l := |s|;
      var offset: int := (l + (BITMAP_BYTES - 1)) / BITMAP_BYTES - 1;
      var shift := (l + (BITMAP_BYTES - 1)) % BITMAP_BYTES * 8;
      var i := 0;
      StartLoading(d[..], s);
      while i < l
        invariant i <= l && Loading(d[..], s, i, top)
        invariant i < l ==> offset == (l - 1 - i) / 4 <= top && shift == (l - 1 - i) % 4 * 8
      {
        LoadByte(s, i, offset, shift);
        if shift == 0 {
          offset := offset - 1;      // an unsigned wrap after the last byte, when it is not used
          shift := BITMAP_BITS - 8;
        } else {
          shift := shift - 8;
        }
        i := i + 1;
      }
      EndLoading(d[..], s);
    }

    /** One byte into its place. */
    method LoadByte(s: seq<byte>, i: nat, offset: nat, shift: nat)
      requires i < |s| && Loading(d[..], s, i, top)
      requires offset == (|s| - 1 - i) / 4 <= top && shift == (|s| - 1 - i) % 4 * 8
      modifies d
      ensures Loading(d[..], s, i + 1, top)
    {
      ghost var before := d[..];
      ReadByte(before, s, i, top);
      d[offset] := OrByte(d[offset], s[i], shift);
      assert d[..] == before[offset := OrByte(before[offset], s[i], shift)];
    }

    /** Reads a big-endian string; `alloc` says whether recallocarray can succeed. */
    method FromString(s: seq<byte>, alloc: bool) returns (ok: bool)
      requires Valid()
      modifies this, d
      ensures Valid()
      ensures ok <==> |s| <= BITMAP_MAX / 8 && (alloc || |s| * 8 / BITMAP_BITS < old(len))
      ensures Value() == if ok then BE(s) else old(Value())
    {
      var l := |s|;
      if l > BITMAP_MAX / 8 {
        return false;
      }
      ok := Reserve(l * 8, alloc);
      if !ok {
        return;
      }
      Zero();
      if l == 0 {
        return;
      }
      top := (l + (BITMAP_BYTES - 1)) / BITMAP_BYTES - 1;
      LoadBytes(s);
      StringIsSmall(s);
      ghost var ws := d[..];
      Retop();
      assert d[..] == ws;
    }
  }

  /** A longer array with the same words and zeros above them. */
  method Grown(d: array<word>, nlen: nat) returns (tmp: array<word>)
    requires d.Length <= nlen
    ensures fresh(tmp) && tmp.Length == nlen && tmp[..d.Length] == d[..]
    ensures forall k :: d.Length <= k < nlen ==> tmp[k] == 0
    ensures Limbs(tmp[..]) == Limbs(d[..])
  {
    tmp := new word[nlen](_ => 0);
    var i := 0;
    while i < d.Length
      invariant i <= d.Length
      invariant forall k :: 0 <= k < i ==> tmp[k] == d[k]
      invariant forall k :: i <= k < nlen ==> tmp[k] == 0
    {
      tmp[i] := d[i];
      i := i + 1;
    }
    assert tmp[..] == d[..] + tmp[d.Length..];
    LimbsConcat(d[..], tmp[d.Length..]);
    ZeroLimbs(tmp[d.Length..]);
  }

  /** Shifts zeros out of a word at its top end, one bit off the count for each. */
  /** The position of the highest bit, counted from the highest non-zero word. */
  method CountBits(w: word, top: nat, ghost ws: seq<word>) returns (bits: nat)
    requires top < |ws| && w == ws[top] != 0 && Limbs(ws) == w * Pow2(32 * top) + Limbs(ws[..top])
    ensures HighestBit(Limbs(ws), bits)
  {
    ghost var k;
    bits, k := SkipZeros(w, (top + 1) * BITMAP_BITS);
    TopBit(ws, top, k);
  }

  method SkipZeros(w0: word, bits0: nat) returns (bits: nat, ghost k: nat)
    requires w0 > 0 && bits0 >= 32
    ensures 0 < k <= 32 && bits == bits0 - 32 + k && Pow2(k - 1) <= w0 < Pow2(k)
  {
    var w: nat := w0;
    bits, k := bits0, 32;
    Pow2Values();
    while w < 0x8000_0000
      invariant 0 < k <= 32 && bits == bits0 - 32 + k
      invariant w == Shl(w0, 32 - k) < U32 && w0 < Pow2(k)
      decreases k
    {
      ShiftOut(w0, k);
      w := w * 2 % U32;
      bits := bits - 1;
      k := k - 1;
    }
    ShiftDone(w0, k);
  }

  /** The last k of the first `need` bytes hold the k lowest base-256 digits of v. */
  ghost predicate Written(p: seq<byte>, need: nat, k: nat, v: nat) {
    k <= need <= |p| && forall m :: 0 <= m < k ==> p[need - 1 - m] == Shr(v, 8 * m) % 256
  }

  ghost predicate Writing(p: seq<byte>, p0: seq<byte>, need: nat, k: nat, ws: seq<word>) {
    need <= |p| == |p0| && p[need..] == p0[need..] && Written(p, need, k, Limbs(ws))
  }

  /** The inner loop of bitmap_to_string: the bytes of word i, lowest first, while there is room. */
  method WriteWord(w: word, i: nat, p: array<byte>, need: nat, k0: nat, ghost ws: seq<word>,
                   ghost p0: seq<byte>) returns (k: nat)
    requires i < |ws| && w == ws[i] && k0 == Min(4 * i, need) && Writing(p[..], p0, need, k0, ws)
    modifies p
    ensures k == Min(4 * i + 4, need) && Writing(p[..], p0, need, k, ws)
  {
    k := k0;
    var j := 0;
    while j < BITMAP_BYTES && k < need
      invariant j <= 4 && k == Min(4 * i + j, need) && Writing(p[..], p0, need, k, ws)
      decreases 4 - j
    {
      ghost var before := p[..];
      var b: byte := Shr(w, j * 8) % 256;
      WriteDigit(before, p0, need, k, ws, i, j, b);
      p[need - 1 - k] := b;
      assert p[..] == before[need - 1 - k := b];
      k := k + 1;
      j := j + 1;
    }
  }

  lemma WriteDigit(p: seq<byte>, p0: seq<byte>, need: nat, k: nat, ws: seq<word>, i: nat, j: nat,
                   b: byte)
    requires i < |ws| && j < 4 && k == 4 * i + j < need && Writing(p, p0, need, k, ws)
    requires b == Shr(ws[i], j * 8) % 256
    ensures Writing(p[need - 1 - k := b], p0, need, k + 1, ws)
  {
    LimbByte(ws, i, j);
  }

  lemma NeedBound(ws: seq<word>, top: nat, need: nat)
    requires top < |ws| && forall i :: top < i < |ws| ==> ws[i] == 0
    requires need > 0 ==> Limbs(ws) >= Pow2(8 * (need - 1))
    ensures need <= 4 * (top + 1)
  {
    TopWord(ws, top);
    LimbsBound(ws[..top]);
    Pow2Values();
    ScaledBound(ws[top], Limbs(ws[..top]), 32 * top, 32);
    if need > 4 * (top + 1) { Pow2Mono(32 * top + 32, 8 * (need - 1)); }
  }

  lemma LeadingByte(s: seq<byte>, v: nat)
    requires BE(s) == v && (s != [] ==> v >= Pow2(8 * (|s| - 1)))
    ensures Canonical(s)
  {
    if s != [] && s[0] == 0 {
      BEBound(s[1..]);
      assert s == [0] + s[1..];
      BEConcat([0], s[1..]);
      HeadByte(0);
    }
  }

  lemma ZeroIsSmall()
    ensures Small(0)
  {
    forall n: nat ensures !Bit(0, n) { ZeroBits(n); }
  }

  function SetInWord(w: word, k: nat): (r: word)
    requires k < 32
    ensures r > 0 && forall j: nat :: Bit(r, j) == (Bit(w, j) || j == k)
  {
    Pow2Values();
    Pow2Mono(k, 31);
    BitBelow(w, Pow2(k), 32);
    assert forall j: nat :: Bit(Or(w, Pow2(k)), j) == (Bit(w, j) || j == k) by {
      forall j: nat ensures Bit(Or(w, Pow2(k)), j) == (Bit(w, j) || j == k) {
        BitOr(w, Pow2(k), j);
        BitPow2(k, j);
      }
    }
    assert Bit(Or(w, Pow2(k)), k);
    ZeroBits(k);
    Or(w, Pow2(k))
  }

  lemma SetBitValue(ws: seq<word>, n: nat)
    requires n / 32 < |ws|
    ensures forall k: nat :: Bit(Limbs(ws[n / 32 := SetInWord(ws[n / 32], n % 32)]), k) == (Bit(Limbs(ws), k) || k == n)
  {
    var ws' := ws[n / 32 := SetInWord(ws[n / 32], n % 32)];
    forall k: nat ensures Bit(Limbs(ws'), k) == (Bit(Limbs(ws), k) || k == n) {
      LimbBit(ws, k);
      LimbBit(ws', k);
    }
  }

  function ClearInWord(w: word, k: nat): (r: word)
    requires k < 32
    ensures forall j: nat :: Bit(r, j) == (Bit(w, j) && j != k)
  {
    Pow2Values();
    Pow2Mono(k, 31);
    var mask := Not(Pow2(k), 32);
    BitBelow(w, mask, 32);
    assert forall j: nat :: Bit(And(w, mask), j) == (Bit(w, j) && j != k) by {
      forall j: nat ensures Bit(And(w, mask), j) == (Bit(w, j) && j != k) {
        BitAnd(w, mask, j);
        BitNot(Pow2(k), 32, j);
        BitPow2(k, j);
        if j >= 32 { NoHighBit(w, 32, j); }
      }
    }
    And(w, mask)
  }

  lemma ClearBitValue(ws: seq<word>, n: nat)
    requires n / 32 < |ws|
    ensures forall k: nat :: Bit(Limbs(ws[n / 32 := ClearInWord(ws[n / 32], n % 32)]), k)
                             == (Bit(Limbs(ws), k) && k != n)
  {
    var ws' := ws[n / 32 := ClearInWord(ws[n / 32], n % 32)];
    forall k: nat ensures Bit(Limbs(ws'), k) == (Bit(Limbs(ws), k) && k != n) {
      LimbBit(ws, k);
      LimbBit(ws', k);
    }
  }

  /** With everything above `top` zero, the number is the top word over the words below it. */
  lemma TopWord(ws: seq<word>, top: nat)
    requires top < |ws| && forall i :: top < i < |ws| ==> ws[i] == 0
    ensures Limbs(ws) == ws[top] * Pow2(32 * top) + Limbs(ws[..top])
  {
    var hi := [ws[top]] + ws[top + 1..];
    assert ws == ws[..top] + hi && hi[1..] == ws[top + 1..];
    ZeroLimbs(ws[top + 1..]);
    assert Limbs(hi) == ws[top];
    LimbsConcat(ws[..top], hi);
  }

  lemma ShiftOut(w: nat, k: nat)
    requires 0 < k <= 32 && w > 0 && Shl(w, 32 - k) < 0x8000_0000
    ensures k > 1 && w < Pow2(k - 1) && Shl(w, 33 - k) == 2 * Shl(w, 32 - k)
  {
    Pow2Values();
    ShlBound(w, 32 - k, k - 1);
    ShlStep(w, 32 - k);
  }

  lemma ShiftDone(w: nat, k: nat)
    requires 0 < k <= 32 && Shl(w, 32 - k) >= 0x8000_0000
    ensures w >= Pow2(k - 1)
  {
    Pow2Values();
    ShlBound(w, 32 - k, k - 1);
  }

  lemma TopBit(ws: seq<word>, top: nat, k: nat)
    requires top < |ws| && 0 < k <= 32 && Pow2(k - 1) <= ws[top] < Pow2(k)
    requires Limbs(ws) == ws[top] * Pow2(32 * top) + Limbs(ws[..top])
    ensures HighestBit(Limbs(ws), 32 * top + k)
  {
    LimbsBound(ws[..top]);
    assert |ws[..top]| == top;
    TopValue(ws[top], Limbs(ws[..top]), 32 * top, k);
  }

  lemma TopValue(hi: nat, lo: nat, n: nat, k: nat)
    requires lo < Pow2(n) && k > 0 && Pow2(k - 1) <= hi < Pow2(k)
    ensures HighestBit(hi * Pow2(n) + lo, n + k)
  {
    ScaledBound(hi, lo, n, k);
    ScaledBound(hi, lo, n, k - 1);
  }

  /** The lowest n bits of word o, and all words below it, are still zero. */
  ghost predicate Room(ws: seq<word>, o: nat, n: nat) {
    o < |ws| && ws[o] % Pow2(n) == 0 && forall k :: 0 <= k < o ==> ws[k] == 0
  }

  function OrByte(w: word, b: byte, shift: nat): (r: word)
    requires shift <= 24
  {
    Pow2Values();
    ShlBound(b, shift, 8);
    Pow2Mono(8 + shift, 32);
    BitBelow(w, Shl(b, shift), 32);
    Or(w, Shl(b, shift))
  }

  lemma ExactDiv(w: nat, p: nat)
    requires p > 0 && w % p == 0
    ensures w == w / p * p
  {
  }

  lemma OrByteAdds(w: word, b: byte, shift: nat)
    requires shift <= 24 && w % Pow2(shift + 8) == 0
    ensures OrByte(w, b, shift) == w + Shl(b, shift) && OrByte(w, b, shift) % Pow2(shift) == 0
  {
    Pow2Values();
    ShlBound(b, shift, 8);
    OrExact(w, Shl(b, shift), shift + 8);
    ShlMultiplies(b, shift);
    Pow2Add(8, shift);
    SumMultiple(w, b, Pow2(shift));
  }

  lemma OrExact(w: nat, x: nat, n: nat)
    requires w % Pow2(n) == 0 && x < Pow2(n)
    ensures Or(w, x) == w + x
  {
    ExactDiv(w, Pow2(n));
    OrAdds(w / Pow2(n), x, n);
  }

  lemma SumMultiple(w: nat, b: nat, p: nat)
    requires p > 0 && w % (256 * p) == 0
    ensures (w + b * p) % p == 0
  {
    var q := w / (256 * p);
    ExactDiv(w, 256 * p);
    Regroup(q, b, 256, p);
    MultipleMod(q * 256 + b, p);
  }

  lemma MultipleMod(m: nat, p: nat)
    requires p > 0
    ensures m * p % p == 0
  {
    DivUnique(m * p, p, m, 0);
  }

  /** Putting a byte into empty room adds it at its place. */
  lemma PlaceValue(ws: seq<word>, o: nat, shift: nat, b: byte)
    requires shift <= 24 && Room(ws, o, shift + 8)
    ensures Limbs(ws[o := OrByte(ws[o], b, shift)]) == Limbs(ws) + Shl(b, shift + 32 * o)
  {
    OrByteAdds(ws[o], b, shift);
    LimbsUpdate(ws, o, OrByte(ws[o], b, shift), Shl(b, shift));
    ShlShl(b, shift, 32 * o);
  }

  lemma PlaceRoom(ws: seq<word>, o: nat, shift: nat, b: byte)
    requires shift <= 24 && Room(ws, o, shift + 8)
    ensures var ws' := ws[o := OrByte(ws[o], b, shift)];
      if shift > 0 then Room(ws', o, shift) else o > 0 ==> Room(ws', o - 1, 32)
  {
    OrByteAdds(ws[o], b, shift);
    ZeroMod(32);
  }

  lemma ZeroMod(n: nat)
    ensures 0 % Pow2(n) == 0
  {
  }

  /** The first i bytes of `s` are in place, with room below them for the rest. */
  ghost predicate Loaded(ws: seq<word>, s: seq<byte>, i: nat)
    requires i <= |s|
  {
    var m := |s| - i;
    && Limbs(ws) == Shl(BE(s[..i]), 8 * m)
    && (m > 0 ==> Room(ws, (m - 1) / 4, (m - 1) % 4 * 8 + 8))
  }

  /** The same, with nothing above the top word. */
  ghost predicate Loading(ws: seq<word>, s: seq<byte>, i: nat, top: nat) {
    i <= |s| && Loaded(ws, s, i) && forall k :: top < k < |ws| ==> ws[k] == 0
  }

  lemma StartLoading(ws: seq<word>, s: seq<byte>)
    requires s != [] && (|s| - 1) / 4 < |ws| && forall k :: 0 <= k < |ws| ==> ws[k] == 0
    ensures Loaded(ws, s, 0)
  {
    ZeroMod((|s| - 1) % 4 * 8 + 8);
    ZeroLimbs(ws);
    ShlMultiplies(0, 8 * |s|);
  }

  /** One turn of the loop in bitmap_from_string. */
  lemma ReadByte(ws: seq<word>, s: seq<byte>, i: nat, top: nat)
    requires i < |s| && Loading(ws, s, i, top) && (|s| - 1 - i) / 4 <= top
    ensures var m := |s| - 1 - i;
      m / 4 < |ws| && Loading(ws[m / 4 := OrByte(ws[m / 4], s[i], m % 4 * 8)], s, i + 1, top)
  {
    LoadedNext(ws, s, i);
  }

  lemma LoadedNext(ws: seq<word>, s: seq<byte>, i: nat)
    requires i < |s| && Loaded(ws, s, i)
    ensures var m := |s| - 1 - i;
      m / 4 < |ws| && Loaded(ws[m / 4 := OrByte(ws[m / 4], s[i], m % 4 * 8)], s, i + 1)
  {
    LoadedValue(ws, s, i);
    NextRoom(ws, |s| - 1 - i, s[i]);
  }

  /** The place of the next byte is the one just below. */
  lemma NextRoom(ws: seq<word>, m: nat, b: byte)
    requires Room(ws, m / 4, m % 4 * 8 + 8)
    ensures m > 0 ==>
      Room(ws[m / 4 := OrByte(ws[m / 4], b, m % 4 * 8)], (m - 1) / 4, (m - 1) % 4 * 8 + 8)
  {
    PlaceRoom(ws, m / 4, m % 4 * 8, b);
    if m > 0 { NextPlace(m); }
  }

  lemma NextPlace(m: nat)
    requires m > 0
    ensures if m % 4 == 0 then (m - 1) / 4 == m / 4 - 1 && (m - 1) % 4 == 3
            else (m - 1) / 4 == m / 4 && (m - 1) % 4 == m % 4 - 1
  {
  }

  lemma LoadedValue(ws: seq<word>, s: seq<byte>, i: nat)
    requires i < |s| && Loaded(ws, s, i)
    ensures var m := |s| - 1 - i;
      Limbs(ws[m / 4 := OrByte(ws[m / 4], s[i], m % 4 * 8)]) == Shl(BE(s[..i + 1]), 8 * m)
  {
    var m := |s| - 1 - i;
    var v := BE(s[..i]);
    PlaceAt(ws, m, s[i]);
    BESnoc(s, i);
    Accumulate(v, s[i], m);
  }

  lemma BESnoc(s: seq<byte>, i: nat)
    requires i < |s|
    ensures BE(s[..i + 1]) == BE(s[..i]) * 256 + s[i]
  {
    assert s[..i + 1][..i] == s[..i];
  }

  lemma PlaceAt(ws: seq<word>, m: nat, b: byte)
    requires Room(ws, m / 4, m % 4 * 8 + 8)
    ensures Limbs(ws[m / 4 := OrByte(ws[m / 4], b, m % 4 * 8)]) == Limbs(ws) + Shl(b, 8 * m)
  {
    PlaceValue(ws, m / 4, m % 4 * 8, b);
    PlaceBits(m);
  }

  lemma PlaceBits(m: nat)
    ensures m % 4 * 8 + 32 * (m / 4) == 8 * m
  {
  }

  lemma EndLoading(ws: seq<word>, s: seq<byte>)
    requires Loaded(ws, s, |s|)
    ensures Limbs(ws) == BE(s)
  {
    assert s[..|s|] == s;
  }

  lemma Accumulate(v: nat, b: byte, n: nat)
    ensures Shl(v, 8 + 8 * n) + Shl(b, 8 * n) == Shl(v * 256 + b, 8 * n)
  {
    Pow2Values();
    ShlMultiplies(v, 8);
    ShlShl(v, 8, 8 * n);
    ShlAdds(v * 256, b, 8 * n);
  }

  lemma StringIsSmall(s: seq<byte>)
    requires |s| <= BITMAP_MAX / 8
    ensures Small(BE(s))
  {
    BEBound(s);
    forall n: nat | Bit(BE(s), n) ensures n <= BITMAP_MAX {
      if n >= 8 * |s| { NoHighBit(BE(s), 8 * |s|, n); }
    }
  }

  // ----- round trips

  /** The string ToString writes is one FromString takes exactly when bit 2^24 is not set. */
  lemma AcceptsOwnOutput(v: nat, s: seq<byte>)
    requires Small(v) && Canonical(s) && BE(s) == v
    ensures |s| <= BITMAP_MAX / 8 <==> BITMAP_MAX !in Elements(v)
  {
    if |s| <= BITMAP_MAX / 8 {
      BEBound(s);
      NoHighBit(v, 8 * |s|, BITMAP_MAX);
    } else {
      CanonicalBounds(s);
      HighBits(v, 8 * (|s| - 1));
      var k: nat :| k >= 8 * (|s| - 1) && Bit(v, k);
      assert k == BITMAP_MAX;
    }
  }

  /** Reading a string and writing it back strips its leading zero bytes, and nothing else. */
  lemma RewritingStripsZeros(s: seq<byte>, t: seq<byte>)
    requires Canonical(t) && BE(t) == BE(s)
    ensures t == StripZeros(s)
  {
    StripKeepsValue(s);
    CanonicalUnique(t, StripZeros(s));
  }

  /** Writing a bitmap out and reading it into another, whatever that one held before: the
      other becomes the same set exactly when bit 2^24 is not in it and memory suffices. */
  method Transfer(b: Bitmap, c: Bitmap, p: array<byte>, alloc: bool) returns (ok: bool)
    requires b.Valid() && c.Valid() && b != c && b.d != c.d
    requires b.Value() < Pow2(8 * p.Length)
    modifies b`top, p, c, c.d
    ensures b.Valid() && c.Valid() && b.Value() == old(b.Value())
    ensures ok ==> Elements(c.Value()) == Elements(b.Value())
    ensures !ok ==> c.Value() == old(c.Value())
    ensures alloc ==> (ok <==> BITMAP_MAX !in Elements(b.Value()))
  {
    var done, need := b.ToString(p, p.Length);
    NeedFits(b.Value(), need, p.Length);
    AcceptsOwnOutput(b.Value(), p[..need]);
    ok := c.FromString(p[..need], alloc);
  }

  lemma NeedFits(v: nat, need: nat, l: nat)
    requires v < Pow2(8 * l) && (need > 0 ==> v >= Pow2(8 * (need - 1)))
    ensures need <= l
  {
    if need > l { Pow2Mono(8 * l, 8 * (need - 1)); }
  }
}
