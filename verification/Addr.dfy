/**
 * Network address arithmetic of addr.c. The four 32-bit words of an address are kept
 * in host order, most significant first (the source keeps them in network order and
 * converts with ntohl/htonl around arithmetic; the bitwise operators do not care), and
 * an IPv4 address uses the first word only. The partner of every operation is the
 * number the address stands for.
 */
module Addr {
  import opened Common
  import opened Bits

  datatype Family = Inet | Inet6 | Unspec

  datatype Addr = Addr(af: Family, w: seq<word>, scope: nat)

  predicate Sized(a: Addr) { |a.w| == 4 }

  /** Number of bits of an address. */
  function Width(af: Family): nat { if af == Inet then 32 else 128 }

  /** The words that count, least significant first. */
  function LimbsOf(a: Addr): (ls: seq<word>)
    requires Sized(a)
    ensures 32 * |ls| == Width(a.af)
  {
    if a.af == Inet then [a.w[0]] else [a.w[3], a.w[2], a.w[1], a.w[0]]
  }

  /** The address as a number. */
  function Val(a: Addr): nat
    requires Sized(a)
  {
    Limbs(LimbsOf(a))
  }

  lemma ValBound(a: Addr)
    requires Sized(a)
    ensures Val(a) < Pow2(Width(a.af))
  {
    LimbsBound(LimbsOf(a));
  }

  // ----- masks

  predicate MasklenValid(af: Family, l: nat) {
    (af == Inet && l <= 32) || (af == Inet6 && l <= 128)
  }

  /** (0xffffffff << (32 - l)) & 0xffffffff, with the l == 0 case the source sets apart. */
  function Mask32(l: nat): word
    requires l <= 32
  {
    if l == 0 then 0 else Shl(U32 - 1, 32 - l) % U32
  }

  function MaskWord(l: nat, i: nat): word {
    if l >= 32 * (i + 1) then U32 - 1 else if l <= 32 * i then 0 else Mask32(l - 32 * i)
  }

  function Netmask(af: Family, l: nat): Option<Addr> {
    if !MasklenValid(af, l) then None
    else if af == Inet then Some(Addr(Inet, [Mask32(l), 0, 0, 0], 0))
    else Some(Addr(Inet6, [MaskWord(l, 0), MaskWord(l, 1), MaskWord(l, 2), MaskWord(l, 3)], 0))
  }

  function NotWord(w: word): word { U32 - 1 - w }

  function Invert(a: Addr): Option<Addr>
    requires Sized(a)
  {
    match a.af
    case Inet => Some(a.(w := a.w[0 := NotWord(a.w[0])]))
    case Inet6 => Some(a.(w := seq(4, i requires 0 <= i < 4 => NotWord(a.w[i]))))
    case Unspec => None
  }

  function Hostmask(af: Family, l: nat): Option<Addr> {
    var m := Netmask(af, l);
    if m.None? then None else Invert(m.value)
  }

  function AndWord(a: word, b: word): word {
    Pow2Values();
    BitBelow(a, b, 32);
    And(a, b)
  }

  function OrWord(a: word, b: word): word {
    Pow2Values();
    BitBelow(a, b, 32);
    Or(a, b)
  }

  function AddrAnd(a: Addr, b: Addr): Option<Addr>
    requires Sized(a) && Sized(b)
  {
    if a.af != b.af then None
    else
      match a.af
      case Inet => Some(a.(w := a.w[0 := AndWord(a.w[0], b.w[0])]))
      case Inet6 => Some(a.(w := seq(4, i requires 0 <= i < 4 => AndWord(a.w[i], b.w[i]))))
      case Unspec => None
  }

  function AddrOr(a: Addr, b: Addr): Option<Addr>
    requires Sized(a) && Sized(b)
  {
    if a.af != b.af then None
    else
      match a.af
      case Inet => Some(a.(w := a.w[0 := OrWord(a.w[0], b.w[0])]))
      case Inet6 => Some(a.(w := seq(4, i requires 0 <= i < 4 => OrWord(a.w[i], b.w[i]))))
      case Unspec => None
  }

  // ----- comparison

  /** addr8[i] */
  function Octet(a: Addr, i: nat): byte
    requires Sized(a) && i < 16
  {
    Shr(a.w[i / 4], (3 - i % 4) * 8) % 256
  }

  function CmpOctets(a: Addr, b: Addr, i: nat): int
    requires Sized(a) && Sized(b) && i <= 16
    decreases 16 - i
  {
    if i == 16 then
      if a.scope == b.scope then 0 else if a.scope > b.scope then 1 else -1
    else
      var x: int, y: int := Octet(a, i), Octet(b, i);
      if x != y then x - y else CmpOctets(a, b, i + 1)
  }

  function Cmp(a: Addr, b: Addr): int
    requires Sized(a) && Sized(b)
  {
    if a.af != b.af then if a.af == Inet6 then 1 else -1
    else
      match a.af
      case Inet => if a.w[0] == b.w[0] then 0 else if a.w[0] > b.w[0] then 1 else -1
      case Inet6 => CmpOctets(a, b, 0)
      case Unspec => -1
  }

  // ----- increment

  function Inc(w: word): word { if w == U32 - 1 then 0 else w + 1 }

  /** Increment with carry from word i upwards. */
  function IncFrom(w: seq<word>, i: nat): seq<word>
    requires |w| == 4 && i < 4
    decreases i
  {
    var w1 := w[i := Inc(w[i])];
    if w1[i] != 0 || i == 0 then w1 else IncFrom(w1, i - 1)
  }

  function Increment(a: Addr): Addr
    requires Sized(a)
  {
    match a.af
    case Inet => a.(w := a.w[0 := Inc(a.w[0])])
    case Inet6 => a.(w := IncFrom(a.w, 3))
    case Unspec => a
  }

  // ----- matching

  predicate AllZero(a: Addr)
    requires Sized(a)
  {
    match a.af
    case Inet => a.w[0] == 0
    case Inet6 => a.w[0] == 0 && a.w[1] == 0 && a.w[2] == 0 && a.w[3] == 0
    case Unspec => false
  }

  /** addr_host_is_all0s; false also on failure. */
  predicate HostIsAllZero(a: Addr, masklen: nat)
    requires Sized(a)
  {
    var m := Hostmask(a.af, masklen);
    m.Some? && AddrAnd(a, m.value).Some? && AllZero(AddrAnd(a, m.value).value)
  }

  function HostToAllOnes(a: Addr, masklen: nat): Option<Addr>
    requires Sized(a)
  {
    var m := Hostmask(a.af, masklen);
    if m.None? then None else AddrOr(a, m.value)
  }

  function Netmatch(host: Addr, net: Addr, masklen: nat): int
    requires Sized(host) && Sized(net)
  {
    if host.af != net.af then -1
    else
      var m := Netmask(host.af, masklen);
      if m.None? then -1
      else
        var r := AddrAnd(host, m.value);
        if r.None? then -1 else Cmp(r.value, net)
  }

  // ----- bits of addresses

  lemma OnesBit(n: nat, k: nat)
    ensures Bit(Pow2(n) - 1, k) == (k < n)
  {
    BitNot(0, n, k);
    ZeroBits(k);
  }

  lemma Mask32Bit(l: nat, k: nat)
    requires l <= 32
    ensures Bit(Mask32(l), k) == (32 - l <= k < 32)
  {
    Pow2Values();
    if l == 0 {
      ZeroBits(k);
    } else {
      var s := 32 - l;
      ShlMultiplies(U32 - 1, s);
      BitMod(Shl(U32 - 1, s), 32, k);
      BitSplit(U32 - 1, 0, s, k);
      if k < s { ZeroBits(k); } else { OnesBit(32, k - s); }
    }
  }

  lemma MaskWordBit(l: nat, i: nat, k: nat)
    requires k < 32
    ensures Bit(MaskWord(l, i), k) == (32 * i + (31 - k) < l)
  {
    Pow2Values();
    if l >= 32 * (i + 1) { OnesBit(32, k); }
    else if l <= 32 * i { ZeroBits(k); }
    else { Mask32Bit(l - 32 * i, k); }
  }

  /** The mask of length m has exactly its m highest bits set. */
  lemma NetmaskBit(af: Family, m: nat, n: nat)
    requires MasklenValid(af, m)
    ensures var mask := Netmask(af, m).value;
      Sized(mask) && mask.af == af && Bit(Val(mask), n) == (Width(af) - m <= n < Width(af))
  {
    var mask := Netmask(af, m).value;
    LimbBit(LimbsOf(mask), n);
    if n < Width(af) {
      if af == Inet { Mask32Bit(m, n); }
      else { MaskWordBit(m, 3 - n / 32, n % 32); }
    }
  }

  /** addr_invert flips every bit within the width of the family. */
  lemma InvertBit(a: Addr, n: nat)
    requires Sized(a) && a.af != Unspec
    ensures var r := Invert(a);
      r.Some? && Sized(r.value) && r.value.af == a.af &&
      Bit(Val(r.value), n) == (n < Width(a.af) && !Bit(Val(a), n))
  {
    var r := Invert(a).value;
    LimbBit(LimbsOf(a), n);
    LimbBit(LimbsOf(r), n);
    if n < Width(a.af) {
      var w := LimbsOf(a)[n / 32];
      assert LimbsOf(r)[n / 32] == NotWord(w);
      NotWordBit(w, n % 32);
    }
  }

  lemma NotWordBit(w: word, k: nat)
    requires k < 32
    ensures Bit(NotWord(w), k) == !Bit(w, k)
  {
    Pow2Values();
    BitNot(w, 32, k);
  }

  lemma HostmaskBit(af: Family, m: nat, n: nat)
    requires MasklenValid(af, m)
    ensures var mask := Hostmask(af, m).value;
      Sized(mask) && mask.af == af && Bit(Val(mask), n) == (n < Width(af) - m)
  {
    NetmaskBit(af, m, n);
    InvertBit(Netmask(af, m).value, n);
  }

  lemma AndBit(a: Addr, b: Addr, n: nat)
    requires Sized(a) && Sized(b) && AddrAnd(a, b).Some?
    ensures var r := AddrAnd(a, b).value;
      Sized(r) && Bit(Val(r), n) == (Bit(Val(a), n) && Bit(Val(b), n))
  {
    var r := AddrAnd(a, b).value;
    LimbBit(LimbsOf(a), n);
    LimbBit(LimbsOf(b), n);
    LimbBit(LimbsOf(r), n);
    if n < Width(a.af) { BitAnd(LimbsOf(a)[n / 32], LimbsOf(b)[n / 32], n % 32); }
  }

  lemma OrBit(a: Addr, b: Addr, n: nat)
    requires Sized(a) && Sized(b) && AddrOr(a, b).Some?
    ensures var r := AddrOr(a, b).value;
      Sized(r) && Bit(Val(r), n) == (Bit(Val(a), n) || Bit(Val(b), n))
  {
    var r := AddrOr(a, b).value;
    LimbBit(LimbsOf(a), n);
    LimbBit(LimbsOf(b), n);
    LimbBit(LimbsOf(r), n);
    if n < Width(a.af) { BitOr(LimbsOf(a)[n / 32], LimbsOf(b)[n / 32], n % 32); }
  }

  // ----- masks as arithmetic

  /** `v` with its k lowest bits cleared. */
  function Network(v: nat, k: nat): nat { if k == 0 then v else 2 * Network(v / 2, k - 1) }

  /** `v` with its k lowest bits set. */
  function Broadcast(v: nat, k: nat): nat { if k == 0 then v else 2 * Broadcast(v / 2, k - 1) + 1 }

  lemma {:induction false} NetworkBit(v: nat, k: nat, n: nat)
    ensures Bit(Network(v, k), n) == (n >= k && Bit(v, n))
    ensures Bit(Broadcast(v, k), n) == (n < k || Bit(v, n))
    decreases k
  {
    if k > 0 && n > 0 {
      assert Network(v, k) / 2 == Network(v / 2, k - 1);
      assert Broadcast(v, k) / 2 == Broadcast(v / 2, k - 1);
      NetworkBit(v / 2, k - 1, n - 1);
    }
  }

  /** Numbers agree above bit k exactly when each lies in the other's block of 2^k. */
  lemma {:induction false} BlockRange(v: nat, h: nat, k: nat)
    ensures Broadcast(v, k) == Network(v, k) + Pow2(k) - 1
    ensures Network(h, k) == Network(v, k) <==> Network(v, k) <= h <= Broadcast(v, k)
  {
    if k > 0 { BlockRange(v / 2, h / 2, k - 1); }
  }

  /** A block that starts below 2^w ends below it. */
  lemma {:induction false} BlockFits(v: nat, k: nat, w: nat)
    requires v < Pow2(w) && k <= w
    ensures Broadcast(v, k) < Pow2(w)
    decreases k
  {
    if k > 0 { BlockFits(v / 2, k - 1, w - 1); }
  }

  /** host & mask clears the host bits. */
  lemma MaskedVal(a: Addr, m: nat)
    requires Sized(a) && MasklenValid(a.af, m)
    ensures var r := AddrAnd(a, Netmask(a.af, m).value);
      r.Some? && Sized(r.value) && r.value.af == a.af && r.value.scope == a.scope
      && Val(r.value) == Network(Val(a), Width(a.af) - m)
  {
    var mask := Netmask(a.af, m).value;
    var r := AddrAnd(a, mask).value;
    var k := Width(a.af) - m;
    ValBound(a);
    forall n: nat ensures Bit(Val(r), n) == Bit(Network(Val(a), k), n) {
      NetmaskBit(a.af, m, n);
      AndBit(a, mask, n);
      NetworkBit(Val(a), k, n);
      if n >= Width(a.af) { NoHighBit(Val(a), Width(a.af), n); }
    }
    BitExt(Val(r), Network(Val(a), k));
  }

  /** net | ~mask sets them. */
  lemma AllOnesVal(a: Addr, m: nat)
    requires Sized(a) && MasklenValid(a.af, m)
    ensures var r := HostToAllOnes(a, m);
      r.Some? && Sized(r.value) && r.value.af == a.af && r.value.scope == a.scope
      && Val(r.value) == Broadcast(Val(a), Width(a.af) - m)
  {
    var mask := Hostmask(a.af, m).value;
    var r := AddrOr(a, mask).value;
    var k := Width(a.af) - m;
    forall n: nat ensures Bit(Val(r), n) == Bit(Broadcast(Val(a), k), n) {
      HostmaskBit(a.af, m, n);
      OrBit(a, mask, n);
      NetworkBit(Val(a), k, n);
    }
    BitExt(Val(r), Broadcast(Val(a), k));
  }

  /** addr_host_is_all0s recognises the networks: no host bit set. */
  lemma HostZeroVal(a: Addr, m: nat)
    requires Sized(a) && MasklenValid(a.af, m)
    ensures HostIsAllZero(a, m) <==> Val(a) == Network(Val(a), Width(a.af) - m)
  {
    var mask := Hostmask(a.af, m).value;
    var r := AddrAnd(a, mask).value;
    var k := Width(a.af) - m;
    forall n: nat ensures Bit(Val(r), n) == (n < k && Bit(Val(a), n))
                  ensures Bit(Network(Val(a), k), n) == (n >= k && Bit(Val(a), n))
    {
      HostmaskBit(a.af, m, n);
      AndBit(a, mask, n);
      NetworkBit(Val(a), k, n);
    }
    ZeroVal(r);
    if AllZero(r) {
      forall n: nat ensures Bit(Val(a), n) == Bit(Network(Val(a), k), n) {
        assert Bit(Val(r), n) == (n < k && Bit(Val(a), n));
        ZeroBits(n);
      }
      BitExt(Val(a), Network(Val(a), k));
    } else if Val(a) == Network(Val(a), k) {
      forall n: nat ensures Bit(Val(r), n) == Bit(0, n) { ZeroBits(n); }
      BitExt(Val(r), 0);
    }
  }

  lemma ZeroVal(a: Addr)
    requires Sized(a) && a.af != Unspec
    ensures AllZero(a) <==> Val(a) == 0
  {
    var l := LimbsOf(a);
    if AllZero(a) { ZeroLimbs(l); }
    if Val(a) == 0 {
      LimbsZero(l);
      assert l[0] == 0 && (a.af == Inet6 ==> l[1] == 0 && l[2] == 0 && l[3] == 0);
    }
  }

  lemma {:induction false} LimbsZero(ws: seq<word>)
    requires Limbs(ws) == 0
    ensures forall i :: 0 <= i < |ws| ==> ws[i] == 0
  {
    if ws != [] { LimbsZero(ws[1..]); }
  }

  // ----- comparison is comparison of numbers

  function Octets(a: Addr): seq<byte>
    requires Sized(a)
  {
    seq(16, i requires 0 <= i < 16 => Octet(a, i))
  }

  lemma OctetsVal(a: Addr)
    requires Sized(a) && a.af == Inet6
    ensures BE(Octets(a)) == Val(a)
  {
    var s, l := Octets(a), LimbsOf(a);
    ValBound(a);
    forall k | 0 <= k < |s| ensures s[|s| - 1 - k] == Shr(Val(a), 8 * k) % 256 {
      LimbByte(l, k / 4, k % 4);
      assert l[k / 4] == a.w[(15 - k) / 4] && k % 4 == 3 - (15 - k) % 4;
      assert 4 * (k / 4) + k % 4 == k;
    }
    BEFromDigits(s, Val(a));
  }

  lemma ScaledLess(a: nat, b: nat, p: nat, lo: nat, lo': nat)
    requires a < b && lo < p
    ensures a * p + lo < b * p + lo'
  {
    MulAtLeast(p, b - a);
    assert p * (b - a) == b * p - a * p;
  }

  /** Of two strings of the same length, the first differing byte decides. */
  lemma LexOrder(s: seq<byte>, t: seq<byte>, i: nat)
    requires |s| == |t| && i < |s| && s[..i] == t[..i] && s[i] < t[i]
    ensures BE(s) < BE(t)
  {
    var s1, t1, s2, t2 := s[..i + 1], t[..i + 1], s[i + 1..], t[i + 1..];
    assert s1[..i] == s[..i] && t1[..i] == t[..i];
    assert BE(s1) < BE(t1);
    assert s == s1 + s2 && t == t1 + t2;
    BEConcat(s1, s2);
    BEConcat(t1, t2);
    BEBound(s2);
    ScaledLess(BE(s1), BE(t1), Pow2(8 * |s2|), BE(s2), BE(t2));
  }

  lemma {:induction false} CmpOctetsVal(a: Addr, b: Addr, i: nat)
    requires Sized(a) && Sized(b) && i <= 16 && Octets(a)[..i] == Octets(b)[..i]
    ensures var x, y, c := BE(Octets(a)), BE(Octets(b)), CmpOctets(a, b, i);
      && (c == 0 <==> x == y && a.scope == b.scope)
      && (c < 0 <==> x < y || (x == y && a.scope < b.scope))
    decreases 16 - i
  {
    var s, t := Octets(a), Octets(b);
    if i == 16 {
      assert s == s[..16] && t == t[..16];
    } else if s[i] == t[i] {
      assert s[..i + 1] == s[..i] + [s[i]] && t[..i + 1] == t[..i] + [t[i]];
      CmpOctetsVal(a, b, i + 1);
    } else if s[i] < t[i] {
      LexOrder(s, t, i);
    } else {
      LexOrder(t, s, i);
    }
  }

  ghost predicate SameScope(a: Addr, b: Addr) { a.af == Inet || a.scope == b.scope }

  /** Within a family, addr_cmp orders addresses as numbers, then by scope. */
  lemma CmpVal(a: Addr, b: Addr)
    requires Sized(a) && Sized(b) && a.af == b.af && a.af != Unspec
    ensures var c := Cmp(a, b);
      && (c == 0 <==> Val(a) == Val(b) && SameScope(a, b))
      && (SameScope(a, b) ==> (c < 0 <==> Val(a) < Val(b)))
  {
    if a.af == Inet6 {
      OctetsVal(a);
      OctetsVal(b);
      CmpOctetsVal(a, b, 0);
    } else {
      assert [a.w[0]][1..] == [] && [b.w[0]][1..] == [];
    }
  }

  // ----- increment is plus one

  function IncLimbs(l: seq<word>): seq<word> {
    if l == [] then [] else if Inc(l[0]) == 0 then [0] + IncLimbs(l[1..]) else [Inc(l[0])] + l[1..]
  }

  lemma {:induction false} IncLimbsVal(l: seq<word>)
    ensures Limbs(IncLimbs(l)) == if Limbs(l) + 1 == Pow2(32 * |l|) then 0 else Limbs(l) + 1
  {
    if l != [] {
      IncLimbsVal(l[1..]);
      IncLimbsHead(l[0], l[1..], Pow2(32 * (|l| - 1)));
      assert l == [l[0]] + l[1..];
      Pow2Add(32 * (|l| - 1), 32);
      Pow2Values();
    }
  }

  lemma LimbsCons(b: word, t: seq<word>)
    ensures Limbs([b] + t) == Limbs(t) * U32 + b
  {
    assert ([b] + t)[1..] == t;
  }

  lemma IncLimbsHead(b: word, t: seq<word>, p: nat)
    requires p == Pow2(32 * |t|)
    requires Limbs(IncLimbs(t)) == if Limbs(t) + 1 == p then 0 else Limbs(t) + 1
    ensures Limbs(IncLimbs([b] + t)) ==
            if Limbs([b] + t) + 1 == p * U32 then 0 else Limbs([b] + t) + 1
  {
    LimbsBound(t);
    CarryStep(Limbs(t), b, p);
    LimbsCons(b, t);
    LimbsCons(Inc(b), t);
    LimbsCons(0, IncLimbs(t));
    assert ([b] + t)[1..] == t;
  }

  lemma CarryStep(v: nat, b: word, p: nat)
    requires v < p
    ensures b < U32 - 1 ==> v * U32 + b + 1 < p * U32
    ensures v * U32 + U32 == p * U32 <==> v + 1 == p
  {
  }

  /** Words i down to 0, least significant first. */
  function Down(w: seq<word>, i: nat): seq<word>
    requires i < |w|
  {
    if i == 0 then [w[0]] else [w[i]] + Down(w, i - 1)
  }

  lemma {:induction false} DownSame(v: seq<word>, w: seq<word>, i: nat)
    requires i < |v| == |w| && v[..i + 1] == w[..i + 1]
    ensures Down(v, i) == Down(w, i)
  {
    assert v[i] == v[..i + 1][i] && w[i] == w[..i + 1][i];
    if i > 0 {
      assert v[..i] == v[..i + 1][..i] && w[..i] == w[..i + 1][..i];
      DownSame(v, w, i - 1);
    }
  }

  /** The carry loop of addr_increment is addition with carry on the words below. */
  lemma {:induction false} IncFromDown(w: seq<word>, i: nat)
    requires |w| == 4 && i < 4
    ensures var r := IncFrom(w, i);
      |r| == 4 && r[i + 1..] == w[i + 1..] && Down(r, i) == IncLimbs(Down(w, i))
    decreases i
  {
    if i > 0 {
      var w1 := w[i := Inc(w[i])];
      assert Down(w, i)[1..] == Down(w, i - 1);
      DownSame(w1, w, i - 1);
      if w1[i] == 0 {
        IncFromDown(w1, i - 1);
        assert IncFrom(w1, i - 1)[i..][0] == w1[i..][0];
        assert IncFrom(w1, i - 1)[i + 1..] == IncFrom(w1, i - 1)[i..][1..] && w1[i + 1..] == w1[i..][1..];
      }
    }
  }

  lemma IncFromLimbs(a: Addr)
    requires Sized(a) && a.af != Unspec
    ensures Sized(Increment(a)) && LimbsOf(Increment(a)) == IncLimbs(LimbsOf(a))
  {
    if a.af == Inet6 {
      IncFromDown(a.w, 3);
      DownIsLimbs(a);
      DownIsLimbs(Increment(a));
    }
  }

  lemma DownIsLimbs(a: Addr)
    requires Sized(a) && a.af == Inet6
    ensures LimbsOf(a) == Down(a.w, 3)
  {
    assert Down(a.w, 1) == [a.w[1], a.w[0]];
    assert Down(a.w, 2) == [a.w[2], a.w[1], a.w[0]];
  }

  /** addr_increment adds one, modulo 2^32 or 2^128, and nothing else. */
  lemma IncrementVal(a: Addr)
    requires Sized(a) && a.af != Unspec
    ensures var r := Increment(a);
      && Sized(r) && r.af == a.af && r.scope == a.scope
      && Val(r) == if Val(a) + 1 == Pow2(Width(a.af)) then 0 else Val(a) + 1
  {
    IncFromLimbs(a);
    IncLimbsVal(LimbsOf(a));
  }

  // ----- matching a network is lying in its range

  /** For a network (no host bits) and a host of its family and scope, addr_netmatch says yes
      exactly when the host lies between the network and its all-ones address. */
  lemma NetmatchIsRange(host: Addr, net: Addr, m: nat)
    requires Sized(host) && Sized(net) && host.af == net.af && SameScope(host, net)
    requires MasklenValid(net.af, m) && HostIsAllZero(net, m)
    ensures var last := HostToAllOnes(net, m);
      && last.Some? && Sized(last.value)
      && (Netmatch(host, net, m) == 0 <==> Cmp(net, host) <= 0 && Cmp(host, last.value) <= 0)
      && Val(last.value) == Val(net) + Pow2(Width(net.af) - m) - 1
  {
    var k := Width(net.af) - m;
    var last := HostToAllOnes(net, m).value;
    MaskedVal(host, m);
    AllOnesVal(net, m);
    HostZeroVal(net, m);
    BlockRange(Val(net), Val(host), k);
    CmpVal(AddrAnd(host, Netmask(host.af, m).value).value, net);
    CmpVal(net, host);
    CmpVal(host, last);
  }

  /** `n` increments. */
  function IncBy(a: Addr, n: nat): Addr
    requires Sized(a) && a.af != Unspec
    ensures Sized(IncBy(a, n)) && IncBy(a, n).af == a.af
  {
    if n == 0 then a else IncrementVal(IncBy(a, n - 1)); Increment(IncBy(a, n - 1))
  }

  lemma {:induction false} IncByVal(a: Addr, n: nat)
    requires Sized(a) && a.af != Unspec && Val(a) + n < Pow2(Width(a.af))
    ensures Val(IncBy(a, n)) == Val(a) + n && IncBy(a, n).scope == a.scope
  {
    if n > 0 {
      IncByVal(a, n - 1);
      IncrementVal(IncBy(a, n - 1));
    }
  }

  lemma RangeFits(net: Addr, m: nat)
    requires Sized(net) && MasklenValid(net.af, m) && HostIsAllZero(net, m)
    ensures Val(net) + Pow2(Width(net.af) - m) <= Pow2(Width(net.af))
  {
    var k := Width(net.af) - m;
    ValBound(net);
    HostZeroVal(net, m);
    BlockFits(Val(net), k, Width(net.af));
    BlockRange(Val(net), Val(net), k);
  }

  /** NetmatchIsRange, on numbers. */
  lemma NetmatchVal(host: Addr, net: Addr, m: nat)
    requires Sized(host) && Sized(net) && host.af == net.af && SameScope(host, net)
    requires MasklenValid(net.af, m) && HostIsAllZero(net, m)
    ensures Netmatch(host, net, m) == 0
      <==> Val(net) <= Val(host) < Val(net) + Pow2(Width(net.af) - m)
  {
    NetmatchIsRange(host, net, m);
    AllOnesVal(net, m);
    CmpVal(net, host);
    CmpVal(host, HostToAllOnes(net, m).value);
  }

  /** Counting up from a network visits, in order, 2^(W-m) addresses that all match it ... */
  lemma IncrementStaysInside(net: Addr, m: nat, i: nat)
    requires Sized(net) && MasklenValid(net.af, m) && HostIsAllZero(net, m)
    requires i < Pow2(Width(net.af) - m)
    ensures Val(IncBy(net, i)) == Val(net) + i && Netmatch(IncBy(net, i), net, m) == 0
  {
    RangeFits(net, m);
    IncByVal(net, i);
    NetmatchVal(IncBy(net, i), net, m);
  }

  /** ... and every matching host of its family and scope is one of them. */
  lemma IncrementReaches(net: Addr, m: nat, host: Addr) returns (i: nat)
    requires Sized(net) && Sized(host) && host.af == net.af && SameScope(host, net)
    requires MasklenValid(net.af, m) && HostIsAllZero(net, m) && Netmatch(host, net, m) == 0
    ensures i < Pow2(Width(net.af) - m) && Cmp(IncBy(net, i), host) == 0
  {
    RangeFits(net, m);
    NetmatchVal(host, net, m);
    i := Val(host) - Val(net);
    IncByVal(net, i);
    CmpVal(IncBy(net, i), host);
  }

  /** A network given with host bits set matches nothing. */
  lemma StrayHostBitsMatchNothing(host: Addr, net: Addr, m: nat)
    requires Sized(host) && Sized(net) && host.af == net.af && MasklenValid(net.af, m)
    requires !HostIsAllZero(net, m)
    ensures Netmatch(host, net, m) != 0
  {
    var k := Width(net.af) - m;
    MaskedVal(host, m);
    CmpVal(AddrAnd(host, Netmask(host.af, m).value).value, net);
    HostZeroVal(net, m);
    if Val(net) == Network(Val(host), k) {
      forall n: nat ensures Bit(Network(Val(net), k), n) == Bit(Val(net), n) {
        NetworkBit(Val(net), k, n);
        NetworkBit(Val(host), k, n);
      }
      BitExt(Network(Val(net), k), Val(net));
    }
  }

  // ----- the operations in place

  lemma AddrAndSelf(a: Addr)
    requires Sized(a) && a.af != Unspec
    ensures AddrAnd(a, a).value == a
  {
    forall i | 0 <= i < 4 ensures AndWord(a.w[i], a.w[i]) == a.w[i] { WordSelf(a.w[i]); }
  }

  lemma AddrOrSelf(a: Addr)
    requires Sized(a) && a.af != Unspec
    ensures AddrOr(a, a).value == a
  {
    forall i | 0 <= i < 4 ensures OrWord(a.w[i], a.w[i]) == a.w[i] { WordSelf(a.w[i]); }
  }

  lemma WordSelf(w: word)
    ensures And(w, w) == w && Or(w, w) == w
  {
    forall k: nat ensures Bit(And(w, w), k) == Bit(w, k) && Bit(Or(w, w), k) == Bit(w, k) {
      BitAnd(w, w, k);
      BitOr(w, w, k);
    }
    BitExt(And(w, w), w);
    BitExt(Or(w, w), w);
  }

  /** The loop over the four words of an address; the two arrays may be the same. */
  method AndWords(a: array<word>, b: array<word>)
    requires a.Length == b.Length == 4
    modifies a
    ensures a[..] == seq(4, i requires 0 <= i < 4 => AndWord(old(a[..])[i], old(b[..])[i]))
  {
    ghost var x, y := a[..], b[..];
    var i := 0;
    while i < 4
      invariant 0 <= i <= 4
      invariant forall k :: 0 <= k < i ==> a[k] == AndWord(x[k], y[k])
      invariant forall k :: i <= k < 4 ==> a[k] == x[k] && b[k] == y[k]
    {
      a[i] := AndWord(a[i], b[i]);
      i := i + 1;
    }
  }

  method OrWords(a: array<word>, b: array<word>)
    requires a.Length == b.Length == 4
    modifies a
    ensures a[..] == seq(4, i requires 0 <= i < 4 => OrWord(old(a[..])[i], old(b[..])[i]))
  {
    ghost var x, y := a[..], b[..];
    var i := 0;
    while i < 4
      invariant 0 <= i <= 4
      invariant forall k :: 0 <= k < i ==> a[k] == OrWord(x[k], y[k])
      invariant forall k :: i <= k < 4 ==> a[k] == x[k] && b[k] == y[k]
    {
      a[i] := OrWord(a[i], b[i]);
      i := i + 1;
    }
  }

  class XAddr {
    var af: Family
    var addr32: array<word>
    var scopeId: nat

    ghost predicate Valid()
      reads this
    {
      addr32.Length == 4
    }

    ghost function View(): Addr
      reads this, addr32
    {
      Addr(af, addr32[..], scopeId)
    }

    constructor (a: Addr)
      requires Sized(a)
      ensures Valid() && fresh(addr32) && View() == a
    {
      af, scopeId := a.af, a.scope;
      addr32 := new word[4](i requires 0 <= i < 4 => a.w[i]);
    }

    /** memcpy of the whole structure. */
    method CopyFrom(a: XAddr)
      requires Valid() && a.Valid() && (a == this || a.addr32 != addr32)
      modifies this, addr32
      ensures Valid() && addr32 == old(addr32) && View() == old(a.View())
    {
      if a != this {
        af, scopeId := a.af, a.scopeId;
        var i := 0;
        while i < 4
          invariant i <= 4 && af == a.af && scopeId == a.scopeId && addr32 == old(addr32)
          invariant a.addr32[..] == old(a.addr32[..]) && a.addr32 == old(a.addr32)
          invariant a.af == old(a.af) && a.scopeId == old(a.scopeId)
          invariant forall k :: 0 <= k < i ==> addr32[k] == a.addr32[k]
        {
          addr32[i] := a.addr32[i];
          i := i + 1;
        }
      }
    }

    method SetNetmask(af': Family, l: nat) returns (ok: bool)
      requires Valid()
      modifies this, addr32
      ensures Valid() && addr32 == old(addr32) && ok == Netmask(af', l).Some?
      ensures View() == if ok then Netmask(af', l).value else old(View())
    {
      if !MasklenValid(af', l) {
        return false;
      }
      scopeId := 0;
      addr32[0], addr32[1], addr32[2], addr32[3] := 0, 0, 0, 0;
      af := af';
      if af' == Inet {
        if l != 0 {
          addr32[0] := Mask32(l);
        }
        assert addr32[..] == [Mask32(l), 0, 0, 0];
        return true;
      }
      MaskWords(l);
      assert addr32[..] == [MaskWord(l, 0), MaskWord(l, 1), MaskWord(l, 2), MaskWord(l, 3)];
      return true;
    }

    /** The word loop of addr_netmask, on zeroed words. */
    method MaskWords(l: nat)
      requires Valid() && l <= 128 && forall k :: 0 <= k < 4 ==> addr32[k] == 0
      modifies addr32
      ensures Valid() && forall k :: 0 <= k < 4 ==> addr32[k] == MaskWord(l, k)
    {
      var i, rest := 0, l;
      while i < 4 && rest >= 32
        invariant 0 <= i <= 4 && l == 32 * i + rest
        invariant forall k :: 0 <= k < i ==> addr32[k] == U32 - 1
        invariant forall k :: i <= k < 4 ==> addr32[k] == 0
        decreases 4 - i
      {
        addr32[i] := U32 - 1;
        i, rest := i + 1, rest - 32;
      }
      if i < 4 && rest != 0 {
        addr32[i] := Mask32(rest);
      }
    }

    method InvertInPlace() returns (ok: bool)
      requires Valid()
      modifies addr32
      ensures ok == Invert(old(View())).Some?
      ensures View() == if ok then Invert(old(View())).value else old(View())
    {
      match af {
        case Inet =>
          addr32[0] := NotWord(addr32[0]);
          return true;
        case Inet6 =>
          var i := 0;
          while i < 4
            invariant i <= 4
            invariant forall k :: 0 <= k < i ==> addr32[k] == NotWord(old(addr32[k]))
            invariant forall k :: i <= k < 4 ==> addr32[k] == old(addr32[k])
          {
            addr32[i] := NotWord(addr32[i]);
            i := i + 1;
          }
          return true;
        case Unspec => return false;
      }
    }

    method SetHostmask(af': Family, l: nat) returns (ok: bool)
      requires Valid()
      modifies this, addr32
      ensures Valid() && addr32 == old(addr32) && ok == Hostmask(af', l).Some?
      ensures ok ==> View() == Hostmask(af', l).value
    {
      ok := SetNetmask(af', l);
      if ok {
        ok := InvertInPlace();
      }
    }

    /**
     * this := a & b, where this address may be `a` or `b`. It is overwritten with `a` first,
     * so that with `b` the result is `a`.
     */
    method AndOf(a: XAddr, b: XAddr) returns (ok: bool)
      requires Valid() && a.Valid() && b.Valid()
      requires (a == this || a.addr32 != addr32) && (b == this || b.addr32 != addr32)
      modifies this, addr32
      ensures Valid() && addr32 == old(addr32)
      ensures ok == AddrAnd(old(a.View()), old(b.View())).Some?
      ensures ok && b != this ==> View() == AddrAnd(old(a.View()), old(b.View())).value
      ensures ok && b == this ==> View() == old(a.View())
    {
      if a.af != b.af {
        return false;
      }
      CopyFrom(a);
      ghost var x, y := View(), b.View();
      match af {
        case Inet =>
          addr32[0] := AndWord(addr32[0], b.addr32[0]);
        case Inet6 =>
          AndWords(addr32, b.addr32);
        case Unspec => return false;
      }
      assert View() == AddrAnd(x, y).value;
      if b == this { AddrAndSelf(x); }
      ok := true;
    }

    /** this := a | b, in the same way. */
    method OrOf(a: XAddr, b: XAddr) returns (ok: bool)
      requires Valid() && a.Valid() && b.Valid()
      requires (a == this || a.addr32 != addr32) && (b == this || b.addr32 != addr32)
      modifies this, addr32
      ensures Valid() && addr32 == old(addr32)
      ensures ok == AddrOr(old(a.View()), old(b.View())).Some?
      ensures ok && b != this ==> View() == AddrOr(old(a.View()), old(b.View())).value
      ensures ok && b == this ==> View() == old(a.View())
    {
      if a.af != b.af {
        return false;
      }
      CopyFrom(a);
      ghost var x, y := View(), b.View();
      match af {
        case Inet =>
          addr32[0] := OrWord(addr32[0], b.addr32[0]);
        case Inet6 =>
          OrWords(addr32, b.addr32);
        case Unspec => return false;
      }
      assert View() == AddrOr(x, y).value;
      if b == this { AddrOrSelf(x); }
      ok := true;
    }

    method Compare(b: XAddr) returns (c: int)
      requires Valid() && b.Valid()
      ensures c == Cmp(View(), b.View())
    {
      if af != b.af {
        return if af == Inet6 then 1 else -1;
      }
      match af {
        case Inet =>
          if addr32[0] == b.addr32[0] {
            return 0;
          }
          return if addr32[0] > b.addr32[0] then 1 else -1;
        case Inet6 =>
          var i := 0;
          while i < 16
            invariant i <= 16 && CmpOctets(View(), b.View(), 0) == CmpOctets(View(), b.View(), i)
          {
            var x: int := Shr(addr32[i / 4], (3 - i % 4) * 8) % 256;
            var y: int := Shr(b.addr32[i / 4], (3 - i % 4) * 8) % 256;
            if x - y != 0 {
              return x - y;
            }
            i := i + 1;
          }
          if scopeId == b.scopeId {
            return 0;
          }
          return if scopeId > b.scopeId then 1 else -1;
        case Unspec => return -1;
      }
    }

    method IncrementInPlace()
      requires Valid()
      modifies addr32
      ensures View() == Increment(old(View()))
    {
      match af {
        case Inet => addr32[0] := Inc(addr32[0]);
        case Inet6 =>
          ghost var goal := IncFrom(addr32[..], 3);
          var i := 0;
          while i < 4
            invariant 0 <= i <= 4
            invariant i < 4 ==> IncFrom(addr32[..], 3 - i) == goal
            invariant i == 4 ==> addr32[..] == goal
          {
            ghost var before := addr32[..];
            var n := Inc(addr32[3 - i]);
            addr32[3 - i] := n;
            assert addr32[..] == before[3 - i := n];
            if n != 0 {
              break;
            }
            i := i + 1;
          }
        case Unspec =>
      }
    }

    method SetHostToAllOnes(masklen: nat) returns (ok: bool)
      requires Valid()
      modifies this, addr32
      ensures Valid() && ok == HostToAllOnes(old(View()), masklen).Some?
      ensures ok ==> View() == HostToAllOnes(old(View()), masklen).value
    {
      var mask := new XAddr(Addr(Unspec, [0, 0, 0, 0], 0));
      ok := mask.SetHostmask(af, masklen);
      if !ok {
        return;
      }
      ok := OrOf(this, mask);
    }

    method NetMatch(net: XAddr, masklen: nat) returns (r: int)
      requires Valid() && net.Valid()
      ensures r == Netmatch(View(), net.View(), masklen)
    {
      if af != net.af {
        return -1;
      }
      var mask := new XAddr(Addr(Unspec, [0, 0, 0, 0], 0));
      var ok := mask.SetNetmask(af, masklen);
      if !ok {
        return -1;
      }
      var result := new XAddr(Addr(Unspec, [0, 0, 0, 0], 0));
      ok := result.AndOf(this, mask);
      if !ok {
        return -1;
      }
      r := result.Compare(net);
    }
  }
}
