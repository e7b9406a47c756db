/**
 * Key options passed between processes (auth-options.c): each field is appended to a
 * buffer and taken off again in the same order, in the encodings of section 5 of
 * RFC 4251. A string that is absent is told apart from an empty one by a flag byte.
 */
module AuthOptions {
  import opened Common
  import opened Bits

  const SSHBUF_SIZE_MAX := 0x800_0000
  const SSH_ERR_INTERNAL_ERROR := -1
  const SSH_ERR_MESSAGE_INCOMPLETE := -3
  const SSH_ERR_INVALID_FORMAT := -4
  const SSH_ERR_STRING_TOO_LARGE := -6
  const SSH_ERR_NO_BUFFER_SPACE := -9

  /** What reading a value leaves: the value and the bytes after it, or an error. */
  datatype Parsed<+T> = Ok(value: T, rest: seq<byte>) | Err(code: int)

  /** The bytes of a C string before its terminator. */
  type cstring = s: seq<byte> | 0 !in s witness []

  datatype Flags = Flags(port: int, agent: int, x11: int, pty: int, userRc: int, restricted: int,
                         certAuthority: int, noUserPresence: int, verify: int)

  datatype Strings = Strings(principals: Option<cstring>, command: Option<cstring>,
                             hostCert: Option<cstring>, hostKeys: Option<cstring>)

  datatype Arrays = Arrays(env: seq<cstring>, permitOpen: seq<cstring>, permitListen: seq<cstring>)

  datatype Opts = Opts(flags: Flags, validBefore: nat, tun: int, strings: Strings, arrays: Arrays)

  /** What the C types of the fields allow. */
  ghost predicate Typed(o: Opts) {
    o.validBefore < U32 * U32 && -0x8000_0000 <= o.tun <= INT_MAX
  }

  // ----- the encodings

  /** The k low bytes of n, most significant first. */
  function Bytes(n: nat, k: nat): (r: seq<byte>)
    ensures |r| == k
  {
    if k == 0 then [] else Bytes(n / 256, k - 1) + [n % 256]
  }

  lemma {:induction false} BytesVal(n: nat, k: nat)
    requires n < Pow2(8 * k)
    ensures BE(Bytes(n, k)) == n
  {
    if k > 0 {
      Pow2Add(8, 8 * (k - 1));
      Pow2Values();
      BytesVal(n / 256, k - 1);
      assert Bytes(n, k)[..k - 1] == Bytes(n / 256, k - 1);
    }
  }

  lemma FourBytes(n: nat)
    requires n < U32
    ensures BE(Bytes(n, 4)) == n
  {
    Pow2Values();
    BytesVal(n, 4);
  }

  lemma EightBytes(n: nat)
    requires n < U32 * U32
    ensures BE(Bytes(n, 8)) == n
  {
    Pow2Add(32, 32);
    Pow2Values();
    BytesVal(n, 8);
  }

  function Byte(v: int): byte { v % 256 }

  function EncFlags(f: Flags): (r: seq<byte>)
    ensures |r| == 9
  {
    [Byte(f.port), Byte(f.agent), Byte(f.x11), Byte(f.pty), Byte(f.userRc), Byte(f.restricted),
     Byte(f.certAuthority), Byte(f.noUserPresence), Byte(f.verify)]
  }

  function EncTun(tun: int): (r: seq<byte>)
    ensures |r| == 5
  {
    [if tun == -1 then 1 else 0] + Bytes(if tun < 0 then 0 else tun, 4)
  }

  function EncString(s: seq<byte>): (r: seq<byte>)
    ensures |r| == |s| + 4
  {
    Bytes(|s|, 4) + s
  }

  /** An absent string is written as an empty one. */
  function Text(s: Option<cstring>): cstring {
    match s
    case None => []
    case Some(v) => v
  }

  function EncNullable(s: Option<cstring>): (r: seq<byte>)
    ensures |r| == 5 + |Text(s)|
  {
    [if s == None then 1 else 0] + EncString(Text(s))
  }

  function EncList(a: seq<cstring>): (r: seq<byte>)
    ensures |r| >= 4 * |a|
  {
    if a == [] then [] else EncString(a[0]) + EncList(a[1..])
  }

  function EncArray(a: seq<cstring>): (r: seq<byte>)
    ensures |r| >= 8 + 4 * |a|
  {
    Bytes(|a|, 4) + EncString(EncList(a))
  }

  function EncStrings(s: Strings): seq<byte> {
    EncNullable(s.principals) + (EncNullable(s.command) +
      (EncNullable(s.hostCert) + EncNullable(s.hostKeys)))
  }

  function EncArrays(a: Arrays): seq<byte> {
    EncArray(a.env) + (EncArray(a.permitOpen) + EncArray(a.permitListen))
  }

  function Encode(o: Opts): seq<byte> {
    EncFlags(o.flags) + (Bytes(o.validBefore, 8) + (EncTun(o.tun) +
      (EncStrings(o.strings) + EncArrays(o.arrays))))
  }

  // ----- reading back

  function GetU8(s: seq<byte>): Parsed<byte> {
    if |s| < 1 then Err(SSH_ERR_MESSAGE_INCOMPLETE) else Ok(s[0], s[1..])
  }

  /** An unsigned number of k bytes. */
  function GetUint(s: seq<byte>, k: nat): Parsed<nat> {
    if |s| < k then Err(SSH_ERR_MESSAGE_INCOMPLETE) else Ok(BE(s[..k]), s[k..])
  }

  /** A length and that many bytes. */
  function GetString(s: seq<byte>): Parsed<seq<byte>> {
    if |s| < 4 then Err(SSH_ERR_MESSAGE_INCOMPLETE)
    else
      var len := BE(s[..4]);
      if len > SSHBUF_SIZE_MAX - 4 then Err(SSH_ERR_STRING_TOO_LARGE)
      else if |s| - 4 < len then Err(SSH_ERR_MESSAGE_INCOMPLETE)
      else Ok(s[4..4 + len], s[4 + len..])
  }

  /** A string with no zero byte, except that the last byte may be one. */
  function GetCString(s: seq<byte>): Parsed<cstring> {
    match GetString(s)
    case Err(c) => Err(c)
    case Ok(v, rest) =>
      if v == [] then Ok([], rest)
      else
        var n := |v| - 1;
        if 0 in v[..n] then Err(SSH_ERR_INVALID_FORMAT)
        else if v[n] == 0 then Ok(v[..n], rest)
        else
          assert v == v[..n] + [v[n]];
          Ok(v, rest)
  }

  function GetNullable(s: seq<byte>): Parsed<Option<cstring>> {
    match GetU8(s)
    case Err(c) => Err(c)
    case Ok(flag, rest) =>
      match GetCString(rest)
      case Err(c) => Err(c)
      case Ok(v, rest') => Ok(if flag != 0 then None else Some(v), rest')
  }

  function GetList(s: seq<byte>, n: nat): Parsed<seq<cstring>> {
    if n == 0 then Ok([], s)
    else
      match GetCString(s)
      case Err(c) => Err(c)
      case Ok(v, rest) => Front(v, GetList(rest, n - 1))
  }

  function Front(v: cstring, p: Parsed<seq<cstring>>): Parsed<seq<cstring>> {
    match p
    case Err(c) => Err(c)
    case Ok(vs, rest) => Ok([v] + vs, rest)
  }

  function GetArray(s: seq<byte>): Parsed<seq<cstring>> {
    match GetUint(s, 4)
    case Err(c) => Err(c)
    case Ok(n, s1) =>
      match GetString(s1)
      case Err(c) => Err(c)
      case Ok(b, s2) =>
        if n > INT_MAX then Err(SSH_ERR_INVALID_FORMAT)
        else
          match GetList(b, n)
          case Err(c) => Err(c)
          case Ok(a, _) => Ok(a, s2)
  }

  function GetFlags(s: seq<byte>): Parsed<Flags> {
    if |s| < 9 then Err(SSH_ERR_MESSAGE_INCOMPLETE)
    else Ok(Flags(s[0], s[1], s[2], s[3], s[4], s[5], s[6], s[7], s[8]), s[9..])
  }

  /** A number of 32 bits read as signed. */
  function Signed(n: nat): int { if n > INT_MAX then n - U32 else n }

  function GetTun(s: seq<byte>): Parsed<int> {
    match GetU8(s)
    case Err(c) => Err(c)
    case Ok(flag, s1) =>
      match GetUint(s1, 4)
      case Err(c) => Err(c)
      case Ok(n, s2) => Ok(if flag != 0 then -1 else Signed(n), s2)
  }

  function GetStrings(s: seq<byte>): Parsed<Strings> {
    match GetNullable(s)
    case Err(c) => Err(c)
    case Ok(p, s1) =>
      match GetNullable(s1)
      case Err(c) => Err(c)
      case Ok(f, s2) =>
        match GetNullable(s2)
        case Err(c) => Err(c)
        case Ok(hc, s3) =>
          match GetNullable(s3)
          case Err(c) => Err(c)
          case Ok(hk, s4) => Ok(Strings(p, f, hc, hk), s4)
  }

  function GetArrays(s: seq<byte>): Parsed<Arrays> {
    match GetArray(s)
    case Err(c) => Err(c)
    case Ok(e, s1) =>
      match GetArray(s1)
      case Err(c) => Err(c)
      case Ok(po, s2) =>
        match GetArray(s2)
        case Err(c) => Err(c)
        case Ok(pl, s3) => Ok(Arrays(e, po, pl), s3)
  }

  function Decode(s: seq<byte>): Parsed<Opts> {
    match GetFlags(s)
    case Err(c) => Err(c)
    case Ok(f, s1) =>
      match GetUint(s1, 8)
      case Err(c) => Err(c)
      case Ok(vb, s2) =>
        match GetTun(s2)
        case Err(c) => Err(c)
        case Ok(t, s3) =>
          match GetStrings(s3)
          case Err(c) => Err(c)
          case Ok(ss, s4) =>
            match GetArrays(s4)
            case Err(c) => Err(c)
            case Ok(a, s5) => Ok(Opts(f, vb, t, ss, a), s5)
  }

  // ----- what comes back

  function NormalFlags(f: Flags): Flags {
    Flags(Byte(f.port), Byte(f.agent), Byte(f.x11), Byte(f.pty), Byte(f.userRc), Byte(f.restricted),
          Byte(f.certAuthority), Byte(f.noUserPresence), Byte(f.verify))
  }

  /** The options as the other process sees them: flags cut to a byte, odd devices zero. */
  function Normal(o: Opts): Opts {
    o.(flags := NormalFlags(o.flags), tun := if o.tun < -1 then 0 else o.tun)
  }

  /** The options sent on behalf of a key that is not trusted yet. */
  function Redacted(o: Opts): Opts {
    o.(strings := Strings(Some(YES), Some(TRUE), None, None), arrays := Arrays([], [], []))
  }

  const YES: cstring := [121, 101, 115]
  const TRUE: cstring := [116, 114, 117, 101]

  predicate IsByte(v: int) { 0 <= v < 256 }

  predicate ByteFlags(f: Flags) {
    IsByte(f.port) && IsByte(f.agent) && IsByte(f.x11) && IsByte(f.pty) && IsByte(f.userRc) &&
    IsByte(f.restricted) && IsByte(f.certAuthority) && IsByte(f.noUserPresence) && IsByte(f.verify)
  }

  // ----- round trips, piece by piece

  lemma StringBack(s: seq<byte>, t: seq<byte>)
    requires |s| <= SSHBUF_SIZE_MAX - 4
    ensures GetString(EncString(s) + t) == Ok(s, t)
  {
    FourBytes(|s|);
    var w := EncString(s) + t;
    assert w[..4] == Bytes(|s|, 4);
    assert w[4..4 + |s|] == s && w[4 + |s|..] == t;
  }

  lemma CStringBack(s: cstring, t: seq<byte>)
    requires |s| <= SSHBUF_SIZE_MAX - 4
    ensures GetCString(EncString(s) + t) == Ok(s, t)
  {
    StringBack(s, t);
  }

  lemma NullableBack(s: Option<cstring>, t: seq<byte>)
    requires |EncNullable(s)| <= SSHBUF_SIZE_MAX
    ensures GetNullable(EncNullable(s) + t) == Ok(s, t)
  {
    var w, rest := EncNullable(s) + t, EncString(Text(s)) + t;
    CStringBack(Text(s), t);
    assert w[0] == (if s == None then 1 else 0) && w[1..] == rest;
  }

  lemma {:induction false} ListBack(a: seq<cstring>)
    requires |EncList(a)| <= SSHBUF_SIZE_MAX
    ensures GetList(EncList(a), |a|) == Ok(a, [])
  {
    if a != [] {
      CStringBack(a[0], EncList(a[1..]));
      ListBack(a[1..]);
      assert [a[0]] + a[1..] == a;
    }
  }

  lemma ArrayBack(a: seq<cstring>, t: seq<byte>)
    requires |EncArray(a)| <= SSHBUF_SIZE_MAX
    ensures GetArray(EncArray(a) + t) == Ok(a, t)
  {
    var b := EncList(a);
    var w := EncArray(a) + t;
    FourBytes(|a|);
    assert w[..4] == Bytes(|a|, 4) && w[4..] == EncString(b) + t;
    StringBack(b, t);
    ListBack(a);
  }

  lemma Assoc3(a: seq<byte>, b: seq<byte>, t: seq<byte>)
    ensures (a + b) + t == a + (b + t)
  {
  }

  lemma FlagsBack(f: Flags, t: seq<byte>)
    ensures GetFlags(EncFlags(f) + t) == Ok(NormalFlags(f), t)
  {
  }

  lemma UintBack(n: nat, t: seq<byte>)
    requires n < U32 * U32
    ensures GetUint(Bytes(n, 8) + t, 8) == Ok(n, t)
  {
    EightBytes(n);
    assert (Bytes(n, 8) + t)[..8] == Bytes(n, 8);
  }

  lemma TunBack(tun: int, t: seq<byte>)
    requires -0x8000_0000 <= tun <= INT_MAX
    ensures GetTun(EncTun(tun) + t) == Ok(if tun < -1 then 0 else tun, t)
  {
    var n := if tun < 0 then 0 else tun;
    FourBytes(n);
    assert (EncTun(tun) + t)[1..] == Bytes(n, 4) + t;
    assert (Bytes(n, 4) + t)[..4] == Bytes(n, 4) && (Bytes(n, 4) + t)[4..] == t;
  }

  lemma StringsBack(s: Strings, t: seq<byte>)
    requires |EncStrings(s)| <= SSHBUF_SIZE_MAX
    ensures GetStrings(EncStrings(s) + t) == Ok(s, t)
  {
    var a, b, c, d := EncNullable(s.principals), EncNullable(s.command),
                      EncNullable(s.hostCert), EncNullable(s.hostKeys);
    Assoc3(a, b + (c + d), t);
    Assoc3(b, c + d, t);
    Assoc3(c, d, t);
    NullableBack(s.principals, b + (c + (d + t)));
    NullableBack(s.command, c + (d + t));
    NullableBack(s.hostCert, d + t);
    NullableBack(s.hostKeys, t);
  }

  lemma ArraysBack(a: Arrays, t: seq<byte>)
    requires |EncArrays(a)| <= SSHBUF_SIZE_MAX
    ensures GetArrays(EncArrays(a) + t) == Ok(a, t)
  {
    var x, y, z := EncArray(a.env), EncArray(a.permitOpen), EncArray(a.permitListen);
    Assoc3(x, y + z, t);
    Assoc3(y, z, t);
    ArrayBack(a.env, y + (z + t));
    ArrayBack(a.permitOpen, z + t);
    ArrayBack(a.permitListen, t);
  }

  /** Reading what was written, followed by anything: the normal form, and the rest untouched. */
  lemma DecodeEncode(o: Opts, t: seq<byte>)
    requires Typed(o) && |Encode(o)| <= SSHBUF_SIZE_MAX
    ensures Decode(Encode(o) + t) == Ok(Normal(o), t)
  {
    var f, vb, tn, ss, a := EncFlags(o.flags), Bytes(o.validBefore, 8), EncTun(o.tun),
                            EncStrings(o.strings), EncArrays(o.arrays);
    Assoc3(f, vb + (tn + (ss + a)), t);
    Assoc3(vb, tn + (ss + a), t);
    Assoc3(tn, ss + a, t);
    Assoc3(ss, a, t);
    FlagsBack(o.flags, vb + (tn + (ss + (a + t))));
    UintBack(o.validBefore, tn + (ss + (a + t)));
    TunBack(o.tun, ss + (a + t));
    StringsBack(o.strings, a + t);
    ArraysBack(o.arrays, t);
  }

  lemma NormalOnlyIf(o: Opts)
    ensures Normal(o) == o <==> ByteFlags(o.flags) && o.tun >= -1
  {
  }

  /** Exactly these options survive unchanged. */
  lemma SurvivesExactly(o: Opts, t: seq<byte>)
    requires Typed(o) && |Encode(o)| <= SSHBUF_SIZE_MAX
    ensures Decode(Encode(o) + t) == Ok(o, t) <==> ByteFlags(o.flags) && o.tun >= -1
  {
    DecodeEncode(o, t);
    NormalOnlyIf(o);
    var n := Normal(o);
    assert Decode(Encode(o) + t) == Ok(n, t);
  }

  /** No two sets of options that fit are encoded alike, nor is one a prefix of the other. */
  lemma EncodingIsPrefixFree(o: Opts, p: Opts, t: seq<byte>)
    requires Typed(o) && |Encode(o)| <= SSHBUF_SIZE_MAX && ByteFlags(o.flags) && o.tun >= -1
    requires Typed(p) && |Encode(p)| <= SSHBUF_SIZE_MAX && ByteFlags(p.flags) && p.tun >= -1
    requires Encode(p) == Encode(o) + t
    ensures o == p && t == []
  {
    SurvivesExactly(o, t);
    SurvivesExactly(p, []);
    assert Encode(p) + [] == Encode(p);
  }

  // ----- the buffer and the functions that change it

  /** A put of `b`: all of it or an error, and nothing already there is lost. */
  ghost predicate Appended(before: seq<byte>, after: seq<byte>, b: seq<byte>, r: int) {
    (r == 0 <==> |before| + |b| <= SSHBUF_SIZE_MAX) &&
    before <= after && (r == 0 ==> after == before + b)
  }

  lemma AppendedBoth(s0: seq<byte>, s1: seq<byte>, s2: seq<byte>, b: seq<byte>, c: seq<byte>, r: int)
    requires Appended(s0, s1, b, 0) && Appended(s1, s2, c, r)
    ensures Appended(s0, s2, b + c, r)
  {
  }

  lemma AppendedFails(s0: seq<byte>, s1: seq<byte>, b: seq<byte>, c: seq<byte>, r: int)
    requires r != 0 && Appended(s0, s1, b, r)
    ensures Appended(s0, s1, b + c, r)
  {
  }

  /** A get: the value and the bytes after it, or the parser's error. */
  ghost predicate Took<T>(p: Parsed<T>, r: int, v: T, after: seq<byte>) {
    match p
    case Ok(value, rest) => r == 0 && v == value && after == rest
    case Err(code) => r == code && code != 0
  }

  class Sshbuf {
    var data: seq<byte>

    constructor (s: seq<byte>)
      ensures data == s
    {
      data := s;
    }

    method Put(b: seq<byte>) returns (r: int)
      modifies this
      ensures Appended(old(data), data, b, r)
    {
      if |data| + |b| > SSHBUF_SIZE_MAX { return SSH_ERR_NO_BUFFER_SPACE; }
      data := data + b;
      r := 0;
    }

    method PutString(s: seq<byte>) returns (r: int)
      modifies this
      ensures Appended(old(data), data, EncString(s), r)
    {
      if |s| > SSHBUF_SIZE_MAX - 4 { return SSH_ERR_NO_BUFFER_SPACE; }
      r := Put(Bytes(|s|, 4) + s);
    }

    method TakeUint(k: nat) returns (r: int, v: nat)
      modifies this
      ensures Took(GetUint(old(data), k), r, v, data)
    {
      if k > |data| { return SSH_ERR_MESSAGE_INCOMPLETE, 0; }
      v := BE(data[..k]);
      data := data[k..];
      r := 0;
    }

    method TakeU8() returns (r: int, v: byte)
      modifies this
      ensures Took(GetU8(old(data)), r, v, data)
    {
      if |data| < 1 { return SSH_ERR_MESSAGE_INCOMPLETE, 0; }
      v, data := data[0], data[1..];
      r := 0;
    }

    method TakeString() returns (r: int, v: seq<byte>)
      modifies this
      ensures Took(GetString(old(data)), r, v, data)
    {
      v := [];
      if |data| < 4 { return SSH_ERR_MESSAGE_INCOMPLETE, v; }
      var len := BE(data[..4]);
      if len > SSHBUF_SIZE_MAX - 4 { return SSH_ERR_STRING_TOO_LARGE, v; }
      if |data| - 4 < len { return SSH_ERR_MESSAGE_INCOMPLETE, v; }
      v, data := data[4..4 + len], data[4 + len..];
      r := 0;
    }

    /** sshbuf_get_cstring: nothing is consumed when the string is refused. */
    method TakeCString() returns (r: int, v: cstring)
      modifies this
      ensures Took(GetCString(old(data)), r, v, data)
    {
      match GetCString(data)
      case Err(c) => r, v := c, [];
      case Ok(s, rest) => r, v, data := 0, s, rest;
    }
  }

  /** The strings of an array, one after the other. */
  method PutList(b: Sshbuf, a: seq<cstring>) returns (r: int)
    requires |b.data| <= SSHBUF_SIZE_MAX
    modifies b
    ensures Appended(old(b.data), b.data, EncList(a), r)
  {
    r := 0;
    var i := 0;
    assert a[0..] == a;
    while i < |a|
      invariant 0 <= i <= |a| && r == 0
      invariant Between(old(b.data), b.data, EncList(a), EncList(a[i..]))
    {
      ghost var d, rest := b.data, EncList(a[i + 1..]);
      r := b.PutString(a[i]);
      BetweenStep(old(b.data), d, b.data, EncList(a), EncString(a[i]), rest, r);
      assert a[i..][1..] == a[i + 1..] && EncList(a[i..]) == EncString(a[i]) + rest;
      if r != 0 { return; }
      i := i + 1;
    }
  }

  /** Of `whole`, what is still to be appended is `rest`. */
  ghost predicate Between(before: seq<byte>, now: seq<byte>, whole: seq<byte>, rest: seq<byte>) {
    before <= now && before + whole == now + rest && |now| <= SSHBUF_SIZE_MAX
  }

  lemma BetweenStep(s0: seq<byte>, s1: seq<byte>, s2: seq<byte>, whole: seq<byte>, b: seq<byte>,
                    rest: seq<byte>, r: int)
    requires Between(s0, s1, whole, b + rest) && Appended(s1, s2, b, r)
    ensures r == 0 ==> Between(s0, s2, whole, rest)
    ensures r != 0 ==> Appended(s0, s2, whole, r)
  {
  }

  /** serialise_array: the strings go into a buffer of their own first. */
  method SerialiseArray(m: Sshbuf, a: seq<cstring>) returns (r: int)
    modifies m
    ensures Appended(old(m.data), m.data, EncArray(a), r)
  {
    if |a| > INT_MAX { return SSH_ERR_INTERNAL_ERROR; }
    var b := new Sshbuf([]);
    r := PutList(b, a);
    if r != 0 { return; }
    assert b.data == EncList(a);
    ghost var s0, tail := m.data, EncString(EncList(a));
    r := m.Put(Bytes(|a|, 4));
    ghost var s1 := m.data;
    if r != 0 {
      AppendedFails(s0, s1, Bytes(|a|, 4), tail, r);
      return;
    }
    r := m.PutString(b.data);
    AppendedBoth(s0, s1, m.data, Bytes(|a|, 4), tail, r);
  }

  method TakeList(b: Sshbuf, n: nat) returns (r: int, a: seq<cstring>)
    modifies b
    ensures Took(GetList(old(b.data), n), r, a, b.data)
  {
    r, a := 0, [];
    var i := 0;
    PrefixedNone(GetList(b.data, n));
    while i < n
      invariant 0 <= i <= n && |a| == i && r == 0
      invariant GetList(old(b.data), n) == Prefixed(a, GetList(b.data, n - i))
    {
      var v: cstring;
      r, v := b.TakeCString();
      if r != 0 { return; }
      PrefixedStep(a, v, GetList(b.data, n - i - 1));
      a := a + [v];
      i := i + 1;
    }
    assert a + [] == a;
  }

  /** deserialise_array: bytes left over inside the inner buffer are dropped. */
  method DeserialiseArray(m: Sshbuf) returns (r: int, a: seq<cstring>)
    modifies m
    ensures Took(GetArray(old(m.data)), r, a, m.data)
  {
    var n: nat;
    var s: seq<byte>;
    a := [];
    r, n := m.TakeUint(4);
    if r != 0 { return; }
    r, s := m.TakeString();
    if r != 0 { return; }
    if n > INT_MAX { r := SSH_ERR_INVALID_FORMAT; return; }
    var b := new Sshbuf(s);
    r, a := TakeList(b, n);
  }

  lemma PrefixedNone(p: Parsed<seq<cstring>>)
    ensures Prefixed([], p) == p
  {
    if p.Ok? { assert [] + p.value == p.value; }
  }

  function Prefixed(a: seq<cstring>, p: Parsed<seq<cstring>>): Parsed<seq<cstring>> {
    match p
    case Err(c) => Err(c)
    case Ok(vs, rest) => Ok(a + vs, rest)
  }

  lemma PrefixedStep(a: seq<cstring>, v: cstring, p: Parsed<seq<cstring>>)
    ensures Prefixed(a, Front(v, p)) == Prefixed(a + [v], p)
  {
    if p.Ok? { assert a + ([v] + p.value) == (a + [v]) + p.value; }
  }

  /** serialise_nullable_string */
  method SerialiseNullable(m: Sshbuf, s: Option<cstring>) returns (r: int)
    modifies m
    ensures Appended(old(m.data), m.data, EncNullable(s), r)
  {
    ghost var s0, f := m.data, [if s == None then 1 else 0];
    r := m.Put([if s == None then 1 else 0]);
    ghost var s1 := m.data;
    if r != 0 {
      AppendedFails(s0, s1, f, EncString(Text(s)), r);
      return;
    }
    r := m.PutString(Text(s));
    AppendedBoth(s0, s1, m.data, f, EncString(Text(s)), r);
  }

  /** deserialise_nullable_string: the string is read even when it is to be dropped. */
  method DeserialiseNullable(m: Sshbuf) returns (r: int, s: Option<cstring>)
    modifies m
    ensures Took(GetNullable(old(m.data)), r, s, m.data)
  {
    var flag: byte;
    var v: cstring;
    s := None;
    r, flag := m.TakeU8();
    if r != 0 { return; }
    r, v := m.TakeCString();
    if r != 0 { return; }
    if flag == 0 { s := Some(v); }
  }

  /** The flag bytes, put one after the other. */
  method PutEach(m: Sshbuf, f: seq<byte>) returns (r: int)
    requires |m.data| <= SSHBUF_SIZE_MAX
    modifies m
    ensures Appended(old(m.data), m.data, f, r)
  {
    r := 0;
    var i := 0;
    while i < |f|
      invariant 0 <= i <= |f| && r == 0
      invariant Between(old(m.data), m.data, f, f[i..])
    {
      ghost var d := m.data;
      r := m.Put([f[i]]);
      assert f[i..] == [f[i]] + f[i + 1..];
      BetweenStep(old(m.data), d, m.data, f, [f[i]], f[i + 1..], r);
      if r != 0 { return; }
      i := i + 1;
    }
  }

  method SerialiseTun(m: Sshbuf, tun: int) returns (r: int)
    modifies m
    ensures Appended(old(m.data), m.data, EncTun(tun), r)
  {
    ghost var s0, f, n := m.data, [if tun == -1 then 1 else 0], Bytes(if tun < 0 then 0 else tun, 4);
    r := m.Put([if tun == -1 then 1 else 0]);
    ghost var s1 := m.data;
    if r != 0 {
      AppendedFails(s0, s1, f, n, r);
      return;
    }
    r := m.Put(Bytes(if tun < 0 then 0 else tun, 4));
    AppendedBoth(s0, s1, m.data, f, n, r);
  }

  method SerialiseStrings(m: Sshbuf, s: Strings) returns (r: int)
    requires |m.data| <= SSHBUF_SIZE_MAX
    modifies m
    ensures Appended(old(m.data), m.data, EncStrings(s), r)
  {
    ghost var s0, a, b, c, d := m.data, EncNullable(s.principals), EncNullable(s.command),
                                EncNullable(s.hostCert), EncNullable(s.hostKeys);
    ghost var whole := a + (b + (c + d));
    r := SerialiseNullable(m, s.principals);
    BetweenStep(s0, s0, m.data, whole, a, b + (c + d), r);
    if r != 0 { return; }
    ghost var s1 := m.data;
    r := SerialiseNullable(m, s.command);
    BetweenStep(s0, s1, m.data, whole, b, c + d, r);
    if r != 0 { return; }
    ghost var s2 := m.data;
    r := SerialiseNullable(m, s.hostCert);
    BetweenStep(s0, s2, m.data, whole, c, d, r);
    if r != 0 { return; }
    ghost var s3 := m.data;
    r := SerialiseNullable(m, s.hostKeys);
    assert d + [] == d;
    BetweenStep(s0, s3, m.data, whole, d, [], r);
  }

  method SerialiseArrays(m: Sshbuf, a: Arrays) returns (r: int)
    requires |m.data| <= SSHBUF_SIZE_MAX
    modifies m
    ensures Appended(old(m.data), m.data, EncArrays(a), r)
  {
    ghost var s0, x, y, z := m.data, EncArray(a.env), EncArray(a.permitOpen), EncArray(a.permitListen);
    ghost var whole := x + (y + z);
    r := SerialiseArray(m, a.env);
    BetweenStep(s0, s0, m.data, whole, x, y + z, r);
    if r != 0 { return; }
    ghost var s1 := m.data;
    r := SerialiseArray(m, a.permitOpen);
    BetweenStep(s0, s1, m.data, whole, y, z, r);
    if r != 0 { return; }
    ghost var s2 := m.data;
    r := SerialiseArray(m, a.permitListen);
    assert z + [] == z;
    BetweenStep(s0, s2, m.data, whole, z, [], r);
  }

  /** What is sent: for a key not trusted yet, a stand-in for the restrictions. */
  function Sent(o: Opts, untrusted: bool): Opts { if untrusted then Redacted(o) else o }

  /** sshauthopt_serialise */
  method Serialise(o: Opts, m: Sshbuf, untrusted: bool) returns (r: int)
    requires Typed(o) && |m.data| <= SSHBUF_SIZE_MAX
    modifies m
    ensures Appended(old(m.data), m.data, Encode(Sent(o, untrusted)), r)
  {
    var p := Sent(o, untrusted);
    ghost var s0, f, vb, tn, ss, a := m.data, EncFlags(o.flags), Bytes(o.validBefore, 8), EncTun(o.tun),
                                      EncStrings(p.strings), EncArrays(p.arrays);
    ghost var whole := f + (vb + (tn + (ss + a)));
    assert whole == Encode(p);
    r := PutEach(m, EncFlags(o.flags));
    BetweenStep(s0, s0, m.data, whole, f, vb + (tn + (ss + a)), r);
    if r != 0 { return; }
    ghost var s1 := m.data;
    r := m.Put(Bytes(o.validBefore, 8));
    BetweenStep(s0, s1, m.data, whole, vb, tn + (ss + a), r);
    if r != 0 { return; }
    ghost var s2 := m.data;
    r := SerialiseTun(m, o.tun);
    BetweenStep(s0, s2, m.data, whole, tn, ss + a, r);
    if r != 0 { return; }
    ghost var s3 := m.data;
    r := SerialiseStrings(m, p.strings);
    BetweenStep(s0, s3, m.data, whole, ss, a, r);
    if r != 0 { return; }
    ghost var s4 := m.data;
    r := SerialiseArrays(m, p.arrays);
    assert a + [] == a;
    BetweenStep(s0, s4, m.data, whole, a, [], r);
  }

  /** The flag bytes, taken one after the other. */
  method TakeFlags(m: Sshbuf) returns (r: int, f: Flags)
    modifies m
    ensures Took(GetFlags(old(m.data)), r, f, m.data)
  {
    f := Flags(0, 0, 0, 0, 0, 0, 0, 0, 0);
    ghost var d := m.data;
    var s, i := [], 0;
    while i < 9
      invariant 0 <= i <= 9 && |s| == i <= |d| && d == s + m.data
    {
      var b: byte;
      r, b := m.TakeU8();
      if r != 0 { return; }
      s := s + [b];
      i := i + 1;
    }
    r, f := 0, Flags(s[0], s[1], s[2], s[3], s[4], s[5], s[6], s[7], s[8]);
  }

  method TakeTun(m: Sshbuf) returns (r: int, tun: int)
    modifies m
    ensures Took(GetTun(old(m.data)), r, tun, m.data)
  {
    var flag: byte;
    var n: nat;
    tun := 0;
    r, flag := m.TakeU8();
    if r != 0 { return; }
    r, n := m.TakeUint(4);
    if r != 0 { return; }
    tun := if flag != 0 then -1 else Signed(n);
  }

  method TakeStrings(m: Sshbuf) returns (r: int, s: Strings)
    modifies m
    ensures Took(GetStrings(old(m.data)), r, s, m.data)
  {
    var p, f, hc, hk: Option<cstring>;
    s := Strings(None, None, None, None);
    r, p := DeserialiseNullable(m);
    if r != 0 { return; }
    r, f := DeserialiseNullable(m);
    if r != 0 { return; }
    r, hc := DeserialiseNullable(m);
    if r != 0 { return; }
    r, hk := DeserialiseNullable(m);
    if r != 0 { return; }
    s := Strings(p, f, hc, hk);
  }

  method TakeArrays(m: Sshbuf) returns (r: int, a: Arrays)
    modifies m
    ensures Took(GetArrays(old(m.data)), r, a, m.data)
  {
    var e, po, pl: seq<cstring>;
    a := Arrays([], [], []);
    r, e := DeserialiseArray(m);
    if r != 0 { return; }
    r, po := DeserialiseArray(m);
    if r != 0 { return; }
    r, pl := DeserialiseArray(m);
    if r != 0 { return; }
    a := Arrays(e, po, pl);
  }

  /** sshauthopt_deserialise */
  method Deserialise(m: Sshbuf) returns (r: int, o: Opts)
    modifies m
    ensures Took(Decode(old(m.data)), r, o, m.data)
  {
    var f: Flags;
    var vb: nat;
    var t: int;
    var s: Strings;
    var a: Arrays;
    o := Opts(Flags(0, 0, 0, 0, 0, 0, 0, 0, 0), 0, 0, Strings(None, None, None, None), Arrays([], [], []));
    r, f := TakeFlags(m);
    if r != 0 { return; }
    r, vb := m.TakeUint(8);
    if r != 0 { return; }
    r, t := TakeTun(m);
    if r != 0 { return; }
    r, s := TakeStrings(m);
    if r != 0 { return; }
    r, a := TakeArrays(m);
    if r != 0 { return; }
    o := Opts(f, vb, t, s, a);
  }
}
