/**
 * Vectored transfers that ride out short counts and interruptions (atomicio.c,
 * atomiciov6). What readv or writev and the callback answer is a script; the vector is
 * copied and trimmed as the source does it.
 */
module AtomicIo {
  import opened Common

  const IOV_MAX := 1024

  /** A buffer: `len` bytes of memory from address `base`. */
  datatype Iov = Iov(base: nat, len: nat)

  /** One answer of the system call: -1 with an error, or a count; and what the callback says after it. */
  datatype Answer = Interrupted(stop: bool) | Again | Failed | Moved(n: nat, stop: bool)

  /** Why the call ended; Waiting: the script is used up in the middle of the transfer. */
  datatype End = Complete | Eof | Stopped | Error | Fault | BadCount | Waiting

  /** Addresses of one buffer, in order. */
  function Cells(v: Iov): (r: seq<nat>)
    ensures |r| == v.len
  {
    seq(v.len, i requires 0 <= i < v.len => v.base + i)
  }

  /** Addresses of a whole vector, in order. */
  function Flat(iov: seq<Iov>): seq<nat> {
    if iov == [] then [] else Cells(iov[0]) + Flat(iov[1..])
  }

  /** What is left to skip once completed entries are gone. */
  function Skip(iov: seq<Iov>, rem: nat): (r: (seq<Iov>, nat))
    ensures r.0 != [] ==> r.1 < r.0[0].len
  {
    if iov != [] && rem >= iov[0].len then Skip(iov[1..], rem - iov[0].len) else (iov, rem)
  }

  lemma {:induction false} SkipKeeps(iov: seq<Iov>, rem: nat)
    ensures var (v, k) := Skip(iov, rem);
      (v == [] ==> k == rem - |Flat(iov)|) &&
      (v != [] ==> k < v[0].len && rem - k + |Flat(v)| == |Flat(iov)| && k <= |Flat(v)| &&
                   rem <= |Flat(iov)| && Flat(v)[k..] == Flat(iov)[rem..])
  {
    if iov != [] && rem >= iov[0].len {
      var n := rem - iov[0].len;
      SkipKeeps(iov[1..], n);
      if n <= |Flat(iov[1..])| { assert Flat(iov)[rem..] == Flat(iov[1..])[n..]; }
    } else if iov != [] {
      assert |Flat(iov)| == iov[0].len + |Flat(iov[1..])|;
    }
  }

  /** The entry without its first k bytes. */
  function Advanced(v: Iov, k: nat): Iov
    requires k <= v.len
  {
    Iov(v.base + k, v.len - k)
  }

  /** The vector without its first n bytes. */
  function Trim(iov: seq<Iov>, n: nat): seq<Iov> {
    var (v, k) := Skip(iov, n);
    if v == [] then [] else [Advanced(v[0], k)] + v[1..]
  }

  lemma AdvancedFlat(v: seq<Iov>, k: nat)
    requires v != [] && k <= v[0].len
    ensures Flat([Advanced(v[0], k)] + v[1..]) == Flat(v)[k..]
  {
    var w := [Advanced(v[0], k)] + v[1..];
    var a, b := Cells(v[0]), Flat(v[1..]);
    assert w[1..] == v[1..];
    assert Flat(w) == Cells(w[0]) + b && Flat(v) == a + b;
    assert Cells(w[0]) == a[k..];
    assert (a + b)[k..] == a[k..] + b;
  }

  lemma TrimDrops(iov: seq<Iov>, n: nat)
    requires n <= |Flat(iov)|
    ensures Flat(Trim(iov, n)) == Flat(iov)[n..]
    ensures Trim(iov, n) != [] ==> Trim(iov, n)[0].len > 0
  {
    SkipKeeps(iov, n);
    var (v, k) := Skip(iov, n);
    if v != [] { AdvancedFlat(v, k); }
  }

  /** The first k bytes of `whole` have moved, and `iov` covers the others. */
  ghost predicate At(whole: seq<nat>, moved: seq<nat>, iov: seq<Iov>) {
    moved <= whole && Flat(iov) == whole[|moved|..]
  }

  lemma AtStep(whole: seq<nat>, moved: seq<nat>, iov: seq<Iov>, n: nat)
    requires At(whole, moved, iov) && n <= |Flat(iov)|
    ensures At(whole, moved + Flat(iov)[..n], Trim(iov, n))
  {
    TrimDrops(iov, n);
    assert whole == moved + Flat(iov);
    assert whole == (moved + Flat(iov)[..n]) + Flat(iov)[n..];
  }

  /** Answers that report a transfer. */
  function Transfers(script: seq<Answer>): nat {
    if script == [] then 0 else (if script[0].Moved? then 1 else 0) + Transfers(script[1..])
  }

  /** No answer reports more bytes than are left of `left`. */
  predicate Honest(left: int, script: seq<Answer>) {
    script == [] ||
    match script[0]
    case Moved(n, _) => n <= left && Honest(left - n, script[1..])
    case _ => Honest(left, script[1..])
  }

  datatype Outcome = Outcome(end: End, r: nat, moved: seq<nat>, iov: seq<Iov>)

  /** What the system call really transfers: from the front, and no more than is there. */
  function Transferred(iov: seq<Iov>, n: nat): seq<nat> { Flat(iov)[..Min(n, |Flat(iov)|)] }

  /** The run of a script: `moved` has been transferred before, `iov` is still to do. */
  function Run(moved: seq<nat>, iov: seq<Iov>, script: seq<Answer>, cb: bool): Outcome
    decreases |script|
  {
    if iov == [] || iov[0].len == 0 then Outcome(Complete, |moved|, moved, iov)
    else if script == [] then Outcome(Waiting, |moved|, moved, iov)
    else
      match script[0]
      case Interrupted(stop) =>
        if cb && stop then Outcome(Stopped, |moved|, moved, iov) else Run(moved, iov, script[1..], cb)
      case Again => Run(moved, iov, script[1..], cb)
      case Failed => Outcome(Error, 0, moved, iov)
      case Moved(n, stop) =>
        var moved' := moved + Transferred(iov, n);
        if n == 0 then Outcome(Eof, |moved|, moved, iov)
        else if n > |Flat(iov)| then Outcome(Fault, 0, moved', [])
        else if cb && stop then Outcome(Stopped, |moved'|, moved', Trim(iov, n))
        else Run(moved', Trim(iov, n), script[1..], cb)
  }

  ghost predicate Live(iov: seq<Iov>) { iov == [] || iov[0].len > 0 }

  /**
   * Wherever a run ends, what was transferred is a prefix of the vector, the trimmed
   * entries cover the rest, and the count returned is the length of the prefix unless
   * the end is an error. A normal end means that everything was transferred.
   */
  lemma {:induction false} RunMovesAPrefix(whole: seq<nat>, moved: seq<nat>, iov: seq<Iov>,
                                           script: seq<Answer>, cb: bool)
    requires At(whole, moved, iov) && Live(iov)
    ensures var o := Run(moved, iov, script, cb);
      o.moved <= whole &&
      (o.end in {Complete, Eof, Stopped, Waiting} ==>
         At(whole, o.moved, o.iov) && Live(o.iov) && o.r == |o.moved|) &&
      (o.end in {Error, Fault} ==> o.r == 0) &&
      (o.end == Complete ==> o.moved == whole) && (o.end == Waiting ==> |o.moved| < |whole|)
    decreases |script|
  {
    if iov != [] && script != [] {
      match script[0]
      case Interrupted(stop) => RunMovesAPrefix(whole, moved, iov, script[1..], cb);
      case Again => RunMovesAPrefix(whole, moved, iov, script[1..], cb);
      case Failed =>
      case Moved(n, stop) =>
        assert whole == moved + Flat(iov);
        if 0 < n <= |Flat(iov)| {
          AtStep(whole, moved, iov, n);
          TrimDrops(iov, n);
          RunMovesAPrefix(whole, moved + Transferred(iov, n), Trim(iov, n), script[1..], cb);
        }
    }
  }

  /** The branch that cannot happen does not, when the system call never over-reports. */
  lemma {:induction false} HonestRunsDoNotFault(moved: seq<nat>, iov: seq<Iov>, script: seq<Answer>,
                                                cb: bool)
    requires Honest(|Flat(iov)|, script) && Live(iov)
    ensures Run(moved, iov, script, cb).end != Fault
    decreases |script|
  {
    if iov != [] && script != [] {
      match script[0]
      case Interrupted(stop) => HonestRunsDoNotFault(moved, iov, script[1..], cb);
      case Again => HonestRunsDoNotFault(moved, iov, script[1..], cb);
      case Failed =>
      case Moved(n, stop) =>
        TrimDrops(iov, n);
        HonestRunsDoNotFault(moved + Transferred(iov, n), Trim(iov, n), script[1..], cb);
    }
  }

  /** As many transfers as there are bytes are enough, however short each of them is. */
  lemma {:induction false} EnoughTransfersFinish(moved: seq<nat>, iov: seq<Iov>, script: seq<Answer>,
                                                 cb: bool)
    requires Live(iov) && Transfers(script) >= |Flat(iov)|
    ensures Run(moved, iov, script, cb).end != Waiting
    decreases |script|
  {
    if iov != [] {
      assert |Flat(iov)| >= iov[0].len > 0;
      match script[0]
      case Interrupted(stop) => EnoughTransfersFinish(moved, iov, script[1..], cb);
      case Again => EnoughTransfersFinish(moved, iov, script[1..], cb);
      case Failed =>
      case Moved(n, stop) =>
        if 0 < n <= |Flat(iov)| {
          TrimDrops(iov, n);
          EnoughTransfersFinish(moved + Transferred(iov, n), Trim(iov, n), script[1..], cb);
        }
    }
  }

  /** A vector that starts with an empty entry is reported complete with nothing transferred. */
  lemma EmptyFirstEntryStops(iov: seq<Iov>, script: seq<Answer>, cb: bool)
    requires iov != []
    ensures Run([], iov, script, cb) == Outcome(Complete, 0, [], iov) <==>
            iov[0].len == 0
  {
    if iov[0].len > 0 {
      var whole := Flat(iov);
      assert At(whole, [], iov);
      RunMovesAPrefix(whole, [], iov, script, cb);
      assert |whole| >= iov[0].len;
    }
  }

  /** Completed entries are skipped and a partial one is advanced; false when too much was reported. */
  method Consume(iov0: seq<Iov>, n: nat) returns (ok: bool, iov: seq<Iov>)
    ensures ok <==> n <= |Flat(iov0)|
    ensures ok ==> iov == Trim(iov0, n)
    ensures !ok ==> iov == []
  {
    SkipKeeps(iov0, n);
    iov := iov0;
    var rem: nat := n;
    while iov != [] && rem >= iov[0].len
      invariant Skip(iov0, n) == Skip(iov, rem)
      decreases |iov|
    {
      rem := rem - iov[0].len;
      iov := iov[1..];
    }
    assert Skip(iov, rem) == (iov, rem);
    if rem > 0 && (iov == [] || rem > iov[0].len) { return false, iov; }
    if iov != [] { iov := [Advanced(iov[0], rem)] + iov[1..]; }
    ok := true;
  }

  /** atomiciov6. A count of entries out of range moves nothing and returns 0. */
  method AtomicIov(iov0: seq<Iov>, iovcnt: int, script: seq<Answer>, cb: bool) returns (o: Outcome)
    requires iovcnt <= |iov0|
    ensures o == if iovcnt < 0 || iovcnt > IOV_MAX then Outcome(BadCount, 0, [], [])
                 else Run([], iov0[..iovcnt], script, cb)
  {
    if iovcnt < 0 || iovcnt > IOV_MAX { return Outcome(BadCount, 0, [], []); }
    var iov, moved, pos, k := iov0[..iovcnt], [], 0, 0;
    ghost var goal := Run([], iov, script, cb);
    assert script[0..] == script;
    while iov != [] && iov[0].len > 0
      invariant 0 <= k <= |script| && pos == |moved|
      invariant Run(moved, iov, script[k..], cb) == goal
      decreases |script| - k
    {
      if k == |script| { return Outcome(Waiting, pos, moved, iov); }
      var answer := script[k];
      assert script[k..][1..] == script[k + 1..];
      k := k + 1;
      match answer
      case Interrupted(stop) =>
        if cb && stop { return Outcome(Stopped, pos, moved, iov); }
      case Again =>
      case Failed => return Outcome(Error, 0, moved, iov);
      case Moved(n, stop) =>
        if n == 0 { return Outcome(Eof, pos, moved, iov); }
        pos := pos + n;
        moved := moved + Transferred(iov, n);
        var ok;
        ok, iov := Consume(iov, n);
        if !ok { return Outcome(Fault, 0, moved, iov); }
        if cb && stop { return Outcome(Stopped, pos, moved, iov); }
    }
    return Outcome(Complete, pos, moved, iov);
  }

  lemma TrimOne(base: nat, len: nat, n: nat)
    requires 0 < n <= len
    ensures Trim([Iov(base, len)], n) == if n == len then [] else [Iov(base + n, len - n)]
  {
    var v := [Iov(base, len)];
    assert v[1..] == [];
    assert Skip([], 0) == ([], 0);
  }

  lemma OneCount(base: nat, len: nat, n: nat)
    ensures |Flat([Iov(base, len)])| == len && |Transferred([Iov(base, len)], n)| == Min(n, len)
  {
    assert [Iov(base, len)][1..] == [];
  }

  /** The run of a script for one buffer of which `pos` of `len` bytes are done. */
  function Run6(pos: nat, len: nat, script: seq<Answer>, cb: bool): (End, nat)
    decreases |script|
  {
    if len <= pos then (Complete, pos)
    else if script == [] then (Waiting, pos)
    else
      match script[0]
      case Interrupted(stop) => if cb && stop then (Stopped, pos) else Run6(pos, len, script[1..], cb)
      case Again => Run6(pos, len, script[1..], cb)
      case Failed => (Error, 0)
      case Moved(n, stop) =>
        if n == 0 then (Eof, pos)
        else if cb && stop then (Stopped, pos + n)
        else Run6(pos + n, len, script[1..], cb)
  }

  /** One buffer: counting gives the result that trimming a vector gives, but for a transfer that
      reports more than was left. The vector form refuses it, the counting form returns the excess. */
  lemma {:induction false} OneBuffer(moved: seq<nat>, base: nat, len: nat, script: seq<Answer>, cb: bool)
    requires |moved| <= len
    ensures var o := Run(moved, [Iov(base, len - |moved|)], script, cb);
      var (end, r) := Run6(|moved|, len, script, cb);
      (o.end == Fault <==> r > len) && (o.end != Fault ==> (end, r) == (o.end, o.r))
    decreases |script|
  {
    if |moved| < len && script != [] {
      match script[0]
      case Interrupted(stop) => OneBuffer(moved, base, len, script[1..], cb);
      case Again => OneBuffer(moved, base, len, script[1..], cb);
      case Failed =>
      case Moved(n, stop) =>
        var left := len - |moved|;
        OneCount(base, left, n);
        if 0 < n <= left { TrimOne(base, left, n); }
        if 0 < n < left {
          OneBuffer(moved + Transferred([Iov(base, left)], n), base + n, len, script[1..], cb);
        }
    }
  }

  /** atomicio6 */
  method AtomicIo6(len: nat, script: seq<Answer>, cb: bool) returns (end: End, r: nat)
    ensures (end, r) == Run6(0, len, script, cb)
  {
    var pos, k := 0, 0;
    assert script[0..] == script;
    while len > pos
      invariant 0 <= k <= |script|
      invariant Run6(pos, len, script[k..], cb) == Run6(0, len, script, cb)
      decreases |script| - k
    {
      if k == |script| { return Waiting, pos; }
      var answer := script[k];
      assert script[k..][1..] == script[k + 1..];
      k := k + 1;
      match answer
      case Interrupted(stop) =>
        if cb && stop { return Stopped, pos; }
      case Again =>
      case Failed => return Error, 0;
      case Moved(n, stop) =>
        if n == 0 { return Eof, pos; }
        pos := pos + n;
        if cb && stop { return Stopped, pos; }
    }
    return Complete, pos;
  }
}
