/**
 * The table of channels and the mux-proxy identifier translation of channels.c.
 *
 * Channels are heap objects in the source and a proxy holds a pointer to its mux
 * client, so a channel here has an address; an address, like a table slot, may be
 * reused once its channel is freed. `birth` (a serial number) and `creator` (the
 * birth of the client whose message made a proxy) are history: they say which
 * channel is meant however often slots, addresses and client-side numbers recur.
 */
module ChannelTable {
  import opened Common

  type byte = bv8

  const CHANNELS_MAX_CHANNELS := 16 * 1024
  const GROWTH := 10

  datatype Kind = MuxClient | MuxProxy | Plain | Zombie

  /** Channel messages that carry a recipient channel number. */
  datatype MsgType =
    | OpenConfirmation | OpenFailure | WindowAdjust | ChannelData | ExtendedData
    | ChannelEof | ChannelClose | Request | Success | Failure

  /** A packet handed to a mux client: message type, translated number, remaining payload. */
  datatype Packet = Packet(mtype: MsgType, id: nat, payload: seq<byte>)

  /** What a mux client asks us to send to the server. */
  datatype Down =
    | DownOpen(ctype: seq<byte>, id: nat, rest: seq<byte>)
    | DownConfirmation(remoteId: nat, id: nat, rest: seq<byte>)
    | DownClose(remoteId: nat)
    | DownOther(mtype: MsgType, payload: seq<byte>)

  datatype Chan = Chan(
    self: nat, kind: Kind, addr: nat,
    muxCtx: Option<nat>, downstreamId: nat, remoteId: Option<nat>,
    closeSent: bool, closeRcvd: bool, closed: bool,
    output: seq<Packet>,
    birth: nat, creator: nat)

  type Slots = seq<Option<Chan>>

  datatype State = State(slots: Slots, upstream: seq<Down>, births: nat)

  datatype Result = Ok(st: State, id: nat) | TableFull

  // ----- the table

  predicate Live(slots: Slots, i: int) { 0 <= i < |slots| && slots[i].Some? }

  function FirstFree(slots: Slots, from: nat := 0): (i: nat)
    requires from <= |slots|
    ensures from <= i <= |slots|
    decreases |slots| - from
  {
    if from == |slots| || slots[from].None? then from else FirstFree(slots, from + 1)
  }

  function Blank(self: nat, kind: Kind, addr: nat, birth: nat): Chan {
    Chan(self, kind, addr, None, 0, None, false, false, false, [], birth, 0)
  }

  function Grown(slots: Slots): Slots { slots + seq(GROWTH, _ => None) }

  /** channel_new at the address the allocator chose. */
  function New(st: State, kind: Kind, addr: nat): Result {
    var i := FirstFree(st.slots);
    if i == |st.slots| && |st.slots| > CHANNELS_MAX_CHANNELS then TableFull
    else
      var slots := if i == |st.slots| then Grown(st.slots) else st.slots;
      Ok(st.(slots := slots[i := Some(Blank(i, kind, addr, st.births))], births := st.births + 1), i)
  }

  function DetachOne(o: Option<Chan>, addr: nat): Option<Chan> {
    if o.Some? && o.value.kind == MuxProxy && o.value.muxCtx == Some(addr)
    then Some(o.value.(muxCtx := None, kind := Plain, closed := true)) else o
  }

  function Detach(slots: Slots, addr: nat): Slots {
    seq(|slots|, i requires 0 <= i < |slots| => DetachOne(slots[i], addr))
  }

  function Free(st: State, i: nat): State
    requires Live(st.slots, i)
  {
    var c := st.slots[i].value;
    var slots := if c.kind == MuxClient then Detach(st.slots, c.addr) else st.slots;
    st.(slots := slots[i := None])
  }

  function ByRemoteId(slots: Slots, remoteId: nat, from: nat := 0): (i: nat)
    requires from <= |slots|
    ensures from <= i <= |slots| && (i < |slots| ==> Live(slots, i))
    decreases |slots| - from
  {
    if from == |slots| then from
    else if slots[from].Some? && slots[from].value.remoteId == Some(remoteId) then from
    else ByRemoteId(slots, remoteId, from + 1)
  }

  /** The channel a pointer leads to: an address of a live channel. */
  function At(slots: Slots, addr: nat, from: nat := 0): (i: nat)
    requires from <= |slots|
    ensures from <= i <= |slots| && (i < |slots| ==> Live(slots, i) && slots[i].value.addr == addr)
    decreases |slots| - from
  {
    if from == |slots| then from
    else if slots[from].Some? && slots[from].value.addr == addr then from
    else At(slots, addr, from + 1)
  }

  // ----- the proxy

  function NewProxy(st: State, client: nat, id: nat, remoteId: Option<nat>, addr: nat): Result
    requires Live(st.slots, client)
  {
    var k := st.slots[client].value;
    match New(st, MuxProxy, addr)
    case TableFull => TableFull
    case Ok(st1, p) =>
      Ok(st1.(slots := st1.slots[p := Some(Blank(p, MuxProxy, addr, st.births).(
             muxCtx := Some(k.addr), downstreamId := id, remoteId := remoteId,
             creator := k.birth))]), p)
  }

  function Send(st: State, m: Down): State { st.(upstream := st.upstream + [m]) }

  function CloseSent(st: State, remoteId: nat): State {
    var i := ByRemoteId(st.slots, remoteId);
    if i == |st.slots| then st
    else if st.slots[i].value.closeRcvd then Free(st, i)
    else st.(slots := st.slots[i := Some(st.slots[i].value.(closeSent := true))])
  }

  /** channel_proxy_downstream for a well-formed packet of the client in slot `client`. */
  function Downstream(st: State, client: nat, m: Down, addr: nat): Result
    requires Live(st.slots, client)
  {
    match m
    case DownOpen(ctype, id, rest) =>
      var r := NewProxy(st, client, id, None, addr);
      if r.TableFull? then TableFull else Ok(Send(r.st, DownOpen(ctype, r.id, rest)), r.id)
    case DownConfirmation(remoteId, id, rest) =>
      var r := NewProxy(st, client, id, Some(remoteId), addr);
      if r.TableFull? then TableFull
      else Ok(Send(r.st, DownConfirmation(remoteId, r.id, rest)), r.id)
    case DownClose(remoteId) => Ok(Send(CloseSent(st, remoteId), m), client)
    case DownOther(_, _) => Ok(Send(st, m), client)
  }

  function PeekU32(b: seq<byte>): nat
    requires |b| >= 4
  {
    b[0] as nat * 0x100_0000 + b[1] as nat * 0x1_0000 + b[2] as nat * 0x100 + b[3] as nat
  }

  function Deliver(slots: Slots, i: nat, pkt: Packet): Slots
    requires Live(slots, i)
  {
    slots[i := Some(slots[i].value.(output := slots[i].value.output + [pkt]))]
  }

  function NoteUpstream(st: State, id: nat, t: MsgType, payload: seq<byte>): State
    requires Live(st.slots, id)
  {
    var c := st.slots[id].value;
    if t == OpenConfirmation && |payload| > 4 then
      st.(slots := st.slots[id := Some(c.(remoteId := Some(PeekU32(payload))))])
    else if t == ChannelClose then
      if c.closeSent then Free(st, id)
      else st.(slots := st.slots[id := Some(c.(closeRcvd := true))])
    else st
  }

  predicate Proxied(slots: Slots, id: int) {
    Live(slots, id) && slots[id].value.kind == MuxProxy && slots[id].value.muxCtx.Some?
  }

  /** channel_proxy_upstream: the packet goes to whatever the proxy's pointer leads to. */
  function Upstream(st: State, id: nat, t: MsgType, payload: seq<byte>): State
    requires Proxied(st.slots, id)
  {
    var c := st.slots[id].value;
    var j := At(st.slots, c.muxCtx.value);
    var slots := if j < |st.slots| then Deliver(st.slots, j, Packet(t, c.downstreamId, payload))
                 else st.slots;
    NoteUpstream(st.(slots := slots), id, t, payload)
  }

  // ----- what every run keeps

  ghost predicate InPlace(slots: Slots) {
    forall i :: Live(slots, i) ==> slots[i].value.self == i
  }

  ghost predicate Distinct(slots: Slots) {
    forall i, j :: Live(slots, i) && Live(slots, j) && i != j ==>
      slots[i].value.addr != slots[j].value.addr && slots[i].value.birth != slots[j].value.birth
  }

  /** Proxy `i` points at channel `j`, the one that made it. */
  ghost predicate Target(slots: Slots, i: int, j: int) {
    && Proxied(slots, i) && Live(slots, j)
    && slots[j].value.addr == slots[i].value.muxCtx.value
    && slots[j].value.birth == slots[i].value.creator
    && (slots[j].value.kind == MuxClient || slots[j].value.kind == Zombie)
    && slots[j].value.remoteId == None
  }

  /** The channel that made proxy `i` is still in the table. */
  ghost predicate MakerLives(slots: Slots, i: int)
    requires Live(slots, i)
  {
    exists j :: Live(slots, j) && slots[j].value.birth == slots[i].value.creator
  }

  ghost predicate Faithful(slots: Slots) {
    forall i :: Proxied(slots, i) && MakerLives(slots, i) ==> exists j :: Target(slots, i, j)
  }

  /** No proxy has outlived its maker. */
  ghost predicate Routed(slots: Slots) {
    forall i :: Proxied(slots, i) ==> exists j :: Target(slots, i, j)
  }

  ghost predicate Valid(st: State) {
    && InPlace(st.slots) && Distinct(st.slots) && Faithful(st.slots)
    && (forall i :: Live(st.slots, i) ==> st.slots[i].value.birth < st.births)
    && (forall i :: Proxied(st.slots, i) ==> st.slots[i].value.creator < st.births)
    && (forall i :: Live(st.slots, i) && st.slots[i].value.kind == MuxClient ==>
          st.slots[i].value.remoteId == None)
  }

  ghost predicate FreshAddr(slots: Slots, addr: nat) {
    forall i :: Live(slots, i) ==> slots[i].value.addr != addr
  }

  lemma {:induction false} FirstFreeIsFree(slots: Slots, from: nat)
    requires from <= |slots|
    ensures var i := FirstFree(slots, from);
      (i < |slots| ==> slots[i].None?) && forall k :: from <= k < i ==> slots[k].Some?
    decreases |slots| - from
  {
    if from < |slots| && slots[from].Some? { FirstFreeIsFree(slots, from + 1); }
  }

  /** Slot p, which was free, is the only one to change. */
  ghost predicate Added(st: State, st': State, p: nat) {
    && !Live(st.slots, p) && Live(st'.slots, p) && st'.births == st.births + 1
    && forall i :: i != p ==>
         Live(st'.slots, i) == Live(st.slots, i)
         && (Live(st.slots, i) ==> st'.slots[i] == st.slots[i])
  }

  /** channel_new disturbs no live channel and puts the new one in the first free slot. */
  lemma NewShape(st: State, kind: Kind, addr: nat)
    requires New(st, kind, addr).Ok?
    ensures var Ok(st1, p) := New(st, kind, addr);
      && Added(st, st1, p) && st1.slots[p] == Some(Blank(p, kind, addr, st.births))
      && (forall k :: 0 <= k < p ==> Live(st.slots, k))
  {
    FirstFreeIsFree(st.slots, 0);
  }

  /** A change to one channel that leaves its identity alone. */
  predicate SameIdentity(c: Chan, d: Chan) {
    && c.self == d.self && c.addr == d.addr && c.birth == d.birth
    && c.creator == d.creator && c.downstreamId == d.downstreamId
  }

  predicate Client(c: Chan) { (c.kind == MuxClient || c.kind == Zombie) && c.remoteId == None }

  /** What is in slot `i` was there before, and routes as it did. */
  ghost predicate Carried(slots: Slots, slots': Slots, i: int) {
    Live(slots', i) ==>
      && Live(slots, i) && SameIdentity(slots[i].value, slots'[i].value)
      && (Proxied(slots', i) ==>
            Proxied(slots, i) && slots'[i].value.muxCtx == slots[i].value.muxCtx)
      && (Client(slots[i].value) ==> Client(slots'[i].value))
  }

  /** Proxies keep to their makers if nothing but slot `p` is new. */
  lemma FaithfulCarried(slots: Slots, slots': Slots, p: int)
    requires Distinct(slots) && Faithful(slots)
    requires forall i :: i != p ==> Carried(slots, slots', i)
    requires forall i :: Live(slots', p) && Proxied(slots', i) && i != p ==>
               slots'[p].value.birth != slots'[i].value.creator
    requires Proxied(slots', p) ==> exists j :: Target(slots', p, j)
    ensures Faithful(slots')
  {
    forall i | Proxied(slots', i) && MakerLives(slots', i) ensures exists j :: Target(slots', i, j) {
      if i != p {
        var j :| Live(slots', j) && slots'[j].value.birth == slots'[i].value.creator;
        assert Carried(slots, slots', i) && Carried(slots, slots', j);
        assert MakerLives(slots, i);
        var k :| Target(slots, i, k);
        assert k == j;
        assert Target(slots', i, j);
      }
    }
  }

  lemma NewKeeps(st: State, kind: Kind, addr: nat)
    requires Valid(st) && FreshAddr(st.slots, addr) && kind != MuxProxy && New(st, kind, addr).Ok?
    ensures Valid(New(st, kind, addr).st)
  {
    NewShape(st, kind, addr);
    AddedKeeps(st, New(st, kind, addr).st, New(st, kind, addr).id);
  }

  /** The same of a new proxy. */
  lemma NewProxyShape(st: State, client: nat, id: nat, remoteId: Option<nat>, addr: nat)
    requires Live(st.slots, client) && NewProxy(st, client, id, remoteId, addr).Ok?
    ensures var Ok(st1, p) := NewProxy(st, client, id, remoteId, addr);
      var k := st.slots[client].value;
      && Added(st, st1, p) && st1.upstream == st.upstream
      && st1.slots[p].value == Blank(p, MuxProxy, addr, st.births).(
           muxCtx := Some(k.addr), downstreamId := id, remoteId := remoteId, creator := k.birth)
  {
    NewShape(st, MuxProxy, addr);
  }

  lemma AddedKeeps(st: State, st': State, p: nat)
    requires Valid(st) && Added(st, st', p)
    requires var c := st'.slots[p].value;
      && FreshAddr(st.slots, c.addr) && c.self == p && c.birth == st.births && c.creator < st'.births
      && (c.kind == MuxClient ==> c.remoteId == None)
    requires Proxied(st'.slots, p) ==> exists j :: Target(st'.slots, p, j)
    ensures Valid(st')
  {
    forall i | i != p ensures Carried(st.slots, st'.slots, i) {
      assert Live(st'.slots, i) == Live(st.slots, i);
    }
    FaithfulCarried(st.slots, st'.slots, p);
  }

  lemma NewProxyKeeps(st: State, client: nat, id: nat, remoteId: Option<nat>, addr: nat)
    requires Valid(st) && FreshAddr(st.slots, addr)
    requires Live(st.slots, client) && st.slots[client].value.kind == MuxClient
    requires NewProxy(st, client, id, remoteId, addr).Ok?
    ensures var r := NewProxy(st, client, id, remoteId, addr);
      Valid(r.st) && Target(r.st.slots, r.id, client)
  {
    NewProxyShape(st, client, id, remoteId, addr);
    var Ok(st1, p) := NewProxy(st, client, id, remoteId, addr);
    assert Target(st1.slots, p, client);
    AddedKeeps(st, st1, p);
  }

  lemma FreeKeeps(st: State, i: nat)
    requires Valid(st) && Live(st.slots, i)
    ensures Valid(Free(st, i))
  {
    FaithfulCarried(st.slots, Free(st, i).slots, -1);
  }

  /** No proxy is left pointing at the channel in slot `i` when it goes. */
  ghost predicate SafeToFree(slots: Slots, i: nat)
    requires Live(slots, i)
  {
    slots[i].value.kind == MuxClient
    || forall p :: Proxied(slots, p) && p != i ==> slots[p].value.muxCtx != Some(slots[i].value.addr)
  }

  /** channel_free leaves every proxy with its maker exactly when the guard holds: a mux client
      freed while still typed as one detaches its proxies, any other channel must have none. */
  lemma FreeExact(st: State, i: nat)
    requires Valid(st) && Routed(st.slots) && Live(st.slots, i)
    ensures Routed(Free(st, i).slots) <==> SafeToFree(st.slots, i)
  {
    var c := st.slots[i].value;
    var slots' := Free(st, i).slots;
    if SafeToFree(st.slots, i) {
      forall p | Proxied(slots', p) ensures exists j :: Target(slots', p, j) {
        assert Proxied(st.slots, p);
        var j :| Target(st.slots, p, j);
        assert Target(slots', p, j);
      }
    } else {
      var p :| Proxied(st.slots, p) && p != i && st.slots[p].value.muxCtx == Some(c.addr);
      assert Proxied(slots', p);
      if Routed(slots') {
        var j :| Target(slots', p, j);
        assert Live(st.slots, j) && j != i;
      }
    }
  }

  lemma TweakKeeps(st: State, i: nat, c: Chan)
    requires Valid(st) && Live(st.slots, i) && SameIdentity(st.slots[i].value, c)
    requires c.muxCtx == st.slots[i].value.muxCtx
    requires c.kind == st.slots[i].value.kind || c.kind == Zombie
    requires c.remoteId == st.slots[i].value.remoteId
             || (c.remoteId.Some? && (c.kind == MuxProxy || c.kind == Plain))
    ensures Valid(st.(slots := st.slots[i := Some(c)]))
  {
    FaithfulCarried(st.slots, st.slots[i := Some(c)], -1);
  }

  lemma {:induction false} ByRemoteIdFinds(slots: Slots, remoteId: nat, from: nat)
    requires from <= |slots|
    ensures var i := ByRemoteId(slots, remoteId, from);
      i < |slots| ==> slots[i].value.remoteId == Some(remoteId)
    decreases |slots| - from
  {
    if from < |slots| && !(slots[from].Some? && slots[from].value.remoteId == Some(remoteId)) {
      ByRemoteIdFinds(slots, remoteId, from + 1);
    }
  }

  lemma CloseSentKeeps(st: State, remoteId: nat)
    requires Valid(st)
    ensures Valid(CloseSent(st, remoteId))
  {
    var i := ByRemoteId(st.slots, remoteId);
    if i < |st.slots| {
      FreeKeeps(st, i);
      TweakKeeps(st, i, st.slots[i].value.(closeSent := true));
    }
  }

  lemma {:induction false} AtFinds(slots: Slots, j: nat, from: nat)
    requires from <= j && Live(slots, j) && Distinct(slots)
    ensures At(slots, slots[j].value.addr, from) == j
    decreases j - from
  {
    if from < j {
      assert Live(slots, j) && (slots[from].Some? ==> Live(slots, from));
      AtFinds(slots, j, from + 1);
    }
  }

  lemma UpstreamKeeps(st: State, id: nat, t: MsgType, payload: seq<byte>)
    requires Valid(st) && Proxied(st.slots, id)
    ensures Valid(Upstream(st, id, t, payload))
  {
    var c := st.slots[id].value;
    var j := At(st.slots, c.muxCtx.value);
    if j < |st.slots| {
      var d := st.slots[j].value;
      var d' := d.(output := d.output + [Packet(t, c.downstreamId, payload)]);
      TweakKeeps(st, j, d');
      NoteKeeps(st.(slots := st.slots[j := Some(d')]), id, t, payload);
    } else {
      NoteKeeps(st, id, t, payload);
    }
  }

  lemma NoteKeeps(st: State, id: nat, t: MsgType, payload: seq<byte>)
    requires Valid(st) && Live(st.slots, id) && st.slots[id].value.kind == MuxProxy
    ensures Valid(NoteUpstream(st, id, t, payload))
  {
    var c := st.slots[id].value;
    if t == OpenConfirmation && |payload| > 4 {
      TweakKeeps(st, id, c.(remoteId := Some(PeekU32(payload))));
    } else if t == ChannelClose {
      if c.closeSent { FreeKeeps(st, id); } else { TweakKeeps(st, id, c.(closeRcvd := true)); }
    }
  }

  // ----- runs

  datatype Op =
    | OpNew(kind: Kind, addr: nat)
    | OpNumber(i: nat, remoteId: nat)     // an ordinary channel learns its peer's number
    | OpMarkDead(i: nat)
    | OpFree(i: nat)
    | OpDownstream(client: nat, m: Down, addr: nat)
    | OpUpstream(id: nat, t: MsgType, payload: seq<byte>)

  ghost predicate Possible(st: State, op: Op) {
    match op
    case OpNew(kind, addr) =>
      kind != MuxProxy && FreshAddr(st.slots, addr) && New(st, kind, addr).Ok?
    case OpNumber(i, _) => Live(st.slots, i) && st.slots[i].value.kind == Plain
    case OpMarkDead(i) => Live(st.slots, i)
    case OpFree(i) => Live(st.slots, i)
    case OpDownstream(k, m, addr) =>
      && Live(st.slots, k) && st.slots[k].value.kind == MuxClient
      && FreshAddr(st.slots, addr) && Downstream(st, k, m, addr).Ok?
    case OpUpstream(id, _, _) => Proxied(st.slots, id)
  }

  ghost function Step(st: State, op: Op): State
    requires Possible(st, op)
  {
    match op
    case OpNew(kind, addr) => New(st, kind, addr).st
    case OpNumber(i, n) => st.(slots := st.slots[i := Some(st.slots[i].value.(remoteId := Some(n)))])
    case OpMarkDead(i) => st.(slots := st.slots[i := Some(st.slots[i].value.(kind := Zombie))])
    case OpFree(i) => Free(st, i)
    case OpDownstream(k, m, addr) => Downstream(st, k, m, addr).st
    case OpUpstream(id, t, payload) => Upstream(st, id, t, payload)
  }

  lemma StepKeeps(st: State, op: Op)
    requires Valid(st) && Possible(st, op)
    ensures Valid(Step(st, op))
  {
    match op {
      case OpNew(kind, addr) => NewKeeps(st, kind, addr);
      case OpNumber(i, n) => TweakKeeps(st, i, st.slots[i].value.(remoteId := Some(n)));
      case OpMarkDead(i) => TweakKeeps(st, i, st.slots[i].value.(kind := Zombie));
      case OpFree(i) => FreeKeeps(st, i);
      case OpDownstream(k, DownOpen(_, id, _), addr) => NewProxyKeeps(st, k, id, None, addr);
      case OpDownstream(k, DownConfirmation(n, id, _), addr) =>
        NewProxyKeeps(st, k, id, Some(n), addr);
      case OpDownstream(k, DownClose(n), _) => CloseSentKeeps(st, n);
      case OpDownstream(k, DownOther(_, _), _) =>
      case OpUpstream(id, t, payload) => UpstreamKeeps(st, id, t, payload);
    }
  }

  /** A channel found in a slot after a step, and not new, was in that slot before it. */
  ghost predicate Stays(st: State, st': State, i: nat) {
    Live(st'.slots, i) && st'.slots[i].value.birth < st.births ==>
      && Live(st.slots, i) && SameIdentity(st.slots[i].value, st'.slots[i].value)
      && (Proxied(st'.slots, i) ==> Proxied(st.slots, i))
  }

  lemma UpstreamStays(st: State, id: nat, t: MsgType, payload: seq<byte>, i: nat)
    requires Valid(st) && Proxied(st.slots, id)
    ensures Stays(st, Upstream(st, id, t, payload), i)
  {
  }

  lemma DownstreamStays(st: State, k: nat, m: Down, addr: nat, i: nat)
    requires Valid(st) && Possible(st, OpDownstream(k, m, addr))
    ensures Stays(st, Downstream(st, k, m, addr).st, i)
    ensures st.births <= Downstream(st, k, m, addr).st.births
  {
    match m {
      case DownOpen(_, id, _) => NewProxyShape(st, k, id, None, addr);
      case DownConfirmation(n, id, _) => NewProxyShape(st, k, id, Some(n), addr);
      case DownClose(_) =>
      case DownOther(_, _) =>
    }
  }

  lemma StepStays(st: State, op: Op, i: nat)
    requires Valid(st) && Possible(st, op)
    ensures Stays(st, Step(st, op), i) && st.births <= Step(st, op).births
  {
    match op {
      case OpNew(kind, addr) => NewShape(st, kind, addr);
      case OpDownstream(k, m, addr) => DownstreamStays(st, k, m, addr, i);
      case OpUpstream(id, t, payload) => UpstreamStays(st, id, t, payload, i);
      case _ =>
    }
  }

  ghost predicate Legal(st: State, ops: seq<Op>)
    decreases |ops|
  {
    ops == [] || (Possible(st, ops[0]) && Legal(Step(st, ops[0]), ops[1..]))
  }

  ghost function After(st: State, ops: seq<Op>): State
    requires Legal(st, ops)
    decreases |ops|
  {
    if ops == [] then st else After(Step(st, ops[0]), ops[1..])
  }

  /** Over any run the table stays valid and no live channel changes slot, number or owner. */
  lemma {:induction false} RunKeeps(st: State, ops: seq<Op>, i: nat)
    requires Valid(st) && Legal(st, ops)
    ensures Valid(After(st, ops)) && Stays(st, After(st, ops), i)
    ensures st.births <= After(st, ops).births
    decreases |ops|
  {
    if ops != [] {
      StepKeeps(st, ops[0]);
      StepStays(st, ops[0], i);
      RunKeeps(Step(st, ops[0]), ops[1..], i);
    }
  }

  // ----- runs in which no client dies under its proxies

  ghost predicate Careful(st: State, op: Op) {
    op.OpFree? && Live(st.slots, op.i) ==> SafeToFree(st.slots, op.i)
  }

  ghost predicate AllCareful(st: State, ops: seq<Op>)
    requires Legal(st, ops)
    decreases |ops|
  {
    ops == [] || (Careful(st, ops[0]) && AllCareful(Step(st, ops[0]), ops[1..]))
  }

  /** A client that a proxy points at is not removed behind the proxy's back. */
  lemma MakerStays(st: State, op: Op, p: nat, j: nat)
    requires Valid(st) && Possible(st, op) && Careful(st, op)
    requires Target(st.slots, p, j) && Proxied(Step(st, op).slots, p)
    ensures var slots' := Step(st, op).slots;
      Live(slots', j) && slots'[j].value.birth == st.slots[j].value.birth
  {
    match op {
      case OpNew(kind, addr) => NewShape(st, kind, addr);
      case OpDownstream(k, m, addr) => DownstreamKeepsClient(st, k, m, addr, j);
      case OpUpstream(id, t, payload) => UpstreamKeepsClient(st, id, t, payload, j);
      case _ =>
    }
  }

  /** A client without a number is not what a CLOSE can free. */
  lemma DownstreamKeepsClient(st: State, k: nat, m: Down, addr: nat, j: nat)
    requires Live(st.slots, k) && Downstream(st, k, m, addr).Ok?
    requires Live(st.slots, j) && Client(st.slots[j].value)
    ensures var slots' := Downstream(st, k, m, addr).st.slots;
      Live(slots', j) && slots'[j].value.birth == st.slots[j].value.birth
  {
    match m {
      case DownOpen(_, id, _) => NewProxyShape(st, k, id, None, addr);
      case DownConfirmation(n, id, _) => NewProxyShape(st, k, id, Some(n), addr);
      case DownClose(n) => ByRemoteIdFinds(st.slots, n, 0);
      case DownOther(_, _) =>
    }
  }

  lemma UpstreamKeepsClient(st: State, id: nat, t: MsgType, payload: seq<byte>, j: nat)
    requires Proxied(st.slots, id) && Live(st.slots, j) && Client(st.slots[j].value)
    ensures var slots' := Upstream(st, id, t, payload).slots;
      Live(slots', j) && slots'[j].value.birth == st.slots[j].value.birth
  {
  }

  lemma NewProxyTargets(st: State, k: nat, id: nat, remoteId: Option<nat>, addr: nat, p: nat)
    requires Valid(st) && FreshAddr(st.slots, addr)
    requires Live(st.slots, k) && st.slots[k].value.kind == MuxClient
    requires NewProxy(st, k, id, remoteId, addr).Ok?
    ensures var slots' := NewProxy(st, k, id, remoteId, addr).st.slots;
      Proxied(slots', p) && slots'[p].value.birth >= st.births ==> Target(slots', p, k)
  {
    NewProxyKeeps(st, k, id, remoteId, addr);
    NewProxyShape(st, k, id, remoteId, addr);
  }

  lemma NewProxyRouted(st: State, k: nat, m: Down, addr: nat, p: nat)
    requires Valid(st) && Possible(st, OpDownstream(k, m, addr))
    ensures var st' := Step(st, OpDownstream(k, m, addr));
      Proxied(st'.slots, p) && st'.slots[p].value.birth >= st.births ==> Target(st'.slots, p, k)
  {
    match m {
      case DownOpen(_, id, _) => NewProxyTargets(st, k, id, None, addr, p);
      case DownConfirmation(n, id, _) => NewProxyTargets(st, k, id, Some(n), addr, p);
      case DownClose(n) =>
      case DownOther(_, _) =>
    }
  }

  lemma OtherOpsAddNoProxy(st: State, op: Op, p: nat)
    requires Valid(st) && Possible(st, op) && !op.OpDownstream?
    ensures Proxied(Step(st, op).slots, p) ==> Step(st, op).slots[p].value.birth < st.births
  {
    if op.OpNew? { NewShape(st, op.kind, op.addr); }
  }

  lemma StepRouted(st: State, op: Op)
    requires Valid(st) && Routed(st.slots) && Possible(st, op) && Careful(st, op)
    ensures Routed(Step(st, op).slots)
  {
    StepKeeps(st, op);
    var st' := Step(st, op);
    forall p | Proxied(st'.slots, p) ensures exists j :: Target(st'.slots, p, j) {
      StepStays(st, op, p);
      if st'.slots[p].value.birth < st.births {
        var j :| Target(st.slots, p, j);
        MakerStays(st, op, p, j);
        assert MakerLives(st'.slots, p);
      } else if op.OpDownstream? {
        NewProxyRouted(st, op.client, op.m, op.addr, p);
      } else {
        OtherOpsAddNoProxy(st, op, p);
      }
    }
  }

  /** As long as no client is freed dead under its proxies, every proxy points at its maker. */
  lemma {:induction false} RunRouted(st: State, ops: seq<Op>)
    requires Valid(st) && Routed(st.slots) && Legal(st, ops) && AllCareful(st, ops)
    ensures Routed(After(st, ops).slots)
    decreases |ops|
  {
    if ops != [] {
      StepKeeps(st, ops[0]);
      StepRouted(st, ops[0]);
      RunRouted(Step(st, ops[0]), ops[1..]);
    }
  }

  /** The empty table channel_init_channels makes. */
  function Initial(): State { State(seq(GROWTH, _ => None), [], 0) }

  /** The packet is the last one queued for the channel born as `owner`, and no other queue
      changes. */
  ghost predicate DeliveredOnlyTo(st: State, st': State, owner: nat, pkt: Packet) {
    && (exists j :: Live(st.slots, j) && Live(st'.slots, j) && st.slots[j].value.birth == owner
          && st'.slots[j].value.birth == owner
          && st'.slots[j].value.output == st.slots[j].value.output + [pkt])
    && (forall i :: Live(st.slots, i) && st.slots[i].value.birth != owner && Live(st'.slots, i) ==>
          st'.slots[i].value.output == st.slots[i].value.output)
  }

  /** A packet reaches the proxy's maker, and nobody else, exactly while the maker lives. */
  lemma UpstreamRoutes(st: State, p: nat, t: MsgType, payload: seq<byte>)
    requires Valid(st) && Proxied(st.slots, p)
    ensures var c := st.slots[p].value;
      DeliveredOnlyTo(st, Upstream(st, p, t, payload), c.creator, Packet(t, c.downstreamId, payload))
      <==> MakerLives(st.slots, p)
  {
    if MakerLives(st.slots, p) {
      var c := st.slots[p].value;
      var j :| Target(st.slots, p, j);
      AtFinds(st.slots, j, 0);
      var st' := Upstream(st, p, t, payload);
      assert j != p && Live(st'.slots, j);
      assert st'.slots[j].value.output == st.slots[j].value.output + [Packet(t, c.downstreamId, payload)];
    }
  }

  /** The channel born as `birth` is in the table. */
  ghost predicate InTable(slots: Slots, birth: nat) {
    exists j :: Live(slots, j) && slots[j].value.birth == birth
  }

  /** Whatever happens after a client's OPEN or OPEN_CONFIRMATION created a proxy (other clients
      using the same numbers, channels coming and going, clients dying under their proxies, slots
      and addresses being reused), while the proxy is alive a packet the server sends to the number
      it was given goes to that client and to no other, carrying the number the client had chosen,
      exactly while the client is in the table. */
  lemma RepliesReachTheirClient(start: State, before: seq<Op>, k: nat, m: Down, addr: nat,
                                between: seq<Op>, t: MsgType, payload: seq<byte>)
    requires start == Initial() && Legal(start, before)
    requires m.DownOpen? || m.DownConfirmation?
    requires Possible(After(start, before), OpDownstream(k, m, addr))
    requires Legal(Step(After(start, before), OpDownstream(k, m, addr)), between)
    ensures var st := After(start, before);
      var Ok(st1, p) := Downstream(st, k, m, addr);
      var st2 := After(st1, between);
      var client := st.slots[k].value.birth;
      && st1.upstream == st.upstream + [m.(id := p)]
      && (Proxied(st2.slots, p) && st2.slots[p].value.birth == st.births ==>
            (DeliveredOnlyTo(st2, Upstream(st2, p, t, payload), client, Packet(t, m.id, payload))
             <==> InTable(st2.slots, client)))
  {
    RunKeeps(start, before, 0);
    var st := After(start, before);
    var op := OpDownstream(k, m, addr);
    StepKeeps(st, op);
    NewShape(st, MuxProxy, addr);
    var Ok(st1, p) := Downstream(st, k, m, addr);
    RunKeeps(st1, between, p);
    var st2 := After(st1, between);
    if Proxied(st2.slots, p) && st2.slots[p].value.birth == st.births {
      UpstreamRoutes(st2, p, t, payload);
    }
  }

  /** And in runs where no client is freed dead under its proxies, it always is. */
  lemma CarefulRunsRoute(ops: seq<Op>, p: nat)
    requires Legal(Initial(), ops) && AllCareful(Initial(), ops)
    ensures var slots := After(Initial(), ops).slots;
      Proxied(slots, p) ==> InTable(slots, slots[p].value.creator)
  {
    RunRouted(Initial(), ops);
    var slots := After(Initial(), ops).slots;
    if Proxied(slots, p) { var j :| Target(slots, p, j); }
  }

  /** The guard of FreeExact is needed: a client that chan_mark_dead has retyped is freed without
      detaching, and its proxy is left with a pointer to nothing. */
  lemma DeadClientLeavesDanglingProxy(st: State, p: nat, k: nat)
    requires Valid(st) && Target(st.slots, p, k)
    ensures var st1 := Step(st, OpMarkDead(k));
      var st2 := Free(st1, k);
      !SafeToFree(st1.slots, k) && Proxied(st2.slots, p) && !MakerLives(st2.slots, p)
  {
    var st1 := Step(st, OpMarkDead(k));
    assert Proxied(st1.slots, p) && p != k;
    var st2 := Free(st1, k);
    assert forall j :: Live(st2.slots, j) ==>
      Live(st.slots, j) && j != k && st2.slots[j].value.birth == st.slots[j].value.birth;
  }

  /** Two operations from the empty table lead to such a state: a client connects and opens a
      channel. If it is then marked dead and freed, the proxy's pointer leads to nothing. */
  lemma DanglingIsReached(client: nat, proxy: nat, id: nat)
    requires client != proxy
    ensures var ops := [OpNew(MuxClient, client), OpDownstream(0, DownOpen([], id, []), proxy)];
      Legal(Initial(), ops) &&
      var st := After(Initial(), ops);
      Target(st.slots, 1, 0) && !MakerLives(Free(Step(st, OpMarkDead(0)), 0).slots, 1)
  {
    var s0 := Initial();
    var op0, op1 := OpNew(MuxClient, client), OpDownstream(0, DownOpen([], id, []), proxy);
    FirstClient(client);
    var s1 := Step(s0, op0);
    FirstProxy(s1, client, proxy, id);
    var s2 := Step(s1, op1);
    assert [op0, op1][1..] == [op1] && [op1][1..] == [];
    assert After(s1, [op1]) == s2;
    DeadClientLeavesDanglingProxy(s2, 1, 0);
  }

  /** The table with one mux client, in slot 0. */
  ghost predicate OneClient(st: State, client: nat) {
    && Valid(st) && |st.slots| == GROWTH && Live(st.slots, 0)
    && st.slots[0].value.kind == MuxClient && st.slots[0].value.addr == client
    && forall i :: 0 < i < GROWTH ==> st.slots[i].None?
  }

  lemma FirstClient(client: nat)
    ensures Possible(Initial(), OpNew(MuxClient, client))
    ensures OneClient(Step(Initial(), OpNew(MuxClient, client)), client)
  {
    NewShape(Initial(), MuxClient, client);
    NewKeeps(Initial(), MuxClient, client);
  }

  lemma FirstProxy(st: State, client: nat, proxy: nat, id: nat)
    requires OneClient(st, client) && proxy != client
    ensures var op := OpDownstream(0, DownOpen([], id, []), proxy);
      Possible(st, op) && Valid(Step(st, op)) && Target(Step(st, op).slots, 1, 0)
  {
    NewShape(st, MuxProxy, proxy);
    assert FreshAddr(st.slots, proxy);
    NewProxyKeeps(st, 0, id, None, proxy);
  }

  // ----- the table as the program keeps it

  class Table {
    var channels: Slots
    var upstream: seq<Down>    // packets sent to the server
    var births: nat            // history: channels ever made

    ghost function View(): State
      reads this
    {
      State(channels, upstream, births)
    }

    constructor ()
      ensures View() == Initial()
    {
      channels := seq(GROWTH, _ => None);
      upstream := [];
      births := 0;
    }

    method ChannelById(id: int) returns (c: Option<Chan>)
      ensures c.Some? <==> Live(channels, id)
      ensures c.Some? ==> c == channels[id]
    {
      if id < 0 || id >= |channels| {
        return None;
      }
      return channels[id];
    }

    method ChannelNew(kind: Kind, addr: nat) returns (found: Option<nat>)
      modifies this
      ensures match New(old(View()), kind, addr)
              case TableFull => found == None && View() == old(View())
              case Ok(st, id) => found == Some(id) && View() == st
    {
      var i := 0;
      while i < |channels| && channels[i].Some?
        invariant i <= |channels| && FirstFree(channels) == FirstFree(channels, i)
      {
        i := i + 1;
      }
      if i >= |channels| {
        if |channels| > CHANNELS_MAX_CHANNELS {
          return None;
        }
        channels := channels + seq(GROWTH, _ => None);
      }
      channels := channels[i := Some(Blank(i, kind, addr, births))];
      births := births + 1;
      return Some(i);
    }

    method ChannelFree(id: nat)
      requires Live(channels, id)
      modifies this
      ensures View() == Free(old(View()), id)
    {
      var c := channels[id].value;
      var i := 0;
      while i < |channels|
        invariant i <= |channels| == |old(channels)|
        invariant c.kind != MuxClient ==> channels == old(channels)
        invariant forall k :: i <= k < |channels| ==> channels[k] == old(channels)[k]
        invariant c.kind == MuxClient ==>
          forall k :: 0 <= k < i ==> channels[k] == DetachOne(old(channels)[k], c.addr)
        invariant upstream == old(upstream) && births == old(births)
      {
        if channels[i].Some? {
          var other := channels[i].value;
          if c.kind == MuxClient && other.kind == MuxProxy && other.muxCtx == Some(c.addr) {
            channels := channels[i := Some(other.(muxCtx := None, kind := Plain, closed := true))];
          }
        }
        i := i + 1;
      }
      assert c.kind == MuxClient ==> channels == Detach(old(channels), c.addr);
      channels := channels[id := None];
    }

    method ChannelByRemoteId(remoteId: nat) returns (i: nat)
      ensures i == ByRemoteId(channels, remoteId)
    {
      i := 0;
      while i < |channels|
        invariant i <= |channels|
        invariant ByRemoteId(channels, remoteId) == ByRemoteId(channels, remoteId, i)
      {
        if channels[i].Some? && channels[i].value.remoteId == Some(remoteId) {
          return;
        }
        i := i + 1;
      }
    }

    method NewMuxProxy(client: nat, id: nat, remoteId: Option<nat>, addr: nat)
      returns (found: Option<nat>)
      requires Live(channels, client)
      modifies this
      ensures match NewProxy(old(View()), client, id, remoteId, addr)
              case TableFull => found == None && View() == old(View())
              case Ok(st, p) => found == Some(p) && View() == st
    {
      var downstream := channels[client].value;
      found := ChannelNew(MuxProxy, addr);
      if found.None? {
        return;
      }
      var c := channels[found.value].value;
      channels := channels[found.value := Some(c.(
        muxCtx := Some(downstream.addr), downstreamId := id, remoteId := remoteId,
        creator := downstream.birth))];
    }

    method ProxyDownstream(client: nat, m: Down, addr: nat) returns (ok: bool)
      requires Live(channels, client)
      modifies this
      ensures match Downstream(old(View()), client, m, addr)
              case TableFull => !ok && View() == old(View())
              case Ok(st, _) => ok && View() == st
    {
      match m {
        case DownOpen(ctype, id, rest) =>
          var p := NewMuxProxy(client, id, None, addr);
          if p.None? {
            return false;
          }
          upstream := upstream + [DownOpen(ctype, p.value, rest)];
        case DownConfirmation(remoteId, id, rest) =>
          var p := NewMuxProxy(client, id, Some(remoteId), addr);
          if p.None? {
            return false;
          }
          upstream := upstream + [DownConfirmation(remoteId, p.value, rest)];
        case DownClose(remoteId) =>
          var i := ChannelByRemoteId(remoteId);
          if i < |channels| {
            if channels[i].value.closeRcvd {
              ChannelFree(i);
            } else {
              channels := channels[i := Some(channels[i].value.(closeSent := true))];
            }
          }
          upstream := upstream + [m];
        case DownOther(_, _) =>
          upstream := upstream + [m];
      }
      return true;
    }

    /** Following a pointer; the search stands for the dereference. */
    method Dereference(addr: nat) returns (i: nat)
      ensures i == At(channels, addr)
    {
      i := 0;
      while i < |channels|
        invariant i <= |channels| && At(channels, addr) == At(channels, addr, i)
      {
        if channels[i].Some? && channels[i].value.addr == addr {
          return;
        }
        i := i + 1;
      }
    }

    method ProxyUpstream(id: nat, t: MsgType, payload: seq<byte>) returns (handled: bool)
      modifies this
      ensures handled <==> Proxied(old(channels), id)
      ensures View() == if handled then Upstream(old(View()), id, t, payload) else old(View())
    {
      if id >= |channels| || channels[id].None? {
        return false;
      }
      var c := channels[id].value;
      if c.kind != MuxProxy || c.muxCtx.None? {
        return false;
      }
      var j := Dereference(c.muxCtx.value);
      if j < |channels| {
        var downstream := channels[j].value;
        channels := channels[j := Some(downstream.(
          output := downstream.output + [Packet(t, c.downstreamId, payload)]))];
      }
      c := channels[id].value;
      if t == OpenConfirmation {
        if |payload| > 4 {
          channels := channels[id := Some(c.(remoteId := Some(PeekU32(payload))))];
        }
      } else if t == ChannelClose {
        if c.closeSent {
          ChannelFree(id);
        } else {
          channels := channels[id := Some(c.(closeRcvd := true))];
        }
      }
      return true;
    }
  }
}
