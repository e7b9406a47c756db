/**
 * One endpoint of a plain (stream, unfiltered) SSH channel: the fields of the
 * `Channel` structure that flow control and the close protocol touch, and the
 * handlers of channels.c and nchan.c that update them.
 *
 * Each handler is a function from the old channel record to the new one and the
 * messages it queues; class ChannelEndpoint.Endpoint runs the same handlers in place.
 * The record also carries a history (what was read from and written to the
 * descriptors, and whether bytes were thrown away) so that whole runs can be
 * talked about.
 */
module Channel {
  import opened Common

  type byte = bv8

  const U32 := 0x1_0000_0000
  const CHANNEL_MAX_READ := 32 * 1024
  const CHAN_RBUF := 16 * 1024
  const CHAN_INPUT_MAX := 16 * 1024 * 1024
  const SSH2_EXTENDED_DATA_STDERR := 1

  datatype Kind = Larval | Opening | Open | Abandoned | Freed
  datatype InputState = IOpen | IWaitDrain | IClosed
  datatype OutputState = OOpen | OWaitDrain | OClosed
  datatype ExtUsage = Ignore | Read | Write

  /** Channel messages on the wire, in either direction. */
  datatype Msg =
    | Confirm(window: nat, maxpacket: nat)
    | Data(bytes: seq<byte>)
    | Ext(bytes: seq<byte>)
    | Adjust(n: nat)
    | Eof
    | Close
    | Eow

  /** The diagnostics a handler can raise: logged, fatal or disconnecting. */
  datatype Alarm =
    | Fine
    | BadExtData          // extended data nobody here wants
    | BigPacket           // packet over the advertised maximum
    | ExcessData          // more data than the window allows
    | PeerIgnoredWindow   // ... and beyond the 10% grace: disconnect
    | ExcessExtData
    | ExtAfterEof         // disconnect
    | AdjustOverflow      // fatal
    | NoSuchChannel       // disconnect
    | NotOpening          // disconnect

  datatype Windows = Windows(
    remote: nat, remoteMaxpacket: nat,
    local: nat, localMax: nat, localMaxpacket: nat,
    consumed: nat, exceeded: nat)

  datatype Buffers = Buffers(
    input: seq<byte>, output: seq<byte>, extended: seq<byte>, usage: ExtUsage, efd: bool)

  datatype Stage = Stage(
    istate: InputState, ostate: OutputState,
    closeSent: bool, closeRcvd: bool, eofSent: bool, eofRcvd: bool)

  datatype History = History(
    rfd: seq<byte>, wfd: seq<byte>, efdRead: seq<byte>, efdWrite: seq<byte>,
    writeFailed: bool,   // output was thrown away
    forced: bool,        // input was thrown away
    dropped: nat)        // peer bytes ignored without charging the window

  /** `eow` stands for a session whose peer has SSH_NEW_OPENSSH, `extEof` for a peer with
      SSH_BUG_EXTEOF. */
  datatype Chan = Chan(kind: Kind, eow: bool, extEof: bool,
                       w: Windows, b: Buffers, st: Stage, h: History)

  /** What a system call on a descriptor reported. */
  datatype ReadResult = ReadAgain | ReadFailure | Got(bytes: seq<byte>)
  datatype WriteResult = WriteAgain | WriteFailure | Wrote(n: nat)

  datatype Reply = Reply(c: Chan, out: seq<Msg>, alarm: Alarm)

  function Quietly(c: Chan): Reply { Reply(c, [], Fine) }

  /** Only extended data received from the peer occupies window. */
  function InboundExt(b: Buffers): seq<byte> { if b.usage == Write then b.extended else [] }

  function OutboundExt(b: Buffers): seq<byte> { if b.usage == Read then b.extended else [] }

  predicate EfdInputActive(c: Chan) { c.b.usage == Read && (c.b.efd || c.b.extended != []) }

  predicate EfdOutputActive(c: Chan) {
    && c.b.usage == Write && c.b.efd
    && (!(c.st.eofRcvd || c.st.closeRcvd) || c.b.extended != [])
  }

  /** A fresh channel as channel_new makes it. */
  predicate Fresh(c: Chan) {
    && c.w.local == c.w.localMax < U32 && c.w.consumed == 0
    && c.b.input == [] && c.b.output == [] && c.b.extended == []
    && c.st == Stage(IOpen, OOpen, false, false, false, false)
    && c.h == History([], [], [], [], false, false, 0)
  }

  // ----- nchan.c: the close protocol

  function ReadFailed(c: Chan): Chan {
    if c.st.istate == IOpen then c.(st := c.st.(istate := IWaitDrain)) else c
  }

  function IbufEmpty(c: Chan): Reply {
    if c.b.input != [] || c.st.istate != IWaitDrain then Quietly(c)
    else if c.st.closeSent then Quietly(c.(st := c.st.(istate := IClosed)))
    else Reply(c.(st := c.st.(istate := IClosed, eofSent := true)), [Eof], Fine)
  }

  function ObufEmpty(c: Chan): Chan {
    if c.b.output == [] && c.st.ostate == OWaitDrain
    then c.(st := c.st.(ostate := OClosed)) else c
  }

  function WriteFailed(c: Chan): Reply {
    if c.st.ostate == OClosed then Quietly(c)
    else
      Reply(c.(b := c.b.(output := []), st := c.st.(ostate := OClosed),
               h := c.h.(writeFailed := true)),
            if c.eow then [Eow] else [], Fine)
  }

  function RcvdEow(c: Chan): Chan {
    if c.st.istate == IOpen then c.(st := c.st.(istate := IClosed)) else c
  }

  function StopOutput(st: Stage): Stage {
    if st.ostate == OOpen then st.(ostate := OWaitDrain) else st
  }

  function RcvdIeof(c: Chan): Chan {
    var c1 := c.(st := StopOutput(c.st.(eofRcvd := true)));
    if EfdOutputActive(c1) then c1 else ObufEmpty(c1)
  }

  function ShutdownExtendedRead(b: Buffers): Buffers {
    if b.usage == Write then b else b.(efd := false)
  }

  function RcvdOclose(c: Chan): Reply {
    var st := c.st.(closeRcvd := true);
    if c.kind == Larval then Quietly(c.(st := st.(ostate := OClosed, istate := IClosed)))
    else
      var st1 := StopOutput(st);
      match st1.istate
      case IOpen => Quietly(c.(st := st1.(istate := IClosed), b := ShutdownExtendedRead(c.b)))
      case IWaitDrain =>
        Reply(c.(st := st1.(istate := IClosed, eofSent := true), b := ShutdownExtendedRead(c.b)),
              [Eof], Fine)
      case IClosed => Quietly(c.(st := st1))
  }

  /** chan_is_dead: may the channel be closed, the CLOSE it sends if it may, and its answer. */
  predicate Finished(c: Chan) {
    && c.st.istate == IClosed && c.st.ostate == OClosed
    && !(c.extEof && c.b.usage == Write && c.b.efd && c.b.extended != [])
  }

  function SendClose(c: Chan, doSend: bool): Reply {
    if Finished(c) && !c.st.closeSent && doSend
    then Reply(c.(st := c.st.(closeSent := true)), [Close], Fine) else Quietly(c)
  }

  predicate IsDead(c: Chan) { Finished(c) && c.st.closeRcvd }

  /** The callback of a channel's user (detach_user): whether a CLOSE may be sent before it is
      called (detach_close), and whether it has unregistered itself when it returns. */
  datatype User = NoUser | User(closes: bool, leaves: bool)

  /** channel_garbage_collect */
  function Collect(c: Chan, u: User): Reply {
    var r := if u.User? then SendClose(c, u.closes) else Quietly(c);
    if u.User? && !(IsDead(r.c) && u.leaves) then r
    else
      var r2 := SendClose(r.c, true);
      Reply(if IsDead(r2.c) then r2.c.(kind := Freed) else r2.c, r.out + r2.out, Fine)
  }

  // ----- channels.c: descriptors

  /** The most channel_handle_rfd asks the kernel for. */
  function ReadLimit(c: Chan): nat {
    if |c.b.input| >= CHAN_INPUT_MAX || |c.b.input| >= c.w.remote then 0
    else Min(Min(CHANNEL_MAX_READ, c.w.remote - |c.b.input|), CHAN_INPUT_MAX - |c.b.input|)
  }

  function TakeInput(c: Chan, got: seq<byte>): Chan {
    c.(b := c.b.(input := c.b.input + got), h := c.h.(rfd := c.h.rfd + got))
  }

  function HandleRfd(c: Chan, r: ReadResult): Chan {
    if ReadLimit(c) == 0 then c
    else
      match r
      case ReadAgain => c
      case ReadFailure => ReadFailed(c)
      case Got(bytes) =>
        if bytes == [] then ReadFailed(c)
        else TakeInput(c, bytes[..Min(|bytes|, ReadLimit(c))])
  }

  function Consume(w: Windows, len: nat): Windows {
    w.(consumed := (w.consumed + len) % U32)
  }

  function PutOutput(c: Chan, len: nat): Chan
    requires len <= |c.b.output|
  {
    c.(w := Consume(c.w, len), b := c.b.(output := c.b.output[len..]),
       h := c.h.(wfd := c.h.wfd + c.b.output[..len]))
  }

  function HandleWfd(c: Chan, w: WriteResult): Reply {
    if c.b.output == [] then Quietly(c)
    else
      match w
      case WriteAgain => Quietly(c)
      case WriteFailure => WriteFailed(c)
      case Wrote(n) =>
        if n == 0 then WriteFailed(c) else Quietly(PutOutput(c, Min(n, |c.b.output|)))
  }

  function CloseEfd(c: Chan): Chan { c.(b := c.b.(efd := false)) }

  function TakeExtended(c: Chan, got: seq<byte>): Chan {
    c.(b := c.b.(extended := c.b.extended + got), h := c.h.(efdRead := c.h.efdRead + got))
  }

  function HandleEfdRead(c: Chan, r: ReadResult): Chan {
    if !c.b.efd || c.b.usage == Write then c
    else
      match r
      case ReadAgain => c
      case ReadFailure => CloseEfd(c)
      case Got(bytes) =>
        if bytes == [] then CloseEfd(c)
        else if c.b.usage == Ignore then c
        else TakeExtended(c, bytes[..Min(|bytes|, CHAN_RBUF)])
  }

  function PutExtended(c: Chan, len: nat): Chan
    requires len <= |c.b.extended|
  {
    c.(w := Consume(c.w, len), b := c.b.(extended := c.b.extended[len..]),
       h := c.h.(efdWrite := c.h.efdWrite + c.b.extended[..len]))
  }

  function HandleEfdWrite(c: Chan, w: WriteResult): Chan {
    if !c.b.efd || c.b.usage != Write || c.b.extended == [] then c
    else
      match w
      case WriteAgain => c
      case WriteFailure => CloseEfd(c)
      case Wrote(n) =>
        if n == 0 then CloseEfd(c) else PutExtended(c, Min(n, |c.b.extended|))
  }

  predicate WindowDue(c: Chan) {
    && c.kind == Open && !c.st.closeSent && !c.st.closeRcvd
    && ((c.w.localMax - c.w.local) % U32 > c.w.localMaxpacket * 3 % U32
        || c.w.local < c.w.localMax / 2)
    && c.w.consumed > 0
  }

  function CheckWindow(c: Chan): Reply {
    if !WindowDue(c) then Quietly(c)
    else
      Reply(c.(w := c.w.(local := (c.w.local + c.w.consumed) % U32, consumed := 0)),
            [Adjust(c.w.consumed)], Fine)
  }

  // ----- channels.c: sending

  function SendLimit(w: Windows, len: nat): nat { Min(Min(len, w.remote), w.remoteMaxpacket) }

  function PollInput(c: Chan): Reply {
    var len := SendLimit(c.w, |c.b.input|);
    if c.b.input == [] then
      if c.st.istate == IWaitDrain && !EfdInputActive(c) then IbufEmpty(c) else Quietly(c)
    else if len == 0 then Quietly(c)
    else
      Reply(c.(b := c.b.(input := c.b.input[len..]), w := c.w.(remote := c.w.remote - len)),
            [Data(c.b.input[..len])], Fine)
  }

  function PollExtended(c: Chan): Reply {
    var len := SendLimit(c.w, |c.b.extended|);
    if len == 0 then Quietly(c)
    else
      Reply(c.(b := c.b.(extended := c.b.extended[len..]), w := c.w.(remote := c.w.remote - len)),
            [Ext(c.b.extended[..len])], Fine)
  }

  // ----- channels.c: receiving

  function Ignored(c: Chan, len: nat, alarm: Alarm): Reply {
    Reply(c.(h := c.h.(dropped := c.h.dropped + len)), [], alarm)
  }

  function AcceptData(c: Chan, data: seq<byte>): Chan
    requires |data| <= c.w.local
  {
    c.(w := c.w.(local := c.w.local - |data|, exceeded := 0),
       b := c.b.(output := c.b.output + data))
  }

  /** The grace given to a peer that overruns the window. */
  function OverrunData(c: Chan, data: seq<byte>): Reply
    requires |data| > c.w.local
  {
    var over := (c.w.exceeded + |data| - c.w.local) % U32;
    var w := c.w.(exceeded := over, local := 0);
    if over > c.w.localMax / 10 then Reply(c.(w := w), [], PeerIgnoredWindow)
    else Reply(c.(w := w, b := c.b.(output := c.b.output + data)), [], ExcessData)
  }

  /** Data for a channel that no longer writes: only the window accounting is done. */
  function FakeConsume(w: Windows, len: nat): Windows {
    Consume(w.(local := if len > w.local then 0 else w.local - len), len)
  }

  function InputData(c: Chan, data: seq<byte>): Reply {
    if c.kind != Open then Ignored(c, |data|, Fine)
    else if c.st.ostate != OOpen then Quietly(c.(w := FakeConsume(c.w, |data|)))
    else if |data| > c.w.localMaxpacket then Ignored(c, |data|, BigPacket)
    else if |data| > c.w.local then OverrunData(c, data)
    else Quietly(AcceptData(c, data))
  }

  function AcceptExtended(c: Chan, data: seq<byte>): Chan
    requires |data| <= c.w.local
  {
    c.(w := c.w.(local := c.w.local - |data|), b := c.b.(extended := c.b.extended + data))
  }

  function InputExtendedData(c: Chan, tcode: nat, data: seq<byte>): Reply {
    if c.kind != Open then Ignored(c, |data|, BadExtData)
    else if c.st.eofRcvd && !c.extEof then Reply(c, [], ExtAfterEof)
    else if !c.b.efd || c.b.usage != Write || tcode != SSH2_EXTENDED_DATA_STDERR then
      Ignored(c, |data|, BadExtData)
    else if |data| > c.w.local then Ignored(c, |data|, ExcessExtData)
    else Quietly(AcceptExtended(c, data))
  }

  function InputWindowAdjust(c: Chan, n: nat): Reply {
    var remote := (c.w.remote + n) % U32;
    if remote < c.w.remote then Reply(c, [], AdjustOverflow)
    else Quietly(c.(w := c.w.(remote := remote)))
  }

  function InputOpenConfirmation(c: Chan, window: nat, maxpacket: nat): Reply {
    if c.kind != Opening then Reply(c, [], NotOpening)
    else Quietly(c.(kind := Open, w := c.w.(remote := window, remoteMaxpacket := maxpacket)))
  }

  /** Dispatch of one received message; a freed channel id is a protocol error. */
  function Receive(c: Chan, m: Msg): Reply {
    if c.kind == Freed then Reply(c, [], NoSuchChannel)
    else
      match m
      case Confirm(w, mp) => InputOpenConfirmation(c, w, mp)
      case Data(d) => InputData(c, d)
      case Ext(d) => InputExtendedData(c, SSH2_EXTENDED_DATA_STDERR, d)
      case Adjust(n) => InputWindowAdjust(c, n)
      case Eof => Quietly(RcvdIeof(c))
      case Close => RcvdOclose(c)
      case Eow => Quietly(RcvdEow(c))
  }

  // ----- channels.c: other transitions

  /** channel_set_fds: a larval channel (advertised window 0) gets its descriptors. */
  function SetFds(c: Chan, usage: ExtUsage, efd: bool, windowMax: nat): Reply {
    Reply(c.(kind := Open, b := c.b.(usage := usage, efd := efd),
             w := c.w.(local := windowMax, localMax := windowMax)),
          [Adjust(windowMax)], Fine)
  }

  function DiscardInput(c: Chan): Reply {
    if c.st.istate == IClosed then Quietly(c)
    else IbufEmpty(c.(st := c.st.(istate := IWaitDrain), b := c.b.(input := []),
                      h := c.h.(forced := true)))
  }

  /** channel_force_close; the inactivity timeout abandons the channel. */
  function ForceClose(c: Chan, abandon: bool := true): Reply {
    var r1 := DiscardInput(c);
    var r2 := WriteFailed(r1.c);
    Reply(CloseEfd(r2.c).(kind := if abandon then Abandoned else c.kind), r1.out + r2.out, Fine)
  }

  datatype Act =
    | RfdReady(r: ReadResult)
    | WfdReady(w: WriteResult)
    | EfdReadReady(er: ReadResult)
    | EfdWriteReady(ew: WriteResult)
    | DoCheckWindow
    | DoPollInput
    | DoPollExtended
    | DoDrained
    | DoCollect(u: User)
    | DoForceClose
    | DoSetFds(usage: ExtUsage, efd: bool, windowMax: nat)

  // ----- channel_pre_open: the descriptors an open channel waits for

  predicate BothClosed(st: Stage) { st.istate == IClosed && st.ostate == OClosed }

  predicate PollsRfd(c: Chan) {
    && c.kind == Open && c.st.istate == IOpen
    && |c.b.input| < c.w.remote && |c.b.input| + CHAN_RBUF <= CHAN_INPUT_MAX
  }

  predicate PollsWfd(c: Chan) { c.kind == Open && c.st.ostate != OClosed && c.b.output != [] }

  predicate PollsEfdWrite(c: Chan) {
    && c.kind == Open && c.b.efd && !BothClosed(c.st)
    && c.b.usage == Write && c.b.extended != []
  }

  predicate PollsEfdRead(c: Chan) {
    && c.kind == Open && c.b.efd && !BothClosed(c.st)
    && c.b.usage != Write && !c.st.eofSent && |c.b.extended| < c.w.remote
  }

  /**
   * When the event loop may call the handler. The descriptors of one round are polled
   * together and handled one after the other, so the write that closes the last direction
   * may still be followed by the extended descriptor: its two events do not ask for a
   * direction to be open. Nothing handled before them changes the rest of the condition.
   */
  predicate Enabled(c: Chan, a: Act) {
    match a
    case RfdReady(_) => PollsRfd(c)
    case WfdReady(_) => PollsWfd(c)
    case EfdReadReady(_) => PollsEfdRead(c.(st := c.st.(istate := IOpen)))
    case EfdWriteReady(_) => PollsEfdWrite(c.(st := c.st.(istate := IOpen)))
    case DoPollInput =>
      c.kind == Open && !c.st.closeSent && !c.st.closeRcvd && c.st.istate != IClosed
    case DoPollExtended =>
      && c.kind == Open && !c.st.closeSent && !c.st.closeRcvd && !c.st.eofSent
      && c.b.usage == Read
    case DoDrained => c.kind == Open && !EfdOutputActive(c)
    case DoCollect(_) => c.kind != Freed
    case DoSetFds(_, _, w) => c.kind == Larval && !c.st.closeSent && !c.st.closeRcvd && w < U32
    case _ => c.kind == Open
  }

  function Perform(c: Chan, a: Act): Reply {
    match a
    case RfdReady(r) => Quietly(HandleRfd(c, r))
    case WfdReady(w) => HandleWfd(c, w)
    case EfdReadReady(r) => Quietly(HandleEfdRead(c, r))
    case EfdWriteReady(w) => Quietly(HandleEfdWrite(c, w))
    case DoCheckWindow => CheckWindow(c)
    case DoPollInput => PollInput(c)
    case DoPollExtended => PollExtended(c)
    case DoDrained => Quietly(ObufEmpty(c))
    case DoCollect(u) => Collect(c, u)
    case DoForceClose => ForceClose(c)
    case DoSetFds(u, e, w) => SetFds(c, u, e, w)
  }
}
