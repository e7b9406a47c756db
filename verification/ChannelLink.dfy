/**
 * Two endpoints running the code of module Channel over two reliable FIFO
 * queues, and what every run of the pair keeps.
 */
module ChannelLink {
  import opened Common
  import opened Channel

  datatype System = System(a: Chan, b: Chan, ab: seq<Msg>, ba: seq<Msg>)

  // ----- what is in flight

  predicate Payload(m: Msg) { m.Data? || m.Ext? }

  function DataIn(m: Msg): seq<byte> { if m.Data? then m.bytes else [] }

  function ExtIn(m: Msg): seq<byte> { if m.Ext? then m.bytes else [] }

  function CreditIn(m: Msg): nat {
    match m case Adjust(n) => n case Confirm(w, _) => w case _ => 0
  }

  function DataOf(q: seq<Msg>): seq<byte> { if q == [] then [] else DataIn(q[0]) + DataOf(q[1..]) }

  function ExtOf(q: seq<Msg>): seq<byte> { if q == [] then [] else ExtIn(q[0]) + ExtOf(q[1..]) }

  /** Window credit travelling in a queue. */
  function Credit(q: seq<Msg>): nat { if q == [] then 0 else CreditIn(q[0]) + Credit(q[1..]) }

  lemma {:induction false} DataAppend(q: seq<Msg>, m: Msg)
    ensures DataOf(q + [m]) == DataOf(q) + DataIn(m)
  {
    if q != [] {
      assert (q + [m])[1..] == q[1..] + [m];
      DataAppend(q[1..], m);
    }
  }

  lemma {:induction false} ExtAppend(q: seq<Msg>, m: Msg)
    ensures ExtOf(q + [m]) == ExtOf(q) + ExtIn(m)
  {
    if q != [] {
      assert (q + [m])[1..] == q[1..] + [m];
      ExtAppend(q[1..], m);
    }
  }

  lemma {:induction false} CreditAppend(q: seq<Msg>, m: Msg)
    ensures Credit(q + [m]) == Credit(q) + CreditIn(m)
  {
    if q != [] {
      assert (q + [m])[1..] == q[1..] + [m];
      CreditAppend(q[1..], m);
    }
  }

  lemma FlowAppend(q: seq<Msg>, m: Msg)
    ensures DataOf(q + [m]) == DataOf(q) + DataIn(m)
    ensures ExtOf(q + [m]) == ExtOf(q) + ExtIn(m)
    ensures Credit(q + [m]) == Credit(q) + CreditIn(m)
  {
    DataAppend(q, m);
    ExtAppend(q, m);
    CreditAppend(q, m);
  }

  // ----- the invariant

  /** Window, unreturned credit and undelivered bytes account for the advertised window. */
  ghost predicate Accounted(w: Windows, b: Buffers, writeFailed: bool) {
    var held := w.local + w.consumed + |b.output| + |InboundExt(b)|;
    w.localMax < U32 && held <= w.localMax && (!writeFailed ==> held == w.localMax)
  }

  ghost predicate Staged(kind: Kind, st: Stage) {
    && (st.eofSent ==> st.istate == IClosed)
    && (st.closeSent ==> st.istate == IClosed && st.ostate == OClosed)
    && (st.closeRcvd ==> st.istate == IClosed && st.ostate != OOpen)
    && (kind == Freed ==> st.closeSent && st.closeRcvd)
    && (kind == Abandoned ==> st.istate == IClosed && st.ostate == OClosed)
    && (kind == Opening ==> st == Stage(IOpen, OOpen, false, false, false, false))
  }

  ghost predicate Emptied(kind: Kind, b: Buffers, st: Stage, h: History) {
    && (st.ostate != OOpen ==> h.writeFailed || st.eofRcvd || st.closeRcvd)
    && (st.ostate == OClosed ==> b.output == [])
    && (st.ostate == OClosed && !h.writeFailed && b.usage == Write && b.efd ==> b.extended == [])
    && (st.eofSent && !st.closeRcvd && !h.forced ==> b.input == [])
    && (h.writeFailed ==> st.ostate == OClosed)
    && (h.forced ==> kind == Abandoned || kind == Freed)
    && (kind == Abandoned ==> !b.efd)
    && (b.usage != Read ==> h.efdRead == [])
  }

  ghost predicate Unborn(c: Chan) {
    && (c.kind == Opening ==> c.w.remote == 0)
    && (c.kind == Larval ==> c.w.localMax == 0 && c.b.extended == [] && !c.h.writeFailed
                             && c.h.efdRead == [] && c.h.efdWrite == [])
  }

  /** What one endpoint keeps on its own. */
  ghost predicate Local(c: Chan) {
    && Accounted(c.w, c.b, c.h.writeFailed)
    && Staged(c.kind, c.st)
    && Emptied(c.kind, c.b, c.st, c.h)
    && Unborn(c)
  }

  // The three facets of a direction each look at a projection of the endpoints.

  datatype Signals = Signals(opening: bool, eofSent: bool, eofRcvd: bool, closeSent: bool,
                             closeRcvd: bool, remoteMaxpacket: nat, localMaxpacket: nat)

  datatype Source = Source(log: seq<byte>, pending: seq<byte>, forced: bool,
                           extLog: seq<byte>, extPending: seq<byte>)

  datatype Sink = Sink(log: seq<byte>, buffered: seq<byte>, writeFailed: bool,
                       extLog: seq<byte>, extBuffered: seq<byte>, extOpen: bool)

  function SignalsOf(c: Chan): Signals {
    Signals(c.kind == Opening, c.st.eofSent, c.st.eofRcvd, c.st.closeSent, c.st.closeRcvd,
            c.w.remoteMaxpacket, c.w.localMaxpacket)
  }

  function SourceOf(c: Chan): Source {
    Source(c.h.rfd, c.b.input, c.h.forced, c.h.efdRead, OutboundExt(c.b))
  }

  function SinkOf(c: Chan): Sink {
    Sink(c.h.wfd, c.b.output, c.h.writeFailed, c.h.efdWrite, InboundExt(c.b),
         c.kind == Larval || (c.b.usage == Write && c.b.efd))
  }

  /** How far the conversation in one direction has got: a confirmation first if one is due,
      payload only before EOF, nothing after CLOSE, packets within the receiver's maximum. */
  datatype Phase = Phase(opening: bool, eof: bool, close: bool)

  datatype Progress = At(phase: Phase) | Broken

  function Advance(g: Progress, m: Msg, receiverMax: nat, senderMax: nat): Progress {
    if g.Broken? || g.phase.close || g.phase.opening != m.Confirm? then Broken
    else
      match m
      case Confirm(_, mp) => if mp == senderMax then At(g.phase.(opening := false)) else Broken
      case Data(d) => if g.phase.eof || |d| > receiverMax then Broken else g
      case Ext(d) => if g.phase.eof || |d| > receiverMax then Broken else g
      case Eof => if g.phase.eof then Broken else At(g.phase.(eof := true))
      case Close => At(g.phase.(close := true))
      case _ => g
  }

  function Walk(g: Progress, q: seq<Msg>, receiverMax: nat, senderMax: nat): Progress
    decreases |q|
  {
    if q == [] then g
    else Walk(Advance(g, q[0], receiverMax, senderMax), q[1..], receiverMax, senderMax)
  }

  lemma {:induction false} WalkAppend(g: Progress, q: seq<Msg>, m: Msg, rm: nat, sm: nat)
    ensures Walk(g, q + [m], rm, sm) == Advance(Walk(g, q, rm, sm), m, rm, sm)
    decreases |q|
  {
    if q != [] {
      assert (q + [m])[1..] == q[1..] + [m];
      WalkAppend(Advance(g, q[0], rm, sm), q[1..], m, rm, sm);
    }
  }

  lemma {:induction false} BrokenStays(q: seq<Msg>, rm: nat, sm: nat)
    ensures Walk(Broken, q, rm, sm) == Broken
  {
    if q != [] { BrokenStays(q[1..], rm, sm); }
  }

  lemma {:induction false} EofEndsPayload(g: Progress, q: seq<Msg>, rm: nat, sm: nat)
    requires g.At? && g.phase.eof && Walk(g, q, rm, sm).At?
    ensures DataOf(q) == [] && ExtOf(q) == [] && Walk(g, q, rm, sm).phase.eof
    decreases |q|
  {
    if q != [] {
      if Advance(g, q[0], rm, sm).Broken? { BrokenStays(q[1..], rm, sm); }
      EofEndsPayload(Advance(g, q[0], rm, sm), q[1..], rm, sm);
    }
  }

  /** Reading the queue from `s` to `r` takes what `r` has seen to what `s` has sent. */
  ghost predicate Signalled(s: Signals, r: Signals, q: seq<Msg>) {
    && Walk(At(Phase(r.opening, r.eofRcvd, r.closeRcvd)), q, r.localMaxpacket, s.localMaxpacket)
       == At(Phase(false, s.eofSent, s.closeSent))
    && (if s.opening then q == [] else s.remoteMaxpacket == r.localMaxpacket)
  }

  /** Flow control from a sender to a receiver; credit comes back through `p`. */
  ghost predicate Windowed(remoteWindow: nat, localWindow: nat, dropped: nat,
                           q: seq<Msg>, p: seq<Msg>)
  {
    remoteWindow + |DataOf(q)| + |ExtOf(q)| + Credit(p) + dropped == localWindow
  }

  /** Nothing is lost, duplicated or reordered between descriptors. */
  ghost predicate Conserved(s: Source, r: Sink, data: seq<byte>, ext: seq<byte>) {
    && r.log <= s.log
    && (!r.writeFailed ==> r.log + r.buffered + data <= s.log)
    && (!r.writeFailed && !s.forced ==> r.log + r.buffered + data + s.pending == s.log)
    && (r.extOpen ==> r.extLog + r.extBuffered + ext + s.extPending == s.extLog)
  }

  ghost predicate Link(s: Chan, r: Chan, q: seq<Msg>, p: seq<Msg>) {
    && Signalled(SignalsOf(s), SignalsOf(r), q)
    && Windowed(s.w.remote, r.w.local, r.h.dropped, q, p)
    && Conserved(SourceOf(s), SinkOf(r), DataOf(q), ExtOf(q))
  }

  ghost predicate Inv(y: System) {
    Local(y.a) && Local(y.b) && Link(y.a, y.b, y.ab, y.ba) && Link(y.b, y.a, y.ba, y.ab)
  }

  // ----- every handler keeps it

  /** Endpoint `x` and its peer `y`: both directions at once, seen from `x`. */
  ghost predicate Joint(x: Chan, y: Chan, inq: seq<Msg>, outq: seq<Msg>) {
    Local(x) && Link(x, y, outq, inq) && Link(y, x, inq, outq)
  }

  ghost predicate Kept(r: Reply, y: Chan, inq: seq<Msg>, outq: seq<Msg>) {
    Joint(r.c, y, inq, outq + r.out)
  }

  lemma SourceReads(s: Source, r: Sink, data: seq<byte>, ext: seq<byte>, got: seq<byte>)
    requires Conserved(s, r, data, ext)
    ensures Conserved(s.(log := s.log + got, pending := s.pending + got), r, data, ext)
    ensures Conserved(s.(extLog := s.extLog + got, extPending := s.extPending + got), r, data, ext)
  {
  }

  lemma SinkWrites(s: Source, r: Sink, data: seq<byte>, ext: seq<byte>, len: nat)
    requires Conserved(s, r, data, ext)
    ensures len <= |r.buffered| && !r.writeFailed ==>
      Conserved(s, r.(log := r.log + r.buffered[..len], buffered := r.buffered[len..]), data, ext)
    ensures len <= |r.extBuffered| ==>
      Conserved(s, r.(extLog := r.extLog + r.extBuffered[..len],
                      extBuffered := r.extBuffered[len..]), data, ext)
  {
  }

  lemma TakeInputKeeps(x: Chan, y: Chan, inq: seq<Msg>, outq: seq<Msg>, got: seq<byte>)
    requires Joint(x, y, inq, outq) && x.kind == Open && x.st.istate == IOpen
    ensures Joint(TakeInput(x, got), y, inq, outq)
  {
    SourceReads(SourceOf(x), SinkOf(y), DataOf(outq), ExtOf(outq), got);
  }

  lemma ReadFailedKeeps(x: Chan, y: Chan, inq: seq<Msg>, outq: seq<Msg>)
    requires Joint(x, y, inq, outq) && x.kind == Open
    ensures Joint(ReadFailed(x), y, inq, outq)
  {
    ReadFailedShape(x);
  }

  lemma ReadFailedShape(x: Chan)
    requires Local(x) && x.kind == Open
    ensures var x' := ReadFailed(x);
      && Local(x') && SignalsOf(x') == SignalsOf(x) && SourceOf(x') == SourceOf(x)
      && SinkOf(x') == SinkOf(x) && x'.w == x.w && x'.h == x.h
  {
  }

  /** Writing only moves bytes from the buffer to the descriptor and into local_consumed. */
  lemma PutOutputShape(x: Chan, len: nat)
    requires Local(x) && 0 < len <= |x.b.output|
    ensures var x' := PutOutput(x, len);
      && Local(x') && SignalsOf(x') == SignalsOf(x) && SourceOf(x') == SourceOf(x)
      && x'.w.remote == x.w.remote && x'.w.local == x.w.local && x'.h.dropped == x.h.dropped
      && SinkOf(x') == SinkOf(x).(log := x.h.wfd + x.b.output[..len], buffered := x.b.output[len..])
  {
  }

  lemma PutExtendedShape(x: Chan, len: nat)
    requires Local(x) && len <= |x.b.extended| && x.b.usage == Write
    ensures var x' := PutExtended(x, len);
      && Local(x') && SignalsOf(x') == SignalsOf(x) && SourceOf(x') == SourceOf(x)
      && x'.w.remote == x.w.remote && x'.w.local == x.w.local && x'.h.dropped == x.h.dropped
      && SinkOf(x') == SinkOf(x).(extLog := x.h.efdWrite + x.b.extended[..len],
                                  extBuffered := x.b.extended[len..])
  {
  }

  lemma PutOutputKeeps(x: Chan, y: Chan, inq: seq<Msg>, outq: seq<Msg>, len: nat)
    requires Joint(x, y, inq, outq) && x.kind == Open && 0 < len <= |x.b.output|
    ensures Joint(PutOutput(x, len), y, inq, outq)
  {
    PutOutputShape(x, len);
    SinkWrites(SourceOf(y), SinkOf(x), DataOf(inq), ExtOf(inq), len);
  }

  lemma PutExtendedKeeps(x: Chan, y: Chan, inq: seq<Msg>, outq: seq<Msg>, len: nat)
    requires Joint(x, y, inq, outq) && len <= |x.b.extended| && x.b.usage == Write
    ensures Joint(PutExtended(x, len), y, inq, outq)
  {
    PutExtendedShape(x, len);
    SinkWrites(SourceOf(y), SinkOf(x), DataOf(inq), ExtOf(inq), len);
  }

  lemma TakeExtendedKeeps(x: Chan, y: Chan, inq: seq<Msg>, outq: seq<Msg>, got: seq<byte>)
    requires Joint(x, y, inq, outq) && x.kind == Open && x.b.usage == Read
    ensures Joint(TakeExtended(x, got), y, inq, outq)
  {
    SourceReads(SourceOf(x), SinkOf(y), DataOf(outq), ExtOf(outq), got);
  }

  lemma CloseEfdKeeps(x: Chan, y: Chan, inq: seq<Msg>, outq: seq<Msg>)
    requires Joint(x, y, inq, outq)
    ensures Joint(CloseEfd(x), y, inq, outq)
  {
  }

  lemma QuietKept(c: Chan, y: Chan, inq: seq<Msg>, outq: seq<Msg>)
    requires Joint(c, y, inq, outq)
    ensures Kept(Quietly(c), y, inq, outq)
  {
    assert outq + [] == outq;
  }

  lemma RfdKeeps(x: Chan, y: Chan, inq: seq<Msg>, outq: seq<Msg>, r: ReadResult)
    requires Joint(x, y, inq, outq) && x.kind == Open && x.st.istate == IOpen
    ensures Kept(Perform(x, RfdReady(r)), y, inq, outq)
  {
    if ReadLimit(x) == 0 || r.ReadAgain? {
      QuietKept(x, y, inq, outq);
    } else if r.Got? && r.bytes != [] {
      TakeInputKeeps(x, y, inq, outq, r.bytes[..Min(|r.bytes|, ReadLimit(x))]);
      QuietKept(HandleRfd(x, r), y, inq, outq);
    } else {
      ReadFailedKeeps(x, y, inq, outq);
      QuietKept(ReadFailed(x), y, inq, outq);
    }
  }

  lemma WfdKeeps(x: Chan, y: Chan, inq: seq<Msg>, outq: seq<Msg>, w: WriteResult)
    requires Joint(x, y, inq, outq) && x.kind == Open
    ensures Kept(Perform(x, WfdReady(w)), y, inq, outq)
  {
    if x.b.output == [] || w.WriteAgain? {
      QuietKept(x, y, inq, outq);
    } else if w.Wrote? && w.n > 0 {
      PutOutputKeeps(x, y, inq, outq, Min(w.n, |x.b.output|));
      QuietKept(PutOutput(x, Min(w.n, |x.b.output|)), y, inq, outq);
    } else {
      WriteFailedKeeps(x, y, inq, outq);
    }
  }

  lemma EfdReadKeeps(x: Chan, y: Chan, inq: seq<Msg>, outq: seq<Msg>, r: ReadResult)
    requires Joint(x, y, inq, outq) && x.kind == Open
    ensures Kept(Perform(x, EfdReadReady(r)), y, inq, outq)
  {
    if !x.b.efd || x.b.usage == Write || r.ReadAgain? {
      QuietKept(x, y, inq, outq);
    } else if r.Got? && r.bytes != [] {
      if x.b.usage == Read {
        TakeExtendedKeeps(x, y, inq, outq, r.bytes[..Min(|r.bytes|, CHAN_RBUF)]);
      }
      QuietKept(HandleEfdRead(x, r), y, inq, outq);
    } else {
      CloseEfdKeeps(x, y, inq, outq);
      QuietKept(CloseEfd(x), y, inq, outq);
    }
  }

  lemma EfdWriteKeeps(x: Chan, y: Chan, inq: seq<Msg>, outq: seq<Msg>, w: WriteResult)
    requires Joint(x, y, inq, outq) && x.kind == Open
    ensures Kept(Perform(x, EfdWriteReady(w)), y, inq, outq)
  {
    if !x.b.efd || x.b.usage != Write || x.b.extended == [] || w.WriteAgain? {
      QuietKept(x, y, inq, outq);
    } else if w.Wrote? && w.n > 0 {
      PutExtendedKeeps(x, y, inq, outq, Min(w.n, |x.b.extended|));
      QuietKept(PutExtended(x, Min(w.n, |x.b.extended|)), y, inq, outq);
    } else {
      CloseEfdKeeps(x, y, inq, outq);
      QuietKept(CloseEfd(x), y, inq, outq);
    }
  }

  // Sending: the queue grows by one message and the sender's phase follows it.

  function SentPhase(s: Signals): Progress { At(Phase(false, s.eofSent, s.closeSent)) }

  lemma SignalSent(s: Signals, s': Signals, r: Signals, q: seq<Msg>, m: Msg)
    requires Signalled(s, r, q) && !s.opening
    requires s' == s.(eofSent := s'.eofSent, closeSent := s'.closeSent)
    requires Advance(SentPhase(s), m, r.localMaxpacket, s.localMaxpacket) == SentPhase(s')
    ensures Signalled(s', r, q + [m])
  {
    WalkAppend(At(Phase(r.opening, r.eofRcvd, r.closeRcvd)), q, m,
               r.localMaxpacket, s.localMaxpacket);
  }

  lemma WindowSpent(remote: nat, remote': nat, local: nat, dropped: nat,
                    q: seq<Msg>, p: seq<Msg>, m: Msg)
    requires Windowed(remote, local, dropped, q, p)
    requires remote' + |DataIn(m)| + |ExtIn(m)| == remote
    ensures Windowed(remote', local, dropped, q + [m], p)
  {
    FlowAppend(q, m);
  }

  lemma WindowCredited(remote: nat, local: nat, local': nat, dropped: nat,
                       q: seq<Msg>, p: seq<Msg>, m: Msg)
    requires Windowed(remote, local, dropped, q, p)
    requires local' == local + CreditIn(m)
    ensures Windowed(remote, local', dropped, q, p + [m])
  {
    FlowAppend(p, m);
  }

  lemma SendKeeps(x: Chan, x': Chan, y: Chan, inq: seq<Msg>, outq: seq<Msg>, m: Msg)
    requires Joint(x, y, inq, outq) && Local(x')
    requires x.kind != Opening && x'.kind != Opening
    requires SignalsOf(x') == SignalsOf(x).(eofSent := x'.st.eofSent, closeSent := x'.st.closeSent)
    requires Advance(SentPhase(SignalsOf(x)), m, y.w.localMaxpacket, x.w.localMaxpacket)
             == SentPhase(SignalsOf(x'))
    requires x'.w.remote + |DataIn(m)| + |ExtIn(m)| == x.w.remote
    requires x'.w.local == x.w.local + CreditIn(m) && x'.h.dropped == x.h.dropped
    requires Conserved(SourceOf(x'), SinkOf(y), DataOf(outq) + DataIn(m), ExtOf(outq) + ExtIn(m))
    requires Conserved(SourceOf(y), SinkOf(x'), DataOf(inq), ExtOf(inq))
    ensures Joint(x', y, inq, outq + [m])
  {
    SignalSent(SignalsOf(x), SignalsOf(x'), SignalsOf(y), outq, m);
    WindowSpent(x.w.remote, x'.w.remote, y.w.local, y.h.dropped, outq, inq, m);
    WindowCredited(y.w.remote, x.w.local, x'.w.local, x.h.dropped, inq, outq, m);
    FlowAppend(outq, m);
  }

  /** A message without payload, sent by a handler that leaves the byte streams alone. */
  lemma ControlKeeps(x: Chan, x': Chan, y: Chan, inq: seq<Msg>, outq: seq<Msg>, m: Msg)
    requires Joint(x, y, inq, outq) && Local(x') && !Payload(m)
    requires x.kind != Opening && x'.kind != Opening
    requires SignalsOf(x') == SignalsOf(x).(eofSent := x'.st.eofSent, closeSent := x'.st.closeSent)
    requires Advance(SentPhase(SignalsOf(x)), m, y.w.localMaxpacket, x.w.localMaxpacket)
             == SentPhase(SignalsOf(x'))
    requires x'.w.remote == x.w.remote
    requires x'.w.local == x.w.local + CreditIn(m) && x'.h.dropped == x.h.dropped
    requires SourceOf(x') == SourceOf(x)
    requires SinkOf(x') == SinkOf(x) || SinkOf(x') == SinkOf(x).(extOpen := false)
    ensures Joint(x', y, inq, outq + [m])
  {
    assert DataOf(outq) + DataIn(m) == DataOf(outq) && ExtOf(outq) + ExtIn(m) == ExtOf(outq);
    SendKeeps(x, x', y, inq, outq, m);
  }

  lemma EowKeeps(x: Chan, y: Chan, inq: seq<Msg>, outq: seq<Msg>)
    requires Joint(x, y, inq, outq) && x.kind != Opening && !x.st.closeSent
    ensures Joint(x, y, inq, outq + [Eow])
  {
    ControlKeeps(x, x, y, inq, outq, Eow);
  }

  lemma WriteFailedShape(x: Chan)
    requires Local(x) && x.kind != Larval && x.kind != Opening
    ensures var x' := WriteFailed(x).c;
      && Local(x') && x'.w == x.w && x'.h.dropped == x.h.dropped
      && SignalsOf(x') == SignalsOf(x) && SourceOf(x') == SourceOf(x)
      && (SinkOf(x') == SinkOf(x) || SinkOf(x') == SinkOf(x).(buffered := [], writeFailed := true))
  {
  }

  lemma DiscardOutputKeeps(x: Chan, y: Chan, inq: seq<Msg>, outq: seq<Msg>)
    requires Joint(x, y, inq, outq) && x.kind != Larval && x.kind != Opening
    ensures Joint(WriteFailed(x).c, y, inq, outq)
  {
    WriteFailedShape(x);
  }

  lemma WriteFailedKeeps(x: Chan, y: Chan, inq: seq<Msg>, outq: seq<Msg>)
    requires Joint(x, y, inq, outq) && x.kind != Larval && x.kind != Opening
    ensures Kept(WriteFailed(x), y, inq, outq)
  {
    var x' := WriteFailed(x).c;
    DiscardOutputKeeps(x, y, inq, outq);
    if WriteFailed(x).out == [] {
      QuietKept(x', y, inq, outq);
    } else {
      EowKeeps(x', y, inq, outq);
    }
  }

  lemma SendEofKeeps(x: Chan, y: Chan, inq: seq<Msg>, outq: seq<Msg>)
    requires Joint(x, y, inq, outq) && x.kind != Opening && x.st.istate == IWaitDrain && x.b.input == []
    ensures Joint(x.(st := x.st.(istate := IClosed, eofSent := true)), y, inq, outq + [Eof])
  {
    ControlKeeps(x, x.(st := x.st.(istate := IClosed, eofSent := true)), y, inq, outq, Eof);
  }

  lemma IbufEmptyKeeps(x: Chan, y: Chan, inq: seq<Msg>, outq: seq<Msg>)
    requires Joint(x, y, inq, outq) && x.kind != Opening
    ensures Kept(IbufEmpty(x), y, inq, outq)
  {
    if IbufEmpty(x).out == [] {
      assert outq + [] == outq;
    } else {
      SendEofKeeps(x, y, inq, outq);
    }
  }

  lemma SendCloseKeeps(x: Chan, y: Chan, inq: seq<Msg>, outq: seq<Msg>)
    requires Joint(x, y, inq, outq) && !x.st.closeSent
    requires x.st.istate == IClosed && x.st.ostate == OClosed
    ensures Joint(x.(st := x.st.(closeSent := true)), y, inq, outq + [Close])
  {
    SendCloseShape(x);
    ControlKeeps(x, x.(st := x.st.(closeSent := true)), y, inq, outq, Close);
  }

  lemma SendCloseShape(x: Chan)
    requires Local(x) && x.st.istate == IClosed && x.st.ostate == OClosed
    ensures x.kind != Opening
    ensures var x' := x.(st := x.st.(closeSent := true));
      Local(x') && SourceOf(x') == SourceOf(x) && SinkOf(x') == SinkOf(x)
  {
  }

  lemma FreeKeeps(x: Chan, y: Chan, inq: seq<Msg>, outq: seq<Msg>)
    requires Joint(x, y, inq, outq) && x.st.closeSent && x.st.closeRcvd
    ensures Joint(x.(kind := Freed), y, inq, outq)
  {
  }

  /** chan_is_dead with the CLOSE it may send. */
  lemma IsDeadKeeps(x: Chan, y: Chan, inq: seq<Msg>, outq: seq<Msg>, doSend: bool)
    requires Joint(x, y, inq, outq)
    ensures Kept(SendClose(x, doSend), y, inq, outq)
  {
    if Finished(x) && !x.st.closeSent && doSend {
      SendCloseKeeps(x, y, inq, outq);
    } else {
      QuietKept(x, y, inq, outq);
    }
  }

  /** One handler after another. */
  lemma KeptThen(r: Reply, r2: Reply, y: Chan, inq: seq<Msg>, outq: seq<Msg>)
    requires Kept(r2, y, inq, outq + r.out)
    ensures Kept(Reply(r2.c, r.out + r2.out, Fine), y, inq, outq)
  {
    assert outq + (r.out + r2.out) == (outq + r.out) + r2.out;
  }

  lemma FreedKept(r: Reply, y: Chan, inq: seq<Msg>, outq: seq<Msg>)
    requires Kept(r, y, inq, outq) && r.c.st.closeSent && r.c.st.closeRcvd
    ensures Kept(r.(c := r.c.(kind := Freed)), y, inq, outq)
  {
    FreeKeeps(r.c, y, inq, outq + r.out);
  }

  lemma GoneShape(x: Chan)
    ensures var r := SendClose(x, true);
      Collect(x, NoUser) == if IsDead(r.c) then r.(c := r.c.(kind := Freed)) else r
    ensures IsDead(SendClose(x, true).c) ==> SendClose(x, true).c.st.closeSent
  {
    assert [] + SendClose(x, true).out == SendClose(x, true).out;
  }

  /** What channel_garbage_collect does once the user is gone. */
  lemma GoneKeeps(x: Chan, y: Chan, inq: seq<Msg>, outq: seq<Msg>)
    requires Joint(x, y, inq, outq)
    ensures Kept(Collect(x, NoUser), y, inq, outq)
  {
    var r := SendClose(x, true);
    IsDeadKeeps(x, y, inq, outq, true);
    GoneShape(x);
    if IsDead(r.c) { FreedKept(r, y, inq, outq); }
  }

  lemma CollectShape(x: Chan, u: User)
    requires u.User?
    ensures var r := SendClose(x, u.closes);
      var r2 := Collect(r.c, NoUser);
      Collect(x, u) == if IsDead(r.c) && u.leaves then Reply(r2.c, r.out + r2.out, Fine) else r
  {
    var r := SendClose(x, u.closes);
    assert [] + SendClose(r.c, true).out == SendClose(r.c, true).out;
  }

  lemma CollectKeeps(x: Chan, y: Chan, inq: seq<Msg>, outq: seq<Msg>, u: User)
    requires Joint(x, y, inq, outq)
    ensures Kept(Collect(x, u), y, inq, outq)
  {
    if u.NoUser? { GoneKeeps(x, y, inq, outq); } else { UserKeeps(x, y, inq, outq, u); }
  }

  lemma UserKeeps(x: Chan, y: Chan, inq: seq<Msg>, outq: seq<Msg>, u: User)
    requires Joint(x, y, inq, outq) && u.User?
    ensures Kept(Collect(x, u), y, inq, outq)
  {
    var r := SendClose(x, u.closes);
    IsDeadKeeps(x, y, inq, outq, u.closes);
    CollectShape(x, u);
    if IsDead(r.c) && u.leaves {
      GoneKeeps(r.c, y, inq, outq + r.out);
      KeptThen(r, Collect(r.c, NoUser), y, inq, outq);
    }
  }

  lemma CheckWindowShape(x: Chan)
    requires Local(x) && WindowDue(x)
    ensures var x' := CheckWindow(x).c;
      && Local(x') && SignalsOf(x') == SignalsOf(x) && SourceOf(x') == SourceOf(x)
      && SinkOf(x') == SinkOf(x) && x'.kind == x.kind && x'.w.remote == x.w.remote
      && x'.w.local == x.w.local + x.w.consumed && x'.h.dropped == x.h.dropped
  {
  }

  lemma CheckWindowKeeps(x: Chan, y: Chan, inq: seq<Msg>, outq: seq<Msg>)
    requires Joint(x, y, inq, outq) && x.kind == Open
    ensures Kept(CheckWindow(x), y, inq, outq)
  {
    if WindowDue(x) {
      CheckWindowShape(x);
      ControlKeeps(x, CheckWindow(x).c, y, inq, outq, Adjust(x.w.consumed));
    } else {
      QuietKept(x, y, inq, outq);
    }
  }

  lemma SetFdsKeeps(x: Chan, y: Chan, inq: seq<Msg>, outq: seq<Msg>,
                    usage: ExtUsage, efd: bool, windowMax: nat)
    requires Joint(x, y, inq, outq) && Enabled(x, DoSetFds(usage, efd, windowMax))
    ensures Kept(SetFds(x, usage, efd, windowMax), y, inq, outq)
  {
    ControlKeeps(x, SetFds(x, usage, efd, windowMax).c, y, inq, outq, Adjust(windowMax));
  }

  lemma SourceSends(s: Source, r: Sink, data: seq<byte>, ext: seq<byte>, len: nat)
    requires Conserved(s, r, data, ext)
    ensures len <= |s.pending| && !s.forced ==>
      Conserved(s.(pending := s.pending[len..]), r, data + s.pending[..len], ext)
    ensures len <= |s.extPending| ==>
      Conserved(s.(extPending := s.extPending[len..]), r, data, ext + s.extPending[..len])
  {
  }

  lemma SendDataShape(x: Chan, len: nat)
    requires Local(x) && Enabled(x, DoPollInput) && len == SendLimit(x.w, |x.b.input|) > 0
    ensures var x' := x.(b := x.b.(input := x.b.input[len..]), w := x.w.(remote := x.w.remote - len));
      && PollInput(x) == Reply(x', [Data(x.b.input[..len])], Fine) && Local(x')
      && SignalsOf(x') == SignalsOf(x) && SinkOf(x') == SinkOf(x)
      && SourceOf(x') == SourceOf(x).(pending := x.b.input[len..]) && !x.h.forced
  {
  }

  lemma SendDataKeeps(x: Chan, y: Chan, inq: seq<Msg>, outq: seq<Msg>)
    requires Joint(x, y, inq, outq) && Enabled(x, DoPollInput)
    requires SendLimit(x.w, |x.b.input|) > 0
    ensures Kept(PollInput(x), y, inq, outq)
  {
    var len := SendLimit(x.w, |x.b.input|);
    SendDataShape(x, len);
    SourceSends(SourceOf(x), SinkOf(y), DataOf(outq), ExtOf(outq), len);
    assert ExtOf(outq) + [] == ExtOf(outq);
    SendKeeps(x, PollInput(x).c, y, inq, outq, Data(x.b.input[..len]));
  }

  lemma PollInputKeeps(x: Chan, y: Chan, inq: seq<Msg>, outq: seq<Msg>)
    requires Joint(x, y, inq, outq) && Enabled(x, DoPollInput)
    ensures Kept(PollInput(x), y, inq, outq)
  {
    if SendLimit(x.w, |x.b.input|) > 0 {
      SendDataKeeps(x, y, inq, outq);
    } else if x.b.input == [] && x.st.istate == IWaitDrain && !EfdInputActive(x) {
      IbufEmptyKeeps(x, y, inq, outq);
    } else {
      QuietKept(x, y, inq, outq);
    }
  }

  lemma PollExtendedKeeps(x: Chan, y: Chan, inq: seq<Msg>, outq: seq<Msg>)
    requires Joint(x, y, inq, outq) && Enabled(x, DoPollExtended)
    ensures Kept(PollExtended(x), y, inq, outq)
  {
    if SendLimit(x.w, |x.b.extended|) == 0 {
      QuietKept(x, y, inq, outq);
    } else {
      SendExtendedKeeps(x, y, inq, outq);
    }
  }

  lemma SendExtendedShape(x: Chan, len: nat)
    requires Local(x) && Enabled(x, DoPollExtended) && len == SendLimit(x.w, |x.b.extended|) > 0
    ensures var x' := x.(b := x.b.(extended := x.b.extended[len..]), w := x.w.(remote := x.w.remote - len));
      && PollExtended(x) == Reply(x', [Ext(x.b.extended[..len])], Fine) && Local(x')
      && SignalsOf(x') == SignalsOf(x) && SinkOf(x') == SinkOf(x)
      && SourceOf(x') == SourceOf(x).(extPending := x.b.extended[len..])
  {
  }

  lemma SendExtendedKeeps(x: Chan, y: Chan, inq: seq<Msg>, outq: seq<Msg>)
    requires Joint(x, y, inq, outq) && Enabled(x, DoPollExtended)
    requires SendLimit(x.w, |x.b.extended|) > 0
    ensures Kept(PollExtended(x), y, inq, outq)
  {
    var len := SendLimit(x.w, |x.b.extended|);
    SendExtendedShape(x, len);
    SourceSends(SourceOf(x), SinkOf(y), DataOf(outq), ExtOf(outq), len);
    assert DataOf(outq) + [] == DataOf(outq);
    SendKeeps(x, PollExtended(x).c, y, inq, outq, Ext(x.b.extended[..len]));
  }

  lemma ObufShape(x: Chan)
    requires Local(x) && Enabled(x, DoDrained)
    ensures var x' := ObufEmpty(x);
      && Local(x') && x'.kind == x.kind && x'.w == x.w && x'.h == x.h
      && SignalsOf(x') == SignalsOf(x) && SourceOf(x') == SourceOf(x) && SinkOf(x') == SinkOf(x)
  {
  }

  lemma DrainedKeeps(x: Chan, y: Chan, inq: seq<Msg>, outq: seq<Msg>)
    requires Joint(x, y, inq, outq) && Enabled(x, DoDrained)
    ensures Kept(Perform(x, DoDrained), y, inq, outq)
  {
    ObufShape(x);
    QuietKept(ObufEmpty(x), y, inq, outq);
  }

  lemma ForcedStreams(s: Source, r: Sink, data: seq<byte>, ext: seq<byte>)
    requires Conserved(s, r, data, ext)
    ensures Conserved(s.(pending := [], forced := true), r, data, ext)
    ensures Conserved(s, r.(buffered := [], writeFailed := true, extOpen := false), data, ext)
    ensures Conserved(s, r.(extOpen := false), data, ext)
  {
  }

  /** What channel_force_close leaves behind, before its messages are counted. */
  lemma ForceCloseShape(x: Chan)
    requires Local(x) && x.kind == Open
    ensures var x' := ForceClose(x).c;
      && Local(x') && x'.w == x.w && x'.h.dropped == x.h.dropped
      && SignalsOf(x') == SignalsOf(x).(eofSent := x.st.eofSent || x.st.istate != IClosed)
      && SourceOf(x') == (if x.st.istate == IClosed then SourceOf(x)
                          else SourceOf(x).(pending := [], forced := true))
      && SinkOf(x') == (if x.st.ostate == OClosed then SinkOf(x).(extOpen := false)
                        else SinkOf(x).(buffered := [], writeFailed := true, extOpen := false))
  {
    ForceCloseFields(x);
    ForceCloseInOrder(x);
  }

  lemma ForceCloseFields(x: Chan)
    ensures var x', shut := ForceClose(x).c, x.st.istate == IClosed;
      && x'.w == x.w && x'.kind == Abandoned
      && x'.b == Buffers(if shut then x.b.input else [], if x.st.ostate == OClosed then x.b.output else [],
                         x.b.extended, x.b.usage, false)
      && x'.st == x.st.(istate := IClosed, ostate := OClosed,
                        eofSent := x.st.eofSent || (!shut && !x.st.closeSent))
      && x'.h == x.h.(forced := x.h.forced || !shut,
                      writeFailed := x.h.writeFailed || x.st.ostate != OClosed)
  {
    DiscardFields(x);
    WriteFailedFields(DiscardInput(x).c);
  }

  lemma DiscardFields(x: Chan)
    ensures var x', shut := DiscardInput(x).c, x.st.istate == IClosed;
      && x'.w == x.w && x'.kind == x.kind && x'.eow == x.eow
      && x'.b == x.b.(input := if shut then x.b.input else [])
      && x'.st == x.st.(istate := IClosed, eofSent := x.st.eofSent || (!shut && !x.st.closeSent))
      && x'.h == x.h.(forced := x.h.forced || !shut)
  {
  }

  lemma WriteFailedFields(x: Chan)
    ensures var x' := WriteFailed(x).c;
      && x'.w == x.w && x'.kind == x.kind
      && x'.b == x.b.(output := if x.st.ostate == OClosed then x.b.output else [])
      && x'.st == x.st.(ostate := OClosed)
      && x'.h == x.h.(writeFailed := x.h.writeFailed || x.st.ostate != OClosed)
  {
  }

  lemma ForceCloseInOrder(x: Chan)
    requires Local(x) && x.kind == Open
    ensures Local(ForceClose(x).c)
  {
    ForceCloseFields(x);
  }

  lemma ForceCloseEof(x: Chan, y: Chan, inq: seq<Msg>, outq: seq<Msg>)
    requires Joint(x, y, inq, outq) && x.kind == Open
    ensures Joint(ForceClose(x).c, y, inq, outq + DiscardInput(x).out)
  {
    var x' := ForceClose(x).c;
    ForceCloseShape(x);
    ForcedStreams(SourceOf(x), SinkOf(y), DataOf(outq), ExtOf(outq));
    ForcedStreams(SourceOf(y), SinkOf(x), DataOf(inq), ExtOf(inq));
    assert outq + [] == outq;
    assert DataOf(outq) + [] == DataOf(outq) && ExtOf(outq) + [] == ExtOf(outq);
    if x.st.istate != IClosed { SendKeeps(x, x', y, inq, outq, Eof); }
  }

  lemma ForceCloseKeeps(x: Chan, y: Chan, inq: seq<Msg>, outq: seq<Msg>)
    requires Joint(x, y, inq, outq) && x.kind == Open
    ensures Kept(ForceClose(x), y, inq, outq)
  {
    var r1 := Reply(ForceClose(x).c, DiscardInput(x).out, Fine);
    ForceCloseEof(x, y, inq, outq);
    ForceCloseOut(x);
    MaybeEowKept(r1, x.st.ostate != OClosed && x.eow, y, inq, outq);
  }

  lemma MaybeEowKept(r: Reply, eow: bool, y: Chan, inq: seq<Msg>, outq: seq<Msg>)
    requires Kept(r, y, inq, outq) && (eow ==> r.c.kind != Opening && !r.c.st.closeSent)
    ensures Kept(Reply(r.c, r.out + if eow then [Eow] else [], Fine), y, inq, outq)
  {
    if eow {
      EowKeeps(r.c, y, inq, outq + r.out);
      KeptThen(r, Reply(r.c, [Eow], Fine), y, inq, outq);
    } else {
      assert r.out + [] == r.out;
    }
  }

  lemma ForceCloseOut(x: Chan)
    requires Local(x) && x.kind == Open
    ensures ForceClose(x) ==
            Reply(ForceClose(x).c,
                  DiscardInput(x).out + if x.st.ostate != OClosed && x.eow then [Eow] else [], Fine)
    ensures x.st.ostate != OClosed ==> ForceClose(x).c.kind != Opening && !ForceClose(x).c.st.closeSent
  {
    ForceCloseFields(x);
  }

  // Receiving: the head of the queue is taken off.

  lemma SignalTaken(s: Signals, r: Signals, r': Signals, q: seq<Msg>)
    requires q != [] && Signalled(s, r, q)
    requires r'.localMaxpacket == r.localMaxpacket
    requires At(Phase(r'.opening, r'.eofRcvd, r'.closeRcvd))
             == Advance(At(Phase(r.opening, r.eofRcvd, r.closeRcvd)), q[0], r.localMaxpacket, s.localMaxpacket)
    ensures Signalled(s, r', q[1..])
  {
  }

  lemma TakenFlow(q: seq<Msg>)
    requires q != []
    ensures DataOf(q) == DataIn(q[0]) + DataOf(q[1..])
    ensures ExtOf(q) == ExtIn(q[0]) + ExtOf(q[1..])
    ensures Credit(q) == CreditIn(q[0]) + Credit(q[1..])
  {
  }

  /** `x` takes the head of its queue and becomes x'; the same conditions facet by facet. */
  lemma TakeKeeps(x: Chan, x': Chan, y: Chan, inq: seq<Msg>, outq: seq<Msg>)
    requires Joint(x, y, inq, outq) && Local(x') && inq != []
    requires x'.st.eofSent == x.st.eofSent && x'.st.closeSent == x.st.closeSent
    requires x'.w.localMaxpacket == x.w.localMaxpacket
    requires x'.kind != Opening && x'.w.remoteMaxpacket == y.w.localMaxpacket
    requires At(Phase(false, x'.st.eofRcvd, x'.st.closeRcvd))
             == Advance(At(Phase(x.kind == Opening, x.st.eofRcvd, x.st.closeRcvd)), inq[0],
                        x.w.localMaxpacket, y.w.localMaxpacket)
    requires x'.w.remote == x.w.remote + CreditIn(inq[0])
    requires x'.w.local - x'.h.dropped
             == x.w.local - x.h.dropped - |DataIn(inq[0])| - |ExtIn(inq[0])|
    requires Conserved(SourceOf(x'), SinkOf(y), DataOf(outq), ExtOf(outq))
    requires Conserved(SourceOf(y), SinkOf(x'), DataOf(inq[1..]), ExtOf(inq[1..]))
    ensures Joint(x', y, inq[1..], outq)
  {
    TakenFlow(inq);
    SignalTaken(SignalsOf(y), SignalsOf(x), SignalsOf(x'), inq);
  }

  lemma HeadLegal(s: Signals, r: Signals, q: seq<Msg>)
    requires Signalled(s, r, q) && q != []
    ensures Advance(At(Phase(r.opening, r.eofRcvd, r.closeRcvd)), q[0],
                    r.localMaxpacket, s.localMaxpacket).At?
  {
    BrokenStays(q[1..], r.localMaxpacket, s.localMaxpacket);
  }

  lemma SinkTakes(s: Source, r: Sink, m: Msg, data: seq<byte>, ext: seq<byte>)
    requires Conserved(s, r, DataIn(m) + data, ExtIn(m) + ext)
    ensures m.Data? ==> Conserved(s, r.(buffered := r.buffered + m.bytes), data, ext)
    ensures m.Ext? ==> Conserved(s, r.(extBuffered := r.extBuffered + m.bytes), data, ext)
    ensures (m.Data? && m.bytes != [] ==> r.writeFailed) && (m.Ext? && m.bytes != [] ==> !r.extOpen) ==>
      Conserved(s, r, data, ext)
  {
  }

  lemma AcceptDataKeeps(x: Chan, y: Chan, inq: seq<Msg>, outq: seq<Msg>)
    requires Joint(x, y, inq, outq) && inq != [] && inq[0].Data?
    requires x.kind == Open && x.st.ostate == OOpen
    ensures |inq[0].bytes| <= x.w.localMaxpacket && |inq[0].bytes| <= x.w.local
    ensures Joint(AcceptData(x, inq[0].bytes), y, inq[1..], outq)
  {
    HeadLegal(SignalsOf(y), SignalsOf(x), inq);
    TakenFlow(inq);
    SinkTakes(SourceOf(y), SinkOf(x), inq[0], DataOf(inq[1..]), ExtOf(inq[1..]));
    TakeKeeps(x, AcceptData(x, inq[0].bytes), y, inq, outq);
  }

  lemma FakeConsumeKeeps(x: Chan, y: Chan, inq: seq<Msg>, outq: seq<Msg>)
    requires Joint(x, y, inq, outq) && inq != [] && inq[0].Data?
    requires x.kind == Open && x.st.ostate != OOpen
    ensures x.h.writeFailed
    ensures Joint(x.(w := FakeConsume(x.w, |inq[0].bytes|)), y, inq[1..], outq)
  {
    HeadLegal(SignalsOf(y), SignalsOf(x), inq);
    TakenFlow(inq);
    SinkTakes(SourceOf(y), SinkOf(x), inq[0], DataOf(inq[1..]), ExtOf(inq[1..]));
    TakeKeeps(x, x.(w := FakeConsume(x.w, |inq[0].bytes|)), y, inq, outq);
  }

  lemma IgnoreKeeps(x: Chan, y: Chan, inq: seq<Msg>, outq: seq<Msg>)
    requires Joint(x, y, inq, outq) && inq != [] && Payload(inq[0])
    requires x.kind == Open ==> inq[0].Ext? && !(x.b.efd && x.b.usage == Write)
    ensures x.kind == Open || x.kind == Larval || x.kind == Abandoned
    ensures Joint(Ignored(x, |inq[0].bytes|, Fine).c, y, inq[1..], outq)
  {
    HeadLegal(SignalsOf(y), SignalsOf(x), inq);
    TakenFlow(inq);
    SinkTakes(SourceOf(y), SinkOf(x), inq[0], DataOf(inq[1..]), ExtOf(inq[1..]));
    TakeKeeps(x, Ignored(x, |inq[0].bytes|, Fine).c, y, inq, outq);
  }

  lemma AcceptExtendedKeeps(x: Chan, y: Chan, inq: seq<Msg>, outq: seq<Msg>)
    requires Joint(x, y, inq, outq) && inq != [] && inq[0].Ext?
    requires x.kind == Open && x.b.efd && x.b.usage == Write
    ensures !x.st.eofRcvd && |inq[0].bytes| <= x.w.local
    ensures Joint(AcceptExtended(x, inq[0].bytes), y, inq[1..], outq)
  {
    HeadLegal(SignalsOf(y), SignalsOf(x), inq);
    TakenFlow(inq);
    SinkTakes(SourceOf(y), SinkOf(x), inq[0], DataOf(inq[1..]), ExtOf(inq[1..]));
    TakeKeeps(x, AcceptExtended(x, inq[0].bytes), y, inq, outq);
  }

  /** A message without payload. */
  lemma TakeControlKeeps(x: Chan, x': Chan, y: Chan, inq: seq<Msg>, outq: seq<Msg>)
    requires Joint(x, y, inq, outq) && Local(x') && inq != [] && !Payload(inq[0])
    requires x'.st.eofSent == x.st.eofSent && x'.st.closeSent == x.st.closeSent
    requires x'.kind != Opening && x'.w.local == x.w.local && x'.h.dropped == x.h.dropped
    requires x'.w.localMaxpacket == x.w.localMaxpacket && x'.w.remoteMaxpacket == y.w.localMaxpacket
    requires At(Phase(false, x'.st.eofRcvd, x'.st.closeRcvd))
             == Advance(At(Phase(x.kind == Opening, x.st.eofRcvd, x.st.closeRcvd)), inq[0],
                        x.w.localMaxpacket, y.w.localMaxpacket)
    requires x'.w.remote == x.w.remote + CreditIn(inq[0])
    requires SourceOf(x') == SourceOf(x) && SinkOf(x') == SinkOf(x)
    ensures Joint(x', y, inq[1..], outq)
  {
    TakenFlow(inq);
    SinkTakes(SourceOf(y), SinkOf(x), inq[0], DataOf(inq[1..]), ExtOf(inq[1..]));
    TakeKeeps(x, x', y, inq, outq);
  }

  predicate WantsExt(c: Chan) { c.kind == Open && c.b.efd && c.b.usage == Write }

  /** The head of the queue is delivered without complaint and the pair stays linked. */
  ghost predicate Delivered(x: Chan, y: Chan, inq: seq<Msg>, outq: seq<Msg>)
    requires inq != []
  {
    var r := Receive(x, inq[0]);
    && Kept(r, y, inq[1..], outq)
    && (r.alarm == Fine || (r.alarm == BadExtData && !WantsExt(x)))
  }

  lemma NotFreed(x: Chan, y: Chan, inq: seq<Msg>, outq: seq<Msg>)
    requires Joint(x, y, inq, outq) && inq != []
    ensures x.kind != Freed && !x.st.closeRcvd && (Payload(inq[0]) ==> !x.st.eofRcvd)
  {
    HeadLegal(SignalsOf(y), SignalsOf(x), inq);
  }

  lemma ConfirmKeeps(x: Chan, y: Chan, inq: seq<Msg>, outq: seq<Msg>)
    requires Joint(x, y, inq, outq) && inq != [] && inq[0].Confirm?
    ensures Delivered(x, y, inq, outq)
  {
    assert outq + [] == outq;
    HeadLegal(SignalsOf(y), SignalsOf(x), inq);
    TakeControlKeeps(x, InputOpenConfirmation(x, inq[0].window, inq[0].maxpacket).c, y, inq, outq);
  }

  lemma AdjustShape(x: Chan, n: nat)
    requires Local(x) && x.kind != Opening && x.kind != Freed && x.w.remote + n < U32
    ensures var x' := x.(w := x.w.(remote := x.w.remote + n));
      && Receive(x, Adjust(n)) == Quietly(x') && Local(x')
      && SignalsOf(x') == SignalsOf(x) && SourceOf(x') == SourceOf(x) && SinkOf(x') == SinkOf(x)
  {
  }

  lemma AdjustKeeps(x: Chan, y: Chan, inq: seq<Msg>, outq: seq<Msg>)
    requires Joint(x, y, inq, outq) && Local(y) && inq != [] && inq[0].Adjust?
    ensures Delivered(x, y, inq, outq)
  {
    NotFreed(x, y, inq, outq);
    HeadLegal(SignalsOf(y), SignalsOf(x), inq);
    TakenFlow(inq);
    AdjustShape(x, inq[0].n);
    assert outq + [] == outq;
    TakeControlKeeps(x, x.(w := x.w.(remote := x.w.remote + inq[0].n)), y, inq, outq);
  }

  lemma IeofShape(x: Chan)
    requires Local(x) && x.kind != Opening
    ensures var x' := RcvdIeof(x);
      && Local(x') && x'.kind == x.kind && x'.w == x.w && x'.b == x.b && x'.h == x.h
      && SignalsOf(x') == SignalsOf(x).(eofRcvd := true)
  {
    IeofFields(x);
    IeofInOrder(x);
  }

  lemma IeofFields(x: Chan)
    ensures var x' := RcvdIeof(x);
      && x' == x.(st := x.st.(eofRcvd := true, ostate := x'.st.ostate))
      && x'.st.ostate != OOpen && (x.st.ostate == OClosed ==> x'.st.ostate == OClosed)
      && (x'.st.ostate == OClosed && x.st.ostate != OClosed ==>
            x.b.output == [] && (x.b.usage == Write && x.b.efd ==> x.b.extended == []))
  {
  }

  lemma IeofInOrder(x: Chan)
    requires Local(x) && x.kind != Opening
    ensures Local(RcvdIeof(x))
  {
    IeofFields(x);
  }

  lemma IeofKeeps(x: Chan, y: Chan, inq: seq<Msg>, outq: seq<Msg>)
    requires Joint(x, y, inq, outq) && inq != [] && inq[0].Eof?
    ensures Delivered(x, y, inq, outq)
  {
    assert outq + [] == outq;
    HeadLegal(SignalsOf(y), SignalsOf(x), inq);
    IeofShape(x);
    assert SourceOf(RcvdIeof(x)) == SourceOf(x) && SinkOf(RcvdIeof(x)) == SinkOf(x);
    TakeControlKeeps(x, RcvdIeof(x), y, inq, outq);
  }

  lemma EowShape(x: Chan)
    requires Local(x) && x.kind != Opening && x.kind != Freed
    ensures var x' := RcvdEow(x);
      && Receive(x, Eow) == Quietly(x') && Local(x') && x'.kind == x.kind && x'.w == x.w && x'.h == x.h
      && SignalsOf(x') == SignalsOf(x) && SourceOf(x') == SourceOf(x) && SinkOf(x') == SinkOf(x)
  {
  }

  lemma EowTakenKeeps(x: Chan, y: Chan, inq: seq<Msg>, outq: seq<Msg>)
    requires Joint(x, y, inq, outq) && inq != [] && inq[0].Eow?
    ensures Delivered(x, y, inq, outq)
  {
    NotFreed(x, y, inq, outq);
    HeadLegal(SignalsOf(y), SignalsOf(x), inq);
    EowShape(x);
    assert outq + [] == outq;
    TakeControlKeeps(x, RcvdEow(x), y, inq, outq);
  }

  lemma LarvalCloseKeeps(x: Chan, y: Chan, inq: seq<Msg>, outq: seq<Msg>)
    requires Joint(x, y, inq, outq) && inq != [] && inq[0].Close? && x.kind == Larval
    ensures Kept(RcvdOclose(x), y, inq[1..], outq)
  {
    HeadLegal(SignalsOf(y), SignalsOf(x), inq);
    assert outq + [] == outq;
    TakeControlKeeps(x, RcvdOclose(x).c, y, inq, outq);
  }

  lemma ShutdownReadKeeps(x: Chan, y: Chan, inq: seq<Msg>, outq: seq<Msg>)
    requires Joint(x, y, inq, outq) && x.kind != Larval
    ensures Joint(x.(b := ShutdownExtendedRead(x.b)), y, inq, outq)
  {
  }

  /** CLOSE for a channel whose input side is already closed, or is closed by it. */
  lemma OcloseShape(x: Chan)
    requires Local(x) && x.kind != Larval && x.kind != Opening && x.st.istate != IWaitDrain
    ensures var x1 := if x.st.istate == IOpen then x.(b := ShutdownExtendedRead(x.b)) else x;
      var x' := RcvdOclose(x).c;
      && Local(x') && x'.kind == x.kind && x'.w == x.w && x'.b == x1.b && x'.h == x.h
      && SignalsOf(x') == SignalsOf(x).(closeRcvd := true)
  {
    OcloseFields(x);
    OcloseInOrder(x);
  }

  lemma OcloseFields(x: Chan)
    requires x.kind != Larval && x.st.istate != IWaitDrain
    ensures var x' := RcvdOclose(x).c;
      && x' == x.(b := x'.b, st := StopOutput(x.st).(istate := IClosed, closeRcvd := true))
      && x'.b == (if x.st.istate == IOpen then ShutdownExtendedRead(x.b) else x.b)
  {
  }

  lemma OcloseInOrder(x: Chan)
    requires Local(x) && x.kind != Larval && x.kind != Opening && x.st.istate != IWaitDrain
    ensures Local(RcvdOclose(x).c)
  {
    OcloseFields(x);
  }

  lemma OcloseKeeps(x: Chan, y: Chan, inq: seq<Msg>, outq: seq<Msg>)
    requires Joint(x, y, inq, outq) && inq != [] && inq[0].Close? && x.kind != Larval
    requires x.st.istate != IWaitDrain
    ensures Kept(RcvdOclose(x), y, inq[1..], outq)
  {
    HeadLegal(SignalsOf(y), SignalsOf(x), inq);
    OcloseShape(x);
    var x1 := if x.st.istate == IOpen then x.(b := ShutdownExtendedRead(x.b)) else x;
    if x.st.istate == IOpen { ShutdownReadKeeps(x, y, inq, outq); }
    var x' := RcvdOclose(x).c;
    CloseTaken(x1, x', y, inq, outq);
    QuietKept(x', y, inq[1..], outq);
    OcloseQuiet(x);
  }

  lemma OcloseQuiet(x: Chan)
    requires x.st.istate != IWaitDrain
    ensures RcvdOclose(x) == Quietly(RcvdOclose(x).c)
  {
  }

  /** The CLOSE is noted, and nothing else has changed that the peer can see. */
  lemma CloseTaken(x: Chan, x': Chan, y: Chan, inq: seq<Msg>, outq: seq<Msg>)
    requires Joint(x, y, inq, outq) && inq != [] && inq[0].Close? && Local(x')
    requires x'.kind == x.kind && x'.w == x.w && x'.b == x.b && x'.h == x.h
    requires SignalsOf(x') == SignalsOf(x).(closeRcvd := true)
    ensures Joint(x', y, inq[1..], outq)
  {
    HeadLegal(SignalsOf(y), SignalsOf(x), inq);
    TakeControlKeeps(x, x', y, inq, outq);
  }

  /** A draining input side: the CLOSE is taken first, then the EOF it forces out is sent. */
  lemma DrainingCloseKeeps(x: Chan, y: Chan, inq: seq<Msg>, outq: seq<Msg>)
    requires Joint(x, y, inq, outq) && inq != [] && inq[0].Close? && x.kind != Larval
    requires x.st.istate == IWaitDrain
    ensures Kept(RcvdOclose(x), y, inq[1..], outq)
  {
    var x2 := Drained(x);
    DrainedTakesClose(x, y, inq, outq);
    CloseSendsEofKeeps(x2, y, inq[1..], outq);
    assert RcvdOclose(x) == Reply(x2.(st := x2.st.(eofSent := true)), [Eof], Fine);
  }

  /** A draining channel that has taken its CLOSE but not yet sent the EOF. */
  function Drained(x: Chan): Chan {
    x.(b := ShutdownExtendedRead(x.b), st := StopOutput(x.st.(closeRcvd := true, istate := IClosed)))
  }

  lemma DrainedShape(x: Chan)
    requires Local(x) && x.kind != Larval && x.kind != Opening && x.st.istate == IWaitDrain
    ensures var x1, x2 := x.(b := ShutdownExtendedRead(x.b)), Drained(x);
      && Local(x2) && x2.kind == x.kind && x2.w == x.w && !x2.st.eofSent && !x2.st.closeSent
      && x2.st.istate == IClosed && x2.st.closeRcvd
      && SignalsOf(x2) == SignalsOf(x).(closeRcvd := true)
      && SourceOf(x2) == SourceOf(x1) && SinkOf(x2) == SinkOf(x1)
  {
  }

  lemma DrainedTakesClose(x: Chan, y: Chan, inq: seq<Msg>, outq: seq<Msg>)
    requires Joint(x, y, inq, outq) && inq != [] && inq[0].Close? && x.kind != Larval
    requires x.st.istate == IWaitDrain
    ensures x.kind != Opening && !x.st.closeRcvd && !x.st.eofSent && !x.st.closeSent
    ensures Joint(Drained(x), y, inq[1..], outq)
    ensures Drained(x).st.closeRcvd && !Drained(x).st.eofSent && !Drained(x).st.closeSent
  {
    HeadLegal(SignalsOf(y), SignalsOf(x), inq);
    DrainedShape(x);
    ShutdownReadKeeps(x, y, inq, outq);
    TakeControlKeeps(x.(b := ShutdownExtendedRead(x.b)), Drained(x), y, inq, outq);
  }

  lemma CloseSendsEofKeeps(x: Chan, y: Chan, inq: seq<Msg>, outq: seq<Msg>)
    requires Joint(x, y, inq, outq) && x.kind != Opening && x.st.istate == IClosed
    requires x.st.closeRcvd && !x.st.eofSent && !x.st.closeSent
    ensures Joint(x.(st := x.st.(eofSent := true)), y, inq, outq + [Eof])
  {
    ControlKeeps(x, x.(st := x.st.(eofSent := true)), y, inq, outq, Eof);
  }

  lemma DataDelivered(x: Chan, y: Chan, inq: seq<Msg>, outq: seq<Msg>)
    requires Joint(x, y, inq, outq) && inq != [] && inq[0].Data?
    ensures Delivered(x, y, inq, outq)
  {
    NotFreed(x, y, inq, outq);
    assert outq + [] == outq;
    if x.kind != Open { IgnoreKeeps(x, y, inq, outq); }
    else if x.st.ostate == OOpen { AcceptDataKeeps(x, y, inq, outq); }
    else { FakeConsumeKeeps(x, y, inq, outq); }
  }

  lemma ExtDelivered(x: Chan, y: Chan, inq: seq<Msg>, outq: seq<Msg>)
    requires Joint(x, y, inq, outq) && inq != [] && inq[0].Ext?
    ensures Delivered(x, y, inq, outq)
  {
    var d := inq[0].bytes;
    NotFreed(x, y, inq, outq);
    if WantsExt(x) {
      AcceptExtendedKeeps(x, y, inq, outq);
      QuietKept(AcceptExtended(x, d), y, inq[1..], outq);
      ReceivesWanted(x, d);
    } else {
      IgnoreKeeps(x, y, inq, outq);
      QuietKept(Ignored(x, |d|, Fine).c, y, inq[1..], outq);
      ReceivesUnwanted(x, d);
    }
  }

  lemma ReceivesWanted(x: Chan, d: seq<byte>)
    requires WantsExt(x) && !x.st.eofRcvd && |d| <= x.w.local
    ensures Receive(x, Ext(d)) == Quietly(AcceptExtended(x, d))
  {
  }

  lemma ReceivesUnwanted(x: Chan, d: seq<byte>)
    requires x.kind != Freed && !WantsExt(x) && !x.st.eofRcvd
    ensures Receive(x, Ext(d)) == Quietly(Ignored(x, |d|, Fine).c).(alarm := BadExtData)
  {
  }

  lemma CloseDelivered(x: Chan, y: Chan, inq: seq<Msg>, outq: seq<Msg>)
    requires Joint(x, y, inq, outq) && inq != [] && inq[0].Close?
    ensures Delivered(x, y, inq, outq)
  {
    NotFreed(x, y, inq, outq);
    CloseKept(x, y, inq, outq);
    ReceivesClose(x);
  }

  lemma ReceivesClose(x: Chan)
    requires x.kind != Freed
    ensures Receive(x, Close) == RcvdOclose(x) && RcvdOclose(x).alarm == Fine
  {
  }

  lemma CloseKept(x: Chan, y: Chan, inq: seq<Msg>, outq: seq<Msg>)
    requires Joint(x, y, inq, outq) && inq != [] && inq[0].Close?
    ensures Kept(RcvdOclose(x), y, inq[1..], outq)
  {
    if x.kind == Larval { LarvalCloseKeeps(x, y, inq, outq); }
    else if x.st.istate == IWaitDrain { DrainingCloseKeeps(x, y, inq, outq); }
    else { OcloseKeeps(x, y, inq, outq); }
  }

  lemma ReceiveKeeps(x: Chan, y: Chan, inq: seq<Msg>, outq: seq<Msg>)
    requires Joint(x, y, inq, outq) && Local(y) && inq != []
    ensures Delivered(x, y, inq, outq)
  {
    match inq[0] {
      case Confirm(_, _) => ConfirmKeeps(x, y, inq, outq);
      case Data(_) => DataDelivered(x, y, inq, outq);
      case Ext(_) => ExtDelivered(x, y, inq, outq);
      case Adjust(_) => AdjustKeeps(x, y, inq, outq);
      case Eof => IeofKeeps(x, y, inq, outq);
      case Close => CloseDelivered(x, y, inq, outq);
      case Eow => EowTakenKeeps(x, y, inq, outq);
    }
  }

  lemma PerformIsFine(x: Chan, a: Act)
    ensures Perform(x, a).alarm == Fine
  {
  }

  /** The handlers of ready descriptors. */
  lemma ReadyKeeps(x: Chan, y: Chan, inq: seq<Msg>, outq: seq<Msg>, a: Act)
    requires Joint(x, y, inq, outq) && Enabled(x, a)
    requires a.RfdReady? || a.WfdReady? || a.EfdReadReady? || a.EfdWriteReady?
    ensures Kept(Perform(x, a), y, inq, outq)
  {
    match a {
      case RfdReady(r) => RfdKeeps(x, y, inq, outq, r);
      case WfdReady(w) => WfdKeeps(x, y, inq, outq, w);
      case EfdReadReady(r) => EfdReadKeeps(x, y, inq, outq, r);
      case EfdWriteReady(w) => EfdWriteKeeps(x, y, inq, outq, w);
    }
  }

  /** The other calls of the event loop. */
  lemma LoopKeeps(x: Chan, y: Chan, inq: seq<Msg>, outq: seq<Msg>, a: Act)
    requires Joint(x, y, inq, outq) && Enabled(x, a)
    requires !a.RfdReady? && !a.WfdReady? && !a.EfdReadReady? && !a.EfdWriteReady?
    ensures Kept(Perform(x, a), y, inq, outq)
  {
    match a {
      case DoCheckWindow => CheckWindowKeeps(x, y, inq, outq);
      case DoPollInput => PollInputKeeps(x, y, inq, outq);
      case DoPollExtended => PollExtendedKeeps(x, y, inq, outq);
      case DoDrained => DrainedKeeps(x, y, inq, outq);
      case DoCollect(u) => CollectKeeps(x, y, inq, outq, u);
      case DoForceClose => ForceCloseKeeps(x, y, inq, outq);
      case DoSetFds(u, e, w) => SetFdsKeeps(x, y, inq, outq, u, e, w);
    }
  }

  lemma PerformKeeps(x: Chan, y: Chan, inq: seq<Msg>, outq: seq<Msg>, a: Act)
    requires Joint(x, y, inq, outq) && Enabled(x, a)
    ensures Kept(Perform(x, a), y, inq, outq)
  {
    if a.RfdReady? || a.WfdReady? || a.EfdReadReady? || a.EfdWriteReady? {
      ReadyKeeps(x, y, inq, outq, a);
    } else {
      LoopKeeps(x, y, inq, outq, a);
    }
  }
}
