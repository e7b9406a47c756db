/**
 * What one endpoint keeps without looking at its peer: every handler of the event loop, and
 * every message a peer that keeps to the protocol can send, leaves the endpoint in order.
 */
module ChannelLocal {
  import opened Common
  import opened Channel
  import opened ChannelLink

  lemma RfdLocal(c: Chan, r: ReadResult)
    requires Local(c) && PollsRfd(c)
    ensures Local(HandleRfd(c, r))
  {
    ReadFailedShape(c);
    if r.Got? { TakeInputLocal(c, r.bytes[..Min(|r.bytes|, ReadLimit(c))]); }
  }

  lemma TakeInputLocal(c: Chan, got: seq<byte>)
    requires Local(c) && c.kind == Open && c.st.istate == IOpen
    ensures Local(TakeInput(c, got))
  {
  }

  lemma WriteFailedLocal(c: Chan)
    requires Local(c) && c.kind != Larval && c.kind != Opening
    ensures Local(WriteFailed(c).c)
  {
  }

  lemma WfdLocal(c: Chan, w: WriteResult)
    requires Local(c) && c.kind == Open
    ensures Local(HandleWfd(c, w).c)
  {
    WriteFailedLocal(c);
  }

  lemma EfdReadLocal(c: Chan, r: ReadResult)
    requires Local(c) && c.kind == Open
    ensures Local(HandleEfdRead(c, r))
  {
  }

  lemma EfdWriteLocal(c: Chan, w: WriteResult)
    requires Local(c) && c.kind == Open
    ensures Local(HandleEfdWrite(c, w))
  {
  }

  lemma PollInputLocal(c: Chan)
    requires Local(c) && Enabled(c, DoPollInput)
    ensures Local(PollInput(c).c)
  {
  }

  lemma PollExtendedLocal(c: Chan)
    requires Local(c) && Enabled(c, DoPollExtended)
    ensures Local(PollExtended(c).c)
  {
  }

  lemma CheckLocal(c: Chan)
    requires Local(c)
    ensures Local(CheckWindow(c).c)
  {
    if WindowDue(c) { CheckWindowShape(c); }
  }

  lemma SendCloseLocal(c: Chan, doSend: bool)
    requires Local(c)
    ensures Local(SendClose(c, doSend).c)
  {
    if Finished(c) { SendCloseShape(c); }
  }

  lemma GoneLocal(c: Chan)
    requires Local(c)
    ensures Local(Collect(c, NoUser).c)
  {
    SendCloseLocal(c, true);
    GoneShape(c);
  }

  lemma CollectLocal(c: Chan, u: User)
    requires Local(c)
    ensures Local(Collect(c, u).c)
  {
    if u.NoUser? {
      GoneLocal(c);
    } else {
      SendCloseLocal(c, u.closes);
      CollectShape(c, u);
      var r := SendClose(c, u.closes);
      if IsDead(r.c) && u.leaves {
        GoneLocal(r.c);
      }
    }
  }

  lemma DrainedLocal(c: Chan)
    requires Local(c) && Enabled(c, DoDrained)
    ensures Local(ObufEmpty(c))
  {
  }

  lemma ForceLocal(c: Chan)
    requires Local(c) && c.kind == Open
    ensures Local(ForceClose(c).c)
  {
    ForceCloseShape(c);
  }

  lemma PerformLocal(c: Chan, a: Act)
    requires Local(c) && Enabled(c, a)
    ensures Local(Perform(c, a).c)
  {
    match a {
      case RfdReady(r) => RfdLocal(c, r);
      case WfdReady(w) => WfdLocal(c, w);
      case EfdReadReady(r) => EfdReadLocal(c, r);
      case EfdWriteReady(w) => EfdWriteLocal(c, w);
      case DoPollInput => PollInputLocal(c);
      case DoPollExtended => PollExtendedLocal(c);
      case DoForceClose => ForceLocal(c);
      case DoSetFds(_, _, _) =>
      case DoCheckWindow => CheckLocal(c);
      case DoCollect(u) => CollectLocal(c, u);
      case DoDrained => DrainedLocal(c);
    }
  }

  /** What a peer that keeps to the protocol sends to this endpoint next. */
  predicate Expected(c: Chan, m: Msg) {
    && c.kind != Freed && !c.st.closeRcvd && (c.kind == Opening <==> m.Confirm?)
    && match m
       case Data(d) => !c.st.eofRcvd && |d| <= c.w.localMaxpacket && |d| <= c.w.local
       case Ext(d) => !c.st.eofRcvd && |d| <= c.w.local
       case Adjust(n) => c.w.remote + n < U32
       case _ => true
  }

  lemma DataLocal(c: Chan, d: seq<byte>)
    requires Local(c) && Expected(c, Data(d))
    ensures Local(InputData(c, d).c) && InputData(c, d).alarm == Fine
  {
  }

  lemma ExtLocal(c: Chan, d: seq<byte>)
    requires Local(c) && Expected(c, Ext(d))
    ensures var r := InputExtendedData(c, SSH2_EXTENDED_DATA_STDERR, d);
      Local(r.c) && (r.alarm == Fine || (r.alarm == BadExtData && !WantsExt(c)))
  {
  }

  lemma CloseLocal(c: Chan)
    requires Local(c) && Expected(c, Close)
    ensures Local(RcvdOclose(c).c)
  {
    if c.kind == Larval { LarvalCloseLocal(c); }
    else if c.st.istate == IWaitDrain { DrainingCloseLocal(c); }
    else { OcloseShape(c); }
  }

  lemma LarvalCloseLocal(c: Chan)
    requires Local(c) && c.kind == Larval
    ensures Local(RcvdOclose(c).c)
  {
  }

  lemma DrainingCloseLocal(c: Chan)
    requires Local(c) && c.kind != Larval && c.kind != Opening && c.st.istate == IWaitDrain
    ensures Local(RcvdOclose(c).c)
  {
    DrainedShape(c);
    assert RcvdOclose(c).c == Drained(c).(st := Drained(c).st.(eofSent := true));
  }

  lemma ReceiveLocal(c: Chan, m: Msg)
    requires Local(c) && Expected(c, m)
    ensures var r := Receive(c, m);
      Local(r.c) && (r.alarm == Fine || (r.alarm == BadExtData && !WantsExt(c)))
  {
    match m {
      case Data(d) => DataLocal(c, d);
      case Ext(d) => ExtLocal(c, d);
      case Close => CloseLocal(c);
      case Adjust(n) => AdjustShape(c, n);
      case Eof => IeofShape(c);
      case Eow => EowShape(c);
      case Confirm(_, _) =>
    }
  }

  /** In a run of two endpoints the head of the queue is always such a message. */
  lemma HeadIsExpected(x: Chan, y: Chan, inq: seq<Msg>, outq: seq<Msg>)
    requires Joint(x, y, inq, outq) && Local(y) && inq != []
    ensures Expected(x, inq[0])
  {
    HeadLegal(SignalsOf(y), SignalsOf(x), inq);
    TakenFlow(inq);
  }
}
