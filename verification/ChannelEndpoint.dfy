/**
 * The channel handlers as they run: one mutable object per channel, updated in
 * place, appending to the connection's outgoing packet queue. Every method is
 * proved to do what the corresponding function of module Channel says.
 */
module ChannelEndpoint {
  import opened Common
  import opened Channel
  import opened ChannelLink
  import opened ChannelLocal

  class Endpoint {
    var kind: Kind
    const eow: bool          // a session whose peer understands eow@openssh.com
    const extEof: bool       // SSH_BUG_EXTEOF
    var remoteWindow: nat
    var remoteMaxpacket: nat
    var localWindow: nat
    var localWindowMax: nat
    const localMaxpacket: nat
    var localConsumed: nat
    var localWindowExceeded: nat
    var input: seq<byte>
    var output: seq<byte>
    var extended: seq<byte>
    var extendedUsage: ExtUsage
    var efd: bool
    var istate: InputState
    var ostate: OutputState
    var closeSent: bool
    var closeRcvd: bool
    var eofSent: bool
    var eofRcvd: bool
    var wire: seq<Msg>       // packets queued with sshpkt_send
    ghost var h: History

    constructor (kind: Kind, eow: bool, extEof: bool, window: nat, maxpack: nat, usage: ExtUsage,
                 efd: bool)
      requires window < U32
      ensures Fresh(View()) && wire == []
      ensures View().kind == kind && View().eow == eow && View().extEof == extEof && View().w.remote == 0
      ensures View().w.localMax == window && View().w.localMaxpacket == maxpack
      ensures View().b.usage == usage && View().b.efd == efd
    {
      this.kind, this.eow, this.extEof := kind, eow, extEof;
      remoteWindow, remoteMaxpacket := 0, 0;
      localWindow, localWindowMax, localMaxpacket := window, window, maxpack;
      localConsumed, localWindowExceeded := 0, 0;
      input, output, extended := [], [], [];
      extendedUsage, this.efd := usage, efd;
      istate, ostate := IOpen, OOpen;
      closeSent, closeRcvd, eofSent, eofRcvd := false, false, false, false;
      wire := [];
      h := History([], [], [], [], false, false, 0);
    }

    ghost function View(): Chan
      reads this
    {
      Chan(kind, eow, extEof,
           Windows(remoteWindow, remoteMaxpacket, localWindow, localWindowMax, localMaxpacket,
                   localConsumed, localWindowExceeded),
           Buffers(input, output, extended, extendedUsage, efd),
           Stage(istate, ostate, closeSent, closeRcvd, eofSent, eofRcvd), h)
    }

    /** This object has gone from `before` to what `r` says, and sent what `r` sends. */
    ghost predicate Shows(r: Reply, sentBefore: seq<Msg>)
      reads this
    {
      View() == r.c && wire == sentBefore + r.out
    }

    // ----- nchan.c

    method ChanReadFailed()
      modifies this
      ensures Shows(Quietly(ReadFailed(old(View()))), old(wire))
    {
      if istate == IOpen {
        istate := IWaitDrain;
      }
    }

    method SendEof2()
      modifies this
      ensures View() == old(View()).(st := old(View()).st.(eofSent := true))
      ensures wire == old(wire) + [Eof]
    {
      wire := wire + [Eof];
      eofSent := true;
    }

    method ChanIbufEmpty()
      modifies this
      ensures Shows(IbufEmpty(old(View())), old(wire))
    {
      if |input| > 0 {
        return;
      }
      if istate == IWaitDrain {
        if !closeSent {
          SendEof2();
        }
        istate := IClosed;
      }
    }

    method ChanShutdownWrite()
      modifies this`output
      ensures View() == old(View()).(b := old(View()).b.(output := []))
    {
      output := [];
    }

    method ChanObufEmpty()
      modifies this
      ensures Shows(Quietly(ObufEmpty(old(View()))), old(wire))
    {
      if |output| > 0 {
        return;
      }
      if ostate == OWaitDrain {
        ChanShutdownWrite();
        ostate := OClosed;
      }
    }

    method ChanWriteFailed()
      modifies this
      ensures Shows(WriteFailed(old(View())), old(wire))
    {
      if ostate != OClosed {
        ChanShutdownWrite();
        if eow {
          wire := wire + [Eow];
        }
        ostate := OClosed;
        h := h.(writeFailed := true);
      }
    }

    method ChanRcvdEow()
      modifies this
      ensures Shows(Quietly(RcvdEow(old(View()))), old(wire))
    {
      if istate == IOpen {
        istate := IClosed;
      }
    }

    method ChanRcvdIeof()
      modifies this
      ensures Shows(Quietly(RcvdIeof(old(View()))), old(wire))
    {
      eofRcvd := true;
      if ostate == OOpen {
        ostate := OWaitDrain;
      }
      var active := extendedUsage == Write && efd && (!(eofRcvd || closeRcvd) || |extended| > 0);
      if ostate == OWaitDrain && |output| == 0 && !active {
        ChanObufEmpty();
      }
    }

    method ShutdownExtRead()
      modifies this`efd
      ensures View() == old(View()).(b := ShutdownExtendedRead(old(View()).b))
    {
      if extendedUsage == Read || extendedUsage == Ignore {
        efd := false;
      }
    }

    method ChanRcvdOclose()
      modifies this
      ensures Shows(RcvdOclose(old(View())), old(wire))
    {
      closeRcvd := true;
      if kind == Larval {
        ostate := OClosed;
        istate := IClosed;
        return;
      }
      if ostate == OOpen {
        ostate := OWaitDrain;
      }
      match istate {
        case IOpen =>
          ShutdownExtRead();
          istate := IClosed;
        case IWaitDrain =>
          SendEof2();
          ShutdownExtRead();
          istate := IClosed;
        case IClosed =>
      }
    }

    /** chan_is_dead */
    method ChanIsDead(doSend: bool) returns (dead: bool)
      modifies this`wire, this`closeSent
      ensures Shows(SendClose(old(View()), doSend), old(wire))
      ensures dead == IsDead(View())
    {
      if istate != IClosed || ostate != OClosed {
        return false;
      }
      if extEof && extendedUsage == Write && efd && |extended| > 0 {
        return false;
      }
      if !closeSent {
        if doSend {
          wire := wire + [Close];
          closeSent := true;
        } else if closeRcvd {
          return true;
        }
      }
      return closeSent && closeRcvd;
    }

    /** `u` is the registered callback; what it does besides unregistering is not modelled. */
    method GarbageCollect(u: User)
      modifies this
      ensures Shows(Collect(old(View()), u), old(wire))
    {
      ghost var c0, w0 := View(), wire;
      if u.User? {
        var almost := ChanIsDead(u.closes);
        if !almost || !u.leaves {
          return;
        }
      }
      ghost var c1, w1 := View(), wire;
      var dead := ChanIsDead(true);
      assert wire == w0 + (w1[|w0|..] + SendClose(c1, true).out);
      if dead {
        kind := Freed;
      }
    }

    // ----- channels.c: descriptors

    method HandleRfd(r: ReadResult)
      modifies this
      ensures Shows(Quietly(Channel.HandleRfd(old(View()), r)), old(wire))
    {
      if |input| >= CHAN_INPUT_MAX {
        return;
      }
      var avail := CHAN_INPUT_MAX - |input|;
      var maxlen := CHANNEL_MAX_READ;
      if |input| >= remoteWindow {
        return;
      }
      if maxlen > remoteWindow - |input| {
        maxlen := remoteWindow - |input|;
      }
      if maxlen > avail {
        maxlen := avail;
      }
      match r {
        case ReadAgain =>
        case ReadFailure => ChanReadFailed();
        case Got(bytes) =>
          if |bytes| == 0 {
            ChanReadFailed();
          } else {
            var got := if |bytes| > maxlen then bytes[..maxlen] else bytes;
            assert got == bytes[..Min(|bytes|, ReadLimit(View()))];
            input := input + got;
            h := h.(rfd := h.rfd + got);
          }
      }
    }

    method HandleWfd(w: WriteResult)
      modifies this
      ensures Shows(Channel.HandleWfd(old(View()), w), old(wire))
    {
      if |output| == 0 {
        return;
      }
      var olen := |output|;
      match w {
        case WriteAgain =>
        case WriteFailure => ChanWriteFailed();
        case Wrote(n) =>
          if n == 0 {
            ChanWriteFailed();
          } else {
            var len := Min(n, |output|);
            h := h.(wfd := h.wfd + output[..len]);
            output := output[len..];
            localConsumed := (localConsumed + (olen - |output|)) % U32;
          }
      }
    }

    method HandleEfdRead(r: ReadResult)
      modifies this
      ensures Shows(Quietly(Channel.HandleEfdRead(old(View()), r)), old(wire))
    {
      if !efd || extendedUsage == Write {
        return;
      }
      match r {
        case ReadAgain =>
        case ReadFailure => efd := false;
        case Got(bytes) =>
          if |bytes| == 0 {
            efd := false;
          } else if extendedUsage != Ignore {
            var got := bytes[..Min(|bytes|, CHAN_RBUF)];
            extended := extended + got;
            h := h.(efdRead := h.efdRead + got);
          }
      }
    }

    method HandleEfdWrite(w: WriteResult)
      modifies this
      ensures Shows(Quietly(Channel.HandleEfdWrite(old(View()), w)), old(wire))
    {
      if !efd || extendedUsage != Write || |extended| == 0 {
        return;
      }
      match w {
        case WriteAgain =>
        case WriteFailure => efd := false;
        case Wrote(n) =>
          if n == 0 {
            efd := false;
          } else {
            ConsumeExtended(Min(n, |extended|));
          }
      }
    }

    method ConsumeExtended(len: nat)
      requires len <= |extended|
      modifies this`h, this`extended, this`localConsumed
      ensures View() == PutExtended(old(View()), len)
    {
      h := h.(efdWrite := h.efdWrite + extended[..len]);
      extended := extended[len..];
      localConsumed := (localConsumed + len) % U32;
    }

    method CheckWindow()
      modifies this
      ensures Shows(Channel.CheckWindow(old(View())), old(wire))
    {
      if && kind == Open && !closeSent && !closeRcvd
         && ((localWindowMax - localWindow) % U32 > localMaxpacket * 3 % U32
             || localWindow < localWindowMax / 2)
         && localConsumed > 0
      {
        wire := wire + [Adjust(localConsumed)];
        localWindow := (localWindow + localConsumed) % U32;
        localConsumed := 0;
      }
    }

    // ----- channels.c: sending

    method OutputPollInputOpen()
      modifies this
      ensures Shows(PollInput(old(View())), old(wire))
    {
      var len := |input|;
      if len == 0 {
        if istate == IWaitDrain {
          if !(extendedUsage == Read && (efd || |extended| > 0)) {
            ChanIbufEmpty();
          }
        }
        return;
      }
      if len > remoteWindow {
        len := remoteWindow;
      }
      if len > remoteMaxpacket {
        len := remoteMaxpacket;
      }
      if len == 0 {
        return;
      }
      SendInput(len);
    }

    method SendInput(len: nat)
      requires len <= |input| && len <= remoteWindow
      modifies this`wire, this`input, this`remoteWindow
      ensures wire == old(wire) + [Data(old(input)[..len])]
      ensures View() == old(View()).(b := old(View()).b.(input := old(input)[len..]),
                                     w := old(View()).w.(remote := old(remoteWindow) - len))
    {
      wire := wire + [Data(input[..len])];
      input := input[len..];
      remoteWindow := remoteWindow - len;
    }

    method OutputPollExtendedRead()
      modifies this
      ensures Shows(PollExtended(old(View())), old(wire))
    {
      var len := |extended|;
      if len > remoteWindow {
        len := remoteWindow;
      }
      if len > remoteMaxpacket {
        len := remoteMaxpacket;
      }
      if len == 0 {
        return;
      }
      wire := wire + [Ext(extended[..len])];
      extended := extended[len..];
      remoteWindow := remoteWindow - len;
    }

    // ----- channels.c: receiving

    method InputData(data: seq<byte>) returns (alarm: Alarm)
      modifies this
      ensures Shows(Channel.InputData(old(View()), data), old(wire))
      ensures alarm == Channel.InputData(old(View()), data).alarm
    {
      alarm := Fine;
      var winLen := |data|;
      if kind != Open {
        Lose(winLen);
        return;
      }
      if ostate != OOpen {
        FakeConsumeData(winLen);
        return;
      }
      if winLen > localMaxpacket {
        Lose(winLen);
        return BigPacket;
      }
      alarm := TakeData(data);
    }

    method Lose(len: nat)
      modifies this`h
      ensures View() == Ignored(old(View()), len, Fine).c
    {
      h := h.(dropped := h.dropped + len);
    }

    /** Data for an open output, at most a packet of it. */
    method TakeData(data: seq<byte>) returns (alarm: Alarm)
      modifies this`localWindow, this`localWindowExceeded, this`output
      ensures var c := old(View());
        var r := if |data| > c.w.local then OverrunData(c, data) else Quietly(AcceptData(c, data));
        View() == r.c && alarm == r.alarm
    {
      alarm := ChargeWindow(|data|);
      if alarm != PeerIgnoredWindow {
        output := output + data;
      }
    }

    method FakeConsumeData(winLen: nat)
      modifies this`localWindow, this`localConsumed
      ensures View() == old(View()).(w := FakeConsume(old(View()).w, winLen))
    {
      localWindow := if winLen > localWindow then 0 else localWindow - winLen;
      localConsumed := (localConsumed + winLen) % U32;
    }

    /** Takes a packet out of the window, with the grace of a tenth for one that is too large. */
    method ChargeWindow(winLen: nat) returns (alarm: Alarm)
      modifies this`localWindow, this`localWindowExceeded
      ensures var w := old(View()).w;
        if winLen <= w.local then
          alarm == Fine && View() == old(View()).(w := w.(local := w.local - winLen, exceeded := 0))
        else
          var over := (w.exceeded + winLen - w.local) % U32;
          View() == old(View()).(w := w.(exceeded := over, local := 0)) &&
          alarm == if over > w.localMax / 10 then PeerIgnoredWindow else ExcessData
    {
      if winLen > localWindow {
        localWindowExceeded := (localWindowExceeded + winLen - localWindow) % U32;
        localWindow := 0;
        if localWindowExceeded > localWindowMax / 10 {
          return PeerIgnoredWindow;
        }
        alarm := ExcessData;
      } else {
        localWindow := localWindow - winLen;
        localWindowExceeded := 0;
        alarm := Fine;
      }
    }

    method InputExtendedData(tcode: nat, data: seq<byte>) returns (alarm: Alarm)
      modifies this
      ensures Shows(Channel.InputExtendedData(old(View()), tcode, data), old(wire))
      ensures alarm == Channel.InputExtendedData(old(View()), tcode, data).alarm
    {
      if kind != Open {
        Lose(|data|);
        return BadExtData;
      }
      if eofRcvd && !extEof {
        return ExtAfterEof;
      }
      if !efd || extendedUsage != Write || tcode != SSH2_EXTENDED_DATA_STDERR {
        Lose(|data|);
        return BadExtData;
      }
      if |data| > localWindow {
        Lose(|data|);
        return ExcessExtData;
      }
      extended := extended + data;
      localWindow := localWindow - |data|;
      return Fine;
    }

    method InputWindowAdjust(adjust: nat) returns (alarm: Alarm)
      modifies this
      ensures Shows(Channel.InputWindowAdjust(old(View()), adjust), old(wire))
      ensures alarm == Channel.InputWindowAdjust(old(View()), adjust).alarm
    {
      var newRwin := (remoteWindow + adjust) % U32;
      if newRwin < remoteWindow {
        return AdjustOverflow;
      }
      remoteWindow := newRwin;
      return Fine;
    }

    method InputOpenConfirmation(window: nat, maxpacket: nat) returns (alarm: Alarm)
      modifies this
      ensures Shows(Channel.InputOpenConfirmation(old(View()), window, maxpacket), old(wire))
      ensures alarm == Channel.InputOpenConfirmation(old(View()), window, maxpacket).alarm
    {
      if kind != Opening {
        return NotOpening;
      }
      remoteWindow := window;
      remoteMaxpacket := maxpacket;
      kind := Open;
      return Fine;
    }

    // ----- channels.c: other transitions

    method RegisterFds(usage: ExtUsage, efd': bool)
      modifies this
      ensures wire == old(wire)
      ensures View() == old(View()).(kind := Open, b := old(View()).b.(usage := usage, efd := efd'))
    {
      efd, extendedUsage, kind := efd', usage, Open;
    }

    /** Any but a larval channel is fatal. */
    method SetFds(usage: ExtUsage, efd': bool, windowMax: nat) returns (ok: bool)
      modifies this
      ensures ok <==> old(kind) == Larval
      ensures ok ==> Shows(Channel.SetFds(old(View()), usage, efd', windowMax), old(wire))
      ensures !ok ==> Shows(Quietly(old(View())), old(wire))
    {
      if kind != Larval {
        return false;
      }
      RegisterFds(usage, efd');
      localWindow, localWindowMax := windowMax, windowMax;
      wire := wire + [Adjust(windowMax)];
      return true;
    }

    method ForceCloseInput()
      modifies this
      ensures Shows(DiscardInput(old(View())), old(wire))
    {
      if istate == IOpen {
        ChanReadFailed();
      }
      if istate == IWaitDrain {
        input := [];
        h := h.(forced := true);
        ChanIbufEmpty();
      }
    }

    method ForceCloseOutput()
      modifies this
      ensures Shows(WriteFailed(old(View())), old(wire))
    {
      if ostate == OOpen || ostate == OWaitDrain {
        output := [];
        ChanWriteFailed();
      }
    }

    method ForceCloseBoth()
      modifies this
      ensures var r1 := DiscardInput(old(View()));
        var r2 := WriteFailed(r1.c);
        View() == r2.c && wire == old(wire) + (r1.out + r2.out)
    {
      ghost var r1 := DiscardInput(View());
      ForceCloseInput();
      ghost var r2 := WriteFailed(r1.c);
      ForceCloseOutput();
      assert wire == (old(wire) + r1.out) + r2.out;
    }

    method ForceClose(abandon: bool)
      modifies this
      ensures Shows(Channel.ForceClose(old(View()), abandon), old(wire))
    {
      ForceCloseBoth();
      efd := false;
      if abandon {
        kind := Abandoned;
      }
    }

    // ----- one event

    /** Window, buffers and flags account for one another. */
    ghost predicate Valid()
      reads this
    {
      Local(View())
    }

    /** One call of the event loop, for an event it may have waited for. */
    method Handle(a: Act)
      requires Valid() && Enabled(View(), a)
      modifies this
      ensures Valid() && Shows(Perform(old(View()), a), old(wire))
    {
      PerformLocal(View(), a);
      match a {
        case RfdReady(r) => HandleRfd(r);
        case WfdReady(w) => HandleWfd(w);
        case EfdReadReady(r) => HandleEfdRead(r);
        case EfdWriteReady(w) => HandleEfdWrite(w);
        case DoCheckWindow => CheckWindow();
        case DoPollInput => OutputPollInputOpen();
        case DoPollExtended => OutputPollExtendedRead();
        case DoDrained => ChanObufEmpty();
        case DoCollect(u) => GarbageCollect(u);
        case DoForceClose => ForceClose(true);
        case DoSetFds(u, e, w) => var _ := SetFds(u, e, w);
      }
    }

    /** One received message, from a peer that keeps to the protocol. */
    method Deliver(m: Msg) returns (alarm: Alarm)
      requires Valid() && Expected(View(), m)
      modifies this
      ensures Valid() && Shows(Receive(old(View()), m), old(wire))
      ensures alarm == Receive(old(View()), m).alarm
      ensures alarm == Fine || (alarm == BadExtData && !WantsExt(old(View())))
    {
      ReceiveLocal(View(), m);
      alarm := Fine;
      match m {
        case Confirm(w, mp) => alarm := InputOpenConfirmation(w, mp);
        case Data(d) => alarm := InputData(d);
        case Ext(d) => alarm := InputExtendedData(SSH2_EXTENDED_DATA_STDERR, d);
        case Adjust(n) => alarm := InputWindowAdjust(n);
        case Eof => ChanRcvdIeof();
        case Close => ChanRcvdOclose();
        case Eow => ChanRcvdEow();
      }
    }
  }
}
