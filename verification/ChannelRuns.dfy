/**
 * Runs of two endpoints: any interleaving of the handlers at either end and of
 * deliveries, with any short reads, short writes and failures. The theorems hold
 * in every state any such run reaches.
 */
module ChannelRuns {
  import opened Channel
  import opened ChannelLink

  datatype Side = A | B

  datatype Event = Acts(side: Side, act: Act) | Gets(side: Side)

  function Peer(d: Side): Side { if d == A then B else A }

  function End(y: System, d: Side): Chan { if d == A then y.a else y.b }

  /** Messages sent by `d` and not yet received. */
  function Sent(y: System, d: Side): seq<Msg> { if d == A then y.ab else y.ba }

  function Outcome(y: System, e: Event): Reply
    requires Possible(y, e)
  {
    match e
    case Acts(d, act) => Perform(End(y, d), act)
    case Gets(d) => Receive(End(y, d), Sent(y, Peer(d))[0])
  }

  predicate Possible(y: System, e: Event) {
    match e
    case Acts(d, act) => Enabled(End(y, d), act)
    case Gets(d) => Sent(y, Peer(d)) != []
  }

  function Next(y: System, e: Event): System
    requires Possible(y, e)
  {
    var r := Outcome(y, e);
    match e
    case Acts(A, _) => y.(a := r.c, ab := y.ab + r.out)
    case Acts(B, _) => y.(b := r.c, ba := y.ba + r.out)
    case Gets(A) => y.(a := r.c, ab := y.ab + r.out, ba := y.ba[1..])
    case Gets(B) => y.(b := r.c, ba := y.ba + r.out, ab := y.ab[1..])
  }

  /** `a` has asked for a channel; `b` has accepted it, as an open channel or as a larval
      session with window 0, and its confirmation is on the way. */
  predicate Started(y: System) {
    && Fresh(y.a) && y.a.kind == Opening && y.a.w.remote == 0
    && Fresh(y.b) && (y.b.kind == Open || (y.b.kind == Larval && y.b.w.localMax == 0))
    && y.b.w.remote == y.a.w.local && y.b.w.remoteMaxpacket == y.a.w.localMaxpacket
    && y.ab == [] && y.ba == [Confirm(y.b.w.local, y.b.w.localMaxpacket)]
  }

  predicate Legal(y: System, es: seq<Event>)
    decreases |es|
  {
    es == [] || (Possible(y, es[0]) && Legal(Next(y, es[0]), es[1..]))
  }

  function After(y: System, es: seq<Event>): System
    requires Legal(y, es)
    decreases |es|
  {
    if es == [] then y else After(Next(y, es[0]), es[1..])
  }

  lemma StartInv(y: System)
    requires Started(y)
    ensures Inv(y)
  {
    assert y.ba[1..] == [];
  }

  /** The invariant as either end sees it. */
  lemma InvSide(y: System, d: Side)
    requires Inv(y)
    ensures Joint(End(y, d), End(y, Peer(d)), Sent(y, Peer(d)), Sent(y, d))
  {
  }

  lemma StepInv(y: System, e: Event)
    requires Inv(y) && Possible(y, e)
    ensures Inv(Next(y, e))
    ensures var alarm := Outcome(y, e).alarm;
      alarm == Fine || (alarm == BadExtData && e.Gets? && !WantsExt(End(y, e.side)))
  {
    match e {
      case Acts(A, act) =>
        PerformKeeps(y.a, y.b, y.ba, y.ab, act);
        PerformIsFine(y.a, act);
      case Acts(B, act) =>
        PerformKeeps(y.b, y.a, y.ab, y.ba, act);
        PerformIsFine(y.b, act);
      case Gets(A) => ReceiveKeeps(y.a, y.b, y.ba, y.ab);
      case Gets(B) => ReceiveKeeps(y.b, y.a, y.ab, y.ba);
    }
  }

  lemma {:induction false} RunInv(y: System, es: seq<Event>)
    requires Inv(y) && Legal(y, es)
    ensures Inv(After(y, es))
    decreases |es|
  {
    if es != [] {
      StepInv(y, es[0]);
      RunInv(Next(y, es[0]), es[1..]);
    }
  }

  // ----- safety of every run

  /** What the sender may still send, what is in flight, the credit in flight and the bytes the
      receiver has ignored without charging them are together exactly the receiver's window; and
      what the receiver holds never exceeds what it advertised. */
  lemma WindowSafety(y: System, es: seq<Event>, d: Side)
    requires Started(y) && Legal(y, es)
    ensures var z := After(y, es);
      var s, r, q, p := End(z, d), End(z, Peer(d)), Sent(z, d), Sent(z, Peer(d));
      var claimed := s.w.remote + |DataOf(q)| + |ExtOf(q)| + Credit(p);
      var held := r.w.local + r.w.consumed + |r.b.output| + |InboundExt(r.b)|;
      && claimed + r.h.dropped == r.w.local
      && held <= r.w.localMax < U32 && (!r.h.writeFailed ==> held == r.w.localMax)
  {
    StartInv(y);
    RunInv(y, es);
  }

  /** No handler of either endpoint ever logs an overrun, aborts or disconnects. */
  lemma NoAlarm(y: System, es: seq<Event>, e: Event)
    requires Started(y) && Legal(y, es) && Possible(After(y, es), e)
    ensures var r := Outcome(After(y, es), e);
      r.alarm == Fine || (r.alarm == BadExtData && e.Gets? && !WantsExt(End(After(y, es), e.side)))
  {
    StartInv(y);
    RunInv(y, es);
    StepInv(After(y, es), e);
  }

  /** Bytes come out of the receiver's descriptor in the order they went into the sender's;
      until a write fails or the sender is forcibly closed, none is missing anywhere. */
  lemma ByteConservation(y: System, es: seq<Event>, d: Side)
    requires Started(y) && Legal(y, es)
    ensures var z := After(y, es);
      var s, r, q := End(z, d), End(z, Peer(d)), Sent(z, d);
      && r.h.wfd <= s.h.rfd
      && (!r.h.writeFailed && !s.h.forced ==>
            r.h.wfd + r.b.output + DataOf(q) + s.b.input == s.h.rfd)
      && (WantsExt(r) ==>
            r.h.efdWrite + r.b.extended + ExtOf(q) + OutboundExt(s.b) == s.h.efdRead)
  {
    StartInv(y);
    RunInv(y, es);
  }

  /** EOF arrives behind all the data: a receiver that has seen it and drained its output has
      written everything the sender put on the wire, which is everything the sender ever read
      unless it was told to close before it could send the rest. */
  lemma EofMeansComplete(y: System, es: seq<Event>, d: Side)
    requires Started(y) && Legal(y, es)
    ensures var z := After(y, es);
      var s, r := End(z, d), End(z, Peer(d));
      r.st.eofRcvd && !r.h.writeFailed && !s.h.forced && r.b.output == [] ==>
        && DataOf(Sent(z, d)) == [] && r.h.wfd + s.b.input == s.h.rfd
        && (!s.st.closeRcvd ==> r.h.wfd == s.h.rfd)
  {
    StartInv(y);
    RunInv(y, es);
    var z := After(y, es);
    if End(z, Peer(d)).st.eofRcvd { EofComplete(End(z, d), End(z, Peer(d)), Sent(z, d), Sent(z, Peer(d))); }
  }

  lemma EofComplete(s: Chan, r: Chan, q: seq<Msg>, p: seq<Msg>)
    requires Local(s) && Local(r) && Link(s, r, q, p) && r.st.eofRcvd
    ensures DataOf(q) == [] && s.st.eofSent
    ensures !r.h.writeFailed && !s.h.forced && r.b.output == [] ==> r.h.wfd + s.b.input == s.h.rfd
    ensures !r.h.writeFailed && !s.h.forced && r.b.output == [] && !s.st.closeRcvd ==>
              r.h.wfd == s.h.rfd
  {
    EofEndsPayload(At(Phase(r.kind == Opening, r.st.eofRcvd, r.st.closeRcvd)), q,
                   r.w.localMaxpacket, s.w.localMaxpacket);
    assert r.h.wfd + [] + [] == r.h.wfd && r.h.wfd + [] == r.h.wfd;
  }

  /** A channel is freed only when the conversation is over in both directions: nothing is
      addressed to a freed id. */
  lemma FreedIsSilent(y: System, es: seq<Event>, d: Side)
    requires Started(y) && Legal(y, es)
    ensures End(After(y, es), d).kind == Freed ==> Sent(After(y, es), Peer(d)) == []
  {
    StartInv(y);
    RunInv(y, es);
    var z := After(y, es);
    InvSide(z, d);
    if Sent(z, Peer(d)) != [] { NotFreed(End(z, d), End(z, Peer(d)), Sent(z, Peer(d)), Sent(z, d)); }
  }

  // ----- no starvation

  /** Steps that move data out of the receiver or credit back to the sender `d`, each on a
      descriptor that the event loop waits for. */
  predicate Helps(y: System, d: Side, e: Event) {
    var r := End(y, Peer(d));
    match e
    case Gets(_) => Possible(y, e)
    case Acts(side, act) =>
      && side == Peer(d) && r.kind == Open
      && match act
         case WfdReady(Wrote(n)) => n > 0 && r.b.output != []
         case EfdWriteReady(Wrote(n)) => n > 0 && PollsEfdWrite(r)
         case DoCheckWindow => WindowDue(r)
         case _ => false
  }

  /** Work an endpoint still has to do as a receiver. */
  function Backlog(c: Chan): nat {
    3 * (|c.b.output| + |InboundExt(c.b)|) + 2 * c.w.consumed
  }

  function EofDue(c: Chan): nat { if c.st.eofSent then 0 else 3 }

  function InFlight(q: seq<Msg>): nat { 4 * (|DataOf(q)| + |ExtOf(q)|) + |q| }

  function Effort(y: System, d: Side): nat {
    var s, r := End(y, d), End(y, Peer(d));
    InFlight(Sent(y, d)) + |Sent(y, Peer(d))| + Backlog(r) + EofDue(r) + EofDue(s)
  }

  lemma DataCosts(x: Chan, d: seq<byte>)
    requires Local(x)
    ensures var r := InputData(x, d);
      r.out == [] && EofDue(r.c) == EofDue(x) && Backlog(r.c) <= Backlog(x) + 3 * |d|
  {
    var r := InputData(x, d);
    assert r.c.b.output == x.b.output || r.c.b.output == x.b.output + d;
  }

  lemma ExtCosts(x: Chan, d: seq<byte>)
    ensures var r := InputExtendedData(x, SSH2_EXTENDED_DATA_STDERR, d);
      r.out == [] && EofDue(r.c) == EofDue(x) && Backlog(r.c) <= Backlog(x) + 3 * |d|
  {
  }

  lemma CloseCosts(x: Chan)
    requires Local(x)
    ensures var r := RcvdOclose(x);
      && (r.out == [] || r.out == [Eof]) && |r.out| + EofDue(r.c) <= EofDue(x)
      && Backlog(r.c) <= Backlog(x)
  {
  }

  lemma ReceiveCosts(x: Chan, m: Msg)
    requires Local(x)
    ensures var r := Receive(x, m);
      && (r.out == [] || r.out == [Eof]) && |r.out| + EofDue(r.c) <= EofDue(x)
      && Backlog(r.c) <= Backlog(x) + 3 * (|DataIn(m)| + |ExtIn(m)|)
  {
    match m {
      case Data(d) => DataCosts(x, d);
      case Ext(d) => ExtCosts(x, d);
      case Close => CloseCosts(x);
      case _ =>
    }
  }

  lemma WfdCosts(c: Chan, n: nat)
    requires Local(c) && n > 0 && c.b.output != []
    ensures var r := HandleWfd(c, Wrote(n));
      r.out == [] && Backlog(r.c) < Backlog(c) && EofDue(r.c) == EofDue(c)
  {
  }

  lemma EfdCosts(c: Chan, n: nat)
    requires Local(c) && n > 0 && WantsExt(c) && c.b.extended != []
    ensures var r := HandleEfdWrite(c, Wrote(n)); Backlog(r) < Backlog(c) && EofDue(r) == EofDue(c)
  {
  }

  lemma CheckCosts(c: Chan)
    requires WindowDue(c)
    ensures var r := CheckWindow(c);
      |r.out| == 1 && Backlog(r.c) + 1 < Backlog(c) && EofDue(r.c) == EofDue(c)
  {
  }

  lemma HelpingAct(y: System, d: Side, act: Act)
    requires Inv(y) && Helps(y, d, Acts(Peer(d), act))
    ensures Possible(y, Acts(Peer(d), act))
    ensures Effort(Next(y, Acts(Peer(d), act)), d) < Effort(y, d)
  {
    var r := End(y, Peer(d));
    match act {
      case WfdReady(Wrote(n)) => WfdCosts(r, n);
      case EfdWriteReady(Wrote(n)) => EfdCosts(r, n);
      case DoCheckWindow => CheckCosts(r);
    }
  }

  lemma HelpingReceipt(y: System, d: Side)
    requires Local(End(y, Peer(d))) && Sent(y, d) != []
    ensures Effort(Next(y, Gets(Peer(d))), d) < Effort(y, d)
  {
    ReceiveCosts(End(y, Peer(d)), Sent(y, d)[0]);
    TakenFlow(Sent(y, d));
  }

  lemma EofInFlight(q: seq<Msg>)
    ensures InFlight(q + [Eof]) == InFlight(q) + 1
  {
    FlowAppend(q, Eof);
  }

  lemma HelpingCredit(y: System, d: Side)
    requires Local(End(y, d)) && Sent(y, Peer(d)) != []
    ensures Effort(Next(y, Gets(d)), d) < Effort(y, d)
  {
    ReceiveCosts(End(y, d), Sent(y, Peer(d))[0]);
    EofInFlight(Sent(y, d));
    assert Sent(y, d) + [] == Sent(y, d);
  }

  lemma HelpCosts(y: System, d: Side, e: Event)
    requires Inv(y) && Helps(y, d, e)
    ensures Possible(y, e) && Effort(Next(y, e), d) < Effort(y, d)
  {
    match e {
      case Gets(side) => if side == d { HelpingCredit(y, d); } else { HelpingReceipt(y, d); }
      case Acts(_, act) => HelpingAct(y, d, act);
    }
  }

  predicate AllHelp(y: System, d: Side, es: seq<Event>)
    requires Legal(y, es)
    decreases |es|
  {
    es == [] || (Helps(y, d, es[0]) && AllHelp(Next(y, es[0]), d, es[1..]))
  }

  /** Receiver steps cannot go on for ever. */
  lemma {:induction false} HelpIsBounded(y: System, d: Side, es: seq<Event>)
    requires Inv(y) && Legal(y, es) && AllHelp(y, d, es)
    ensures |es| <= Effort(y, d)
    decreases |es|
  {
    if es != [] {
      HelpCosts(y, d, es[0]);
      StepInv(y, es[0]);
      HelpIsBounded(Next(y, es[0]), d, es[1..]);
    }
  }

  /** Nothing is left to deliver, write out or return. */
  predicate Settled(y: System, d: Side) {
    var r := End(y, Peer(d));
    && Sent(y, d) == [] && Sent(y, Peer(d)) == []
    && (r.kind == Open ==> r.b.output == [] && !WindowDue(r))
    && !PollsEfdWrite(r)
  }

  lemma NextHelp(y: System, d: Side) returns (e: Event)
    requires !Settled(y, d)
    ensures Helps(y, d, e)
  {
    var r := End(y, Peer(d));
    if Sent(y, d) != [] { e := Gets(Peer(d)); }
    else if Sent(y, Peer(d)) != [] { e := Gets(d); }
    else if r.kind == Open && r.b.output != [] { e := Acts(Peer(d), WfdReady(Wrote(1))); }
    else if r.kind == Open && WindowDue(r) { e := Acts(Peer(d), DoCheckWindow); }
    else { e := Acts(Peer(d), EfdWriteReady(Wrote(1))); }
  }

  /** From any reachable state some finite run of receiver steps settles the channel. */
  lemma {:induction false} HelpSettles(y: System, d: Side) returns (es: seq<Event>)
    requires Inv(y)
    ensures Legal(y, es) && AllHelp(y, d, es) && Settled(After(y, es), d)
    decreases Effort(y, d)
  {
    if Settled(y, d) {
      es := [];
    } else {
      var e := NextHelp(y, d);
      HelpCosts(y, d, e);
      StepInv(y, e);
      var rest := HelpSettles(Next(y, e), d);
      es := [e] + rest;
      assert es[1..] == rest;
    }
  }

  /** A receiver that neither end has begun to close and whose output still goes out. */
  predicate Receives(r: Chan) {
    r.kind == Open && !r.st.closeSent && !r.st.closeRcvd && !r.h.writeFailed
  }

  /** One whose extended data, if it takes any, goes out as well. */
  predicate Willing(r: Chan) { Receives(r) && (r.b.usage == Write ==> r.b.efd) }

  /** One that has also thrown nothing away. */
  predicate Healthy(r: Chan) { Willing(r) && r.h.dropped == 0 }

  lemma SettledWindow(z: System, d: Side)
    requires Inv(z) && Settled(z, d) && Receives(End(z, Peer(d)))
    ensures var s, r := End(z, d), End(z, Peer(d));
      && s.w.remote + r.h.dropped == r.w.local
      && r.w.local + r.w.consumed + |InboundExt(r.b)| == r.w.localMax < U32
      && (Willing(r) ==> InboundExt(r.b) == [])
  {
    assert End(z, Peer(d)).st.ostate != OClosed || End(z, Peer(d)).b.output == [];
  }

  predicate CanSend(s: Chan) { s.kind == Open && s.b.input != [] }

  /** Whatever order the receiver works in, when it has nothing left to do the sender again owns
      at least half the window, less what the receiver has ignored; a window of more than twice
      that, and of two or more, therefore never stays shut. */
  lemma NoStarvation(y: System, es: seq<Event>, d: Side)
    requires Started(y) && Legal(y, es)
    requires Settled(After(y, es), d) && Willing(End(After(y, es), Peer(d)))
    ensures var s, r := End(After(y, es), d), End(After(y, es), Peer(d));
      && s.w.remote + r.h.dropped >= r.w.localMax / 2
      && (r.w.localMax / 2 > r.h.dropped && r.w.localMaxpacket > 0 && CanSend(s) ==>
            PollInput(s).out != [])
  {
    StartInv(y);
    RunInv(y, es);
    SettledSends(After(y, es), d);
  }

  lemma SettledSends(z: System, d: Side)
    requires Inv(z) && Settled(z, d) && Willing(End(z, Peer(d)))
    ensures var s, r := End(z, d), End(z, Peer(d));
      && s.w.remote + r.h.dropped >= r.w.localMax / 2
      && (r.w.localMax / 2 > r.h.dropped && r.w.localMaxpacket > 0 && CanSend(s) ==>
            PollInput(s).out != [])
  {
    SettledWindow(z, d);
    if End(z, d).kind == Open { SettledMaxpacket(z, d); }
  }

  // ----- what an endpoint has advertised stays

  /** An endpoint past its larval state keeps its window and packet size. */
  ghost predicate SameSize(c: Chan, c': Chan) {
    && (c.kind != Larval ==> c'.kind != Larval && c'.w.localMax == c.w.localMax)
    && (c.kind != Opening ==> c'.kind != Opening)
    && c'.w.localMaxpacket == c.w.localMaxpacket
  }

  lemma WfdSize(c: Chan, w: WriteResult)
    ensures SameSize(c, HandleWfd(c, w).c)
  {
  }

  lemma PollSize(c: Chan)
    ensures SameSize(c, PollInput(c).c) && SameSize(c, PollExtended(c).c)
  {
  }

  lemma CloseSize(c: Chan)
    ensures c.kind == Open ==> SameSize(c, ForceClose(c).c)
    ensures forall u :: SameSize(c, Collect(c, u).c)
  {
  }

  lemma PerformSize(c: Chan, a: Act)
    requires Local(c) && Enabled(c, a)
    ensures SameSize(c, Perform(c, a).c)
  {
    match a {
      case WfdReady(w) => WfdSize(c, w);
      case DoPollInput => PollSize(c);
      case DoPollExtended => PollSize(c);
      case DoCollect(_) => CloseSize(c);
      case DoForceClose => CloseSize(c);
      case _ =>
    }
  }

  lemma ReceiveSize(c: Chan, m: Msg)
    ensures SameSize(c, Receive(c, m).c)
  {
  }

  lemma StepSize(y: System, e: Event, d: Side)
    requires Inv(y) && Possible(y, e)
    ensures SameSize(End(y, d), End(Next(y, e), d))
  {
    match e {
      case Acts(side, act) => if side == d { PerformSize(End(y, d), act); }
      case Gets(side) => if side == d { ReceiveSize(End(y, d), Sent(y, Peer(d))[0]); }
    }
  }

  lemma {:induction false} RunSize(y: System, es: seq<Event>, d: Side)
    requires Inv(y) && Legal(y, es)
    ensures SameSize(End(y, d), End(After(y, es), d))
    decreases |es|
  {
    if es != [] {
      StepSize(y, es[0], d);
      StepInv(y, es[0]);
      RunSize(Next(y, es[0]), es[1..], d);
    }
  }

  // ----- a blocked sender is released

  /** Messages that leave both ends as they are: no CLOSE, and extended data only if wanted. */
  predicate CalmData(q: seq<Msg>, ext: bool) {
    q == [] || (!q[0].Close? && (q[0].Ext? ==> ext) && CalmData(q[1..], ext))
  }

  predicate CalmCredit(q: seq<Msg>) {
    q == [] || (!q[0].Close? && !q[0].Eow? && CalmCredit(q[1..]))
  }

  lemma {:induction false} CalmAppend(q: seq<Msg>, ext: bool, m: Msg)
    ensures CalmData(q + [m], ext) <==> CalmData(q, ext) && !m.Close? && (m.Ext? ==> ext)
    ensures CalmCredit(q + [m]) <==> CalmCredit(q) && !m.Close? && !m.Eow?
  {
    if q == [] {
      assert [] + [m] == [m] && [m][1..] == [];
    } else {
      assert (q + [m])[1..] == q[1..] + [m];
      CalmAppend(q[1..], ext, m);
    }
  }

  /** An open sender that still has bytes to send. */
  predicate Pending(s: Chan) {
    && s.kind == Open && !s.st.closeSent && !s.st.closeRcvd && s.st.istate != IClosed
    && s.b.input != []
  }

  /** A sender with bytes to send, a willing receiver, and nothing on the way that changes that
      or loses more than what is lost already. */
  predicate Waiting(y: System, d: Side, lost: nat) {
    && Pending(End(y, d)) && Willing(End(y, Peer(d))) && End(y, Peer(d)).h.dropped == lost
    && CalmData(Sent(y, d), WantsExt(End(y, Peer(d)))) && CalmCredit(Sent(y, Peer(d)))
  }

  predicate SameLoss(c: Chan, c': Chan) {
    WantsExt(c') == WantsExt(c) && c'.h.dropped == c.h.dropped
  }

  lemma WillingTakesData(x: Chan, d: seq<byte>)
    requires Willing(x)
    requires x.st.ostate == OOpen ==> |d| <= x.w.localMaxpacket && |d| <= x.w.local
    ensures var r := InputData(x, d); Willing(r.c) && SameLoss(x, r.c) && r.out == []
  {
  }

  lemma WillingTakesExt(x: Chan, d: seq<byte>)
    requires Willing(x) && WantsExt(x) && !x.st.eofRcvd && |d| <= x.w.local
    ensures var r := InputExtendedData(x, SSH2_EXTENDED_DATA_STDERR, d);
      Willing(r.c) && SameLoss(x, r.c) && r.out == []
  {
  }

  lemma WillingTakesControl(x: Chan, m: Msg)
    requires Willing(x) && !Payload(m) && !m.Close?
    ensures var r := Receive(x, m); Willing(r.c) && SameLoss(x, r.c) && r.out == []
  {
  }

  /** What a willing receiver is after a message that leaves it so. */
  lemma WillingReceives(x: Chan, y: Chan, inq: seq<Msg>, outq: seq<Msg>)
    requires Joint(x, y, inq, outq) && Willing(x) && inq != []
    requires !inq[0].Close? && (inq[0].Ext? ==> WantsExt(x))
    ensures var r := Receive(x, inq[0]);
      Willing(r.c) && SameLoss(x, r.c) && r.out == []
  {
    var m := inq[0];
    match m {
      case Data(d) =>
        if x.st.ostate == OOpen { AcceptDataKeeps(x, y, inq, outq); }
        else { FakeConsumeKeeps(x, y, inq, outq); }
        WillingTakesData(x, d);
      case Ext(d) =>
        AcceptExtendedKeeps(x, y, inq, outq);
        WillingTakesExt(x, d);
      case _ => WillingTakesControl(x, m);
    }
  }

  lemma PendingReceives(s: Chan, m: Msg)
    requires Pending(s) && !m.Close? && !m.Eow?
    ensures var r := Receive(s, m); Pending(r.c) && r.out == []
  {
  }

  lemma WillingHelps(r: Chan, act: Act)
    requires Willing(r)
    requires match act
             case WfdReady(Wrote(n)) => n > 0 && r.b.output != []
             case EfdWriteReady(Wrote(n)) => n > 0 && PollsEfdWrite(r)
             case DoCheckWindow => true
             case _ => false
    ensures var o := Perform(r, act);
      && Willing(o.c) && SameLoss(r, o.c)
      && (o.out == [] || (|o.out| == 1 && o.out[0].Adjust?))
  {
  }

  lemma HelpActsWaiting(y: System, d: Side, act: Act, lost: nat)
    requires Inv(y) && Waiting(y, d, lost) && Helps(y, d, Acts(Peer(d), act))
    requires Possible(y, Acts(Peer(d), act))
    ensures Waiting(Next(y, Acts(Peer(d), act)), d, lost)
  {
    var r, p := End(y, Peer(d)), Sent(y, Peer(d));
    WillingHelps(r, act);
    var o := Perform(r, act);
    if o.out == [] {
      assert p + [] == p;
    } else {
      assert o.out == [o.out[0]];
      CalmAppend(p, false, o.out[0]);
    }
  }

  lemma GetsShape(y: System, d: Side)
    requires Sent(y, Peer(d)) != []
    ensures var z, o := Next(y, Gets(d)), Receive(End(y, d), Sent(y, Peer(d))[0]);
      && End(z, d) == o.c && End(z, Peer(d)) == End(y, Peer(d))
      && Sent(z, d) == Sent(y, d) + o.out && Sent(z, Peer(d)) == Sent(y, Peer(d))[1..]
  {
  }

  lemma WaitingNow(z: System, d: Side, s: Chan, r: Chan, q: seq<Msg>, p: seq<Msg>, lost: nat)
    requires End(z, d) == s && End(z, Peer(d)) == r && Sent(z, d) == q && Sent(z, Peer(d)) == p
    requires Pending(s) && Willing(r) && r.h.dropped == lost
    requires CalmData(q, WantsExt(r)) && CalmCredit(p)
    ensures Waiting(z, d, lost)
  {
  }

  lemma HelpGetsWaiting(y: System, d: Side, lost: nat)
    requires Inv(y) && Waiting(y, d, lost) && Sent(y, d) != []
    ensures Waiting(Next(y, Gets(Peer(d))), d, lost)
  {
    var r, q, p := End(y, Peer(d)), Sent(y, d), Sent(y, Peer(d));
    InvSide(y, Peer(d));
    WillingReceives(r, End(y, d), q, p);
    GetsShape(y, Peer(d));
    assert p + [] == p;
    WaitingNow(Next(y, Gets(Peer(d))), d, End(y, d), Receive(r, q[0]).c, q[1..], p, lost);
  }

  lemma CreditWaiting(y: System, d: Side, lost: nat)
    requires Waiting(y, d, lost) && Sent(y, Peer(d)) != []
    ensures Waiting(Next(y, Gets(d)), d, lost)
  {
    var q := Sent(y, d);
    PendingReceives(End(y, d), Sent(y, Peer(d))[0]);
    assert q + [] == q;
  }

  /** Receiver steps keep the sender waiting for nothing but window. */
  lemma HelpKeepsWaiting(y: System, d: Side, e: Event, lost: nat)
    requires Inv(y) && Waiting(y, d, lost) && Helps(y, d, e)
    ensures Possible(y, e) && Waiting(Next(y, e), d, lost)
  {
    HelpCosts(y, d, e);
    match e {
      case Gets(side) =>
        if side == d { CreditWaiting(y, d, lost); } else { HelpGetsWaiting(y, d, lost); }
      case Acts(_, act) => HelpActsWaiting(y, d, act, lost);
    }
  }

  lemma {:induction false} HelpsKeepWaiting(y: System, d: Side, es: seq<Event>, lost: nat)
    requires Inv(y) && Waiting(y, d, lost) && Legal(y, es) && AllHelp(y, d, es)
    ensures Waiting(After(y, es), d, lost)
    decreases |es|
  {
    if es != [] {
      HelpKeepsWaiting(y, d, es[0], lost);
      StepInv(y, es[0]);
      HelpsKeepWaiting(Next(y, es[0]), d, es[1..], lost);
    }
  }

  /** A sender that waits for window gets it: some run of receiver steps, which cannot be put
      off for ever (HelpIsBounded), ends with the sender allowed and able to send. */
  lemma BlockedSenderIsReleased(y: System, d: Side, lost: nat) returns (es: seq<Event>)
    requires Inv(y) && Waiting(y, d, lost)
    requires End(y, Peer(d)).w.localMax / 2 > lost && End(y, Peer(d)).w.localMaxpacket > 0
    ensures Legal(y, es) && AllHelp(y, d, es)
    ensures var s := End(After(y, es), d);
      Enabled(s, DoPollInput) && PollInput(s).out != []
  {
    es := HelpSettles(y, d);
    HelpsKeepWaiting(y, d, es, lost);
    RunInv(y, es);
    RunSize(y, es, Peer(d));
    SettledSends(After(y, es), d);
  }

  lemma SettledMaxpacket(z: System, d: Side)
    requires Inv(z) && End(z, d).kind == Open
    ensures End(z, d).w.remoteMaxpacket == End(z, Peer(d)).w.localMaxpacket
  {
  }

  // ----- a sender that starves

  lemma {:induction false} CreditConcat(q: seq<Msg>, p: seq<Msg>)
    ensures Credit(q + p) == Credit(q) + Credit(p)
  {
    if q == [] {
      assert q + p == p;
    } else {
      assert (q + p)[1..] == q[1..] + p;
      CreditConcat(q[1..], p);
    }
  }

  lemma {:induction false} DataConcat(q: seq<Msg>, p: seq<Msg>)
    ensures DataOf(q + p) == DataOf(q) + DataOf(p)
  {
    if q == [] {
      assert q + p == p;
    } else {
      assert (q + p)[1..] == q[1..] + p;
      DataConcat(q[1..], p);
      BytesAssoc(DataIn(q[0]), DataOf(q[1..]), DataOf(p));
    }
  }

  lemma {:induction false} ExtConcat(q: seq<Msg>, p: seq<Msg>)
    ensures ExtOf(q + p) == ExtOf(q) + ExtOf(p)
  {
    if q == [] {
      assert q + p == p;
    } else {
      assert (q + p)[1..] == q[1..] + p;
      ExtConcat(q[1..], p);
      BytesAssoc(ExtIn(q[0]), ExtOf(q[1..]), ExtOf(p));
    }
  }

  lemma BytesAssoc(x: seq<byte>, y: seq<byte>, z: seq<byte>)
    ensures x + (y + z) == (x + y) + z
  {
  }

  lemma PayloadConcat(q: seq<Msg>, p: seq<Msg>)
    ensures DataOf(q + p) == DataOf(q) + DataOf(p) && ExtOf(q + p) == ExtOf(q) + ExtOf(p)
  {
    DataConcat(q, p);
    ExtConcat(q, p);
  }

  /** The window part of the test in channel_check_window. */
  predicate Owes(w: Windows) {
    && ((w.localMax - w.local) % U32 > w.localMaxpacket * 3 % U32 || w.local < w.localMax / 2)
    && w.consumed > 0
  }

  /** A receiver that holds nothing that would make it return window. */
  ghost predicate Silent(r: Chan) {
    && r.kind != Larval && r.kind != Opening
    && (r.kind == Open ==>
          !Owes(r.w) && r.b.output == [] && (WantsExt(r) ==> r.b.extended == []))
  }

  /** The sender has no window, and nothing is on its way that could change that. */
  ghost predicate Stuck(y: System, d: Side) {
    var s, q, p := End(y, d), Sent(y, d), Sent(y, Peer(d));
    && s.w.remote == 0 && s.kind != Opening && Silent(End(y, Peer(d)))
    && DataOf(q) == [] && ExtOf(q) == [] && Credit(p) == 0
  }

  predicate Flowless(q: seq<Msg>) { DataOf(q) == [] && ExtOf(q) == [] && Credit(q) == 0 }

  lemma ControlFlowless(m: Msg)
    requires m.Eof? || m.Close? || m.Eow?
    ensures Flowless([m]) && Flowless([])
  {
    assert [m][1..] == [];
  }

  lemma FlowlessConcat(q: seq<Msg>, p: seq<Msg>)
    requires Flowless(q) && Flowless(p)
    ensures Flowless(q + p)
  {
    CreditConcat(q, p);
    PayloadConcat(q, p);
  }

  lemma GoneFlowless(c: Chan)
    ensures Flowless(Collect(c, NoUser).out)
  {
    GoneShape(c);
    ControlFlowless(Close);
  }

  lemma CollectFlowless(c: Chan, u: User)
    ensures Flowless(Collect(c, u).out)
  {
    if u.NoUser? {
      GoneFlowless(c);
    } else {
      var r := SendClose(c, u.closes);
      CollectShape(c, u);
      ControlFlowless(Close);
      GoneFlowless(r.c);
      FlowlessConcat(r.out, Collect(r.c, NoUser).out);
    }
  }

  lemma ForceCloseFlowless(c: Chan)
    ensures Flowless(ForceClose(c).out)
  {
    var r1 := DiscardInput(c);
    ControlFlowless(Eof);
    ControlFlowless(Eow);
    FlowlessConcat(r1.out, WriteFailed(r1.c).out);
  }

  lemma WfdFlowless(c: Chan, w: WriteResult)
    ensures Flowless(HandleWfd(c, w).out) && HandleWfd(c, w).c.w.remote == c.w.remote
  {
    ControlFlowless(Eow);
  }

  lemma PollPayload(c: Chan)
    requires c.w.remote == 0
    ensures Flowless(PollInput(c).out) && PollInput(c).c.w.remote == 0
    ensures PollExtended(c) == Quietly(c)
  {
    ControlFlowless(Eof);
  }

  lemma AdjustPayload(n: nat)
    ensures DataOf([Adjust(n)]) == [] && ExtOf([Adjust(n)]) == []
  {
    assert [Adjust(n)][1..] == [];
  }

  /** Without window no payload is sent. */
  lemma PerformPayload(c: Chan, a: Act)
    requires Enabled(c, a) && c.w.remote == 0
    ensures var r := Perform(c, a);
      r.c.w.remote == 0 && DataOf(r.out) == [] && ExtOf(r.out) == []
  {
    match a {
      case WfdReady(w) => WfdFlowless(c, w);
      case DoCheckWindow => AdjustPayload(c.w.consumed);
      case DoPollInput => PollPayload(c);
      case DoPollExtended => PollPayload(c);
      case DoCollect(u) => CollectFlowless(c, u); CollectWindows(c, u);
      case DoForceClose => ForceCloseFlowless(c); ForceCloseFields(c);
      case DoSetFds(_, _, w) => AdjustPayload(w);
      case _ =>
    }
  }

  lemma CollectWindows(c: Chan, u: User)
    ensures var c' := Collect(c, u).c;
      c'.w == c.w && c'.b == c.b && (c'.kind == c.kind || c'.kind == Freed) && c'.h == c.h
  {
  }

  /** A silent receiver returns no window and stays silent. */
  lemma PerformSilent(c: Chan, a: Act)
    requires Local(c) && Enabled(c, a) && Silent(c)
    ensures var r := Perform(c, a); Silent(r.c) && Credit(r.out) == 0
  {
    match a {
      case RfdReady(r) => RfdSilent(c, r);
      case EfdReadReady(r) => EfdReadSilent(c, r);
      case DoPollInput => PollSilent(c);
      case DoPollExtended => PollSilent(c);
      case DoCollect(u) => CollectFlowless(c, u); CollectWindows(c, u);
      case DoForceClose => ForceCloseFlowless(c); ForceCloseFields(c);
      case _ =>
    }
  }

  lemma RfdSilent(c: Chan, r: ReadResult)
    requires Silent(c)
    ensures Silent(HandleRfd(c, r))
  {
  }

  lemma EfdReadSilent(c: Chan, r: ReadResult)
    requires Silent(c) && PollsEfdRead(c.(st := c.st.(istate := IOpen)))
    ensures Silent(HandleEfdRead(c, r))
  {
  }

  lemma PollSilent(c: Chan)
    requires Silent(c)
    ensures Silent(PollInput(c).c) && Credit(PollInput(c).out) == 0
    ensures c.b.usage == Read ==> Silent(PollExtended(c).c) && Credit(PollExtended(c).out) == 0
  {
  }

  lemma EmptyDataSilent(c: Chan)
    requires Local(c) && Silent(c)
    ensures Silent(InputData(c, []).c)
    ensures Silent(InputExtendedData(c, SSH2_EXTENDED_DATA_STDERR, []).c)
  {
  }

  lemma ControlSilent(c: Chan, m: Msg)
    requires Silent(c) && !Payload(m)
    ensures Silent(Receive(c, m).c)
  {
  }

  lemma ReceiveSilent(c: Chan, m: Msg)
    requires Local(c) && Silent(c) && DataIn(m) == [] && ExtIn(m) == []
    ensures Silent(Receive(c, m).c)
  {
    if Payload(m) { EmptyDataSilent(c); } else { ControlSilent(c, m); }
  }

  lemma ReceiveFlowless(c: Chan, m: Msg)
    ensures Flowless(Receive(c, m).out)
  {
  }

  lemma ReceiveNoWindow(c: Chan, m: Msg)
    requires c.w.remote == 0 && c.kind != Opening && CreditIn(m) == 0
    ensures var r := Receive(c, m); r.c.w.remote == 0 && r.c.kind != Opening
  {
  }

  lemma ActsShape(y: System, d: Side, act: Act)
    requires Enabled(End(y, d), act)
    ensures var z, o := Next(y, Acts(d, act)), Perform(End(y, d), act);
      && End(z, d) == o.c && End(z, Peer(d)) == End(y, Peer(d))
      && Sent(z, d) == Sent(y, d) + o.out && Sent(z, Peer(d)) == Sent(y, Peer(d))
  {
  }

  lemma StuckNow(z: System, d: Side, s: Chan, r: Chan, q: seq<Msg>, p: seq<Msg>)
    requires End(z, d) == s && End(z, Peer(d)) == r && Sent(z, d) == q && Sent(z, Peer(d)) == p
    requires s.w.remote == 0 && s.kind != Opening && Silent(r)
    requires DataOf(q) == [] && ExtOf(q) == [] && Credit(p) == 0
    ensures Stuck(z, d)
  {
  }

  lemma SenderActsStuck(y: System, d: Side, act: Act)
    requires Inv(y) && Stuck(y, d) && Enabled(End(y, d), act)
    ensures Stuck(Next(y, Acts(d, act)), d)
  {
    var s, r, q, p := End(y, d), End(y, Peer(d)), Sent(y, d), Sent(y, Peer(d));
    var o := Perform(s, act);
    PerformSize(s, act);
    PerformPayload(s, act);
    PayloadConcat(q, o.out);
    ActsShape(y, d, act);
    StuckNow(Next(y, Acts(d, act)), d, o.c, r, q + o.out, p);
  }

  lemma ReceiverActsStuck(y: System, d: Side, act: Act)
    requires Local(End(y, Peer(d))) && Stuck(y, d) && Enabled(End(y, Peer(d)), act)
    ensures Stuck(Next(y, Acts(Peer(d), act)), d)
  {
    var s, r, q, p := End(y, d), End(y, Peer(d)), Sent(y, d), Sent(y, Peer(d));
    var o := Perform(r, act);
    PerformSilent(r, act);
    CreditConcat(p, o.out);
    ActsShape(y, Peer(d), act);
    StuckNow(Next(y, Acts(Peer(d), act)), d, s, o.c, q, p + o.out);
  }

  lemma SenderGetsStuck(y: System, d: Side)
    requires Stuck(y, d) && Sent(y, Peer(d)) != []
    ensures Stuck(Next(y, Gets(d)), d)
  {
    var s, r, q, p := End(y, d), End(y, Peer(d)), Sent(y, d), Sent(y, Peer(d));
    TakenFlow(p);
    ReceiveNoWindow(s, p[0]);
    ReceiveFlowless(s, p[0]);
    PayloadConcat(q, Receive(s, p[0]).out);
    GetsShape(y, d);
    StuckNow(Next(y, Gets(d)), d, Receive(s, p[0]).c, r, q + Receive(s, p[0]).out, p[1..]);
  }

  lemma ReceiverGetsStuck(y: System, d: Side)
    requires Local(End(y, Peer(d))) && Stuck(y, d) && Sent(y, d) != []
    ensures Stuck(Next(y, Gets(Peer(d))), d)
  {
    var s, r, q, p := End(y, d), End(y, Peer(d)), Sent(y, d), Sent(y, Peer(d));
    TakenFlow(q);
    ReceiveSilent(r, q[0]);
    ReceiveFlowless(r, q[0]);
    CreditConcat(p, Receive(r, q[0]).out);
    GetsShape(y, Peer(d));
    StuckNow(Next(y, Gets(Peer(d))), d, s, Receive(r, q[0]).c, q[1..], p + Receive(r, q[0]).out);
  }

  lemma StepKeepsStuck(y: System, d: Side, e: Event)
    requires Inv(y) && Stuck(y, d) && Possible(y, e)
    ensures Stuck(Next(y, e), d)
  {
    match e {
      case Acts(side, act) =>
        if side == d { SenderActsStuck(y, d, act); } else { ReceiverActsStuck(y, d, act); }
      case Gets(side) =>
        if side == d { SenderGetsStuck(y, d); } else { ReceiverGetsStuck(y, d); }
    }
  }

  lemma {:induction false} StuckForever(y: System, d: Side, es: seq<Event>)
    requires Inv(y) && Stuck(y, d) && Legal(y, es)
    ensures Stuck(After(y, es), d)
    decreases |es|
  {
    if es != [] {
      StepKeepsStuck(y, d, es[0]);
      StepInv(y, es[0]);
      StuckForever(Next(y, es[0]), d, es[1..]);
    }
  }

  /** A run that leaves the opener without window and with nothing to hope for, though its peer
      still receives. */
  ghost predicate Starves(y: System, es: seq<Event>) {
    && Legal(y, es)
    && var z := After(y, es); Settled(z, A) && Receives(z.b) && z.a.w.remote == 0
  }

  /** It never gets any window again, whatever either end does. */
  lemma StarvedForGood(y: System, es: seq<Event>, more: seq<Event>)
    requires Started(y) && Starves(y, es) && Legal(After(y, es), more)
    ensures After(After(y, es), more).a.w.remote == 0
  {
    StartInv(y);
    RunInv(y, es);
    SettledIsStuck(After(y, es), A);
    StuckForever(After(y, es), A, more);
  }

  lemma SettledIsStuck(z: System, d: Side)
    requires Inv(z) && Settled(z, d) && Receives(End(z, Peer(d))) && End(z, d).w.remote == 0
    ensures Stuck(z, d)
  {
    SettledIsOpen(z, d);
    SettledIsSilent(End(z, Peer(d)));
  }

  lemma SettledIsSilent(r: Chan)
    requires Local(r) && Receives(r) && r.b.output == [] && !WindowDue(r) && !PollsEfdWrite(r)
    ensures Silent(r)
  {
  }

  /** With nothing in flight no confirmation is outstanding. */
  lemma SettledIsOpen(z: System, d: Side)
    requires Inv(z) && Settled(z, d)
    ensures End(z, d).kind != Opening
  {
  }

  lemma Unfold(y: System, e: Event, y': System, es: seq<Event>)
    requires Possible(y, e) && Next(y, e) == y' && Legal(y', es)
    ensures Legal(y, [e] + es) && After(y, [e] + es) == After(y', es)
  {
    assert ([e] + es)[1..] == es;
  }

  /** The opener once it has its confirmation, and with one byte read, and sent. */
  function Confirmed(y: System): Chan {
    y.a.(kind := Open, w := y.a.w.(remote := y.b.w.local, remoteMaxpacket := y.b.w.localMaxpacket))
  }

  lemma ConfirmStep(y: System)
    requires Started(y)
    ensures Possible(y, Gets(A)) && Next(y, Gets(A)) == System(Confirmed(y), y.b, [], [])
  {
    assert y.ba[1..] == [];
  }

  lemma ReadStep(c: Chan, x: byte)
    requires c.kind == Open && c.st.istate == IOpen && c.b.input == [] && c.w.remote == 1
    ensures PollsRfd(c) && HandleRfd(c, Got([x])) == TakeInput(c, [x])
  {
    assert [x][..1] == [x];
  }

  lemma SendStep(c: Chan, x: byte)
    requires c.b.input == [x] && c.w.remote == 1 && c.w.remoteMaxpacket > 0
    ensures PollInput(c) ==
            Reply(c.(b := c.b.(input := []), w := c.w.(remote := 0)), [Data([x])], Fine)
  {
    assert [x][..1] == [x] && [x][1..] == [];
  }

  lemma WriteStep(c: Chan, x: byte)
    requires c.b.output == [x] && c.w.consumed == 0
    ensures HandleWfd(c, Wrote(1)) ==
            Quietly(c.(w := c.w.(consumed := 1), b := c.b.(output := []), h := c.h.(wfd := c.h.wfd + [x])))
  {
    assert [x][..1] == [x] && [x][1..] == [];
  }

  /** Read one byte, send it, receive it and write it out: the window is gone. */
  lemma OneByteStalls(y: System, x: byte) returns (es: seq<Event>)
    requires Started(y) && y.b.kind == Open && y.b.w.localMax == 1 && 0 < y.b.w.localMaxpacket < U32
    ensures Starves(y, es) && After(y, es).b.h.dropped == 0
    ensures (y.b.b.usage == Write ==> y.b.b.efd) ==> Healthy(After(y, es).b)
  {
    var a2 := TakeInput(Confirmed(y), [x]);
    var y1, y2 := System(Confirmed(y), y.b, [], []), System(a2, y.b, [], []);
    ConfirmStep(y);
    ReadStep(Confirmed(y), x);
    es := OneByteSent(y2, x);
    Unfold(y1, Acts(A, RfdReady(Got([x]))), y2, es);
    es := [Acts(A, RfdReady(Got([x])))] + es;
    Unfold(y, Gets(A), y1, es);
    es := [Gets(A)] + es;
  }

  lemma OneByteSent(y: System, x: byte) returns (es: seq<Event>)
    requires y.a.kind == Open && y.a.st == Stage(IOpen, OOpen, false, false, false, false)
    requires y.a.b.input == [x] && y.a.w.remote == 1 && y.a.w.remoteMaxpacket > 0
    requires Fresh(y.b) && y.b.kind == Open && y.b.w.localMax == 1 && 0 < y.b.w.localMaxpacket < U32
    requires y.ab == [] && y.ba == []
    ensures Starves(y, es) && After(y, es).b.h.dropped == 0
    ensures (y.b.b.usage == Write ==> y.b.b.efd) ==> Healthy(After(y, es).b)
  {
    var a3 := PollInput(y.a).c;
    SendStep(y.a, x);
    var y3 := System(a3, y.b, [Data([x])], []);
    es := OneByteWritten(y3, x);
    Unfold(y, Acts(A, DoPollInput), y3, es);
    es := [Acts(A, DoPollInput)] + es;
  }

  lemma OneByteWritten(y: System, x: byte) returns (es: seq<Event>)
    requires y.a.w.remote == 0
    requires Fresh(y.b) && y.b.kind == Open && y.b.w.localMax == 1 && 0 < y.b.w.localMaxpacket < U32
    requires y.ab == [Data([x])] && y.ba == []
    ensures Starves(y, es) && After(y, es).b.h.dropped == 0
    ensures (y.b.b.usage == Write ==> y.b.b.efd) ==> Healthy(After(y, es).b)
  {
    var b4 := AcceptData(y.b, [x]);
    assert b4.b.output == [x];
    WriteStep(b4, x);
    var b5 := HandleWfd(b4, Wrote(1)).c;
    var y4, y5 := System(y.a, b4, [], []), System(y.a, b5, [], []);
    var e4 := Acts(B, WfdReady(Wrote(1)));
    Unfold(y4, e4, y5, []);
    Unfold(y, Gets(B), y4, [e4] + []);
    es := [Gets(B)] + ([e4] + []);
  }

  /** With a healthy peer, the opener can be left without window exactly when the window it was
      given is one byte or none: half of one is nothing, so that byte is never given back. */
  lemma StarvedExactly(y: System)
    requires Started(y) && Healthy(y.b) && 0 < y.b.w.localMaxpacket < U32
    ensures (exists es :: Starves(y, es) && Healthy(After(y, es).b)) <==> y.b.w.localMax <= 1
  {
    if exists es :: Starves(y, es) && Healthy(After(y, es).b) {
      var es :| Starves(y, es) && Healthy(After(y, es).b);
      NoStarvation(y, es, A);
      StartInv(y);
      RunSize(y, es, B);
    }
    if y.b.w.localMax == 0 {
      var es := NothingStalls(y);
    } else if y.b.w.localMax == 1 {
      var es := OneByteStalls(y, 0);
    }
  }

  lemma NothingStalls(y: System) returns (es: seq<Event>)
    requires Started(y) && y.b.kind == Open && y.b.w.localMax == 0
    ensures Starves(y, es) && After(y, es).b == y.b
  {
    ConfirmStep(y);
    es := [Gets(A)] + [];
    Unfold(y, Gets(A), System(Confirmed(y), y.b, [], []), []);
  }

  // ----- extended data nobody wants is lost window

  /** Its extended descriptor is read, so it may send extended data. */
  predicate CanSendExt(c: Chan) { c.b.usage == Read && c.b.efd }

  /** The opener reads its extended descriptor and nothing is in flight; its peer throws extended
      data away and owes nothing. */
  ghost predicate Draining(y: System) {
    && y.ab == [] && y.ba == []
    && y.a.kind == Open && y.a.st == Stage(IOpen, OOpen, false, false, false, false)
    && CanSendExt(y.a) && y.a.b.extended == [] && y.a.w.remoteMaxpacket > 0
    && Receives(y.b) && !y.b.st.eofRcvd && !WantsExt(y.b)
    && y.b.b.output == [] && y.b.w.consumed == 0
  }

  lemma ExtReadStep(c: Chan, x: byte)
    requires c.kind == Open && c.st == Stage(IOpen, OOpen, false, false, false, false)
    requires CanSendExt(c) && c.b.extended == [] && c.w.remote > 0
    ensures Enabled(c, EfdReadReady(Got([x]))) && HandleEfdRead(c, Got([x])) == TakeExtended(c, [x])
  {
    assert [x][..1] == [x] && [] + [x] == [x];
  }

  lemma ExtSendStep(c: Chan, x: byte)
    requires c.kind == Open && c.st == Stage(IOpen, OOpen, false, false, false, false)
    requires c.b.usage == Read && c.b.extended == [x] && c.w.remote > 0 && c.w.remoteMaxpacket > 0
    ensures Enabled(c, DoPollExtended)
    ensures PollExtended(c) ==
            Reply(c.(b := c.b.(extended := []), w := c.w.(remote := c.w.remote - 1)), [Ext([x])], Fine)
  {
    assert [x][..1] == [x] && [x][1..] == [];
  }

  /** The opener after it has read and sent one byte of extended data. */
  function ExtSent(c: Chan, x: byte): Chan
    requires c.w.remote > 0
  {
    c.(w := c.w.(remote := c.w.remote - 1), h := c.h.(efdRead := c.h.efdRead + [x]))
  }

  /** Two steps send one byte of extended data. */
  lemma ExtSentThen(y: System, x: byte, es: seq<Event>) returns (es': seq<Event>)
    requires y.ab == [] && y.ba == [] && y.a.kind == Open && CanSendExt(y.a)
    requires y.a.st == Stage(IOpen, OOpen, false, false, false, false)
    requires y.a.b.extended == [] && y.a.w.remote > 0 && y.a.w.remoteMaxpacket > 0
    requires Starves(System(ExtSent(y.a, x), y.b, [Ext([x])], []), es)
    ensures Starves(y, es')
  {
    var a1 := TakeExtended(y.a, [x]);
    ExtReadStep(y.a, x);
    assert a1.b.extended == [x];
    ExtSendStep(a1, x);
    assert ExtSent(y.a, x).b == a1.b.(extended := []);
    var y1, y2 := System(a1, y.b, [], []), System(ExtSent(y.a, x), y.b, [Ext([x])], []);
    assert [] + [Ext([x])] == [Ext([x])];
    Unfold(y1, Acts(A, DoPollExtended), y2, es);
    Unfold(y, Acts(A, EfdReadReady(Got([x]))), y1, [Acts(A, DoPollExtended)] + es);
    es' := [Acts(A, EfdReadReady(Got([x])))] + ([Acts(A, DoPollExtended)] + es);
  }

  /** Byte after byte of unwanted extended data takes the window away. */
  lemma {:induction false} DrainAll(y: System) returns (es: seq<Event>)
    requires Draining(y)
    ensures Starves(y, es)
    decreases y.a.w.remote
  {
    if y.a.w.remote == 0 {
      es := [];
    } else {
      var x: byte := 0;
      var y2 := System(ExtSent(y.a, x), y.b, [Ext([x])], []);
      var y3 := System(y2.a, Ignored(y.b, 1, BadExtData).c, [], []);
      es := DrainAll(y3);
      assert [Ext([x])][1..] == [];
      Unfold(y2, Gets(B), y3, es);
      es := [Gets(B)] + es;
      es := ExtSentThen(y, x, es);
    }
  }

  /** A peer that wants extended data stops wanting it when it cannot write it. */
  lemma BreakExt(y: System) returns (es: seq<Event>)
    requires y.ab == [] && y.ba == [] && y.a.kind == Open && CanSendExt(y.a)
    requires y.a.st == Stage(IOpen, OOpen, false, false, false, false)
    requires y.a.b.extended == [] && y.a.w.remote > 0 && y.a.w.remoteMaxpacket > 0
    requires Fresh(y.b) && WantsExt(y.b) && y.b.w.local > 0
    ensures Starves(y, es)
  {
    var x: byte := 0;
    var b3 := AcceptExtended(y.b, [x]);
    var y2 := System(ExtSent(y.a, x), y.b, [Ext([x])], []);
    var y3, y4 := System(y2.a, b3, [], []), System(y2.a, CloseEfd(b3), [], []);
    es := DrainAll(y4);
    assert [Ext([x])][1..] == [] && b3.b.extended == [x];
    Unfold(y3, Acts(B, EfdWriteReady(WriteFailure)), y4, es);
    es := [Acts(B, EfdWriteReady(WriteFailure))] + es;
    Unfold(y2, Gets(B), y3, es);
    es := [Gets(B)] + es;
    es := ExtSentThen(y, x, es);
  }

  lemma ExtStalls(y: System) returns (es: seq<Event>)
    requires Started(y) && y.b.kind == Open && CanSendExt(y.a)
    requires y.b.w.localMax > 0 && 0 < y.b.w.localMaxpacket
    ensures Starves(y, es)
  {
    var y1 := System(Confirmed(y), y.b, [], []);
    ConfirmStep(y);
    if WantsExt(y.b) { es := BreakExt(y1); } else { es := DrainAll(y1); }
    Unfold(y, Gets(A), y1, es);
    es := [Gets(A)] + es;
  }

  /** An end that has no extended data and will read none. */
  predicate Mute(c: Chan) { c.kind != Larval && !CanSendExt(c) && OutboundExt(c.b) == [] }

  /** A receiver that has lost nothing. */
  predicate Lossless(c: Chan) {
    && c.kind != Larval && c.kind != Opening
    && (c.kind == Open ==> c.h.dropped == 0 && InboundExt(c.b) == [])
  }

  ghost predicate Extless(y: System, d: Side) {
    Mute(End(y, d)) && ExtOf(Sent(y, d)) == [] && Lossless(End(y, Peer(d)))
  }

  lemma ReadMute(c: Chan, r: ReadResult)
    requires Mute(c)
    ensures Mute(HandleRfd(c, r)) && Mute(HandleEfdRead(c, r))
  {
  }

  lemma PerformMute(c: Chan, a: Act)
    requires Enabled(c, a) && Mute(c)
    ensures var r := Perform(c, a); Mute(r.c) && ExtOf(r.out) == []
  {
    match a {
      case RfdReady(r) => ReadMute(c, r);
      case EfdReadReady(r) => ReadMute(c, r);
      case WfdReady(w) => WfdFlowless(c, w); WfdMute(c, w);
      case DoCheckWindow => AdjustPayload(c.w.consumed);
      case DoPollInput => PollMute(c);
      case DoCollect(u) => CollectFlowless(c, u); CollectWindows(c, u);
      case DoForceClose => ForceCloseFlowless(c); ForceCloseFields(c);
      case _ =>
    }
  }

  lemma WfdMute(c: Chan, w: WriteResult)
    requires Mute(c)
    ensures Mute(HandleWfd(c, w).c)
  {
  }

  lemma PollMute(c: Chan)
    requires Mute(c)
    ensures Mute(PollInput(c).c) && ExtOf(PollInput(c).out) == []
  {
    var d := c.b.input[..SendLimit(c.w, |c.b.input|)];
    assert [Data(d)][1..] == [] && [Eof][1..] == [];
  }

  lemma ReceiveMute(c: Chan, m: Msg)
    requires Mute(c)
    ensures Mute(Receive(c, m).c)
  {
  }

  lemma PerformLossless(c: Chan, a: Act)
    requires Enabled(c, a) && Lossless(c)
    ensures Lossless(Perform(c, a).c)
  {
    match a {
      case DoCollect(u) => CollectWindows(c, u);
      case DoForceClose => ForceCloseFields(c);
      case _ =>
    }
  }

  lemma ReceiveLossless(x: Chan, y: Chan, inq: seq<Msg>, outq: seq<Msg>)
    requires Joint(x, y, inq, outq) && Lossless(x) && inq != [] && ExtIn(inq[0]) == []
    ensures Lossless(Receive(x, inq[0]).c)
  {
    var m := inq[0];
    if x.kind != Open {
      ClosedLossless(x, m);
    } else if m.Data? {
      if x.st.ostate == OOpen { AcceptDataKeeps(x, y, inq, outq); }
      DataLossless(x, m.bytes);
    } else if m.Ext? {
      NoExtLossless(x);
    } else {
      ControlLossless(x, m);
    }
  }

  lemma ClosedLossless(c: Chan, m: Msg)
    requires Lossless(c) && c.kind != Open
    ensures Lossless(Receive(c, m).c)
  {
  }

  lemma DataLossless(c: Chan, d: seq<byte>)
    requires Lossless(c) && c.kind == Open
    requires c.st.ostate == OOpen ==> |d| <= c.w.localMaxpacket && |d| <= c.w.local
    ensures Lossless(InputData(c, d).c)
  {
  }

  lemma NoExtLossless(c: Chan)
    requires Lossless(c) && c.kind == Open
    ensures Lossless(InputExtendedData(c, SSH2_EXTENDED_DATA_STDERR, []).c)
  {
  }

  lemma ControlLossless(c: Chan, m: Msg)
    requires Lossless(c) && c.kind == Open && !Payload(m)
    ensures Lossless(Receive(c, m).c)
  {
  }

  lemma ExtlessNow(z: System, d: Side, s: Chan, r: Chan, q: seq<Msg>)
    requires End(z, d) == s && End(z, Peer(d)) == r && Sent(z, d) == q
    requires Mute(s) && Lossless(r) && ExtOf(q) == []
    ensures Extless(z, d)
  {
  }

  lemma ActsExtless(y: System, d: Side, side: Side, act: Act)
    requires Extless(y, d) && Enabled(End(y, side), act)
    ensures Extless(Next(y, Acts(side, act)), d)
  {
    var s, r, q := End(y, d), End(y, Peer(d)), Sent(y, d);
    ActsShape(y, side, act);
    if side == d {
      PerformMute(s, act);
      PayloadConcat(q, Perform(s, act).out);
      ExtlessNow(Next(y, Acts(d, act)), d, Perform(s, act).c, r, q + Perform(s, act).out);
    } else {
      PerformLossless(r, act);
      ExtlessNow(Next(y, Acts(side, act)), d, s, Perform(r, act).c, q);
    }
  }

  lemma GetsExtless(y: System, d: Side, side: Side)
    requires Inv(y) && Extless(y, d) && Sent(y, Peer(side)) != []
    ensures Extless(Next(y, Gets(side)), d)
  {
    if side == d { SenderGetsExtless(y, d); } else { ReceiverGetsExtless(y, d); }
  }

  lemma SenderGetsExtless(y: System, d: Side)
    requires Extless(y, d) && Sent(y, Peer(d)) != []
    ensures Extless(Next(y, Gets(d)), d)
  {
    var s, r, q, p := End(y, d), End(y, Peer(d)), Sent(y, d), Sent(y, Peer(d));
    GetsShape(y, d);
    ReceiveMute(s, p[0]);
    ReceiveFlowless(s, p[0]);
    PayloadConcat(q, Receive(s, p[0]).out);
    ExtlessNow(Next(y, Gets(d)), d, Receive(s, p[0]).c, r, q + Receive(s, p[0]).out);
  }

  lemma ReceiverGetsExtless(y: System, d: Side)
    requires Inv(y) && Extless(y, d) && Sent(y, d) != []
    ensures Extless(Next(y, Gets(Peer(d))), d)
  {
    var s, r, q, p := End(y, d), End(y, Peer(d)), Sent(y, d), Sent(y, Peer(d));
    GetsShape(y, Peer(d));
    InvSide(y, Peer(d));
    TakenFlow(q);
    ReceiveLossless(r, s, q, p);
    ExtlessNow(Next(y, Gets(Peer(d))), d, s, Receive(r, q[0]).c, q[1..]);
  }

  lemma {:induction false} ExtlessForever(y: System, d: Side, es: seq<Event>)
    requires Inv(y) && Extless(y, d) && Legal(y, es)
    ensures Extless(After(y, es), d)
    decreases |es|
  {
    if es != [] {
      match es[0] {
        case Acts(side, act) => ActsExtless(y, d, side, act);
        case Gets(side) => GetsExtless(y, d, side);
      }
      StepInv(y, es[0]);
      ExtlessForever(Next(y, es[0]), d, es[1..]);
    }
  }

  lemma LosslessIsTiny(y: System, es: seq<Event>)
    requires Started(y) && y.b.kind == Open && Starves(y, es) && !CanSendExt(y.a)
    ensures y.b.w.localMax <= 1
  {
    StartInv(y);
    RunInv(y, es);
    StartExtless(y);
    ExtlessForever(y, A, es);
    RunSize(y, es, B);
    SettledLossless(After(y, es));
  }

  lemma StartExtless(y: System)
    requires Started(y) && y.b.kind == Open && !CanSendExt(y.a)
    ensures Extless(y, A)
  {
  }

  lemma SettledLossless(z: System)
    requires Inv(z) && Settled(z, A) && Receives(z.b) && Extless(z, A) && z.a.w.remote == 0
    ensures z.b.w.localMax <= 1
  {
    SettledWindow(z, A);
    NothingOwed(z.b);
  }

  lemma NothingOwed(r: Chan)
    requires Receives(r) && !WindowDue(r) && r.w.local == 0 && r.w.consumed == r.w.localMax < U32
    ensures r.w.localMax <= 1
  {
  }

  /** With a peer that goes on receiving, the opener can be left without window for good exactly
      when its window is one byte or none, or when it may send extended data: what the peer does
      not want, or no longer can write, is never given back. */
  lemma LossesStarve(y: System)
    requires Started(y) && y.b.kind == Open && 0 < y.b.w.localMaxpacket < U32
    ensures (exists es :: Starves(y, es)) <==> y.b.w.localMax <= 1 || CanSendExt(y.a)
  {
    if exists es :: Starves(y, es) {
      var es :| Starves(y, es);
      if !CanSendExt(y.a) { LosslessIsTiny(y, es); }
    }
    if y.b.w.localMax == 0 {
      var es := NothingStalls(y);
    } else if y.b.w.localMax == 1 {
      var es := OneByteStalls(y, 0);
    } else if CanSendExt(y.a) {
      var es := ExtStalls(y);
    }
  }
}
