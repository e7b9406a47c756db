/**
 * Replies to global requests (clientloop.c): registrations wait in a queue in which
 * equal neighbours share one entry with a count. A callback may register again while
 * its own entry is still at the head. Replies must go out in the order of the requests
 * (section 4 of RFC 4254).
 */
module ReplyQueue {
  import opened Common

  /** A callback (0 for none) and its context. */
  datatype Waiter = Waiter(cb: nat, ctx: nat)

  /** A queue entry: gc with its ref_count. */
  datatype Entry = Entry(w: Waiter, count: nat)

  // ----- the queue as a run-length encoding

  function Repeat(w: Waiter, n: nat): (r: seq<Waiter>)
    ensures |r| == n
  {
    if n == 0 then [] else [w] + Repeat(w, n - 1)
  }

  /** The registrations an encoded queue stands for. */
  function Expand(q: seq<Entry>): seq<Waiter> {
    if q == [] then [] else Repeat(q[0].w, q[0].count) + Expand(q[1..])
  }

  /** Counts are between 1 and INT_MAX - 1 and neighbours differ. */
  predicate Coalesced(q: seq<Entry>) {
    q == [] ||
    (0 < q[0].count < INT_MAX && (|q| > 1 ==> q[0].w != q[1].w) && Coalesced(q[1..]))
  }

  lemma {:induction false} RepeatGrows(w: Waiter, n: nat)
    ensures Repeat(w, n + 1) == Repeat(w, n) + [w]
  {
    if n > 0 { RepeatGrows(w, n - 1); }
  }

  lemma {:induction false} ExpandSnoc(q: seq<Entry>, e: Entry)
    ensures Expand(q + [e]) == Expand(q) + Repeat(e.w, e.count)
  {
    if q == [] {
      assert [e][1..] == [] && q + [e] == [e];
    } else {
      assert (q + [e])[1..] == q[1..] + [e];
      ExpandSnoc(q[1..], e);
    }
  }

  lemma {:induction false} CoalescedSnoc(q: seq<Entry>, e: Entry)
    ensures Coalesced(q + [e]) <==>
            Coalesced(q) && 0 < e.count < INT_MAX && (q != [] ==> q[|q| - 1].w != e.w)
  {
    if q == [] {
      assert q + [e] == [e] && [e][1..] == [];
    } else {
      var t := q + [e];
      assert t[1..] == q[1..] + [e] && t[0] == q[0];
      assert |q| > 1 ==> t[1] == q[1] && q[1..][|q| - 2] == q[|q| - 1];
      CoalescedSnoc(q[1..], e);
    }
  }

  /** Length of the first run of equal waiters. */
  function Lead(s: seq<Waiter>): nat {
    if |s| <= 1 then |s| else if s[0] == s[1] then 1 + Lead(s[1..]) else 1
  }

  lemma {:induction false} LeadOf(w: Waiter, n: nat, t: seq<Waiter>)
    requires n > 0 && (t == [] || t[0] != w)
    ensures Lead(Repeat(w, n) + t) == n
  {
    var s := Repeat(w, n) + t;
    assert s[0] == w && s[1..] == Repeat(w, n - 1) + t;
    if n > 1 { LeadOf(w, n - 1, t); }
  }

  lemma ExpandHead(q: seq<Entry>)
    requires Coalesced(q) && q != []
    ensures Expand(q) != [] && Expand(q)[0] == q[0].w
  {
  }

  /** The first entry is the first run of the registrations. */
  lemma HeadEntry(q: seq<Entry>)
    requires Coalesced(q) && q != []
    ensures Lead(Expand(q)) == q[0].count <= |Expand(q)|
    ensures Expand(q)[q[0].count..] == Expand(q[1..])
  {
    if |q| > 1 { ExpandHead(q[1..]); }
    LeadOf(q[0].w, q[0].count, Expand(q[1..]));
  }

  /** A coalesced queue is the only one for its registrations: counts cannot drift. */
  lemma {:induction false} CoalescedIsUnique(p: seq<Entry>, q: seq<Entry>)
    requires Coalesced(p) && Coalesced(q) && Expand(p) == Expand(q)
    ensures p == q
  {
    if p != [] { ExpandHead(p); }
    if q != [] { ExpandHead(q); }
    if p != [] {
      HeadEntry(p);
      HeadEntry(q);
      CoalescedIsUnique(p[1..], q[1..]);
      assert p == [p[0]] + p[1..] && q == [q[0]] + q[1..];
    }
  }

  // ----- the operations

  /** client_register_global_confirm; None: fatal, the count would reach INT_MAX. */
  function Push(q: seq<Entry>, w: Waiter): Option<seq<Entry>> {
    var n := |q| - 1;
    if q != [] && q[n].w == w then
      if q[n].count + 1 >= INT_MAX then None else Some(q[n := Entry(w, q[n].count + 1)])
    else Some(q + [Entry(w, 1)])
  }

  function PushAll(q: seq<Entry>, ws: seq<Waiter>): (r: Option<seq<Entry>>)
    ensures q != [] && r.Some? ==> r.value != []
    decreases |ws|
  {
    if ws == [] then Some(q)
    else
      match Push(q, ws[0])
      case None => None
      case Some(q') => PushAll(q', ws[1..])
  }

  /** Take one reply off the head entry, and the entry with its last. */
  function Pop(q: seq<Entry>): seq<Entry>
    requires q != []
  {
    if q[0].count as int - 1 <= 0 then q[1..] else q[0 := Entry(q[0].w, q[0].count - 1)]
  }

  lemma PushAppends(q: seq<Entry>, w: Waiter)
    requires Coalesced(q)
    ensures match Push(q, w)
      case None => |Expand(q)| >= INT_MAX - 1
      case Some(q') => Coalesced(q') && Expand(q') == Expand(q) + [w] && q' != [] &&
                       (q != [] ==> q'[0].w == q[0].w)
  {
    if q != [] && q[|q| - 1].w == w {
      assert q == q[..|q| - 1] + [q[|q| - 1]];
      PushCounts(q[..|q| - 1], q[|q| - 1]);
    } else {
      PushNew(q, w);
    }
  }

  /** The case of another waiter at the tail. */
  lemma {:induction false} PushNew(q: seq<Entry>, w: Waiter)
    requires Coalesced(q) && (q != [] ==> q[|q| - 1].w != w)
    ensures var q' := q + [Entry(w, 1)]; Coalesced(q') && Expand(q') == Expand(q) + [w]
  {
    ExpandSnoc(q, Entry(w, 1));
    CoalescedSnoc(q, Entry(w, 1));
    RepeatGrows(w, 0);
  }

  /** The case of an equal waiter at the tail. */
  lemma PushCounts(p: seq<Entry>, e: Entry)
    requires Coalesced(p + [e])
    ensures match Push(p + [e], e.w)
      case None => |Expand(p + [e])| >= INT_MAX - 1
      case Some(q') => Coalesced(q') && Expand(q') == Expand(p + [e]) + [e.w] &&
                       q'[0].w == (p + [e])[0].w
  {
    var q, e' := p + [e], Entry(e.w, e.count + 1);
    assert q[|q| - 1] == e;
    ExpandSnoc(p, e);
    CoalescedSnoc(p, e);
    if e.count + 1 < INT_MAX {
      assert q[|q| - 1 := e'] == p + [e'];
      ExpandSnoc(p, e');
      CoalescedSnoc(p, e');
      RepeatGrows(e.w, e.count);
      assert Expand(p) + (Repeat(e.w, e.count) + [e.w]) == (Expand(p) + Repeat(e.w, e.count)) + [e.w];
    }
  }

  lemma {:induction false} PushAllAppends(q: seq<Entry>, ws: seq<Waiter>)
    requires Coalesced(q)
    ensures match PushAll(q, ws)
      case None => |Expand(q)| + |ws| >= INT_MAX
      case Some(q') => Coalesced(q') && Expand(q') == Expand(q) + ws &&
                       (q != [] ==> q' != [] && q'[0].w == q[0].w)
    decreases |ws|
  {
    if ws == [] {
      assert Expand(q) + ws == Expand(q);
    } else {
      PushAppends(q, ws[0]);
      match Push(q, ws[0])
      case None =>
      case Some(q1) =>
        PushAllAppends(q1, ws[1..]);
        assert (Expand(q) + [ws[0]]) + ws[1..] == Expand(q) + ws;
    }
  }

  lemma PopDropsHead(q: seq<Entry>)
    requires Coalesced(q) && q != []
    ensures Coalesced(Pop(q)) && Expand(q) == [q[0].w] + Expand(Pop(q))
  {
  }

  // ----- runs

  /**
   * A registration, or a reply together with what the callback it reaches registers. No
   * callback, no registrations.
   */
  datatype Event = Register(w: Waiter) | Reply(again: seq<Waiter>)

  /** The queue, and for the statement all registrations and all waiters served so far. */
  datatype State = State(q: seq<Entry>, registered: seq<Waiter>, served: seq<Waiter>)

  function Again(q: seq<Entry>, again: seq<Waiter>): seq<Waiter>
    requires q != []
  {
    if q[0].w.cb != 0 then again else []
  }

  /** client_global_request_reply: the callback runs before the count goes down. */
  function AfterReply(q: seq<Entry>, again: seq<Waiter>): Option<seq<Entry>> {
    if q == [] then Some(q)
    else
      match PushAll(q, Again(q, again))
      case None => None
      case Some(q') => Some(Pop(q'))
  }

  function Step(s: State, e: Event): Option<State> {
    match e
    case Register(w) =>
      (match Push(s.q, w)
       case None => None
       case Some(q) => Some(State(q, s.registered + [w], s.served)))
    case Reply(again) =>
      match AfterReply(s.q, again)
      case None => None
      case Some(q) =>
        if s.q == [] then Some(s)
        else Some(State(q, s.registered + Again(s.q, again), s.served + [s.q[0].w]))
  }

  function Run(s: State, es: seq<Event>): Option<State>
    decreases |es|
  {
    if es == [] then Some(s)
    else
      match Step(s, es[0])
      case None => None
      case Some(s') => Run(s', es[1..])
  }

  /** What has been served, then what waits, is what was registered. */
  ghost predicate Inv(s: State) {
    Coalesced(s.q) && s.registered == s.served + Expand(s.q)
  }

  lemma AfterReplyServesHead(q: seq<Entry>, again: seq<Waiter>)
    requires Coalesced(q) && q != []
    ensures match AfterReply(q, again)
      case None => |Expand(q)| + |again| >= INT_MAX
      case Some(q') => Coalesced(q') && Expand(q) + Again(q, again) == [q[0].w] + Expand(q')
  {
    PushAllAppends(q, Again(q, again));
    match PushAll(q, Again(q, again))
    case None =>
    case Some(q') => PopDropsHead(q');
  }

  lemma StepKeeps(s: State, e: Event)
    requires Inv(s)
    ensures Step(s, e).Some? ==> Inv(Step(s, e).value)
    ensures Step(s, e).Some? ==> s.registered <= Step(s, e).value.registered
    ensures Step(s, e).Some? ==> s.served <= Step(s, e).value.served
  {
    match e
    case Register(w) =>
      PushAppends(s.q, w);
      assert s.served + (Expand(s.q) + [w]) == (s.served + Expand(s.q)) + [w];
    case Reply(again) =>
      if s.q != [] {
        AfterReplyServesHead(s.q, again);
        var a, h := Again(s.q, again), [s.q[0].w];
        match AfterReply(s.q, again)
        case None =>
        case Some(q) =>
          assert (s.served + Expand(s.q)) + a == s.served + (h + Expand(q));
          assert s.served + (h + Expand(q)) == (s.served + h) + Expand(q);
      }
  }

  lemma {:induction false} RunKeeps(s: State, es: seq<Event>)
    requires Inv(s)
    ensures Run(s, es).Some? ==> Inv(Run(s, es).value)
    decreases |es|
  {
    if es != [] {
      StepKeeps(s, es[0]);
      match Step(s, es[0])
      case None =>
      case Some(s') => RunKeeps(s', es[1..]);
    }
  }

  /** For every interleaving, the k-th reply goes to the k-th registration. */
  lemma RepliesInOrder(es: seq<Event>)
    ensures match Run(State([], [], []), es)
      case None => true
      case Some(s) => |s.served| <= |s.registered| &&
                      (forall k :: 0 <= k < |s.served| ==> s.served[k] == s.registered[k]) &&
                      s.registered[|s.served|..] == Expand(s.q)
  {
    RunKeeps(State([], [], []), es);
  }

  /** No reply is lost: it serves a waiter exactly when one waits. */
  lemma ReplyServesOne(s: State, again: seq<Waiter>)
    requires Inv(s) && Step(s, Reply(again)).Some?
    ensures |Step(s, Reply(again)).value.served| ==
            |s.served| + if |s.served| < |s.registered| then 1 else 0
  {
  }

  /** Registrations that an event makes at most. */
  function Asked(es: seq<Event>): nat {
    if es == [] then 0
    else (match es[0] case Register(_) => 1 case Reply(again) => |again|) + Asked(es[1..])
  }

  /** The fatal branch needs INT_MAX registrations. */
  lemma {:induction false} FatalNeedsManyRegistrations(s: State, es: seq<Event>)
    requires Inv(s) && |s.registered| + Asked(es) < INT_MAX
    ensures Run(s, es).Some?
    decreases |es|
  {
    if es != [] {
      var e := es[0];
      StepKeeps(s, e);
      assert |s.registered| == |s.served| + |Expand(s.q)|;
      match e {
        case Register(w) => PushAppends(s.q, w);
        case Reply(again) => if s.q != [] { AfterReplyServesHead(s.q, again); }
      }
      FatalNeedsManyRegistrations(Step(s, e).value, es[1..]);
    }
  }

  // ----- the queue changed in place

  class Confirms {
    var q: seq<Entry>

    constructor ()
      ensures q == []
    {
      q := [];
    }

    /** client_register_global_confirm; false: fatal. */
    method Register(w: Waiter) returns (ok: bool)
      modifies this
      ensures ok <==> Push(old(q), w).Some?
      ensures ok ==> q == Push(old(q), w).value
      ensures !ok ==> PushAll(old(q), [w]) == None
    {
      if |q| > 0 && q[|q| - 1].w == w {
        q := q[|q| - 1 := Entry(w, q[|q| - 1].count + 1)];
        return q[|q| - 1].count < INT_MAX;
      }
      q := q + [Entry(w, 1)];
      ok := true;
    }

    /** client_global_request_reply, with what the callback registers. */
    method Reply(again: seq<Waiter>) returns (ok: bool)
      requires Coalesced(q)
      modifies this
      ensures ok <==> AfterReply(old(q), again).Some?
      ensures ok ==> q == AfterReply(old(q), again).value && Coalesced(q)
    {
      if q == [] { return true; }
      ghost var q0 := q;
      AfterReplyServesHead(q0, again);
      PushAllAppends(q0, Again(q0, again));
      if q[0].w.cb != 0 {
        var i := 0;
        assert again[0..] == again;
        while i < |again|
          invariant 0 <= i <= |again|
          invariant PushAll(q, again[i..]) == PushAll(q0, again)
        {
          assert again[i..][1..] == again[i + 1..];
          ok := Register(again[i]);
          if !ok { return; }
          i := i + 1;
        }
      }
      q := q[0 := Entry(q[0].w, q[0].count - 1)];
      if q[0].count <= 0 { q := q[1..]; }
      ok := true;
    }
  }
}
