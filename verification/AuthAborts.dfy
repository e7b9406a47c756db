/**
 * The abort in auth2_update_methods_lists for a configuration with one method list: exactly
 * which lists let some client reach it.
 */
module AuthAborts {
  import opened Common
  import opened AuthLists
  import opened AuthDialogue
  import opened AuthRuns

  /** A token that asks for a submethod of a method that has none. */
  predicate Stray(t: string) { ':' in t && Base(t) != KBDINT }

  /** Some credential makes the method succeed; "none" works once, and with empty passwords. */
  predicate Works(cfg: Config, name: string, noneLeft: bool) {
    name == NONE ==> noneLeft && cfg.permitEmptyPassword && cfg.password
  }

  predicate Usable(cfg: Config, d: string) { d != "" && d in cfg.devices }

  /** Some success takes the token off the list. */
  ghost predicate Passable(cfg: Config, t: string, noneLeft: bool) {
    if ':' in t then exists d :: Usable(cfg, d) && t == Qualified(KBDINT, d)
    else if t == KBDINT then exists d :: Usable(cfg, d)
    else Works(cfg, t, noneLeft)
  }

  /** A stray token comes up within n requests, and its method works when it does. */
  ghost predicate Aborts(cfg: Config, ts: seq<string>, n: nat, noneLeft: bool)
    decreases |ts|
  {
    ts != [] && n > 0 &&
    if Stray(ts[0]) then Works(cfg, Base(ts[0]), noneLeft)
    else Passable(cfg, ts[0], noneLeft) && Aborts(cfg, ts[1..], n - 1, noneLeft && ts[0] != NONE)
  }

  lemma {:induction false} AbortsMore(cfg: Config, ts: seq<string>, n: nat, n': nat, left: bool,
                                      left': bool)
    requires Aborts(cfg, ts, n, left) && n <= n' && (left ==> left')
    ensures Aborts(cfg, ts, n', left')
    decreases |ts|
  {
    if !Stray(ts[0]) {
      AbortsMore(cfg, ts[1..], n - 1, n' - 1, left && ts[0] != NONE, left' && ts[0] != NONE);
    }
  }

  // ----- what one success does to the one list

  lemma AcceptOne(cfg: Config, a: Auth, s: string, name: string, sub: Option<string>, key: Option<nat>)
    requires Live(a) && a.l.multi && a.l.now == [s] && s != ""
    requires Known(name) && (sub.Some? ==> ',' !in sub.value)
    ensures var r := Accept(cfg, a, name, sub, key);
      if !Satisfies(Head(s), Entry(name, sub, None)) then r.stop == Some(NotInMethodLists)
      else if Tail(s) == "" then r.success && r.stop == None
      else
        && !r.success && r.l == a.l.(now := [Tail(s)]) && r.stop != Some(NotInMethodLists)
        && (a.failures < cfg.maxAuthtries ==> r.stop == None && r.failures == a.failures)
    ensures Unmoved(a, Accept(cfg, a, name, sub, key))
  {
    KnownIsPlain(name);
    UpdateOne(s, name, sub);
    var u := UpdateLists([s], name, sub);
    var a1 := a.(log := a.log + [Entry(name, sub, key)], l := a.l.(now := u.lists));
    assert Accept(cfg, a, name, sub, key) == Judge(cfg, a1, u.completed, u.found, name);
  }

  lemma UpdateOne(s: string, name: string, sub: Option<string>)
    requires Plain(name) && (sub.Some? ==> ',' !in sub.value) && s != ""
    ensures UpdateLists([s], name, sub) ==
      if Satisfies(Head(s), Entry(name, sub, None)) then Update([Tail(s)], Tail(s) == "", true)
      else Update([s], false, false)
  {
    RemoveIsTail(s, name, sub);
    assert [s][1..] == [] && UpdateLists([], name, sub) == Update([], false, false);
  }

  /** What accepting a method leaves alone. */
  predicate Unmoved(a: Auth, b: Auth) {
    && b.attempt == a.attempt && b.who == a.who && b.noneEnabled == a.noneEnabled
    && b.registered == a.registered && b.kbd == a.kbd && b.prevKeys == a.prevKeys
  }

  // ----- no other list leads there

  /** A dialogue that goes on with one list, of which `s` is left. */
  ghost predicate One(cfg: Config, a: Auth, s: string) {
    && Live(a) && 0 < a.attempt <= MAX_ATTEMPTS
    && a.l.multi && a.l.now == [s] && s != "" && NonEmptyTokens(s)
    && (a.registered ==> Named(cfg, a))
  }

  /** The device that is asked has a name, and the list allows it. */
  predicate Named(cfg: Config, a: Auth) {
    Ready(cfg, a) && DeviceName(cfg, a.kbd.value) != ""
    && Allowed(a.l, KBDINT, Some(DeviceName(cfg, a.kbd.value)))
  }

  /** Requests still to come, and the dialogue in progress. */
  function Budget(a: Auth): nat
    requires a.attempt <= MAX_ATTEMPTS
  {
    MAX_ATTEMPTS - a.attempt + if a.registered then 1 else 0
  }

  ghost predicate Hope(cfg: Config, a: Auth)
    requires a.attempt <= MAX_ATTEMPTS && a.l.now != []
  {
    Aborts(cfg, Todo(a.l.now[0]), Budget(a), a.noneEnabled)
  }

  /** From `b` on an abort is possible only if it was with `n` tokens to go and `s` left. */
  ghost predicate NoNewHope(cfg: Config, s: string, n: nat, left: bool, b: Auth) {
    && (b.stop == Some(NotInMethodLists) ==> Aborts(cfg, Todo(s), n, left))
    && (Live(b) ==> b.l.now != [] && One(cfg, b, b.l.now[0])
                    && (Hope(cfg, b) ==> Aborts(cfg, Todo(s), n, left)))
  }

  lemma {:induction false} PickNamed(devices: seq<string>, l: Lists, token: string, i: nat, p: Pick)
    requires i <= |devices|
    requires p.device.Some? ==> p.device.value < |devices| && devices[p.device.value] == token
    ensures var q := PickDevice(devices, l, token, i, p);
      q.device.Some? ==> q.device.value < |devices| && devices[q.device.value] == token
    decreases |devices| - i
  {
    if i < |devices| {
      if i in p.done || !Allowed(l, KBDINT, Some(devices[i])) || devices[i] != token {
        PickNamed(devices, l, token, i + 1, p);
      } else {
        PickNamed(devices, l, token, i + 1, Pick(Some(i), p.done + {i}));
      }
    }
  }

  lemma {:induction false} NextNamed(devices: seq<string>, l: Lists, todo: Option<string>, done: set<nat>)
    ensures var k := NextDevice(devices, l, todo, done);
      k.device.Some? ==> k.device.value < |devices| && devices[k.device.value] != ""
    decreases if todo.Some? then |todo.value| + 1 else 0
  {
    if todo.Some? && Head(todo.value) != "" {
      var p := PickDevice(devices, l, Head(todo.value), 0, Pick(None, done));
      PickNamed(devices, l, Head(todo.value), 0, Pick(None, done));
      if p.device.None? { NextNamed(devices, l, AfterHead(todo.value), p.done); }
    }
  }

  lemma ChallengeNamed(cfg: Config, a: Auth, k: Kbdint, ready: bool)
    ensures var b := ChallengeStart(cfg, a, k, ready);
      && (b.registered ==> Named(cfg, b))
      && b.l == a.l && b.attempt == a.attempt && b.noneEnabled == a.noneEnabled
      && b.stop == a.stop && b.success == a.success && b.who == a.who && b.failures == a.failures
  {
    NextNamed(cfg.devices, a.l, k.devices, k.done);
    NextIsAllowed(cfg.devices, a.l, k.devices, k.done);
  }

  /** Nothing was taken off the list. */
  lemma SameListHopes(cfg: Config, a: Auth, s: string, n: nat, left: bool, b: Auth)
    requires One(cfg, a, s) && b.l == a.l && b.attempt == a.attempt
    requires Budget(b) <= n && (b.noneEnabled ==> left) && b.stop != Some(NotInMethodLists)
    requires b.registered ==> Named(cfg, b)
    ensures NoNewHope(cfg, s, n, left, b)
  {
    if Live(b) && Hope(cfg, b) {
      AbortsMore(cfg, Todo(s), Budget(b), n, b.noneEnabled, left);
    }
  }

  /** The head was taken off. */
  lemma TakenHopes(cfg: Config, a: Auth, s: string, n: nat, left: bool, name: string,
                   sub: Option<string>, key: Option<nat>)
    requires One(cfg, a, s) && !a.registered && n == MAX_ATTEMPTS - a.attempt + 1
    requires Known(name) && (sub.Some? ==> ',' !in sub.value)
    requires a.noneEnabled ==> left && name != NONE
    requires Satisfies(Head(s), Entry(name, sub, None)) && !Stray(Head(s))
    requires Passable(cfg, Head(s), left) && (Head(s) == NONE ==> name == NONE)
    ensures NoNewHope(cfg, s, n, left, Accept(cfg, a, name, sub, key))
  {
    var b := Accept(cfg, a, name, sub, key);
    AcceptOne(cfg, a, s, name, sub, key);
    TailDropsHead(s);
    if Live(b) && Hope(cfg, b) { TailHope(cfg, Todo(s), n, left, Budget(b), b.noneEnabled); }
  }

  lemma TailHope(cfg: Config, ts: seq<string>, n: nat, left: bool, n': nat, left': bool)
    requires ts != [] && !Stray(ts[0]) && Passable(cfg, ts[0], left)
    requires Aborts(cfg, ts[1..], n', left') && n' < n && (left' ==> left && ts[0] != NONE)
    ensures Aborts(cfg, ts, n, left)
  {
    AbortsMore(cfg, ts[1..], n', n - 1, left', left && ts[0] != NONE);
  }

  /** The head was not recognised. */
  lemma StrayHopes(cfg: Config, a: Auth, s: string, n: nat, left: bool, name: string, key: Option<nat>)
    requires One(cfg, a, s) && n > 0 && Known(name) && !Satisfies(Head(s), Entry(name, None, None))
    requires Stray(Head(s)) && Works(cfg, Base(Head(s)), left)
    ensures NoNewHope(cfg, s, n, left, Accept(cfg, a, name, None, key))
  {
    AcceptOne(cfg, a, s, name, None, key);
    assert Todo(s)[0] == Head(s);
  }

  /** A request that may be tried, when its handler has an answer. */
  lemma SuccessHopes(cfg: Config, a: Auth, s: string, n: nat, name: string, c: Credential, m: Message)
    requires One(cfg, a, s) && !a.registered && n == MAX_ATTEMPTS - a.attempt + 1
    requires m.Request? && Lookup(cfg, a, m.name) == Some(name)
    requires Userauth(cfg, a, name, c).authenticated && !m.rootRefused
    ensures var t := Userauth(cfg, a, name, c);
      NoNewHope(cfg, s, n, a.noneEnabled, Accept(cfg, t.a, name, None, t.key))
  {
    var t := Userauth(cfg, a, name, c);
    LookupMeans(cfg, a, s, m.name, name);
    TriedOne(cfg, a, s, name, c);
    if Head(s) == name {
      NoColon(name);
      TakenHopes(cfg, t.a, s, n, a.noneEnabled, name, None, t.key);
    } else {
      BaseOfPrefix(Head(s), name);
      StrayHopes(cfg, t.a, s, n, a.noneEnabled, name, t.key);
    }
  }

  lemma NoColon(name: string)
    requires Known(name)
    ensures ':' !in name && ',' !in name
  {
  }

  /** A method may be tried if the list begins with it, with or without a submethod. */
  lemma LookupMeans(cfg: Config, a: Auth, s: string, packetName: string, name: string)
    requires a.l.multi && a.l.now == [s] && Lookup(cfg, a, packetName) == Some(name)
    ensures Known(name) && Plain(name) && (name == NONE ==> a.noneEnabled)
    ensures Head(s) == name || name + ":" <= Head(s)
  {
    OfferedIsKnown(cfg, a.noneEnabled, name);
    StartsWithHead(s, name, None);
    assert [s][1..] == [] && !SomeListStarts([], name, None);
    if name == NONE { assert Cfgs(cfg, a.noneEnabled)[0].enabled == a.noneEnabled; }
  }

  /** What the handlers leave, and what their success needs. */
  lemma TriedOne(cfg: Config, a: Auth, s: string, name: string, c: Credential)
    requires One(cfg, a, s) && !a.registered && Known(name)
    ensures var t := Userauth(cfg, a, name, c);
      && t.a.l == a.l && t.a.attempt == a.attempt && (t.a.noneEnabled ==> a.noneEnabled)
      && (t.a.registered ==> Named(cfg, t.a)) && t.a.stop != Some(NotInMethodLists)
      && (t.authenticated ==>
            && One(cfg, t.a, s) && !t.a.registered && name != KBDINT
            && (name == NONE ==> !t.a.noneEnabled && cfg.permitEmptyPassword && cfg.password))
  {
    match c {
      case Interactive(devs, ready) =>
        var todo := if devs == "" then JoinNames(cfg.devices) else devs;
        ChallengeNamed(cfg, a, Kbdint(Some(todo), None, {}), ready);
      case _ =>
    }
  }

  lemma TryHopes(cfg: Config, a: Auth, s: string, n: nat, m: Message)
    requires One(cfg, a, s) && !a.registered && !a.postponed && n == MAX_ATTEMPTS - a.attempt + 1
    requires m.Request?
    ensures NoNewHope(cfg, s, n, a.noneEnabled, TryMethod(cfg, a, m))
  {
    var name := Lookup(cfg, a, m.name);
    if name.Some? && a.failures < cfg.maxAuthtries {
      var t := Userauth(cfg, a, name.value, m.cred);
      OfferedIsKnown(cfg, a.noneEnabled, name.value);
      TriedOne(cfg, a, s, name.value, m.cred);
      if t.authenticated && !m.rootRefused && t.a.who.valid && !t.a.postponed {
        SuccessHopes(cfg, a, s, n, name.value, m.cred, m);
      } else {
        FinishSame(cfg, t, m.name, m.rootRefused);
        SameListHopes(cfg, a, s, n, a.noneEnabled, TryMethod(cfg, a, m));
      }
    } else {
      FinishSame(cfg, Tried(a, false, None), m.name, m.rootRefused);
      SameListHopes(cfg, a, s, n, a.noneEnabled, TryMethod(cfg, a, m));
    }
  }

  /** Without a success that counts the list stays. */
  lemma FinishSame(cfg: Config, t: Tried, packetName: string, rootRefused: bool)
    requires t.authenticated ==> rootRefused || !t.a.who.valid || t.a.postponed
    requires t.a.stop != Some(NotInMethodLists)
    ensures var b := Finish(cfg, t, packetName, None, rootRefused);
      && b.l == t.a.l && b.attempt == t.a.attempt && b.noneEnabled == t.a.noneEnabled
      && b.registered == t.a.registered && b.kbd == t.a.kbd && b.stop != Some(NotInMethodLists)
  {
  }

  /** A device that may be asked names the head of the list. */
  lemma DeviceIsHead(cfg: Config, a: Auth, s: string, d: string)
    requires a.l.multi && a.l.now == [s] && Allowed(a.l, KBDINT, Some(d)) && ',' !in d && Usable(cfg, d)
    ensures Satisfies(Head(s), Entry(KBDINT, Some(d), None))
    ensures !Stray(Head(s)) && Passable(cfg, Head(s), a.noneEnabled) && Head(s) != NONE
  {
    KnownIsPlain(KBDINT);
    StartsWithHead(s, KBDINT, Some(d));
    assert [s][1..] == [] && !SomeListStarts([], KBDINT, Some(d));
    if Head(s) == KBDINT { NoColon(KBDINT); } else { QualifiedIsKbdint(d); }
  }

  lemma QualifiedIsKbdint(d: string)
    requires ',' !in d
    ensures ':' in Qualified(KBDINT, d) && Base(Qualified(KBDINT, d)) == KBDINT
  {
    QualifiedToken(KBDINT, d);
    assert Qualified(KBDINT, d)[|KBDINT|] == ':';
  }

  lemma AnswerHopes(cfg: Config, a: Auth, s: string, m: Message)
    requires One(cfg, a, s) && a.registered && DevicesOk(cfg) && m.InfoResponse?
    ensures NoNewHope(cfg, s, Budget(a), a.noneEnabled, OnInfoResponse(cfg, a, m))
  {
    var k := a.kbd.value;
    var d := DeviceName(cfg, k);
    var b := OnInfoResponse(cfg, a, m);
    if m.wellFormed && m.result == 0 && a.who.valid && !m.refused {
      var a1 := ChallengeStop(a.(postponed := false));
      DeviceIsHead(cfg, a, s, d);
      assert b == Accept(cfg, a1, KBDINT, Some(d), None);
      TakenHopes(cfg, a1, s, Budget(a), a.noneEnabled, KBDINT, Some(d), None);
    } else {
      ResponseSame(cfg, a, m);
      SameListHopes(cfg, a, s, Budget(a), a.noneEnabled, b);
    }
  }

  lemma ResponseSame(cfg: Config, a: Auth, m: Message)
    requires Live(a) && a.registered && Named(cfg, a) && m.InfoResponse?
    requires !(m.wellFormed && m.result == 0 && a.who.valid && !m.refused)
    ensures var b := OnInfoResponse(cfg, a, m);
      && b.l == a.l && b.attempt == a.attempt && b.noneEnabled == a.noneEnabled
      && b.stop != Some(NotInMethodLists) && (b.registered ==> Named(cfg, b))
  {
    var k := a.kbd.value;
    ChallengeNamed(cfg, a.(postponed := false), k, m.next);
    if m.wellFormed { AnsweredSame(cfg, a, k, m); }
  }

  lemma AnsweredSame(cfg: Config, a: Auth, k: Kbdint, m: Message)
    requires Live(a) && a.registered && Named(cfg, a) && a.kbd == Some(k) && m.InfoResponse?
    requires m.result != 0 || !a.who.valid || m.refused
    ensures var t := Tried(Answered(cfg, a, k, m), m.result == 0 && a.who.valid, None);
      var b := Finish(cfg, t, KBDINT, Some(DeviceName(cfg, k)), m.refused);
      && b.l == a.l && b.attempt == a.attempt && b.noneEnabled == a.noneEnabled
      && b.stop != Some(NotInMethodLists) && (b.registered ==> Named(cfg, b))
  {
    ChallengeNamed(cfg, a.(postponed := false), k, m.next);
  }

  lemma HopesMore(cfg: Config, s: string, n: nat, n': nat, left: bool, b: Auth)
    requires NoNewHope(cfg, s, n, left, b) && n <= n'
    ensures NoNewHope(cfg, s, n', left, b)
  {
    if Aborts(cfg, Todo(s), n, left) { AbortsMore(cfg, Todo(s), n, n', left, left); }
  }

  lemma StepHopes(cfg: Config, a: Auth, s: string, m: Message)
    requires One(cfg, a, s) && Possible(a, m) && DevicesOk(cfg)
    ensures NoNewHope(cfg, s, Budget(a), a.noneEnabled, Step(cfg, a, m))
  {
    if m.InfoResponse? {
      AnswerHopes(cfg, a, s, m);
    } else if a.attempt < MAX_ATTEMPTS {
      var a1 := LaterAdmit(a, UserPart(m.user), m.service);
      if a1.stop.None? {
        var a2 := ChallengeStop(a1).(postponed := false);
        TryHopes(cfg, a2, s, MAX_ATTEMPTS - a.attempt, m);
        HopesMore(cfg, s, MAX_ATTEMPTS - a.attempt, Budget(a), a.noneEnabled, TryMethod(cfg, a2, m));
      }
    }
  }

  lemma {:induction false} RunHopes(cfg: Config, a: Auth, s: string, ms: seq<Message>)
    requires One(cfg, a, s) && Legal(cfg, a, ms) && DevicesOk(cfg)
    requires After(cfg, a, ms).stop == Some(NotInMethodLists)
    ensures Hope(cfg, a)
    decreases |ms|
  {
    if ms != [] {
      var b := Step(cfg, a, ms[0]);
      StepHopes(cfg, a, s, ms[0]);
      if Live(b) { RunHopes(cfg, b, b.l.now[0], ms[1..]); }
    }
  }

  /** What the first request installs. */
  lemma FirstLists(cfg: Config, list: string)
    requires cfg.lists == [list] && list != "any"
    ensures SetupLists(cfg, true) ==
      if ListValid(list, Cfgs(cfg, true), true) then Some(Lists(true, [list], [list])) else None
  {
    assert [list][1..] == [] && Prune([], Cfgs(cfg, true)) == [];
    assert [list] + [] == [list];
  }

  /** The state in which the first request's method is tried. */
  function First(user: string, service: string, known: bool, list: string): Auth {
    Initial().(attempt := 1, who := Person(user, service, known && service == "ssh-connection"),
               l := Lists(true, [list], [list]))
  }

  lemma FirstStep(cfg: Config, list: string, m: Message)
    requires cfg.lists == [list] && list != "any" && m.Request?
    ensures Step(cfg, Initial(), m) ==
      if ListValid(list, Cfgs(cfg, true), true)
      then TryMethod(cfg, First(UserPart(m.user), m.service, m.known, list), m)
      else FirstAdmit(cfg, Initial(), UserPart(m.user), m.service, m.known)
    ensures !ListValid(list, Cfgs(cfg, true), true) ==> Step(cfg, Initial(), m).stop == Some(NoMethods)
  {
    FirstLists(cfg, list);
  }

  lemma FirstIsOne(cfg: Config, list: string, user: string, service: string, known: bool)
    requires ListValid(list, Cfgs(cfg, true), true)
    ensures One(cfg, First(user, service, known, list), list) && Todo(list) == Split(list)
  {
    ValidTracks(cfg, list);
  }

  lemma AbortedHadHope(cfg: Config, list: string, ms: seq<Message>)
    requires cfg.lists == [list] && list != "any" && DevicesOk(cfg)
    requires Legal(cfg, Initial(), ms) && After(cfg, Initial(), ms).stop == Some(NotInMethodLists)
    ensures ListValid(list, Cfgs(cfg, true), true) && Aborts(cfg, Split(list), MAX_ATTEMPTS, true)
  {
    var m := ms[0];
    FirstStep(cfg, list, m);
    var b := Step(cfg, Initial(), m);
    var a1 := First(UserPart(m.user), m.service, m.known, list);
    FirstIsOne(cfg, list, UserPart(m.user), m.service, m.known);
    TryHopes(cfg, a1, list, MAX_ATTEMPTS, m);
    if Live(b) { RunHopes(cfg, b, b.l.now[0], ms[1..]); }
  }

  // ----- and those lists do

  function Req(name: string, c: Credential): Message {
    Request("", "ssh-connection", name, true, false, c)
  }

  /** A request made by Req. */
  predicate Plainly(m: Message) { m.Request? && m == Req(m.name, m.cred) }

  ghost predicate AllOffered(cfg: Config, s: string) {
    forall t :: t in Todo(s) ==> Offered(Cfgs(cfg, true), Base(t), true)
  }

  /** A request of a valid user has been counted and its method is about to be tried. */
  ghost predicate Poised(cfg: Config, a: Auth, s: string) {
    && One(cfg, a, s) && !a.registered && !a.postponed && AllOffered(cfg, s)
    && a.failures == 0 < cfg.maxAuthtries && a.who == Person("", "ssh-connection", true)
  }

  lemma {:induction false} Larger(ks: seq<nat>) returns (k: nat)
    ensures forall i :: 0 <= i < |ks| ==> ks[i] < k
  {
    k := 0;
    if ks != [] {
      k := Larger(ks[1..]);
      k := if ks[0] < k then k else ks[0] + 1;
      forall i | 0 <= i < |ks| ensures ks[i] < k { if i > 0 { assert ks[i] == ks[1..][i - 1]; } }
    }
  }

  /** What is the same before and after a method that succeeds. */
  predicate SameDialogue(a: Auth, b: Auth) {
    && Live(b) && b.l == a.l && b.attempt == a.attempt && b.failures == a.failures && b.who == a.who
    && !b.registered && !b.postponed
  }

  /** Some credential makes a working method succeed. */
  lemma Credentials(cfg: Config, a: Auth, s: string, name: string) returns (c: Credential)
    requires Poised(cfg, a, s) && Known(name) && name != KBDINT && Works(cfg, name, a.noneEnabled)
    ensures var t := Userauth(cfg, a, name, c);
      && t.authenticated && SameDialogue(a, t.a)
      && t.a.noneEnabled == (a.noneEnabled && name != NONE)
  {
    if name == PUBLICKEY {
      var k := Larger(a.prevKeys);
      assert k !in a.prevKeys;
      c := Pubkey(PubkeyTry(Some(k), true, true, true, true, true, true));
    } else if name == HOSTBASED {
      c := HostKey(Some(0), true);
    } else {
      c := Secret(true);
    }
  }

  lemma OfferedStill(cfg: Config, noneEnabled: bool, name: string)
    requires Offered(Cfgs(cfg, true), name, true) && (name == NONE ==> noneEnabled)
    ensures Offered(Cfgs(cfg, noneEnabled), name, true)
  {
    var c, d := Cfgs(cfg, true), Cfgs(cfg, noneEnabled);
    if name != NONE {
      assert c[1..] == d[1..];
      assert Offered(c[1..], name, true);
    }
  }

  lemma MayBeTried(cfg: Config, a: Auth, s: string, name: string)
    requires Poised(cfg, a, s) && Known(name) && (name == NONE ==> a.noneEnabled)
    requires Base(Head(s)) == name && (Head(s) == name || name + ":" <= Head(s))
    ensures Lookup(cfg, a, name) == Some(name)
  {
    KnownIsPlain(name);
    assert Head(s) == Todo(s)[0];
    OfferedStill(cfg, a.noneEnabled, name);
    StartsWithHead(s, name, None);
  }

  /** The method's success is accepted. */
  lemma WholeMethod(cfg: Config, a: Auth, s: string, name: string) returns (m: Message, b: Auth)
    requires Poised(cfg, a, s) && Known(name) && name != KBDINT && Works(cfg, name, a.noneEnabled)
    requires Base(Head(s)) == name && (Head(s) == name || name + ":" <= Head(s))
    ensures Plainly(m) && m.name == name && SameDialogue(a, b)
    ensures b.noneEnabled == (a.noneEnabled && name != NONE)
    ensures exists key :: TryMethod(cfg, a, m) == Accept(cfg, b, name, None, key)
  {
    var c := Credentials(cfg, a, s, name);
    MayBeTried(cfg, a, s, name);
    m := Req(name, c);
    var t := Userauth(cfg, a, name, c);
    b := t.a;
    assert TryMethod(cfg, a, m) == Accept(cfg, b, name, None, t.key);
  }

  lemma TokenKnown(cfg: Config, s: string)
    requires AllOffered(cfg, s) && s != ""
    ensures Known(Base(Head(s))) && Plain(Base(Head(s)))
    ensures ':' in Head(s) ==> Base(Head(s)) + ":" <= Head(s)
    ensures ':' !in Head(s) ==> Base(Head(s)) == Head(s)
  {
    var h := Head(s);
    assert h == Todo(s)[0];
    OfferedIsKnown(cfg, true, Base(h));
    BaseParts(h);
  }

  lemma BaseParts(t: string)
    ensures ':' in t ==> Base(t) + ":" <= t
    ensures ':' !in t ==> Base(t) == t
  {
    var n := Span(t, ':');
    if n < |t| { assert t[..n + 1] == Base(t) + ":"; } else { assert t[..n] == t; }
  }

  /** A stray token aborts at once. */
  lemma StrayNow(cfg: Config, a: Auth, s: string) returns (m: Message)
    requires Poised(cfg, a, s) && Stray(Head(s)) && Works(cfg, Base(Head(s)), a.noneEnabled)
    ensures Plainly(m)
    ensures TryMethod(cfg, a, m).stop == Some(NotInMethodLists)
  {
    var b;
    var name := Base(Head(s));
    TokenKnown(cfg, s);
    m, b := WholeMethod(cfg, a, s, name);
    var key :| TryMethod(cfg, a, m) == Accept(cfg, b, name, None, key);
    NoColon(name);
    AcceptOne(cfg, b, s, name, None, key);
  }

  /** One token is gone and the dialogue goes on. */
  ghost predicate Passed(cfg: Config, a: Auth, s: string, b: Auth) {
    && Live(b) && !b.registered && b.l == a.l.(now := [Tail(s)]) && b.attempt == a.attempt
    && b.failures == 0 && b.who == a.who && b.noneEnabled == (a.noneEnabled && Head(s) != NONE)
  }

  lemma PassWhole(cfg: Config, a: Auth, s: string) returns (m: Message)
    requires Poised(cfg, a, s) && ':' !in Head(s) && Head(s) != KBDINT
    requires Works(cfg, Head(s), a.noneEnabled) && Tail(s) != ""
    ensures Plainly(m) && Passed(cfg, a, s, TryMethod(cfg, a, m))
  {
    var b;
    TokenKnown(cfg, s);
    m, b := WholeMethod(cfg, a, s, Head(s));
    var key :| TryMethod(cfg, a, m) == Accept(cfg, b, Head(s), None, key);
    AcceptOne(cfg, b, s, Head(s), None, key);
  }

  lemma {:induction false} PickFinds(devices: seq<string>, l: Lists, d: string, i: nat, p: Pick)
    requires i <= |devices| && Allowed(l, KBDINT, Some(d))
    requires p.device.Some? || (p.done == {} && exists j :: i <= j < |devices| && devices[j] == d)
    ensures PickDevice(devices, l, d, i, p).device.Some?
    decreases |devices| - i
  {
    if i < |devices| {
      if i in p.done || devices[i] != d {
        PickFinds(devices, l, d, i + 1, p);
      } else {
        PickFinds(devices, l, d, i + 1, Pick(Some(i), p.done + {i}));
      }
    }
  }

  /** A device the list allows can be asked for by name. */
  lemma DeviceAsked(cfg: Config, a: Auth, s: string, d: string)
    requires Poised(cfg, a, s) && Usable(cfg, d) && ',' !in d
    requires Satisfies(Head(s), Entry(KBDINT, Some(d), None))
    ensures var k := NextDevice(cfg.devices, a.l, Some(d), {});
      k.device.Some? && k.device.value < |cfg.devices| && cfg.devices[k.device.value] == d
  {
    KnownIsPlain(KBDINT);
    StartsWithHead(s, KBDINT, Some(d));
    assert Allowed(a.l, KBDINT, Some(d));
    assert Span(d, ',') == |d| && d[..|d|] == d;
    var j :| 0 <= j < |cfg.devices| && cfg.devices[j] == d;
    PickFinds(cfg.devices, a.l, d, 0, Pick(None, {}));
    PickNamed(cfg.devices, a.l, d, 0, Pick(None, {}));
  }

  function Answer(): Message { InfoResponse(true, 0, false, false, false) }

  /** A request for the device and one response. */
  lemma PassDevice(cfg: Config, a: Auth, s: string, d: string) returns (m: Message)
    requires Poised(cfg, a, s) && Usable(cfg, d) && DevicesOk(cfg) && Tail(s) != ""
    requires Satisfies(Head(s), Entry(KBDINT, Some(d), None))
    ensures Plainly(m)
    ensures var a1 := TryMethod(cfg, a, m);
      Possible(a1, Answer()) && Passed(cfg, a, s, Step(cfg, a1, Answer()))
  {
    m := Req(KBDINT, Interactive(d, true));
    DeviceAsked(cfg, a, s, d);
    DeviceTried(cfg, a, s, d, m);
    var k := NextDevice(cfg.devices, a.l, Some(d), {});
    var a1 := a.(kbd := Some(k), registered := true, postponed := true);
    var a2 := ChallengeStop(a1.(postponed := false));
    assert Step(cfg, a1, Answer()) == Accept(cfg, a2, KBDINT, Some(d), None);
    AcceptOne(cfg, a2, s, KBDINT, Some(d), None);
    NotNone(d);
  }

  lemma NotNone(d: string)
    ensures Qualified(KBDINT, d) != NONE && KBDINT != NONE
  {
    assert Qualified(KBDINT, d)[0] == 'k';
  }

  lemma DeviceTried(cfg: Config, a: Auth, s: string, d: string, m: Message)
    requires Poised(cfg, a, s) && Usable(cfg, d) && ',' !in d && m == Req(KBDINT, Interactive(d, true))
    requires Satisfies(Head(s), Entry(KBDINT, Some(d), None))
    requires NextDevice(cfg.devices, a.l, Some(d), {}).device.Some?
    ensures TryMethod(cfg, a, m) ==
      a.(kbd := Some(NextDevice(cfg.devices, a.l, Some(d), {})), registered := true, postponed := true)
  {
    NoColon(KBDINT);
    TokenKnown(cfg, s);
    if Head(s) != KBDINT { QualifiedIsKbdint(d); }
    MayBeTried(cfg, a, s, KBDINT);
    TryInteractive(cfg, a, d, m);
  }

  lemma TryInteractive(cfg: Config, a: Auth, d: string, m: Message)
    requires Live(a) && a.failures < cfg.maxAuthtries && Lookup(cfg, a, KBDINT) == Some(KBDINT)
    requires d != "" && m == Req(KBDINT, Interactive(d, true))
    requires NextDevice(cfg.devices, a.l, Some(d), {}).device.Some?
    ensures TryMethod(cfg, a, m) ==
      a.(kbd := Some(NextDevice(cfg.devices, a.l, Some(d), {})), registered := true, postponed := true)
  {
  }

  /** Messages that take the head off the list. */
  lemma PassToken(cfg: Config, a: Auth, s: string) returns (m: Message, ms: seq<Message>)
    requires Poised(cfg, a, s) && DevicesOk(cfg) && Tail(s) != ""
    requires !Stray(Head(s)) && Passable(cfg, Head(s), a.noneEnabled)
    ensures Plainly(m) && |ms| <= 1 && Legal(cfg, TryMethod(cfg, a, m), ms)
    ensures Passed(cfg, a, s, After(cfg, TryMethod(cfg, a, m), ms))
  {
    if ':' !in Head(s) && Head(s) != KBDINT {
      m := PassWhole(cfg, a, s);
      ms := [];
    } else {
      var d;
      if ':' in Head(s) { d :| Usable(cfg, d) && Head(s) == Qualified(KBDINT, d); }
      else { d :| Usable(cfg, d); }
      m := PassDevice(cfg, a, s, d);
      ms := [Answer()];
      assert ms[1..] == [];
    }
  }

  /** The next request, once a token is gone. */
  lemma NextRequest(cfg: Config, a: Auth, s: string, b: Auth, m: Message)
    requires Poised(cfg, a, s) && Passed(cfg, a, s, b) && Tail(s) != "" && a.attempt < MAX_ATTEMPTS
    requires Plainly(m)
    ensures var a1 := ChallengeStop(LaterAdmit(b, "", "ssh-connection")).(postponed := false);
      && Poised(cfg, a1, Tail(s)) && a1.attempt == a.attempt + 1 && a1.noneEnabled == b.noneEnabled
      && Possible(b, m) && Step(cfg, b, m) == TryMethod(cfg, a1, m)
  {
    TailDropsHead(s);
    assert UserPart("") == "";
    assert forall t :: t in Todo(Tail(s)) ==> t in Todo(s);
  }

  lemma LegalFirst(cfg: Config, a: Auth, m: Message, b: Auth, ms: seq<Message>)
    requires Possible(a, m) && b == Step(cfg, a, m) && Legal(cfg, b, ms)
    ensures Legal(cfg, a, [m] + ms) && After(cfg, a, [m] + ms) == After(cfg, b, ms)
  {
    assert ([m] + ms)[1..] == ms;
  }

  /** The messages for one token, and what follows them. */
  lemma TokenThen(cfg: Config, a: Auth, ms: seq<Message>, more: seq<Message>)
    requires |ms| <= 1 && Legal(cfg, a, ms) && Legal(cfg, After(cfg, a, ms), more)
    ensures Legal(cfg, a, ms + more) && After(cfg, a, ms + more) == After(cfg, After(cfg, a, ms), more)
  {
    if ms == [] {
      assert ms + more == more;
    } else {
      var b := Step(cfg, a, ms[0]);
      assert ms[1..] == [] && ms == [ms[0]];
      assert After(cfg, b, []) == b && After(cfg, a, ms) == After(cfg, b, ms[1..]);
      LegalFirst(cfg, a, ms[0], b, more);
    }
  }

  /** From there on, messages that lead to the abort. */
  lemma {:induction false} Drive(cfg: Config, a: Auth, s: string, n: nat)
    returns (m: Message, ms: seq<Message>)
    requires Poised(cfg, a, s) && DevicesOk(cfg) && n == MAX_ATTEMPTS - a.attempt + 1
    requires Aborts(cfg, Todo(s), n, a.noneEnabled)
    ensures Plainly(m) && Legal(cfg, TryMethod(cfg, a, m), ms)
    ensures After(cfg, TryMethod(cfg, a, m), ms).stop == Some(NotInMethodLists)
    decreases n
  {
    TailDropsHead(s);
    if Stray(Head(s)) {
      m := StrayNow(cfg, a, s);
      ms := [];
    } else {
      m, ms := PassToken(cfg, a, s);
      var b := After(cfg, TryMethod(cfg, a, m), ms);
      NextRequest(cfg, a, s, b, Req("", Secret(false)));
      var a1 := ChallengeStop(LaterAdmit(b, "", "ssh-connection")).(postponed := false);
      var m1, ms1 := Drive(cfg, a1, Tail(s), n - 1);
      NextRequest(cfg, a, s, b, m1);
      LegalFirst(cfg, b, m1, TryMethod(cfg, a1, m1), ms1);
      TokenThen(cfg, TryMethod(cfg, a, m), ms, [m1] + ms1);
      ms := ms + ([m1] + ms1);
    }
  }

  lemma HopefulAborts(cfg: Config, list: string) returns (ms: seq<Message>)
    requires cfg.lists == [list] && list != "any" && ConfigOk(cfg)
    requires ListValid(list, Cfgs(cfg, true), true) && Aborts(cfg, Split(list), MAX_ATTEMPTS, true)
    ensures Legal(cfg, Initial(), ms) && After(cfg, Initial(), ms).stop == Some(NotInMethodLists)
  {
    FirstIsOne(cfg, list, "", "ssh-connection", true);
    var a := First("", "ssh-connection", true, list);
    var m, rest := Drive(cfg, a, list, MAX_ATTEMPTS);
    assert UserPart("") == "";
    FirstStep(cfg, list, m);
    LegalFirst(cfg, Initial(), m, TryMethod(cfg, a, m), rest);
    ms := [m] + rest;
  }

  /** With one list configured, some client's dialogue ends in the abort exactly when the list is
      valid and a token with a stray submethod comes up: every token before it can be passed, its
      own method works, and it is among the first 1024. */
  lemma SingleListAborts(cfg: Config, list: string)
    requires ConfigOk(cfg) && cfg.lists == [list] && list != "any"
    ensures (exists ms :: Legal(cfg, Initial(), ms)
                          && After(cfg, Initial(), ms).stop == Some(NotInMethodLists))
      <==> ListValid(list, Cfgs(cfg, true), true) && Aborts(cfg, Split(list), MAX_ATTEMPTS, true)
  {
    if exists ms :: Legal(cfg, Initial(), ms) && After(cfg, Initial(), ms).stop == Some(NotInMethodLists) {
      var ms :| Legal(cfg, Initial(), ms) && After(cfg, Initial(), ms).stop == Some(NotInMethodLists);
      AbortedHadHope(cfg, list, ms);
    }
    if ListValid(list, Cfgs(cfg, true), true) && Aborts(cfg, Split(list), MAX_ATTEMPTS, true) {
      var ms := HopefulAborts(cfg, list);
    }
  }
}
