/** What every run of the authentication dialogue keeps, and what success means. */
module AuthRuns {
  import opened Common
  import opened AuthLists
  import opened AuthDialogue

  // ----- lists of tokens against the log of successes

  predicate Satisfies(token: string, e: Entry) {
    token == e.name || (e.sub.Some? && token == Qualified(e.name, e.sub.value))
  }

  /** What is left of a token list after the successes in `log`, taken in order. */
  function Consume(ts: seq<string>, log: seq<Entry>): seq<string> {
    if log == [] then ts
    else
      var r := Consume(ts, log[..|log| - 1]);
      if r != [] && Satisfies(r[0], log[|log| - 1]) then r[1..] else r
  }

  /** Tokens ts[..|f|] are satisfied, in order, by the entries of `log` at positions `f`. */
  ghost predicate Embedding(ts: seq<string>, log: seq<Entry>, f: seq<nat>) {
    && |f| <= |ts|
    && (forall i :: 0 <= i < |f| ==> f[i] < |log| && Satisfies(ts[i], log[f[i]]))
    && (forall i, j :: 0 <= i < j < |f| ==> f[i] < f[j])
  }

  lemma {:induction false} ConsumeEmbeds(ts: seq<string>, log: seq<Entry>) returns (f: seq<nat>)
    ensures Embedding(ts, log, f) && Consume(ts, log) == ts[|f|..]
  {
    if log == [] {
      f := [];
    } else {
      f := ConsumeEmbeds(ts, log[..|log| - 1]);
      var r := Consume(ts, log[..|log| - 1]);
      if r != [] && Satisfies(r[0], log[|log| - 1]) {
        f := f + [|log| - 1];
      }
    }
  }

  /** Taking successes greedily is never worse than any other choice. */
  lemma {:induction false} EmbeddingConsumes(ts: seq<string>, log: seq<Entry>, f: seq<nat>)
    requires Embedding(ts, log, f)
    ensures |Consume(ts, log)| <= |ts| - |f|
    decreases |log|
  {
    if f != [] {
      assert f[|f| - 1] < |log|;
      var init := log[..|log| - 1];
      var g := ConsumeEmbeds(ts, init);
      if f[|f| - 1] == |log| - 1 {
        EmbeddingConsumes(ts, init, f[..|f| - 1]);
        if |g| == |f| - 1 { assert Consume(ts, init)[0] == ts[|f| - 1]; }
      } else {
        assert forall i :: 0 <= i < |f| ==> f[i] <= f[|f| - 1];
        EmbeddingConsumes(ts, init, f);
      }
    } else {
      var g := ConsumeEmbeds(ts, log);
    }
  }

  // ----- string lists track token lists

  ghost predicate Tracks(now: string, setup: string, log: seq<Entry>) {
    NonEmptyTokens(now) && Todo(now) == Consume(Split(setup), log)
  }

  ghost predicate AllTrack(now: seq<string>, setup: seq<string>, log: seq<Entry>) {
    |now| == |setup| && forall i :: 0 <= i < |now| ==> Tracks(now[i], setup[i], log)
  }

  lemma RemoveTracks(now: string, setup: string, log: seq<Entry>, e: Entry)
    requires Tracks(now, setup, log) && now != ""
    requires Plain(e.name) && (e.sub.Some? ==> ',' !in e.sub.value)
    ensures Tracks(RemoveMethod(now, e.name, e.sub).rest, setup, log + [e])
    ensures RemoveMethod(now, e.name, e.sub).removed <==> Satisfies(Head(now), e)
  {
    RemoveIsTail(now, e.name, e.sub);
    assert (log + [e])[..|log|] == log;
    TailDropsHead(now);
  }

  ghost predicate NoneDone(now: seq<string>) { forall i :: 0 <= i < |now| ==> now[i] != "" }

  ghost predicate SomeConsumed(setup: seq<string>, log: seq<Entry>) {
    exists i :: 0 <= i < |setup| && Consume(Split(setup[i]), log) == []
  }

  /** Updating all lists after one success: either every list moves on, or the update stops
      because some list has just been completed. */
  lemma {:induction false} UpdateTracks(now: seq<string>, setup: seq<string>, log: seq<Entry>, e: Entry)
    requires AllTrack(now, setup, log) && NoneDone(now)
    requires Plain(e.name) && (e.sub.Some? ==> ',' !in e.sub.value)
    ensures var u := UpdateLists(now, e.name, e.sub);
      if u.completed then SomeConsumed(setup, log + [e])
      else AllTrack(u.lists, setup, log + [e]) && NoneDone(u.lists)
  {
    if now != [] {
      RemoveTracks(now[0], setup[0], log, e);
      var r := RemoveMethod(now[0], e.name, e.sub);
      if r.removed && r.rest == "" {
        assert Consume(Split(setup[0]), log + [e]) == [];
      } else {
        var u := UpdateLists(now[1..], e.name, e.sub);
        UpdateTracks(now[1..], setup[1..], log, e);
        if u.completed { ConsumedLater(setup, log + [e]); }
        else { TrackMore(r.rest, u.lists, setup, log + [e]); }
      }
    }
  }

  lemma ConsumedLater(setup: seq<string>, log: seq<Entry>)
    requires setup != [] && SomeConsumed(setup[1..], log)
    ensures SomeConsumed(setup, log)
  {
    var i :| 0 <= i < |setup[1..]| && Consume(Split(setup[1..][i]), log) == [];
    assert setup[i + 1] == setup[1..][i];
  }

  lemma TrackMore(rest: string, lists: seq<string>, setup: seq<string>, log: seq<Entry>)
    requires setup != [] && rest != "" && Tracks(rest, setup[0], log)
    requires AllTrack(lists, setup[1..], log) && NoneDone(lists)
    ensures AllTrack([rest] + lists, setup, log) && NoneDone([rest] + lists)
  {
    var all := [rest] + lists;
    forall i | 0 <= i < |all| ensures Tracks(all[i], setup[i], log) && all[i] != "" {
      if i > 0 { assert Tracks(lists[i - 1], setup[1..][i - 1], log); }
    }
  }

  /** The update recognises a success exactly when it satisfies the head of some list. */
  lemma {:induction false} UpdateFinds(now: seq<string>, name: string, sub: Option<string>, k: nat)
    requires Plain(name) && (sub.Some? ==> ',' !in sub.value)
    requires k < |now| && Satisfies(Head(now[k]), Entry(name, sub, None))
    ensures UpdateLists(now, name, sub).found
  {
    RemoveIsTail(now[0], name, sub);
    if k > 0 { UpdateFinds(now[1..], name, sub, k - 1); }
  }

  // ----- when a lookup promises that the update will find the method

  /** Submethods are configured on keyboard-interactive entries only. */
  ghost predicate NoStraySubmethods(lists: seq<string>) {
    forall list, t :: list in lists && t in Split(list) && ':' in t ==> Base(t) == KBDINT
  }

  lemma BaseOfPrefix(t: string, name: string)
    requires Plain(name) && name + ":" <= t
    ensures Base(t) == name && ':' in t
  {
    var n := Span(t, ':');
    assert t[..|name| + 1] == name + ":";
    assert t[|name|] == ':';
    assert n <= |name|;
    assert forall k :: 0 <= k < |name| ==> t[k] == name[k];
    assert n == |name|;
  }

  /** The head of a list in progress is one of the tokens it was installed with. */
  lemma HeadFromSetup(now: string, setup: string, log: seq<Entry>)
    requires Tracks(now, setup, log) && now != ""
    ensures Head(now) in Split(setup)
  {
    var f := ConsumeEmbeds(Split(setup), log);
    assert Head(now) == Todo(now)[0];
  }

  /** A list that starts with a method or device starts with a token that its success satisfies. */
  lemma StartIsSatisfied(now: string, setup: string, log: seq<Entry>, name: string, sub: Option<string>)
    requires Tracks(now, setup, log) && now != ""
    requires Plain(name) && (sub.Some? ==> ',' !in sub.value)
    requires sub.None? ==> NoStraySubmethods([setup]) && name != KBDINT
    requires ListStartsWith(now, name, sub) != MatchNone
    ensures Satisfies(Head(now), Entry(name, sub, None))
  {
    StartsWithHead(now, name, sub);
    if sub.None? && name + ":" <= Head(now) {
      BaseOfPrefix(Head(now), name);
      HeadFromSetup(now, setup, log);
      assert false;
    }
  }

  /** A method that may be tried, or a device that may be started, is one whose success the
      method lists will recognise. */
  lemma {:induction false} AllowedIsFound(now: seq<string>, setup: seq<string>, log: seq<Entry>,
                                          name: string, sub: Option<string>)
    requires AllTrack(now, setup, log) && NoneDone(now)
    requires Plain(name) && (sub.Some? ==> ',' !in sub.value)
    requires sub.None? ==> NoStraySubmethods(setup) && name != KBDINT
    requires SomeListStarts(now, name, sub)
    ensures UpdateLists(now, name, sub).found
  {
    RemoveIsTail(now[0], name, sub);
    if ListStartsWith(now[0], name, sub) != MatchNone {
      assert Tracks(now[0], setup[0], log);
      StartIsSatisfied(now[0], setup[0], log, name, sub);
    } else {
      AllTrackTail(now, setup, log);
      AllowedIsFound(now[1..], setup[1..], log, name, sub);
    }
  }

  lemma AllTrackTail(now: seq<string>, setup: seq<string>, log: seq<Entry>)
    requires now != [] && AllTrack(now, setup, log) && NoneDone(now)
    ensures AllTrack(now[1..], setup[1..], log) && NoneDone(now[1..])
    ensures NoStraySubmethods(setup) ==> NoStraySubmethods(setup[1..])
  {
    forall i | 0 <= i < |now| - 1 ensures Tracks(now[1..][i], setup[1..][i], log) {
      assert Tracks(now[i + 1], setup[i + 1], log);
    }
  }

  // ----- the invariant

  ghost predicate DevicesOk(cfg: Config) { forall d :: d in cfg.devices ==> ',' !in d }

  ghost predicate Installed(cfg: Config, a: Auth) {
    a.attempt > 0 && a.stop != Some(NoMethods) ==>
      if a.l.multi then
        forall s :: s in a.l.setup ==> s in cfg.lists && ListValid(s, Cfgs(cfg, true), true)
      else cfg.lists == [] || cfg.lists == ["any"]
  }

  ghost predicate ListsOk(l: Lists, log: seq<Entry>, success: bool) {
    l.multi ==> if success then SomeConsumed(l.setup, log)
                else AllTrack(l.now, l.setup, log) && NoneDone(l.now)
  }

  ghost predicate KeysOk(prevKeys: seq<nat>, log: seq<Entry>) {
    && (forall i :: 0 <= i < |log| && log[i].name == PUBLICKEY ==>
          log[i].key.Some? && log[i].key.value in prevKeys)
    && (forall i, j :: 0 <= i < j < |log| && log[i].name == PUBLICKEY && log[j].name == PUBLICKEY ==>
          log[i].key != log[j].key)
  }

  ghost predicate KbdOk(cfg: Config, a: Auth) {
    a.registered ==> Ready(cfg, a) && Allowed(a.l, KBDINT, Some(DeviceName(cfg, a.kbd.value)))
  }

  ghost predicate CountsOk(cfg: Config, a: Auth) {
    && a.attempt <= MAX_ATTEMPTS
    && (Live(a) && cfg.maxAuthtries >= 1 ==> a.failures < cfg.maxAuthtries)
    && (a.attempt == 0 && a.stop == None ==> a == Initial())
    && (a.log != [] ==> a.who.valid)
    && (a.success ==> a.who.valid && a.attempt > 0 && a.stop == None)
  }

  ghost predicate StopOk(cfg: Config, a: Auth) {
    && a.stop != Some(AuthenticatedInvalidUser) && a.stop != Some(AuthenticatedAndPostponed)
    && a.stop != Some(BadMethodName) && a.stop != Some(NoKbdintContext)
    && (NoStraySubmethods(cfg.lists) ==> a.stop != Some(NotInMethodLists))
  }

  ghost predicate Inv(cfg: Config, a: Auth) {
    && Installed(cfg, a) && ListsOk(a.l, a.log, a.success) && KeysOk(a.prevKeys, a.log)
    && KbdOk(cfg, a) && CountsOk(cfg, a) && StopOk(cfg, a)
  }

  lemma InitialInv(cfg: Config)
    ensures Inv(cfg, Initial())
  {
  }

  // ----- installing the lists

  lemma {:induction false} PruneKeepsValid(lists: seq<string>, cfgs: seq<MethodCfg>)
    ensures forall s :: s in Prune(lists, cfgs) ==> s in lists && ListValid(s, cfgs, true)
  {
    if lists != [] { PruneKeepsValid(lists[1..], cfgs); }
  }

  lemma ValidTracks(cfg: Config, s: string)
    requires ListValid(s, Cfgs(cfg, true), true)
    ensures Tracks(s, s, [])
  {
    forall t | t in Split(s) ensures t != "" {
      assert Offered(Cfgs(cfg, true), Base(t), true);
      OfferedIsKnown(cfg, true, Base(t));
    }
  }

  lemma {:induction false} OfferedIsListed(cfgs: seq<MethodCfg>, name: string, needEnable: bool) returns (i: nat)
    requires Offered(cfgs, name, needEnable)
    ensures i < |cfgs| && cfgs[i].name == name
  {
    if cfgs[0].name == name {
      i := 0;
    } else {
      i := OfferedIsListed(cfgs[1..], name, needEnable);
      i := i + 1;
    }
  }

  lemma KnownIsPlain(name: string)
    requires Known(name)
    ensures Plain(name)
  {
  }

  lemma OfferedIsKnown(cfg: Config, noneEnabled: bool, name: string)
    requires Offered(Cfgs(cfg, noneEnabled), name, true)
    ensures Known(name) && Plain(name)
  {
    var i := OfferedIsListed(Cfgs(cfg, noneEnabled), name, true);
    KnownIsPlain(name);
  }

  lemma PrunedTrack(cfg: Config)
    ensures var kept := Prune(cfg.lists, Cfgs(cfg, true));
      && (forall s :: s in kept ==> s in cfg.lists && ListValid(s, Cfgs(cfg, true), true))
      && AllTrack(kept, kept, []) && NoneDone(kept)
  {
    PruneKeepsValid(cfg.lists, Cfgs(cfg, true));
    var kept := Prune(cfg.lists, Cfgs(cfg, true));
    forall i | 0 <= i < |kept| ensures Tracks(kept[i], kept[i], []) && kept[i] != "" {
      ValidTracks(cfg, kept[i]);
    }
  }

  /** The first request installs the configured lists that are valid. */
  lemma FirstAdmitKeeps(cfg: Config, user: string, service: string, known: bool)
    requires cfg.maxAuthtries >= 1
    ensures Inv(cfg, ChallengeStop(Admit(cfg, Initial(), user, service, known)))
  {
    PrunedTrack(cfg);
  }

  /** Later requests must repeat the user and the service of the first. */
  lemma LaterAdmitKeeps(cfg: Config, a: Auth, user: string, service: string, known: bool)
    requires Inv(cfg, a) && Live(a) && a.attempt > 0
    ensures Inv(cfg, ChallengeStop(Admit(cfg, a, user, service, known)))
  {
  }

  // ----- trying a method

  /** What the rest of the program may rely on when a method reports success. */
  ghost predicate TriedOk(cfg: Config, t: Tried, name: string, sub: Option<string>) {
    t.authenticated ==>
      && Live(t.a) && t.a.who.valid && !t.a.postponed && !t.a.registered
      && Known(name) && (sub.Some? ==> ',' !in sub.value)
      && (name == PUBLICKEY ==>
            && t.key.Some? && t.key.value in t.a.prevKeys
            && forall i :: 0 <= i < |t.a.log| && t.a.log[i].name == PUBLICKEY ==> t.a.log[i].key != t.key)
      && Allowed(t.a.l, name, sub) && (sub.None? ==> name != KBDINT)
  }

  lemma {:induction false} PickIsAllowed(devices: seq<string>, l: Lists, token: string, i: nat, p: Pick)
    requires i <= |devices|
    requires p.device.Some? ==>
      p.device.value < |devices| && Allowed(l, KBDINT, Some(devices[p.device.value]))
    ensures var q := PickDevice(devices, l, token, i, p);
      q.device.Some? ==>
        q.device.value < |devices| && Allowed(l, KBDINT, Some(devices[q.device.value]))
    decreases |devices| - i
  {
    if i < |devices| {
      if i in p.done || !Allowed(l, KBDINT, Some(devices[i])) || devices[i] != token {
        PickIsAllowed(devices, l, token, i + 1, p);
      } else {
        PickIsAllowed(devices, l, token, i + 1, Pick(Some(i), p.done + {i}));
      }
    }
  }

  /** kbdint_next_device only ever selects a device the method lists allow. */
  lemma {:induction false} NextIsAllowed(devices: seq<string>, l: Lists, todo: Option<string>, done: set<nat>)
    ensures var k := NextDevice(devices, l, todo, done);
      k.device.Some? ==>
        k.device.value < |devices| && Allowed(l, KBDINT, Some(devices[k.device.value]))
    decreases if todo.Some? then |todo.value| + 1 else 0
  {
    if todo.Some? && Head(todo.value) != "" {
      var p := PickDevice(devices, l, Head(todo.value), 0, Pick(None, done));
      PickIsAllowed(devices, l, Head(todo.value), 0, Pick(None, done));
      if p.device.None? { NextIsAllowed(devices, l, AfterHead(todo.value), p.done); }
    }
  }

  lemma ChallengeKeeps(cfg: Config, a: Auth, k: Kbdint, ready: bool)
    requires Inv(cfg, ChallengeStop(a)) && Live(a) && a.attempt > 0
    ensures Inv(cfg, ChallengeStart(cfg, a, k, ready))
  {
    NextIsAllowed(cfg.devices, a.l, k.devices, k.done);
  }

  lemma PubkeyKeeps(cfg: Config, a: Auth, p: PubkeyTry)
    requires Inv(cfg, a) && Live(a) && a.attempt > 0 && !a.registered && !a.postponed
    requires Allowed(a.l, PUBLICKEY, None)
    ensures var t := UserauthPubkey(a, p); Inv(cfg, t.a) && TriedOk(cfg, t, PUBLICKEY, None)
  {
  }

  lemma SecretKeeps(cfg: Config, a: Auth, name: string, ok: bool)
    requires Inv(cfg, a) && Live(a) && a.attempt > 0 && !a.registered && !a.postponed
    requires Known(name) && Allowed(a.l, name, None)
    ensures var t := Userauth(cfg, a, name, Secret(ok)); Inv(cfg, t.a) && TriedOk(cfg, t, name, None)
  {
  }

  lemma HostKeyKeeps(cfg: Config, a: Auth, key: Option<nat>, ok: bool)
    requires Inv(cfg, a) && Live(a) && a.attempt > 0 && !a.registered && !a.postponed
    requires Allowed(a.l, HOSTBASED, None)
    ensures var t := UserauthHostbased(a, key, ok); Inv(cfg, t.a) && TriedOk(cfg, t, HOSTBASED, None)
  {
  }

  lemma WrongPacketKeeps(cfg: Config, a: Auth)
    requires Inv(cfg, a) && Live(a)
    ensures Inv(cfg, a.(stop := Some(BadPacket)))
  {
  }

  lemma UserauthKeeps(cfg: Config, a: Auth, name: string, c: Credential)
    requires Inv(cfg, a) && Live(a) && a.attempt > 0 && !a.registered && !a.postponed
    requires Known(name) && Allowed(a.l, name, None)
    ensures var t := Userauth(cfg, a, name, c); Inv(cfg, t.a) && TriedOk(cfg, t, name, None)
  {
    WrongPacketKeeps(cfg, a);
    match c {
      case Secret(ok) => SecretKeeps(cfg, a, name, ok);
      case Pubkey(p) => if name == PUBLICKEY { PubkeyKeeps(cfg, a, p); }
      case HostKey(key, ok) => if name == HOSTBASED { HostKeyKeeps(cfg, a, key, ok); }
      case Interactive(devs, ready) =>
        var todo := if devs == "" then JoinNames(cfg.devices) else devs;
        ChallengeKeeps(cfg, a, Kbdint(Some(todo), None, {}), ready);
    }
  }

  // ----- finishing

  lemma FailKeeps(cfg: Config, a: Auth, partial: bool, name: string)
    requires Inv(cfg, a.(failures := 0)) && Live(a) && a.attempt > 0
    ensures Inv(cfg, Fail(cfg, a, partial, name))
  {
  }

  lemma KeysExtend(prevKeys: seq<nat>, log: seq<Entry>, e: Entry)
    requires KeysOk(prevKeys, log)
    requires e.name == PUBLICKEY ==>
      && e.key.Some? && e.key.value in prevKeys
      && forall i :: 0 <= i < |log| && log[i].name == PUBLICKEY ==> log[i].key != e.key
    ensures KeysOk(prevKeys, log + [e])
  {
  }

  /** Whatever the lists say, a recognised success keeps them in step with the log. */
  lemma AcceptLists(cfg: Config, t: Tried, name: string, sub: Option<string>)
    requires Inv(cfg, t.a) && TriedOk(cfg, t, name, sub) && t.authenticated && t.a.attempt > 0
    requires t.a.l.multi
    ensures var l := t.a.l;
      var u := UpdateLists(l.now, name, sub);
      && ListsOk(l.(now := u.lists), t.a.log + [Entry(name, sub, t.key)], u.completed)
      && (NoStraySubmethods(cfg.lists) ==> u.found)
  {
    var a := t.a;
    KnownIsPlain(name);
    UpdateTracks(a.l.now, a.l.setup, a.log, Entry(name, sub, t.key));
    if NoStraySubmethods(cfg.lists) {
      assert NoStraySubmethods(a.l.setup);
      AllowedIsFound(a.l.now, a.l.setup, a.log, name, sub);
    }
  }

  lemma AcceptKeeps(cfg: Config, t: Tried, name: string, sub: Option<string>)
    requires Inv(cfg, t.a) && TriedOk(cfg, t, name, sub) && t.authenticated && t.a.attempt > 0
    ensures Inv(cfg, Accept(cfg, t.a, name, sub, t.key))
  {
    var a := t.a;
    var e := Entry(name, sub, t.key);
    KeysExtend(a.prevKeys, a.log, e);
    if a.l.multi {
      AcceptLists(cfg, t, name, sub);
      var u := UpdateLists(a.l.now, name, sub);
      var a2 := a.(log := a.log + [e], l := a.l.(now := u.lists));
      if !u.completed && u.found {
        FailKeeps(cfg, a2, true, name);
      }
    }
  }

  lemma FinishKeeps(cfg: Config, t: Tried, packetName: string, sub: Option<string>, rootRefused: bool)
    requires Inv(cfg, t.a) && !t.a.success && t.a.attempt > 0
    requires t.authenticated ==> ByName(packetName).Some? && TriedOk(cfg, t, ByName(packetName).value, sub)
    ensures Inv(cfg, Finish(cfg, t, packetName, sub, rootRefused))
  {
    if Live(t.a) {
      if t.authenticated && !rootRefused {
        AcceptKeeps(cfg, t, ByName(packetName).value, sub);
      } else if !t.a.postponed {
        FailKeeps(cfg, t.a, false, if t.authenticated then ByName(packetName).value else packetName);
      }
    }
  }

  lemma TryNamedKeeps(cfg: Config, a: Auth, name: string, m: Message)
    requires Inv(cfg, a) && Live(a) && a.attempt > 0 && !a.registered && !a.postponed && m.Request?
    requires Lookup(cfg, a, m.name) == Some(name)
    ensures Inv(cfg, Finish(cfg, Userauth(cfg, a, name, m.cred), m.name, None, m.rootRefused))
  {
    OfferedIsKnown(cfg, a.noneEnabled, name);
    UserauthKeeps(cfg, a, name, m.cred);
    UserauthFixes(cfg, a, name, m.cred);
    FinishKeeps(cfg, Userauth(cfg, a, name, m.cred), m.name, None, m.rootRefused);
  }

  lemma TryKeeps(cfg: Config, a: Auth, m: Message)
    requires Inv(cfg, a) && Live(a) && a.attempt > 0 && !a.registered && !a.postponed && m.Request?
    ensures Inv(cfg, TryMethod(cfg, a, m))
  {
    var name := Lookup(cfg, a, m.name);
    if name.Some? && a.failures < cfg.maxAuthtries {
      TryNamedKeeps(cfg, a, name.value, m);
    } else {
      FinishKeeps(cfg, Tried(a, false, None), m.name, None, m.rootRefused);
    }
  }

  lemma ResetKeeps(cfg: Config, a: Auth)
    requires Inv(cfg, ChallengeStop(a)) && a.attempt > 0
    ensures Inv(cfg, ChallengeStop(a).(postponed := false))
  {
  }

  lemma RequestKeeps(cfg: Config, a: Auth, m: Message)
    requires Inv(cfg, a) && Live(a) && m.Request? && cfg.maxAuthtries >= 1
    ensures Inv(cfg, OnRequest(cfg, a, m))
  {
    var a1 := Admit(cfg, a, UserPart(m.user), m.service, m.known);
    AdmitKeeps(cfg, a, UserPart(m.user), m.service, m.known);
    if a1.stop.None? {
      ResetKeeps(cfg, a1);
      TryKeeps(cfg, ChallengeStop(a1).(postponed := false), m);
    }
  }

  lemma AdmitKeeps(cfg: Config, a: Auth, user: string, service: string, known: bool)
    requires Inv(cfg, a) && Live(a) && cfg.maxAuthtries >= 1
    ensures var a1 := Admit(cfg, a, user, service, known);
      && Inv(cfg, ChallengeStop(a1)) && (a1.stop.Some? ==> Inv(cfg, a1))
      && (a1.stop.None? ==> Live(a1) && a1.attempt > 0)
  {
    if a.attempt == 0 { FirstAdmitKeeps(cfg, user, service, known); }
    else { LaterAdmitKeeps(cfg, a, user, service, known); }
  }

  lemma AnsweredKeeps(cfg: Config, a: Auth, m: Message)
    requires Inv(cfg, a) && Possible(a, m) && m.InfoResponse? && DevicesOk(cfg)
    ensures Ready(cfg, a)
    ensures var t := Tried(Answered(cfg, a, a.kbd.value, m), m.result == 0 && a.who.valid, None);
      && Inv(cfg, t.a) && !t.a.success && t.a.attempt > 0
      && TriedOk(cfg, t, KBDINT, Some(DeviceName(cfg, a.kbd.value)))
  {
    ChallengeKeeps(cfg, a.(postponed := false), a.kbd.value, m.next);
  }

  lemma ResponseKeeps(cfg: Config, a: Auth, m: Message)
    requires Inv(cfg, a) && Possible(a, m) && m.InfoResponse? && DevicesOk(cfg)
    ensures Ready(cfg, a) && Inv(cfg, OnInfoResponse(cfg, a, m))
  {
    AnsweredKeeps(cfg, a, m);
    if m.wellFormed {
      FinishKeeps(cfg, Tried(Answered(cfg, a, a.kbd.value, m), m.result == 0 && a.who.valid, None),
                  KBDINT, Some(DeviceName(cfg, a.kbd.value)), m.refused);
    }
  }

  // ----- runs

  ghost predicate Legal(cfg: Config, a: Auth, ms: seq<Message>)
    decreases |ms|
  {
    ms == [] || (Possible(a, ms[0]) && Legal(cfg, Step(cfg, a, ms[0]), ms[1..]))
  }

  ghost function After(cfg: Config, a: Auth, ms: seq<Message>): Auth
    requires Legal(cfg, a, ms)
    decreases |ms|
  {
    if ms == [] then a else After(cfg, Step(cfg, a, ms[0]), ms[1..])
  }

  ghost predicate ConfigOk(cfg: Config) { cfg.maxAuthtries >= 1 && DevicesOk(cfg) }

  lemma StepKeeps(cfg: Config, a: Auth, m: Message)
    requires Inv(cfg, a) && Possible(a, m) && ConfigOk(cfg)
    ensures Inv(cfg, Step(cfg, a, m))
  {
    if m.Request? { RequestKeeps(cfg, a, m); } else { ResponseKeeps(cfg, a, m); }
  }

  lemma {:induction false} RunKeeps(cfg: Config, a: Auth, ms: seq<Message>)
    requires Inv(cfg, a) && Legal(cfg, a, ms) && ConfigOk(cfg)
    ensures Inv(cfg, After(cfg, a, ms))
    decreases |ms|
  {
    if ms != [] {
      StepKeeps(cfg, a, ms[0]);
      RunKeeps(cfg, Step(cfg, a, ms[0]), ms[1..]);
    }
  }

  /** The user, the service, the validity, the installed lists and the number of requests. */
  ghost predicate SameFrame(a: Auth, b: Auth) {
    && b.attempt == a.attempt && b.who == a.who
    && b.l.setup == a.l.setup && b.l.multi == a.l.multi
  }

  lemma ChallengeFixes(cfg: Config, a: Auth, k: Kbdint, ready: bool)
    ensures var b := ChallengeStart(cfg, a, k, ready); SameFrame(a, b) && b.success == a.success
  {
  }

  lemma PubkeyFixes(a: Auth, p: PubkeyTry)
    ensures var t := UserauthPubkey(a, p); SameFrame(a, t.a) && t.a.success == a.success
  {
  }

  lemma SecretFixes(cfg: Config, a: Auth, name: string, ok: bool)
    ensures var t := Userauth(cfg, a, name, Secret(ok)); SameFrame(a, t.a) && t.a.success == a.success
  {
  }

  lemma HostKeyFixes(cfg: Config, a: Auth, name: string, k: Option<nat>, ok: bool)
    ensures var t := Userauth(cfg, a, name, HostKey(k, ok)); SameFrame(a, t.a) && t.a.success == a.success
  {
  }

  lemma UserauthFixes(cfg: Config, a: Auth, name: string, c: Credential)
    ensures var t := Userauth(cfg, a, name, c); SameFrame(a, t.a) && t.a.success == a.success
  {
    match c {
      case Secret(ok) => SecretFixes(cfg, a, name, ok);
      case Pubkey(p) => PubkeyFixes(a, p);
      case HostKey(k, ok) => HostKeyFixes(cfg, a, name, k, ok);
      case Interactive(devs, ready) =>
        var todo := if devs == "" then JoinNames(cfg.devices) else devs;
        ChallengeFixes(cfg, a, Kbdint(Some(todo), None, {}), ready);
    }
  }

  lemma AcceptFixes(cfg: Config, a: Auth, name: string, sub: Option<string>, key: Option<nat>)
    ensures SameFrame(a, Accept(cfg, a, name, sub, key))
  {
  }

  lemma FinishFixes(cfg: Config, t: Tried, packetName: string, sub: Option<string>, rootRefused: bool)
    ensures SameFrame(t.a, Finish(cfg, t, packetName, sub, rootRefused))
  {
    if ByName(packetName).Some? { AcceptFixes(cfg, t.a, ByName(packetName).value, sub, t.key); }
  }

  lemma TryFixes(cfg: Config, a: Auth, m: Message)
    requires m.Request?
    ensures SameFrame(a, TryMethod(cfg, a, m))
  {
    var name := Lookup(cfg, a, m.name);
    if name.Some? && a.failures < cfg.maxAuthtries {
      UserauthFixes(cfg, a, name.value, m.cred);
      FinishFixes(cfg, Userauth(cfg, a, name.value, m.cred), m.name, None, m.rootRefused);
    } else {
      FinishFixes(cfg, Tried(a, false, None), m.name, None, m.rootRefused);
    }
  }

  lemma ResponseFixes(cfg: Config, a: Auth, m: Message)
    requires m.InfoResponse? && Ready(cfg, a)
    ensures SameFrame(a, OnInfoResponse(cfg, a, m))
  {
    var k := a.kbd.value;
    assert SameFrame(a, Answered(cfg, a, k, m));
    FinishFixes(cfg, Tried(Answered(cfg, a, k, m), m.result == 0 && a.who.valid, None),
                KBDINT, Some(DeviceName(cfg, k)), m.refused);
  }

  lemma RequestFixes(cfg: Config, a: Auth, m: Message)
    requires m.Request?
    ensures var a1 := Admit(cfg, a, UserPart(m.user), m.service, m.known);
      SameFrame(a1, OnRequest(cfg, a, m))
  {
    var a1 := Admit(cfg, a, UserPart(m.user), m.service, m.known);
    if a1.stop.None? { TryFixes(cfg, ChallengeStop(a1).(postponed := false), m); }
  }

  /** Once set they never change, except that requests are counted, up to 1024 of them. */
  lemma StepFixes(cfg: Config, a: Auth, m: Message)
    ensures var b := Step(cfg, a, m);
      && b.attempt == (if m.Request? && a.attempt < MAX_ATTEMPTS then a.attempt + 1 else a.attempt)
      && (a.attempt > 0 ==> SameFrame(a.(attempt := b.attempt), b))
  {
    if m.Request? {
      RequestFixes(cfg, a, m);
      AdmitFixes(cfg, a, UserPart(m.user), m.service, m.known);
    } else if Ready(cfg, a) {
      ResponseFixes(cfg, a, m);
    }
  }

  lemma AdmitFixes(cfg: Config, a: Auth, user: string, service: string, known: bool)
    ensures var b := Admit(cfg, a, user, service, known);
      && b.attempt == (if a.attempt < MAX_ATTEMPTS then a.attempt + 1 else a.attempt)
      && (a.attempt > 0 ==> SameFrame(a.(attempt := b.attempt), b))
  {
  }

  function Requests(ms: seq<Message>): nat {
    if ms == [] then 0 else (if ms[0].Request? then 1 else 0) + Requests(ms[1..])
  }

  /** The 1025th request is refused and ends the dialogue. */
  lemma {:induction false} RequestsAreCounted(cfg: Config, a: Auth, ms: seq<Message>)
    requires Legal(cfg, a, ms) && a.attempt <= MAX_ATTEMPTS
    ensures After(cfg, a, ms).attempt == Min(a.attempt + Requests(ms), MAX_ATTEMPTS)
    ensures a.attempt + Requests(ms) <= MAX_ATTEMPTS + 1
    ensures Live(After(cfg, a, ms)) ==> a.attempt + Requests(ms) <= MAX_ATTEMPTS
    decreases |ms|
  {
    if ms != [] {
      StepFixes(cfg, a, ms[0]);
      RequestsAreCounted(cfg, Step(cfg, a, ms[0]), ms[1..]);
    }
  }

  lemma {:induction false} RunFixes(cfg: Config, a: Auth, ms: seq<Message>)
    requires a.attempt > 0 && Legal(cfg, a, ms)
    ensures var b := After(cfg, a, ms);
      b.who == a.who && b.l.setup == a.l.setup && b.l.multi == a.l.multi
    decreases |ms|
  {
    if ms != [] {
      StepFixes(cfg, a, ms[0]);
      RunFixes(cfg, Step(cfg, a, ms[0]), ms[1..]);
    }
  }

  /** Requests are counted up to 1024 and the next one ends the dialogue; a live state has counted
      them all and has failures to spare; success means a valid user. No internal-error abort is
      reachable, and with submethods only on keyboard-interactive neither is the one in the list
      update. */
  lemma DialogueSafety(cfg: Config, ms: seq<Message>)
    requires ConfigOk(cfg) && Legal(cfg, Initial(), ms)
    ensures var a := After(cfg, Initial(), ms);
      && a.attempt == Min(Requests(ms), MAX_ATTEMPTS) && Requests(ms) <= MAX_ATTEMPTS + 1
      && (Live(a) ==> a.attempt == Requests(ms) && a.failures < cfg.maxAuthtries)
      && (a.success ==> a.who.valid)
      && a.stop !in {Some(AuthenticatedInvalidUser), Some(AuthenticatedAndPostponed),
                     Some(BadMethodName), Some(NoKbdintContext)}
      && (NoStraySubmethods(cfg.lists) ==> a.stop != Some(NotInMethodLists))
  {
    InitialInv(cfg);
    RunKeeps(cfg, Initial(), ms);
    RequestsAreCounted(cfg, Initial(), ms);
  }

  lemma FirstRequestDecides(cfg: Config, ms: seq<Message>)
    requires Legal(cfg, Initial(), ms) && ms != [] && ms[0].Request?
    ensures After(cfg, Initial(), ms).who
            == Person(UserPart(ms[0].user), ms[0].service,
                      ms[0].known && ms[0].service == "ssh-connection")
  {
    var m := ms[0];
    RequestFixes(cfg, Initial(), m);
    RunFixes(cfg, Step(cfg, Initial(), m), ms[1..]);
  }

  // ----- what success means

  predicate ListsInForce(cfg: Config) { cfg.lists != [] && cfg.lists != ["any"] }

  lemma PublickeyEntry(e: Entry)
    requires Satisfies(PUBLICKEY, e)
    ensures e.name == PUBLICKEY
  {
    if e.sub.Some? {
      assert ':' in Qualified(e.name, e.sub.value) by {
        assert Qualified(e.name, e.sub.value)[|e.name|] == ':';
      }
      assert ':' !in PUBLICKEY;
    }
  }

  /** With method lists in force, success means that some configured list, valid and with all its
      methods enabled, was satisfied token by token, in order, by methods that succeeded during
      the run; and that as many different keys were used as the list names publickey. */
  lemma SuccessMeansAListWasCompleted(cfg: Config, ms: seq<Message>) returns (list: string, f: seq<nat>)
    requires ConfigOk(cfg) && ListsInForce(cfg) && Legal(cfg, Initial(), ms)
    requires After(cfg, Initial(), ms).success
    ensures var log := After(cfg, Initial(), ms).log;
      var ts := Split(list);
      && list in cfg.lists && ListValid(list, Cfgs(cfg, true), true)
      && |f| == |ts| && Embedding(ts, log, f)
      && forall i, j :: 0 <= i < j < |ts| && ts[i] == PUBLICKEY && ts[j] == PUBLICKEY ==>
           log[f[i]].key.Some? && log[f[j]].key.Some? && log[f[i]].key != log[f[j]].key
  {
    InitialInv(cfg);
    RunKeeps(cfg, Initial(), ms);
    var a := After(cfg, Initial(), ms);
    var i :| 0 <= i < |a.l.setup| && Consume(Split(a.l.setup[i]), a.log) == [];
    list := a.l.setup[i];
    f := ConsumeEmbeds(Split(list), a.log);
    var ts := Split(list);
    forall p, q | 0 <= p < q < |ts| && ts[p] == PUBLICKEY && ts[q] == PUBLICKEY
      ensures a.log[f[p]].key.Some? && a.log[f[q]].key.Some? && a.log[f[p]].key != a.log[f[q]].key
    {
      PublickeyEntry(a.log[f[p]]);
      PublickeyEntry(a.log[f[q]]);
    }
  }

  /** And it comes as soon as that is so: while the dialogue goes on, no installed list is
      satisfied by the successes so far, however they are chosen. */
  lemma UnfinishedMeansNoListIsSatisfied(cfg: Config, ms: seq<Message>, i: nat, f: seq<nat>)
    requires ConfigOk(cfg) && Legal(cfg, Initial(), ms) && Live(After(cfg, Initial(), ms))
    requires i < |After(cfg, Initial(), ms).l.setup| && After(cfg, Initial(), ms).l.multi
    ensures var a := After(cfg, Initial(), ms);
      !(|f| == |Split(a.l.setup[i])| && Embedding(Split(a.l.setup[i]), a.log, f))
  {
    InitialInv(cfg);
    RunKeeps(cfg, Initial(), ms);
    var a := After(cfg, Initial(), ms);
    assert Tracks(a.l.now[i], a.l.setup[i], a.log) && a.l.now[i] != "";
    if |f| == |Split(a.l.setup[i])| && Embedding(Split(a.l.setup[i]), a.log, f) {
      EmbeddingConsumes(Split(a.l.setup[i]), a.log, f);
    }
  }

  // ----- the abort in the list update

  lemma {:induction false} UpdateFoundOnly(now: seq<string>, name: string, sub: Option<string>)
    requires Plain(name) && (sub.Some? ==> ',' !in sub.value) && UpdateLists(now, name, sub).found
    ensures exists k :: 0 <= k < |now| && Satisfies(Head(now[k]), Entry(name, sub, None))
  {
    RemoveIsTail(now[0], name, sub);
    if RemoveMethod(now[0], name, sub).removed {
      assert Satisfies(Head(now[0]), Entry(name, sub, None));
    } else {
      UpdateFoundOnly(now[1..], name, sub);
      var k :| 0 <= k < |now[1..]| && Satisfies(Head(now[1..][k]), Entry(name, sub, None));
      assert now[k + 1] == now[1..][k];
    }
  }

  lemma AcceptAborts(cfg: Config, a: Auth, name: string, sub: Option<string>, key: Option<nat>)
    requires Live(a) && a.l.multi
    ensures var u := UpdateLists(a.l.now, name, sub);
      Accept(cfg, a, name, sub, key).stop == Some(NotInMethodLists) <==> !u.completed && !u.found
  {
  }

  /** A success aborts the connection exactly when no list in progress begins with a token for
      it, which can be seen before the method is tried. */
  lemma AbortExactly(cfg: Config, a: Auth, name: string, sub: Option<string>, key: Option<nat>)
    requires Live(a) && a.l.multi && Known(name) && (sub.Some? ==> ',' !in sub.value)
    ensures Accept(cfg, a, name, sub, key).stop == Some(NotInMethodLists)
      <==> forall k :: 0 <= k < |a.l.now| ==> !Satisfies(Head(a.l.now[k]), Entry(name, sub, None))
  {
    AcceptAborts(cfg, a, name, sub, key);
    FoundExactly(a.l.now, name, sub);
  }

  lemma FoundExactly(now: seq<string>, name: string, sub: Option<string>)
    requires Known(name) && (sub.Some? ==> ',' !in sub.value)
    ensures var u := UpdateLists(now, name, sub);
      u.completed || u.found
      <==> exists k :: 0 <= k < |now| && Satisfies(Head(now[k]), Entry(name, sub, None))
  {
    KnownIsPlain(name);
    CompletedIsFound(now, name, sub);
    if UpdateLists(now, name, sub).found {
      UpdateFoundOnly(now, name, sub);
    } else if exists k :: 0 <= k < |now| && Satisfies(Head(now[k]), Entry(name, sub, None)) {
      var k :| 0 <= k < |now| && Satisfies(Head(now[k]), Entry(name, sub, None));
      UpdateFinds(now, name, sub, k);
    }
  }

  lemma {:induction false} CompletedIsFound(now: seq<string>, name: string, sub: Option<string>)
    ensures UpdateLists(now, name, sub).completed ==> UpdateLists(now, name, sub).found
  {
    if now != [] { CompletedIsFound(now[1..], name, sub); }
  }

  /** The condition of DialogueSafety is needed: a list that begins with a method and a
      submethod lets the method be tried, and its success then aborts the connection. */
  lemma StraySubmethodAborts(cfg: Config, a: Auth, name: string, sub: string, key: Option<nat>)
    requires Live(a) && a.l.multi && a.l.now == [Qualified(name, sub)]
    requires Known(name) && ',' !in sub
    ensures Allowed(a.l, name, None)
    ensures Accept(cfg, a, name, None, key).stop == Some(NotInMethodLists)
  {
    var t := Qualified(name, sub);
    KnownIsPlain(name);
    PrefixOfHead(t, t);
    assert t[|t|..] == "";
    StartsWithHead(t, name, None);
    assert |Head(t)| > |name|;
    assert Head(t)[..|name| + 1] == name + ":";
    AbortExactly(cfg, a, name, None, key);
  }

  lemma QualifiedToken(name: string, sub: string)
    requires Known(name) && ',' !in sub
    ensures var t := Qualified(name, sub); Split(t) == [t] && Base(t) == name
  {
    var t := Qualified(name, sub);
    KnownIsPlain(name);
    assert t == name + (":" + sub) && t[|name|] == ':' && t[..|name|] == name;
    forall i | 0 <= i < |t| ensures t[i] != ',' {
      if i < |name| { assert t[i] == name[i]; }
      else if i > |name| { assert t[i] == sub[i - |name| - 1]; }
    }
    assert t[..|t|] == t;
  }

  /** A configuration that allows password alone, by a list that asks for a submethod of it. */
  predicate StrayConfig(cfg: Config, sub: string) {
    && cfg.lists == [Qualified(PASSWORD, sub)] && cfg.password && cfg.maxAuthtries >= 1
    && ',' !in sub && Qualified(PASSWORD, sub) != "any"
  }

  /** Under it the first correct password of the dialogue aborts the connection. */
  lemma StrayRunAborts(cfg: Config, sub: string, user: string)
    requires StrayConfig(cfg, sub)
    ensures var m := Request(user, "ssh-connection", PASSWORD, true, false, Secret(true));
      Legal(cfg, Initial(), [m]) &&
      After(cfg, Initial(), [m]).stop == Some(NotInMethodLists)
  {
    var m := Request(user, "ssh-connection", PASSWORD, true, false, Secret(true));
    var t := Qualified(PASSWORD, sub);
    QualifiedToken(PASSWORD, sub);
    PasswordOffered(cfg);
    assert Prune([t], Cfgs(cfg, true)) == [t] by { assert [t][1..] == []; }
    var a1 := Admit(cfg, Initial(), UserPart(user), "ssh-connection", true);
    assert a1.l == Lists(true, [t], [t]) && Live(a1);
    StraySubmethodAborts(cfg, a1, PASSWORD, sub, None);
    assert Lookup(cfg, a1, PASSWORD) == Some(PASSWORD);
    assert OnRequest(cfg, Initial(), m).stop == Some(NotInMethodLists);
    assert [m][1..] == [];
  }

  lemma PasswordOffered(cfg: Config)
    requires cfg.password
    ensures Offered(Cfgs(cfg, true), PASSWORD, true)
  {
    var c := Cfgs(cfg, true);
    assert c[1..][1..][0] == c[2];
  }
}
