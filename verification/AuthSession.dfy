/**
 * The authentication context as the server process keeps it: counters, flags, the
 * array of method-list strings and the key history, updated in place by the message
 * handlers. Each method is proved to do what the functions of module AuthDialogue say.
 */
module AuthSession {
  import opened Common
  import opened AuthLists
  import opened AuthDialogue

  lemma PruneStep(lists: seq<string>, cfgs: seq<MethodCfg>, i: nat)
    requires i < |lists|
    ensures Prune(lists[i..], cfgs) ==
            (if ListValid(lists[i], cfgs, true) then [lists[i]] else []) + Prune(lists[i + 1..], cfgs)
  {
    assert lists[i..][1..] == lists[i + 1..];
  }

  method PruneLists(lists: seq<string>, cfgs: seq<MethodCfg>) returns (kept: seq<string>)
    ensures kept == Prune(lists, cfgs)
  {
    kept := [];
    var i := 0;
    assert lists[0..] == lists;
    while i < |lists|
      invariant i <= |lists| && Pruned(lists, cfgs, kept, i)
    {
      PruneTurn(lists, cfgs, kept, i);
      var valid := MethodsValid(lists[i], cfgs, true);
      if valid {
        kept := kept + [lists[i]];
      }
      i := i + 1;
    }
  }

  /** The first i lists have been looked at. */
  ghost predicate Pruned(lists: seq<string>, cfgs: seq<MethodCfg>, kept: seq<string>, i: nat)
    requires i <= |lists|
  {
    Prune(lists, cfgs) == kept + Prune(lists[i..], cfgs)
  }

  lemma PruneTurn(lists: seq<string>, cfgs: seq<MethodCfg>, kept: seq<string>, i: nat)
    requires i < |lists| && Pruned(lists, cfgs, kept, i)
    ensures Pruned(lists, cfgs, if ListValid(lists[i], cfgs, true) then kept + [lists[i]] else kept, i + 1)
  {
    PruneStep(lists, cfgs, i);
    var p := Prune(lists[i + 1..], cfgs);
    assert kept + ([lists[i]] + p) == (kept + [lists[i]]) + p && [] + p == p;
  }

  /** What the loop of auth2_update_methods_lists has done and what it leaves to do. */
  predicate Updating(whole: Update, done: seq<string>, todo: seq<string>, found: bool, name: string,
                     sub: Option<string>)
  {
    var v := UpdateLists(todo, name, sub);
    whole == Update(done + v.lists, v.completed, v.found || found)
  }

  lemma UpdateStep(whole: Update, done: seq<string>, todo: seq<string>, found: bool, name: string,
                   sub: Option<string>)
    requires todo != [] && Updating(whole, done, todo, found, name, sub)
    ensures var r := RemoveMethod(todo[0], name, sub);
      if r.removed && r.rest == "" then whole == Update(done + ([r.rest] + todo[1..]), true, true)
      else Updating(whole, done + [r.rest], todo[1..], found || r.removed, name, sub)
  {
    var r := RemoveMethod(todo[0], name, sub);
    var v := UpdateLists(todo[1..], name, sub);
    assert done + ([r.rest] + v.lists) == (done + [r.rest]) + v.lists;
  }

  class Authctxt {
    const cfg: Config
    var attempt: nat
    var failures: nat
    var success: bool
    var postponed: bool
    var noneEnabled: bool
    var user: string
    var service: string
    var valid: bool
    var multi: bool                    // options.num_auth_methods != 0
    var authMethods: seq<string>
    var prevKeys: seq<nat>
    var kbdintctxt: Option<Kbdint>
    var registered: bool
    var stop: Option<Stop>
    ghost var setup: seq<string>
    ghost var log: seq<Entry>

    ghost function View(): Auth
      reads this
    {
      Auth.Auth(attempt, failures, success, postponed, noneEnabled,
                Person(user, service, valid), Lists(multi, authMethods, setup), prevKeys,
                kbdintctxt, registered, stop, log)
    }

    constructor (cfg: Config)
      ensures this.cfg == cfg && View() == Initial()
    {
      this.cfg := cfg;
      attempt, failures, success, postponed, noneEnabled := 0, 0, false, false, true;
      user, service, valid := "", "", false;
      multi, authMethods, prevKeys := false, [], [];
      kbdintctxt, registered, stop := None, false, None;
      setup, log := [], [];
    }

    // ----- auth2.c: method lists and keys

    method MethodAllowed(name: string, sub: Option<string>) returns (ok: bool)
      ensures ok == Allowed(View().l, name, sub)
    {
      if !multi {
        return true;
      }
      var i := 0;
      while i < |authMethods|
        invariant i <= |authMethods|
        invariant SomeListStarts(authMethods, name, sub) == SomeListStarts(authMethods[i..], name, sub)
      {
        assert authMethods[i..][1..] == authMethods[i + 1..];
        if ListStartsWith(authMethods[i], name, sub) != MatchNone {
          return true;
        }
        i := i + 1;
      }
      return false;
    }

    method LookupMethod(name: string) returns (m: Option<string>)
      ensures m == Lookup(cfg, View(), name)
    {
      m := ByName(name);
      if m.None? {
        return;
      }
      var enabled := OfferedInTable(Cfgs(cfg, noneEnabled), m.value, true);
      if !enabled {
        return None;
      }
      var allowed := MethodAllowed(m.value, None);
      if !allowed {
        return None;
      }
    }

    method SetupMethodsLists() returns (l: Option<Lists>)
      ensures l == SetupLists(cfg, noneEnabled)
    {
      if cfg.lists == ["any"] || |cfg.lists| == 0 {
        return Some(Lists(false, [], []));
      }
      var kept := PruneLists(cfg.lists, Cfgs(cfg, noneEnabled));
      if kept == [] {
        return None;
      }
      return Some(Lists(true, kept, kept));
    }

    /** Removes a successful method from the start of every list; stops at the first list that
        becomes empty. */
    method UpdateMethodsLists(name: string, sub: Option<string>) returns (completed: bool, found: bool)
      modifies this`authMethods
      ensures Update(authMethods, completed, found) == UpdateLists(old(authMethods), name, sub)
    {
      completed, found := false, false;
      ghost var whole, done: seq<string>, todo := UpdateLists(authMethods, name, sub), [], authMethods;
      var i := 0;
      assert [] + whole.lists == whole.lists;
      while i < |authMethods|
        invariant i == |done| && authMethods == done + todo
        invariant Updating(whole, done, todo, found, name, sub)
        decreases |todo|
      {
        var removed, emptied := UpdateAt(i, name, sub, whole, done, todo, found);
        if removed {
          found := true;
          if emptied {
            return true, true;
          }
        }
        done, todo := done + [authMethods[i]], todo[1..];
        i := i + 1;
      }
    }

    /** One turn of the loop: method list i without the method at its start, if it is there. */
    method UpdateAt(i: nat, name: string, sub: Option<string>, ghost whole: Update,
                    ghost done: seq<string>, ghost todo: seq<string>, ghost found: bool)
      returns (removed: bool, emptied: bool)
      requires i == |done| && authMethods == done + todo && todo != []
      requires Updating(whole, done, todo, found, name, sub)
      modifies this`authMethods
      ensures |authMethods| == |old(authMethods)| && authMethods == done + [authMethods[i]] + todo[1..]
      ensures emptied ==> removed && whole == Update(authMethods, true, true)
      ensures !emptied ==> Updating(whole, done + [authMethods[i]], todo[1..], found || removed, name, sub)
    {
      var r := RemoveMethod(authMethods[i], name, sub);
      UpdateStep(whole, done, todo, found, name, sub);
      authMethods := authMethods[i := r.rest];
      assert authMethods == done + ([r.rest] + todo[1..]);
      return r.removed, r.removed && r.rest == "";
    }

    method KeyAlreadyUsed(key: nat) returns (used: bool)
      ensures used <==> key in prevKeys
    {
      var i := 0;
      while i < |prevKeys|
        invariant i <= |prevKeys| && key !in prevKeys[..i]
      {
        if prevKeys[i] == key {
          return true;
        }
        i := i + 1;
      }
      return false;
    }

    method RecordKey(authenticated: bool, key: nat)
      modifies this`prevKeys
      ensures prevKeys == if authenticated then old(prevKeys) + [key] else old(prevKeys)
    {
      if authenticated {
        prevKeys := prevKeys + [key];
      }
    }

    // ----- auth2-chall.c

    method ScanDevices(token: string, done: set<nat>) returns (p: Pick)
      ensures p == PickDevice(cfg.devices, View().l, token, 0, Pick(None, done))
    {
      p := Pick(None, done);
      var i := 0;
      while i < |cfg.devices|
        invariant i <= |cfg.devices|
        invariant PickDevice(cfg.devices, View().l, token, 0, Pick(None, done))
                  == PickDevice(cfg.devices, View().l, token, i, p)
      {
        var allowed := MethodAllowed(KBDINT, Some(cfg.devices[i]));
        if i !in p.done && allowed {
          if cfg.devices[i] == token {
            p := Pick(Some(i), p.done + {i});
          }
        }
        i := i + 1;
      }
    }

    method KbdintNextDevice(devices: Option<string>, done: set<nat>) returns (k: Kbdint)
      ensures k == NextDevice(cfg.devices, View().l, devices, done)
    {
      k := Kbdint(devices, None, done);
      while k.devices.Some? && k.device.None?
        invariant k.device.None? ==> NextDevice(cfg.devices, View().l, devices, done)
                                     == NextDevice(cfg.devices, View().l, k.devices, k.done)
        invariant k.device.Some? ==> NextDevice(cfg.devices, View().l, devices, done) == k
        decreases if k.devices.Some? then |k.devices.value| + 1 else 0
      {
        var s := k.devices.value;
        var len := Span(s, ',');
        if len == 0 {
          break;
        }
        var p := ScanDevices(s[..len], k.done);
        var rest := if len < |s| then Some(s[len + 1..]) else None;
        assert Head(s) == s[..len];
        k := Kbdint(rest, p.device, p.done);
      }
    }

    method ChallengeStop()
      modifies this`kbdintctxt, this`registered
      ensures View() == AuthDialogue.ChallengeStop(old(View()))
    {
      registered := false;
      kbdintctxt := None;
    }

    method ChallengeStart(k: Kbdint, ready: bool)
      modifies this`kbdintctxt, this`registered, this`postponed
      ensures View() == AuthDialogue.ChallengeStart(cfg, old(View()), k, ready)
    {
      var k1 := KbdintNextDevice(k.devices, k.done);
      if k1.device.None? || !ready {
        ChallengeStop();
        return;
      }
      kbdintctxt := Some(k1);
      registered := true;
      postponed := true;
    }

    // ----- the methods

    method UserauthPubkey(p: PubkeyTry) returns (authenticated: bool, key: Option<nat>)
      modifies this`prevKeys, this`postponed
      ensures Tried(View(), authenticated, key) == AuthDialogue.UserauthPubkey(old(View()), p)
    {
      authenticated, key := false, None;
      if p.key.None? {
        return;
      }
      var used := KeyAlreadyUsed(p.key.value);
      if used || !p.accepted {
        return;
      }
      if p.haveSig {
        if !valid {
          return;
        }
        if p.allowed && p.verified {
          authenticated := true;
        }
        if authenticated && !p.detailsOk {
          authenticated := false;
          return;
        }
        RecordKey(authenticated, p.key.value);
      } else {
        if !valid {
          return;
        }
        if p.allowed {
          postponed := true;
        }
      }
      if authenticated {
        key := p.key;
        authenticated := p.optionsOk;
      }
    }

    method UserauthHostbased(k: Option<nat>, ok: bool) returns (authenticated: bool, key: Option<nat>)
      modifies this`prevKeys
      ensures Tried(View(), authenticated, key) == AuthDialogue.UserauthHostbased(old(View()), k, ok)
    {
      authenticated, key := false, None;
      if k.None? || !valid {
        return;
      }
      authenticated := ok;
      RecordKey(authenticated, k.value);
      if authenticated {
        key := k;
      }
    }

    method RunMethod(name: string, c: Credential) returns (authenticated: bool, key: Option<nat>)
      modifies this
      ensures Tried(View(), authenticated, key) == Userauth(cfg, old(View()), name, c)
    {
      authenticated, key := false, None;
      match c {
        case Secret(ok) =>
          if name == NONE {
            noneEnabled := false;
            if cfg.permitEmptyPassword && cfg.password {
              authenticated := ok && valid;
            }
          } else if name == PASSWORD {
            authenticated := ok && valid;
          } else {
            stop := Some(BadPacket);
          }
        case Pubkey(p) =>
          if name == PUBLICKEY {
            authenticated, key := UserauthPubkey(p);
          } else {
            stop := Some(BadPacket);
          }
        case HostKey(k, ok) =>
          if name == HOSTBASED {
            authenticated, key := UserauthHostbased(k, ok);
          } else {
            stop := Some(BadPacket);
          }
        case Interactive(devs, ready) =>
          if name == KBDINT {
            var todo := if devs == "" then JoinNames(cfg.devices) else devs;
            ChallengeStart(Kbdint(Some(todo), None, {}), ready);
          } else {
            stop := Some(BadPacket);
          }
      }
    }

    method SendFailure(partial: bool, name: string)
      modifies this`failures, this`stop
      ensures View() == Fail(cfg, old(View()), partial, name)
    {
      if !partial && (attempt > 1 || name != NONE) {
        failures := failures + 1;
      }
      if failures >= cfg.maxAuthtries {
        stop := Some(TooManyFailures);
      }
    }

    method AcceptMethod(name: string, sub: Option<string>, key: Option<nat>)
      modifies this
      ensures View() == Accept(cfg, old(View()), name, sub, key)
    {
      log := log + [Entry(name, sub, key)];
      if !multi {
        success := true;
        return;
      }
      ghost var a1, u := View(), UpdateLists(authMethods, name, sub);
      var completed, found := UpdateMethodsLists(name, sub);
      assert View() == a1.(l := a1.l.(now := u.lists));
      JudgeSuccess(completed, found, name);
    }

    method JudgeSuccess(completed: bool, found: bool, name: string)
      modifies this`success, this`stop, this`failures
      ensures View() == Judge(cfg, old(View()), completed, found, name)
    {
      if completed {
        success := true;
      } else if !found {
        stop := Some(NotInMethodLists);
      } else {
        SendFailure(true, name);
      }
    }

    method UserauthFinish(authenticated: bool, key: Option<nat>, packetName: string,
                          sub: Option<string>, rootRefused: bool)
      modifies this
      ensures View() == Finish(cfg, Tried(old(View()), authenticated, key), packetName, sub, rootRefused)
    {
      if stop.Some? {
        return;
      }
      var name := packetName;
      if authenticated {
        if !valid {
          stop := Some(AuthenticatedInvalidUser);
          return;
        }
        if postponed {
          stop := Some(AuthenticatedAndPostponed);
          return;
        }
        if ByName(packetName).None? {
          stop := Some(BadMethodName);
          return;
        }
        name := ByName(packetName).value;
      }
      if authenticated && !rootRefused {
        AcceptMethod(name, sub, key);
        return;
      }
      if postponed {
        return;
      }
      SendFailure(false, name);
    }

    // ----- message handlers

    method NamePerson(user': string, service': string, known: bool)
      modifies this
      ensures View() == old(View()).(
        attempt := 1, who := Person(user', service', known && service' == "ssh-connection"))
    {
      attempt := 1;
      user, service, valid := user', service', known && service' == "ssh-connection";
    }

    method InstallLists(l: Option<Lists>)
      modifies this
      ensures View() == if l.None? then old(View()).(stop := Some(NoMethods))
                        else old(View()).(l := l.value)
    {
      if l.None? {
        stop := Some(NoMethods);
      } else {
        multi, authMethods, setup := l.value.multi, l.value.now, l.value.setup;
      }
    }

    method AdmitFirst(user': string, service': string, known: bool)
      requires stop == None
      modifies this
      ensures View() == FirstAdmit(cfg, old(View()), user', service', known)
    {
      var l := SetupMethodsLists();
      NamePerson(user', service', known);
      InstallLists(l);
    }

    method AdmitLater(user': string, service': string)
      requires stop == None
      modifies this`attempt, this`stop
      ensures View() == LaterAdmit(old(View()), user', service')
    {
      attempt := attempt + 1;
      if user' != user || service' != service {
        stop := Some(UserChanged);
      }
    }

    method AdmitRequest(user': string, service': string, known: bool)
      requires stop == None
      modifies this
      ensures View() == Admit(cfg, old(View()), user', service', known)
    {
      if attempt >= MAX_ATTEMPTS {
        stop := Some(TooManyFailures);
      } else if attempt == 0 {
        AdmitFirst(user', service', known);
      } else {
        AdmitLater(user', service');
      }
    }

    method TryRequestedMethod(m: Message)
      requires m.Request?
      modifies this
      ensures View() == TryMethod(cfg, old(View()), m)
    {
      var name := LookupMethod(m.name);
      var authenticated, key := false, None;
      if name.Some? && failures < cfg.maxAuthtries {
        authenticated, key := RunMethod(name.value, m.cred);
      }
      UserauthFinish(authenticated, key, m.name, None, m.rootRefused);
    }

    method InputUserauthRequest(m: Message)
      requires m.Request? && Possible(View(), m)
      modifies this
      ensures View() == Step(cfg, old(View()), m)
    {
      AdmitRequest(UserPart(m.user), m.service, m.known);
      if stop.Some? {
        return;
      }
      ChallengeStop();
      postponed := false;
      TryRequestedMethod(m);
    }

    method InputUserauthInfoResponse(m: Message)
      requires m.InfoResponse? && Possible(View(), m)
      modifies this
      ensures View() == Step(cfg, old(View()), m)
    {
      if || kbdintctxt.None? || kbdintctxt.value.device.None?
         || kbdintctxt.value.device.value >= |cfg.devices|
      {
        stop := Some(NoKbdintContext);
        return;
      }
      var k := kbdintctxt.value;
      var deviceName := cfg.devices[k.device.value];
      postponed := false;
      if !m.wellFormed {
        stop := Some(BadPacket);
        return;
      }
      var authenticated := false;
      if m.result == 0 {
        authenticated := valid;
      } else if m.result == 1 && m.again {
        postponed := true;
      }
      if !postponed {
        if authenticated {
          ChallengeStop();
        } else {
          ChallengeStart(k, m.next);
        }
      }
      UserauthFinish(authenticated, None, KBDINT, Some(deviceName), m.refused);
    }
  }
}
