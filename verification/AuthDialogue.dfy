/**
 * The user-authentication dialogue of sshd (auth2.c, auth2-chall.c, auth2-pubkey.c)
 * as a state machine over requests and keyboard-interactive responses. Credential
 * checks are answers that come with each message; everything the program does with
 * them is modelled.
 */
module AuthDialogue {
  import opened Common
  import opened AuthLists

  const NONE := "none"
  const PUBLICKEY := "publickey"
  const HOSTBOUND := "publickey-hostbound-v00@openssh.com"
  const PASSWORD := "password"
  const KBDINT := "keyboard-interactive"
  const HOSTBASED := "hostbased"
  const MAX_ATTEMPTS := 1024

  datatype Config = Config(
    lists: seq<string>,            // AuthenticationMethods
    pubkey: bool, password: bool, kbdint: bool, hostbased: bool, permitEmptyPassword: bool,
    maxAuthtries: nat,
    devices: seq<string>)          // names of the keyboard-interactive devices

  /** Reasons for dropping the connection. */
  datatype Stop =
    | TooManyFailures | UserChanged | NoMethods | BadPacket
    | NoKbdintContext | AuthenticatedInvalidUser | AuthenticatedAndPostponed | BadMethodName | NotInMethodLists

  datatype Kbdint = Kbdint(devices: Option<string>, device: Option<nat>, done: set<nat>)

  /** A method that succeeded; `key` is the public part of the key used, if any. */
  datatype Entry = Entry(name: string, sub: Option<string>, key: Option<nat>)

  datatype Person = Person(user: string, service: string, valid: bool)

  datatype Lists = Lists(
    multi: bool,                   // method lists are in force
    now: seq<string>,              // what is left of them
    setup: seq<string>)            // history: the lists as installed

  datatype Auth = Auth(
    attempt: nat, failures: nat, success: bool, postponed: bool, noneEnabled: bool,
    who: Person, l: Lists, prevKeys: seq<nat>,
    kbd: Option<Kbdint>, registered: bool,
    stop: Option<Stop>,
    log: seq<Entry>)               // history: successful methods in order

  predicate Live(a: Auth) { a.stop == None && !a.success }

  // ----- method table

  function Cfgs(cfg: Config, noneEnabled: bool): seq<MethodCfg> {
    [MethodCfg(NONE, noneEnabled), MethodCfg(PUBLICKEY, cfg.pubkey),
     MethodCfg(PASSWORD, cfg.password), MethodCfg(KBDINT, cfg.kbdint),
     MethodCfg(HOSTBASED, cfg.hostbased)]
  }

  predicate Known(name: string) {
    name == NONE || name == PUBLICKEY || name == PASSWORD || name == KBDINT || name == HOSTBASED
  }

  /** authmethod_byname: a method goes by its name or by its synonym. */
  function ByName(name: string): Option<string> {
    if Known(name) then Some(name) else if name == HOSTBOUND then Some(PUBLICKEY) else None
  }

  // ----- method lists

  predicate SomeListStarts(lists: seq<string>, name: string, sub: Option<string>) {
    lists != [] && (ListStartsWith(lists[0], name, sub) != MatchNone
                    || SomeListStarts(lists[1..], name, sub))
  }

  /** auth2_method_allowed */
  predicate Allowed(l: Lists, name: string, sub: Option<string>) {
    !l.multi || SomeListStarts(l.now, name, sub)
  }

  /** authmethod_lookup */
  function Lookup(cfg: Config, a: Auth, name: string): Option<string> {
    var m := ByName(name);
    if m.None? || !Offered(Cfgs(cfg, a.noneEnabled), m.value, true) then None
    else if !Allowed(a.l, m.value, None) then None
    else m
  }

  /** auth2_setup_methods_lists: keep the lists whose methods are all enabled. */
  ghost function Prune(lists: seq<string>, cfgs: seq<MethodCfg>): seq<string> {
    if lists == [] then []
    else (if ListValid(lists[0], cfgs, true) then [lists[0]] else []) + Prune(lists[1..], cfgs)
  }

  ghost function SetupLists(cfg: Config, noneEnabled: bool): Option<Lists> {
    if cfg.lists == ["any"] || cfg.lists == [] then Some(Lists(false, [], []))
    else
      var kept := Prune(cfg.lists, Cfgs(cfg, noneEnabled));
      if kept == [] then None else Some(Lists(true, kept, kept))
  }

  datatype Update = Update(lists: seq<string>, completed: bool, found: bool)

  /** auth2_update_methods_lists: stops at the first list it completes. */
  function UpdateLists(lists: seq<string>, name: string, sub: Option<string>): Update {
    if lists == [] then Update([], false, false)
    else
      var r := RemoveMethod(lists[0], name, sub);
      if r.removed && r.rest == "" then Update([r.rest] + lists[1..], true, true)
      else
        var u := UpdateLists(lists[1..], name, sub);
        Update([r.rest] + u.lists, u.completed, u.found || r.removed)
  }

  // ----- auth2-chall.c

  function JoinNames(names: seq<string>): string {
    if names == [] then ""
    else if |names| == 1 then names[0]
    else names[0] + "," + JoinNames(names[1..])
  }

  datatype Pick = Pick(device: Option<nat>, done: set<nat>)

  /** One pass over the device table for one token: the last fresh, allowed device of that name. */
  function PickDevice(devices: seq<string>, l: Lists, token: string, i: nat, p: Pick): Pick
    requires i <= |devices|
    decreases |devices| - i
  {
    if i == |devices| then p
    else if i in p.done || !Allowed(l, KBDINT, Some(devices[i])) || devices[i] != token then
      PickDevice(devices, l, token, i + 1, p)
    else PickDevice(devices, l, token, i + 1, Pick(Some(i), p.done + {i}))
  }

  /** The list after its first token and the comma; None at its end. */
  function AfterHead(s: string): (r: Option<string>)
    ensures r.Some? ==> |r.value| < |s|
  {
    var n := Span(s, ',');
    if n < |s| then Some(s[n + 1..]) else None
  }

  /** kbdint_next_device: take tokens off the client's list until one names a usable device. */
  function NextDevice(devices: seq<string>, l: Lists, todo: Option<string>, done: set<nat>): Kbdint
    decreases if todo.Some? then |todo.value| + 1 else 0
  {
    if todo.None? || Head(todo.value) == "" then Kbdint(todo, None, done)
    else
      var p := PickDevice(devices, l, Head(todo.value), 0, Pick(None, done));
      if p.device.Some? then Kbdint(AfterHead(todo.value), p.device, p.done)
      else NextDevice(devices, l, AfterHead(todo.value), p.done)
  }

  function ChallengeStop(a: Auth): Auth { a.(kbd := None, registered := false) }

  /** auth2_challenge_start; `ready` says that the device could be initialised and queried. */
  function ChallengeStart(cfg: Config, a: Auth, k: Kbdint, ready: bool): Auth {
    var k1 := NextDevice(cfg.devices, a.l, k.devices, k.done);
    if k1.device.None? || !ready then ChallengeStop(a)
    else a.(kbd := Some(k1), registered := true, postponed := true)
  }

  // ----- the methods

  datatype PubkeyTry = PubkeyTry(
    key: Option<nat>,      // None: unsupported algorithm, undecodable or mismatched key
    accepted: bool,        // algorithm, CA signature and RSA size acceptable
    haveSig: bool, allowed: bool, verified: bool,
    detailsOk: bool,       // security-key presence and verification requirements met
    optionsOk: bool)       // auth_activate_options succeeded

  datatype Credential =
    | Secret(ok: bool)
    | Pubkey(p: PubkeyTry)
    | HostKey(key: Option<nat>, ok: bool)   // None: refused before the signature is looked at
    | Interactive(devs: string, ready: bool)

  datatype Tried = Tried(a: Auth, authenticated: bool, key: Option<nat>)

  /** userauth_pubkey */
  function UserauthPubkey(a: Auth, p: PubkeyTry): Tried {
    if p.key.None? || p.key.value in a.prevKeys || !p.accepted || !a.who.valid then
      Tried(a, false, None)
    else if p.haveSig then
      if !(p.allowed && p.verified) then Tried(a, false, None)
      else if !p.detailsOk then Tried(a, false, None)
      else Tried(a.(prevKeys := a.prevKeys + [p.key.value]), p.optionsOk, p.key)
    else Tried(if p.allowed then a.(postponed := true) else a, false, None)
  }

  /** userauth_hostbased: the host's key goes into the history, but may have been there before. */
  function UserauthHostbased(a: Auth, key: Option<nat>, ok: bool): Tried {
    if key.None? || !a.who.valid || !ok then Tried(a, false, None)
    else Tried(a.(prevKeys := a.prevKeys + [key.value]), true, key)
  }

  /** The method's own handler; a packet of the wrong shape is fatal. */
  function Userauth(cfg: Config, a: Auth, name: string, c: Credential): Tried {
    match c
    case Secret(ok) =>
      if name == NONE then
        Tried(a.(noneEnabled := false),
              cfg.permitEmptyPassword && cfg.password && ok && a.who.valid, None)
      else if name == PASSWORD then Tried(a, ok && a.who.valid, None)
      else Tried(a.(stop := Some(BadPacket)), false, None)
    case Pubkey(p) =>
      if name == PUBLICKEY then UserauthPubkey(a, p)
      else Tried(a.(stop := Some(BadPacket)), false, None)
    case HostKey(key, ok) =>
      if name == HOSTBASED then UserauthHostbased(a, key, ok)
      else Tried(a.(stop := Some(BadPacket)), false, None)
    case Interactive(devs, ready) =>
      if name == KBDINT then
        var todo := if devs == "" then JoinNames(cfg.devices) else devs;
        Tried(ChallengeStart(cfg, a, Kbdint(Some(todo), None, {}), ready), false, None)
      else Tried(a.(stop := Some(BadPacket)), false, None)
  }

  // ----- userauth_finish

  function Fail(cfg: Config, a: Auth, partial: bool, name: string): Auth {
    var failures := if !partial && (a.attempt > 1 || name != NONE) then a.failures + 1
                    else a.failures;
    if failures >= cfg.maxAuthtries then a.(failures := failures, stop := Some(TooManyFailures))
    else a.(failures := failures)
  }

  /** The verdict on a success once the lists are updated. */
  function Judge(cfg: Config, a: Auth, completed: bool, found: bool, name: string): Auth {
    if completed then a.(success := true)
    else if !found then a.(stop := Some(NotInMethodLists))
    else Fail(cfg, a, true, name)
  }

  /** A method has succeeded: update the lists and decide between success and partial success. */
  function Accept(cfg: Config, a: Auth, name: string, sub: Option<string>, key: Option<nat>): Auth {
    var a1 := a.(log := a.log + [Entry(name, sub, key)]);
    if !a.l.multi then a1.(success := true)
    else
      var u := UpdateLists(a.l.now, name, sub);
      Judge(cfg, a1.(l := a.l.(now := u.lists)), u.completed, u.found, name)
  }

  function Finish(cfg: Config, t: Tried, packetName: string, sub: Option<string>,
                  rootRefused: bool): Auth
  {
    var a := t.a;
    if a.stop.Some? then a
    else if t.authenticated && !a.who.valid then a.(stop := Some(AuthenticatedInvalidUser))
    else if t.authenticated && a.postponed then a.(stop := Some(AuthenticatedAndPostponed))
    else if t.authenticated && ByName(packetName).None? then a.(stop := Some(BadMethodName))
    else if t.authenticated && !rootRefused then
      Accept(cfg, a, ByName(packetName).value, sub, t.key)
    else if a.postponed then a
    else Fail(cfg, a, false, if t.authenticated then ByName(packetName).value else packetName)
  }

  // ----- messages

  datatype Message =
    | Request(user: string, service: string, name: string, known: bool, rootRefused: bool,
              cred: Credential)
    | InfoResponse(wellFormed: bool, result: nat, again: bool, next: bool, refused: bool)

  /** The user name without its login style. */
  function UserPart(user: string): string { user[..Span(user, ':')] }

  ghost function FirstAdmit(cfg: Config, a: Auth, user: string, service: string, known: bool): Auth {
    var l := SetupLists(cfg, a.noneEnabled);
    var a1 := a.(attempt := 1, who := Person(user, service, known && service == "ssh-connection"));
    if l.None? then a1.(stop := Some(NoMethods)) else a1.(l := l.value)
  }

  function LaterAdmit(a: Auth, user: string, service: string): Auth {
    a.(attempt := a.attempt + 1,
       stop := if user != a.who.user || service != a.who.service then Some(UserChanged) else None)
  }

  /** The part of input_userauth_request before the method is tried. */
  ghost function Admit(cfg: Config, a: Auth, user: string, service: string, known: bool): Auth {
    if a.attempt >= MAX_ATTEMPTS then a.(stop := Some(TooManyFailures))
    else if a.attempt == 0 then FirstAdmit(cfg, a, user, service, known)
    else LaterAdmit(a, user, service)
  }

  /** The rest of it: abandon any dialogue in progress, then try the method if it may be tried. */
  function TryMethod(cfg: Config, a: Auth, m: Message): Auth
    requires m.Request?
  {
    var name := Lookup(cfg, a, m.name);
    var t := if name.Some? && a.failures < cfg.maxAuthtries
             then Userauth(cfg, a, name.value, m.cred) else Tried(a, false, None);
    Finish(cfg, t, m.name, None, m.rootRefused)
  }

  /** input_userauth_request */
  ghost function OnRequest(cfg: Config, a: Auth, m: Message): Auth
    requires m.Request?
  {
    var a1 := Admit(cfg, a, UserPart(m.user), m.service, m.known);
    if a1.stop.Some? then a1
    else TryMethod(cfg, ChallengeStop(a1).(postponed := false), m)
  }

  function DeviceName(cfg: Config, k: Kbdint): string
    requires k.device.Some? && k.device.value < |cfg.devices|
  {
    cfg.devices[k.device.value]
  }

  /** What the device said: done, ask again, or go on to the next device. */
  function Answered(cfg: Config, a: Auth, k: Kbdint, m: Message): Auth
    requires m.InfoResponse?
  {
    if m.result == 1 && m.again then a.(postponed := true)
    else if m.result == 0 && a.who.valid then ChallengeStop(a.(postponed := false))
    else ChallengeStart(cfg, a.(postponed := false), k, m.next)
  }

  /** input_userauth_info_response; possible only while the handler is registered. */
  function OnInfoResponse(cfg: Config, a: Auth, m: Message): Auth
    requires m.InfoResponse? && a.kbd.Some?
    requires a.kbd.value.device.Some? && a.kbd.value.device.value < |cfg.devices|
  {
    var k := a.kbd.value;
    if !m.wellFormed then a.(postponed := false, stop := Some(BadPacket))
    else
      Finish(cfg, Tried(Answered(cfg, a, k, m), m.result == 0 && a.who.valid, None),
             KBDINT, Some(DeviceName(cfg, k)), m.refused)
  }

  predicate Ready(cfg: Config, a: Auth) {
    a.kbd.Some? && a.kbd.value.device.Some? && a.kbd.value.device.value < |cfg.devices|
  }

  /** Responses are dispatched only while their handler is registered; nothing is handled
      after success or disconnection. */
  predicate Possible(a: Auth, m: Message) { Live(a) && (m.InfoResponse? ==> a.registered) }

  ghost function Step(cfg: Config, a: Auth, m: Message): Auth {
    if m.Request? then OnRequest(cfg, a, m)
    else if Ready(cfg, a) then OnInfoResponse(cfg, a, m)
    else a.(stop := Some(NoKbdintContext))
  }

  function Initial(): Auth {
    Auth(0, 0, false, false, true, Person("", "", false), Lists(false, [], []), [], None, false,
         None, [])
  }
}
