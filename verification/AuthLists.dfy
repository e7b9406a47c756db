/**
 * Comma-separated lists of authentication methods (auth2.c, auth2-methods.c): the
 * string operations of the source, and the token lists they stand for.
 */
module AuthLists {
  import opened Common

  /** Outcome of comparing a method with the start of a list. */
  datatype Match = MatchNone | MatchMethod | MatchBoth | MatchPartial

  // ----- tokens

  /** strcspn(s, {c}): the length of the part of `s` before the first `c`. */
  function Span(s: string, c: char): (n: nat)
    ensures n <= |s| && c !in s[..n] && (n < |s| ==> s[n] == c)
  {
    if s == "" || s[0] == c then 0
    else
      var n := Span(s[1..], c) + 1;
      assert s[..n] == [s[0]] + s[1..][..n - 1];
      n
  }

  function Head(s: string): string { s[..Span(s, ',')] }

  function Tail(s: string): string {
    if Span(s, ',') == |s| then "" else s[Span(s, ',') + 1..]
  }

  /** The tokens strsep yields: "a,b" gives two, "" gives one empty token. */
  function Split(s: string): (ts: seq<string>)
    ensures |ts| >= 1 && ts[0] == Head(s)
    decreases |s|
  {
    if Span(s, ',') == |s| then [s] else [Head(s)] + Split(Tail(s))
  }

  /** What is still required by a list from which completed methods have been removed. */
  function Todo(s: string): seq<string> { if s == "" then [] else Split(s) }

  ghost predicate NonEmptyTokens(s: string) { forall t :: t in Todo(s) ==> t != "" }

  /** Cutting the head token and its comma off the string drops the head of the token list. */
  lemma TailDropsHead(s: string)
    requires s != "" && NonEmptyTokens(s)
    ensures Todo(Tail(s)) == Todo(s)[1..] && NonEmptyTokens(Tail(s))
    ensures Tail(s) == "" <==> |Todo(s)| == 1
  {
    if Span(s, ',') < |s| {
      var ts := Split(Tail(s));
      assert Split(s) == [Head(s)] + ts && Split(s)[1] == ts[0];
      assert ts[0] in Todo(s) && ts[0] == Head(Tail(s));
      assert Tail(s) != "";
      assert forall t :: t in ts ==> t in Split(s);
    }
  }

  // ----- auth2.c: matching and removing

  function ListStartsWith(methods: string, name: string, sub: Option<string>): Match {
    if !(name <= methods) then MatchNone
    else
      var p := methods[|name|..];
      if p != "" && p[0] == ':' then
        if sub.None? then MatchPartial
        else
          var q := p[1..];
          if !(sub.value <= q) then MatchNone
          else
            var r := q[|sub.value|..];
            if r == "" || r[0] == ',' then MatchBoth else MatchNone
      else if p == "" || p[0] == ',' then MatchMethod
      else MatchNone
  }

  datatype Removal = Removal(removed: bool, rest: string)

  function RemoveMethod(methods: string, name: string, sub: Option<string>): Removal {
    var m := ListStartsWith(methods, name, sub);
    if m != MatchMethod && m != MatchBoth then Removal(false, methods)
    else
      var p := methods[|name|..];
      var q := if sub.Some? && m == MatchBoth then p[1 + |sub.value|..] else p;
      Removal(true, if q != "" && q[0] == ',' then q[1..] else q)
  }

  /** The token a success of `method` (and `submethod`) may be configured as. */
  function Qualified(name: string, sub: string): string { name + ":" + sub }

  predicate Plain(name: string) { ',' !in name && ':' !in name && name != "" }

  predicate AtEnd(p: string) { p == "" || p[0] == ',' }

  /** A comma-free string begins the list exactly when it begins the head token, and what
      follows it there is a comma or the end exactly when it is that token. */
  lemma PrefixOfHead(list: string, t: string)
    requires ',' !in t
    ensures t <= list <==> t <= Head(list)
    ensures t <= list ==> (AtEnd(list[|t|..]) <==> t == Head(list))
  {
  }

  /** The character-level comparison is a comparison with the head token. */
  lemma StartsWithHead(list: string, name: string, sub: Option<string>)
    requires Plain(name) && (sub.Some? ==> ',' !in sub.value)
    ensures ListStartsWith(list, name, sub) ==
      if Head(list) == name then MatchMethod
      else if sub.None? && name + ":" <= Head(list) then MatchPartial
      else if sub.Some? && Head(list) == Qualified(name, sub.value) then MatchBoth
      else MatchNone
  {
    PrefixOfHead(list, name);
    PlainIsNotQualified(list, name);
    if sub.None? {
      ColonPrefix(list, name);
      PrefixOfHead(list, name + ":");
    } else {
      QualifiedPrefix(list, name, sub.value);
      PrefixOfHead(list, Qualified(name, sub.value));
    }
  }

  lemma ColonPrefix(list: string, name: string)
    ensures name + ":" <= list
      <==> name <= list && list[|name|..] != "" && list[|name|..][0] == ':'
  {
    if name <= list && list[|name|..] != "" && list[|name|..][0] == ':' {
      assert list[..|name| + 1] == name + ":";
    }
    if name + ":" <= list {
      assert list[..|name|] == (name + ":")[..|name|] == name;
      assert list[|name|] == (name + ":")[|name|];
    }
  }

  lemma QualifiedPrefix(list: string, name: string, x: string)
    ensures Qualified(name, x) <= list <==> name + ":" <= list && x <= list[|name|..][1..]
    ensures Qualified(name, x) <= list ==>
              list[|Qualified(name, x)|..] == list[|name|..][1..][|x|..]
    ensures name + ":" <= list
      <==> name <= list && list[|name|..] != "" && list[|name|..][0] == ':'
  {
    ColonPrefix(list, name);
    var q := name + ":";
    assert Qualified(name, x) == q + x && |q| == |name| + 1;
    if q <= list {
      assert list[|name|..][1..] == list[|q|..];
      if x <= list[|q|..] { assert list == q + list[|q|..] && list[..|q + x|] == q + x; }
      if q + x <= list { assert list[|q|..][..|x|] == (q + x)[|q|..] == x; }
    }
    if q + x <= list { assert list[..|q|] == (q + x)[..|q|] == q; }
  }

  lemma PlainIsNotQualified(list: string, name: string)
    ensures Head(list) == name ==> !(name + ":" <= Head(list))
  {
  }

  /** remove_method drops the head token exactly when that token names the method, with or
      without its submethod, and otherwise leaves the list alone. */
  lemma RemoveIsTail(list: string, name: string, sub: Option<string>)
    requires Plain(name) && (sub.Some? ==> ',' !in sub.value)
    ensures var r := RemoveMethod(list, name, sub);
      && (r.removed <==> Head(list) == name
                         || (sub.Some? && Head(list) == Qualified(name, sub.value)))
      && r.rest == if r.removed then Tail(list) else list
  {
    StartsWithHead(list, name, sub);
    var m := ListStartsWith(list, name, sub);
    var n := Span(list, ',');
    if m == MatchMethod {
      assert list[|name|..] == list[n..];
    } else if m == MatchBoth {
      assert list[|name|..][1 + |sub.value|..] == list[n..];
    }
  }

  // ----- auth2-methods.c: which lists are well formed

  datatype MethodCfg = MethodCfg(name: string, enabled: bool)

  /** A token without its submethod. */
  function Base(t: string): string { t[..Span(t, ':')] }

  /** A method the server knows, and has enabled if that is asked for: the first entry of that
      name decides. */
  predicate Offered(cfgs: seq<MethodCfg>, name: string, needEnable: bool) {
    cfgs != [] && if cfgs[0].name == name then cfgs[0].enabled || !needEnable
                  else Offered(cfgs[1..], name, needEnable)
  }

  ghost predicate ListValid(list: string, cfgs: seq<MethodCfg>, needEnable: bool) {
    list != "" && forall t :: t in Split(list) ==> Offered(cfgs, Base(t), needEnable)
  }

  method OfferedInTable(cfgs: seq<MethodCfg>, name: string, needEnable: bool) returns (found: bool)
    ensures found == Offered(cfgs, name, needEnable)
  {
    var i := 0;
    while i < |cfgs|
      invariant i <= |cfgs|
      invariant Offered(cfgs, name, needEnable) == Offered(cfgs[i..], name, needEnable)
    {
      assert cfgs[i..][1..] == cfgs[i + 1..];
      if name == cfgs[i].name {
        if needEnable && !cfgs[i].enabled {
          return false;
        }
        return true;
      }
      i := i + 1;
    }
    return false;
  }

  /** auth2_methods_valid: a strsep loop over a copy of the list. */
  method MethodsValid(list: string, cfgs: seq<MethodCfg>, needEnable: bool) returns (ok: bool)
    ensures ok == ListValid(list, cfgs, needEnable)
  {
    if list == "" {
      return false;
    }
    var rest := Some(list);
    while rest.Some?
      invariant (forall t :: t in Split(list) ==> Offered(cfgs, Base(t), needEnable))
                <==> (rest.Some? ==> forall t :: t in Split(rest.value) ==>
                        Offered(cfgs, Base(t), needEnable))
      decreases if rest.Some? then |rest.value| + 1 else 0
    {
      var s := rest.value;
      var n := Span(s, ',');
      var token := s[..n];
      rest := if n < |s| then Some(s[n + 1..]) else None;
      var found := OfferedInTable(cfgs, Base(token), needEnable);
      assert token == Head(s) && token in Split(s);
      if !found {
        return false;
      }
      if rest.Some? {
        assert Split(s) == [token] + Split(rest.value);
      }
    }
    return true;
  }
}
