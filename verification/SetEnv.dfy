/**
 * The bridge's environment list (jni-dropbear.c, ikofi_set_env): one name=value pair a
 * line, read by a cursor that runs to the end of the string, each pair exported as it
 * is found.
 */
module SetEnv {
  import opened Common

  datatype Pair = Pair(name: string, value: string)

  const CONF_DIR := "IKOFI_CONF_DIR"

  predicate IsBreak(c: char) { c == '\r' || c == '\n' }

  predicate EndsName(c: char) { c == '=' || IsBreak(c) }

  // ----- what a list means

  /** Length of the longest prefix that belongs to a name. */
  function NameLen(s: string): (n: nat)
    ensures n <= |s|
  {
    if s == "" || EndsName(s[0]) then 0 else 1 + NameLen(s[1..])
  }

  /** Length of the longest prefix without a line break. */
  function ValueLen(s: string): (n: nat)
    ensures n <= |s|
  {
    if s == "" || IsBreak(s[0]) then 0 else 1 + ValueLen(s[1..])
  }

  function BreakLen(s: string): (n: nat)
    ensures n <= |s|
  {
    if s == "" || !IsBreak(s[0]) then 0 else 1 + BreakLen(s[1..])
  }

  /** Value and rest after a name; no value without an equals sign. */
  function AfterName(s: string): (r: (string, string))
    ensures |r.1| <= |s|
    ensures s != "" && EndsName(s[0]) && !IsBreak(s[0]) ==> |r.1| < |s|
    ensures s != "" && IsBreak(s[0]) ==> r == ("", s)
  {
    if s != "" && s[0] == '=' then
      var n := ValueLen(s[1..]);
      (s[1..][..n], s[1..][n..])
    else ("", s)
  }

  /** One round: what is exported, if anything, and what is left of the list. */
  function Line(s: string): (r: (seq<Pair>, string))
    requires s != ""
    ensures |r.1| < |s|
  {
    var n := NameLen(s);
    NameStops(s);
    var (value, rest) := AfterName(s[n..]);
    (if n > 0 then [Pair(s[..n], value)] else [], rest[BreakLen(rest)..])
  }

  function Parse(s: string): seq<Pair>
    decreases |s|
  {
    if s == "" then []
    else
      var (ps, rest) := Line(s);
      ps + Parse(rest)
  }

  lemma {:induction false} NameStops(s: string)
    ensures var n := NameLen(s); n < |s| ==> EndsName(s[n])
    ensures forall i :: 0 <= i < NameLen(s) ==> !EndsName(s[i])
  {
    if s != "" && !EndsName(s[0]) { NameStops(s[1..]); }
  }

  // ----- printing and parsing back

  predicate IsName(s: string) { forall i :: 0 <= i < |s| ==> !EndsName(s[i]) }

  predicate IsValue(s: string) { forall i :: 0 <= i < |s| ==> !IsBreak(s[i]) }

  predicate AreBreaks(s: string) { forall i :: 0 <= i < |s| ==> IsBreak(s[i]) }

  predicate Good(p: Pair) { p.name != "" && IsName(p.name) && IsValue(p.value) }

  predicate AllGood(ps: seq<Pair>) { forall i :: 0 <= i < |ps| ==> Good(ps[i]) }

  lemma {:induction false} NameLenIs(name: string, rest: string)
    requires IsName(name) && (rest == "" || EndsName(rest[0]))
    ensures NameLen(name + rest) == |name|
  {
    if name == "" {
      assert name + rest == rest;
    } else {
      assert (name + rest)[1..] == name[1..] + rest;
      NameLenIs(name[1..], rest);
    }
  }

  lemma {:induction false} ValueLenIs(value: string, rest: string)
    requires IsValue(value) && (rest == "" || IsBreak(rest[0]))
    ensures ValueLen(value + rest) == |value|
  {
    if value == "" {
      assert value + rest == rest;
    } else {
      assert (value + rest)[1..] == value[1..] + rest;
      ValueLenIs(value[1..], rest);
    }
  }

  lemma {:induction false} BreakLenIs(b: string, rest: string)
    requires AreBreaks(b) && (rest == "" || !IsBreak(rest[0]))
    ensures BreakLen(b + rest) == |b|
  {
    if b == "" {
      assert b + rest == rest;
    } else {
      assert (b + rest)[1..] == b[1..] + rest;
      BreakLenIs(b[1..], rest);
    }
  }

  /** A line and the line breaks that end it. */
  function PrintLine(p: Pair, b: string): string { p.name + ("=" + (p.value + b)) }

  /** Pairs one a line; line i ends with the breaks bs[i]. */
  function Print(ps: seq<Pair>, bs: seq<string>): string
    requires |ps| == |bs|
  {
    if ps == [] then "" else PrintLine(ps[0], bs[0]) + Print(ps[1..], bs[1..])
  }

  /** Any mixture of CR and LF ends a line; the last line may have none. */
  predicate Separators(bs: seq<string>) {
    forall i :: 0 <= i < |bs| ==> AreBreaks(bs[i]) && (i < |bs| - 1 ==> bs[i] != "")
  }

  lemma LineBack(p: Pair, b: string, t: string)
    requires Good(p) && AreBreaks(b) && (b == "" ==> t == "") && (t == "" || !IsBreak(t[0]))
    ensures Line(PrintLine(p, b) + t) == ([p], t)
  {
    var s, tail := PrintLine(p, b) + t, b + t;
    var after := "=" + (p.value + tail);
    assert s == p.name + after;
    NameLenIs(p.name, after);
    assert s[..|p.name|] == p.name && s[|p.name|..] == after;
    AfterNameBack(p.value, tail);
    BreakLenIs(b, t);
    assert tail[|b|..] == t;
  }

  lemma AfterNameBack(value: string, tail: string)
    requires IsValue(value) && (tail == "" || IsBreak(tail[0]))
    ensures AfterName("=" + (value + tail)) == (value, tail)
  {
    var after := "=" + (value + tail);
    assert after[1..] == value + tail;
    ValueLenIs(value, tail);
    assert (value + tail)[..|value|] == value && (value + tail)[|value|..] == tail;
  }

  lemma LineParses(p: Pair, b: string, t: string)
    requires Good(p) && AreBreaks(b) && (b == "" ==> t == "") && (t == "" || !IsBreak(t[0]))
    ensures Parse(PrintLine(p, b) + t) == [p] + Parse(t)
  {
    LineBack(p, b, t);
  }

  lemma PrintStarts(ps: seq<Pair>, bs: seq<string>)
    requires |ps| == |bs| && AllGood(ps)
    ensures Print(ps, bs) == "" || !IsBreak(Print(ps, bs)[0])
  {
  }

  lemma SeparatorsTail(bs: seq<string>)
    requires bs != [] && Separators(bs)
    ensures AreBreaks(bs[0]) && Separators(bs[1..]) && (bs[0] == "" ==> |bs| == 1)
  {
  }

  lemma AllGoodTail(ps: seq<Pair>)
    requires ps != [] && AllGood(ps)
    ensures Good(ps[0]) && AllGood(ps[1..])
  {
  }

  lemma PrintSplits(ps: seq<Pair>, bs: seq<string>)
    requires ps != [] && |ps| == |bs|
    ensures Print(ps, bs) == PrintLine(ps[0], bs[0]) + Print(ps[1..], bs[1..])
    ensures |ps| == 1 ==> Print(ps[1..], bs[1..]) == ""
  {
  }

  /** Printing any list of pairs and parsing it yields that list. */
  lemma {:induction false} ParseUndoesPrint(ps: seq<Pair>, bs: seq<string>)
    requires |ps| == |bs| && AllGood(ps) && Separators(bs)
    ensures Parse(Print(ps, bs)) == ps
  {
    if ps != [] {
      AllGoodTail(ps);
      SeparatorsTail(bs);
      ParseUndoesPrint(ps[1..], bs[1..]);
      FirstLineParses(ps, bs);
    }
  }

  lemma FirstLineParses(ps: seq<Pair>, bs: seq<string>)
    requires 0 < |ps| == |bs| && AllGood(ps) && Separators(bs)
    ensures Parse(Print(ps, bs)) == [ps[0]] + Parse(Print(ps[1..], bs[1..]))
  {
    AllGoodTail(ps);
    SeparatorsTail(bs);
    PrintSplits(ps, bs);
    PrintStarts(ps[1..], bs[1..]);
    LineParses(ps[0], bs[0], Print(ps[1..], bs[1..]));
  }

  /** Line breaks before the first line change nothing. */
  lemma BlankLinesVanish(b: string, s: string)
    requires b != "" && AreBreaks(b) && (s == "" || !IsBreak(s[0]))
    ensures Parse(b + s) == Parse(s)
  {
    LineOfBreaks(b, s);
  }

  lemma LineOfBreaks(b: string, s: string)
    requires b != "" && AreBreaks(b) && (s == "" || !IsBreak(s[0]))
    ensures Line(b + s) == ([], s)
  {
    var t := b + s;
    assert t[0] == b[0] && t[0..] == t;
    BreakLenIs(b, s);
    assert NameLen(t) == 0 && t[|b|..] == s;
  }

  lemma {:induction false} ValueStops(s: string)
    ensures IsValue(s[..ValueLen(s)])
  {
    if s != "" && !IsBreak(s[0]) {
      ValueStops(s[1..]);
      var n := ValueLen(s[1..]);
      forall i: nat | i < n + 1 ensures !IsBreak(s[i]) {
        if i > 0 { assert s[i] == s[1..][..n][i - 1]; }
      }
    }
  }

  lemma LineIsGood(s: string)
    requires s != ""
    ensures AllGood(Line(s).0)
  {
    NameStops(s);
    var n := NameLen(s);
    var after := s[n..];
    if after != "" && after[0] == '=' { ValueStops(after[1..]); }
    var name := s[..n];
    forall i | 0 <= i < n ensures !EndsName(name[i]) { assert name[i] == s[i]; }
  }

  lemma AllGoodConcat(ps: seq<Pair>, qs: seq<Pair>)
    requires AllGood(ps) && AllGood(qs)
    ensures AllGood(ps + qs)
  {
  }

  /** Whatever the list holds, only well-formed pairs are exported. */
  lemma {:induction false} ParsedAreGood(s: string)
    ensures AllGood(Parse(s))
    decreases |s|
  {
    if s != "" {
      var (ps, rest) := Line(s);
      LineIsGood(s);
      ParsedAreGood(rest);
      AllGoodConcat(ps, Parse(rest));
    }
  }

  // ----- the environment

  function Applied(env: map<string, string>, ps: seq<Pair>): map<string, string>
    decreases |ps|
  {
    if ps == [] then env else Applied(env[ps[0].name := ps[0].value], ps[1..])
  }

  /** The environment the list leads to; without a list nothing is exported at all. */
  function Exported(env: map<string, string>, list: Option<string>, conf: string): map<string, string> {
    match list
    case None => env
    case Some(s) => Applied(env, Parse(s))[CONF_DIR := conf]
  }

  function Lookup(env: map<string, string>, k: string): Option<string> {
    if k in env then Some(env[k]) else None
  }

  /** The value of the last pair named k. */
  function Last(ps: seq<Pair>, k: string): Option<string> {
    if ps == [] then None
    else if Last(ps[1..], k).Some? then Last(ps[1..], k)
    else if ps[0].name == k then Some(ps[0].value)
    else None
  }

  lemma {:induction false} LastWins(env: map<string, string>, ps: seq<Pair>, k: string)
    ensures Lookup(Applied(env, ps), k) ==
            if Last(ps, k).Some? then Last(ps, k) else Lookup(env, k)
    decreases |ps|
  {
    if ps != [] { LastWins(env[ps[0].name := ps[0].value], ps[1..], k); }
  }

  /**
   * For any list printed from pairs: each variable has the value of the last pair that
   * names it, others keep theirs, and the configuration directory cannot be overridden.
   */
  lemma ExportMeaning(env: map<string, string>, ps: seq<Pair>, bs: seq<string>, conf: string, k: string)
    requires |ps| == |bs| && AllGood(ps) && Separators(bs)
    ensures Lookup(Exported(env, Some(Print(ps, bs)), conf), k) ==
            if k == CONF_DIR then Some(conf)
            else if Last(ps, k).Some? then Last(ps, k)
            else Lookup(env, k)
  {
    ParseUndoesPrint(ps, bs);
    LastWins(env, ps, k);
  }

  lemma AppliedConcat(env: map<string, string>, ps: seq<Pair>, qs: seq<Pair>)
    ensures Applied(env, ps + qs) == Applied(Applied(env, ps), qs)
    decreases |ps|
  {
    if ps == [] {
      assert ps + qs == qs;
    } else {
      assert (ps + qs)[1..] == ps[1..] + qs;
      AppliedConcat(env[ps[0].name := ps[0].value], ps[1..], qs);
    }
  }

  class Process {
    var env: map<string, string>

    /** ikofi_set_env: the cursor is what is left of the list, one line a round. */
    method SetEnv(list: Option<string>, conf: string)
      modifies this
      ensures env == Exported(old(env), list, conf)
    {
      if list.None? { return; }
      var s := list.value;
      while s != ""
        invariant Applied(env, Parse(s)) == Applied(old(env), Parse(list.value))
        decreases |s|
      {
        ghost var (ps, rest) := Line(s);
        AppliedConcat(env, ps, Parse(rest));
        var p: Pair;
        p, s := ReadLine(s);
        if p.name != "" { env := env[p.name := p.value]; }
      }
      env := env[CONF_DIR := conf];
    }
  }

  /** How far the cursor moves over a name, over a value, over line breaks. */
  method SkipName(s: string) returns (i: nat)
    ensures i == NameLen(s) <= |s|
  {
    i := 0;
    assert s[0..] == s;
    while i < |s| && !EndsName(s[i])
      invariant i <= |s| && NameLen(s) == i + NameLen(s[i..])
    {
      assert s[i..][1..] == s[i + 1..];
      i := i + 1;
    }
  }

  method SkipValue(s: string) returns (i: nat)
    ensures i == ValueLen(s) <= |s|
  {
    i := 0;
    assert s[0..] == s;
    while i < |s| && !IsBreak(s[i])
      invariant i <= |s| && ValueLen(s) == i + ValueLen(s[i..])
    {
      assert s[i..][1..] == s[i + 1..];
      i := i + 1;
    }
  }

  method SkipBreaks(s: string) returns (i: nat)
    ensures i == BreakLen(s) <= |s|
  {
    i := 0;
    assert s[0..] == s;
    while i < |s| && IsBreak(s[i])
      invariant i <= |s| && BreakLen(s) == i + BreakLen(s[i..])
    {
      assert s[i..][1..] == s[i + 1..];
      i := i + 1;
    }
  }

  /** The value after a name, if an equals sign follows it. */
  method ReadValue(s: string) returns (value: string, rest: string)
    ensures AfterName(s) == (value, rest)
  {
    value, rest := "", s;
    if s != "" && s[0] == '=' {
      rest := s[1..];
      var n := SkipValue(rest);
      value, rest := rest[..n], rest[n..];
    }
  }

  /** Name, value and what is left after the line breaks; an empty name when there is none. */
  method ReadLine(s: string) returns (p: Pair, rest: string)
    requires s != ""
    ensures |rest| < |s| && Line(s) == (if p.name != "" then [p] else [], rest)
  {
    var n := SkipName(s);
    var name := s[..n];
    var value, after := ReadValue(s[n..]);
    LineIs(s, value, after);
    var k := SkipBreaks(after);
    p, rest := Pair(name, value), after[k..];
  }

  lemma LineIs(s: string, value: string, rest: string)
    requires s != "" && AfterName(s[NameLen(s)..]) == (value, rest)
    ensures var name := s[..NameLen(s)];
      Line(s) == (if name != "" then [Pair(name, value)] else [], rest[BreakLen(rest)..])
    ensures |rest[BreakLen(rest)..]| < |s|
  {
  }
}
