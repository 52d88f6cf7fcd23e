/**
 The `${VAR}` expander. It rewrites the leftmost reference and starts over, so it
 also expands references that a substituted value brings in or completes, and it
 need not stop. An unset variable has the empty value.
 */
module EnvExpand {
  import opened Prelude

  type Env = string -> string

  // ---- One rewriting step --------------------------------------------------

  predicate OpensAt(s: string, i: int) {
    0 <= i && i + 1 < |s| && s[i] == '$' && s[i + 1] == '{'
  }

  // find("${")
  function FindOpen(s: string): (r: Option<nat>)
    ensures r.Some? ==> OpensAt(s, r.value) && forall i :: 0 <= i < r.value ==> !OpensAt(s, i)
    ensures r.None? ==> forall i :: !OpensAt(s, i)
  {
    if |s| < 2 then None
    else if OpensAt(s, 0) then Some(0)
    else
      var r := FindOpen(s[1..]);
      assert forall i :: i > 0 && OpensAt(s, i) ==> OpensAt(s[1..], i - 1);
      if r.Some? then Some(r.value + 1) else None
  }

  // s[from..].find('}'), as an index into s
  function FindClose(s: string, from: nat): (r: Option<nat>)
    requires from <= |s|
    ensures r.Some? ==> from <= r.value < |s| && s[r.value] == '}' && '}' !in s[from..r.value]
    ensures r.None? ==> forall i :: from <= i < |s| ==> s[i] != '}'
    decreases |s| - from
  {
    if from == |s| then None else if s[from] == '}' then Some(from) else FindClose(s, from + 1)
  }

  function Step(env: Env, s: string): Option<string> {
    var start := FindOpen(s);
    if start.None? then None
    else
      var end := FindClose(s, start.value);
      if end.None? then None
      else Some(s[..start.value] + env(s[start.value + 2..end.value]) + s[end.value + 1..])
  }

  // At most `n` steps, stopping early when nothing is left to rewrite.
  function Rewrite(env: Env, s: string, n: nat): string
    decreases n
  {
    if n == 0 || Step(env, s).None? then s else Rewrite(env, Step(env, s).value, n - 1)
  }

  ghost predicate HaltsIn(env: Env, s: string, n: nat) {
    Step(env, Rewrite(env, s, n)).None?
  }

  // The loop of the source ends on `s`.
  ghost predicate Halts(env: Env, s: string) {
    exists n: nat :: HaltsIn(env, s, n)
  }

  // It ends on `s` with the result `t`.
  ghost predicate SettlesOn(env: Env, s: string, t: string) {
    exists n: nat :: HaltsIn(env, s, n) && Rewrite(env, s, n) == t
  }

  // ---- The loop ------------------------------------------------------------

  // The loop's first `rounds` rounds, on any input. It has ended by then exactly when the
  // rewriting has, with what the rewriting settles on and no reference left in it.
  method ExpandEnvVars(env: Env, input: string, rounds: nat) returns (result: string, ended: bool)
    ensures result == Rewrite(env, input, rounds)
    ensures ended <==> HaltsIn(env, input, rounds)
    ensures ended ==> SettlesOn(env, input, result)
    ensures ended <==> forall i, j :: OpensAt(result, i) && i < j < |result| ==> result[j] != '}'
  {
    hide FindOpen, FindClose, Rewrite, SettlesOn;
    result, ended := input, false;
    var budget := rounds;
    var start := FindOpen(result);
    while start.Some? && budget > 0
      invariant start == FindOpen(result)
      invariant Rewrite(env, input, rounds) == Rewrite(env, result, budget)
      decreases budget
    {
      var end := FindClose(result, start.value);
      if end.None? {
        break;
      }
      RewriteNext(env, result, budget);
      result := result[..start.value] + env(result[start.value + 2..end.value]) + result[end.value + 1..];
      budget := budget - 1;
      start := FindOpen(result);
    }
    ended := start.None? || FindClose(result, start.value).None?;
    RewriteStops(env, result, budget);
    IrreducibleMeansNoReference(env, result);
    hide Step;
    HaltsMeansSettles(env, input, rounds);
  }

  lemma RewriteNext(env: Env, s: string, n: nat)
    requires n > 0 && Step(env, s).Some?
    ensures Rewrite(env, s, n) == Rewrite(env, Step(env, s).value, n - 1)
  {
  }

  lemma RewriteStops(env: Env, s: string, n: nat)
    requires n == 0 || Step(env, s).None?
    ensures Rewrite(env, s, n) == s
  {
  }

  lemma HaltsMeansSettles(env: Env, s: string, n: nat)
    ensures HaltsIn(env, s, n) ==> SettlesOn(env, s, Rewrite(env, s, n))
  {
  }

  lemma IrreducibleMeansNoReference(env: Env, s: string)
    ensures Step(env, s).None? <==> forall i, j :: OpensAt(s, i) && i < j < |s| ==> s[j] != '}'
  {
    var start := FindOpen(s);
    if start.Some? {
      var end := FindClose(s, start.value);
      if end.Some? {
        assert OpensAt(s, start.value) && start.value < end.value < |s| && s[end.value] == '}';
      }
    }
  }

  // ---- When the loop ends --------------------------------------------------

  function Count(s: string, c: char): nat {
    if s == "" then 0 else (if s[0] == c then 1 else 0) + Count(s[1..], c)
  }

  lemma {:induction false} CountConcat(a: string, b: string, c: char)
    ensures Count(a + b, c) == Count(a, c) + Count(b, c)
  {
    if a == "" {
      assert a + b == b;
    } else {
      assert (a + b)[1..] == a[1..] + b;
      CountConcat(a[1..], b, c);
    }
  }

  lemma {:induction false} CountMember(s: string, c: char)
    ensures Count(s, c) == 0 <==> c !in s
  {
    if s != "" {
      CountMember(s[1..], c);
    }
  }

  predicate Structural(c: char) {
    c == '$' || c == '{' || c == '}'
  }

  // A step uses up one `$`, one `{` and one `}` at least.
  lemma StepConsumes(env: Env, s: string, c: char)
    requires Structural(c) && Step(env, s).Some? && forall v :: c !in env(v)
    ensures Count(Step(env, s).value, c) < Count(s, c)
  {
    var start := FindOpen(s).value;
    var end := FindClose(s, start).value;
    var pre, ref, post := s[..start], s[start..end + 1], s[end + 1..];
    var value := env(s[start + 2..end]);
    assert s == pre + ref + post;
    assert ref[0] == '$' && ref[1] == '{' && ref[|ref| - 1] == '}';
    CountConcat(pre, ref, c);
    CountConcat(pre + ref, post, c);
    CountConcat(pre, value, c);
    CountConcat(pre + value, post, c);
    CountMember(value, c);
    CountMember(ref, c);
  }

  // The expander stops on every input as soon as one of the three characters `$`,
  // `{` and `}` occurs in no variable's value.
  lemma {:induction false} Terminates(env: Env, s: string, c: char)
    requires Structural(c) && forall v :: c !in env(v)
    ensures Halts(env, s)
    decreases Count(s, c)
  {
    if Step(env, s).None? {
      assert HaltsIn(env, s, 0);
    } else {
      StepConsumes(env, s, c);
      var next := Step(env, s).value;
      Terminates(env, next, c);
      var n: nat :| HaltsIn(env, next, n);
      assert HaltsIn(env, s, n + 1);
    }
  }

  function Reference(v: string): string {
    "${" + v + "}"
  }

  ghost predicate NoOpening(s: string) {
    forall i :: !OpensAt(s, i)
  }

  // It does not stop on a variable whose value refers to itself, as long as that reference
  // stays the leftmost one: what precedes it in the input and in the value, however often
  // the value is put in, brings no `${` together.
  lemma SelfReferenceLoops(env: Env, v: string, a: string, b: string, x: string, y: string)
    requires env(v) == a + Reference(v) + b && '}' !in v && NoOpening(x + a + a)
    ensures !Halts(env, x + Reference(v) + y)
  {
    forall n: nat ensures !HaltsIn(env, x + Reference(v) + y, n) {
      SelfReferenceStays(env, v, a, b, x, y, n);
    }
  }

  lemma {:induction false} SelfReferenceStays(env: Env, v: string, a: string, b: string, x: string, y: string, n: nat)
    requires env(v) == a + Reference(v) + b && '}' !in v && NoOpening(x + a + a)
    ensures !HaltsIn(env, x + Reference(v) + y, n)
    decreases n
  {
    hide FindOpen, FindClose;
    var s := x + Reference(v) + y;
    NoneBefore(x, a, v, y);
    ReferenceStep(env, v, x, y);
    if n > 0 {
      assert Step(env, s).value == (x + a) + Reference(v) + (b + y);
      NoneLater(x, a);
      SelfReferenceStays(env, v, a, b, x + a, b + y, n - 1);
    }
  }

  lemma NoneBefore(x: string, a: string, v: string, y: string)
    requires NoOpening(x + a + a)
    ensures forall i :: i < |x| ==> !OpensAt(x + Reference(v) + y, i)
  {
    forall i | 0 <= i < |x|
      ensures !OpensAt(x + Reference(v) + y, i)
    {
      assert !OpensAt(x + a + a, i);
    }
  }

  lemma NoneLater(x: string, a: string)
    requires NoOpening(x + a + a)
    ensures NoOpening(x + a + a + a)
  {
    forall i
      ensures !OpensAt(x + a + a + a, i)
    {
      assert !OpensAt(x + a + a, i) && !OpensAt(x + a + a, i - |a|);
    }
  }

  // Not every value that refers to its own variable does this: an earlier `${` in it can
  // swallow the reference.
  lemma SwallowedReferenceSettles(env: Env)
    requires env("V") == "${A${V}" && env("A${V") == ""
    ensures SettlesOn(env, "${V}", "")
  {
    var s, t := "${V}", "${A${V}";
    assert "" + Reference("V") + "" == s && "" + env("V") + "" == t;
    ReferenceStep(env, "V", "", "");
    assert "" + Reference("A${V") + "" == t && "" + env("A${V") + "" == "";
    ReferenceStep(env, "A${V", "", "");
    hide Step;
    SettlesNow(env, "") by { IrreducibleMeansNoReference(env, ""); }
    SettlesNext(env, t, "");
    SettlesNext(env, s, "");
  }

  ghost predicate KeepsOut(env: Env, banned: set<char>) {
    forall v, c :: c in banned ==> c !in env(v)
  }

  // What the process environment can hold: no variable has an empty name or one with `=`
  // or NUL in it, and no value holds a NUL.
  ghost predicate Realizable(env: Env) {
    && (forall v :: v == "" || '=' in v || '\0' in v ==> env(v) == "")
    && (forall v :: '\0' !in env(v))
  }

  // Banning characters from all values makes the expander end, whatever the values and
  // the input, if and only if one of the three structural characters is banned.
  lemma EndsIffStructuralBanned(banned: set<char>)
    ensures (forall env: Env, s: string :: Realizable(env) && KeepsOut(env, banned) ==> Halts(env, s)) <==>
            exists c <- banned :: Structural(c)
  {
    if c :| c in banned && Structural(c) {
      forall env: Env, s: string | KeepsOut(env, banned)
        ensures Halts(env, s)
      {
        Terminates(env, s, c);
      }
    } else {
      var env: Env := v => if v == "$" then "${$}" else "";
      assert forall c <- "${$}" :: Structural(c);
      assert Realizable(env) && KeepsOut(env, banned);
      assert "" + Reference("$") + "" == "${$}";
      SelfReferenceLoops(env, "$", "", "", "", "");
    }
  }

  // The step at a reference that no `${` precedes.
  lemma ReferenceStep(env: Env, v: string, x: string, y: string)
    requires '}' !in v && forall i :: i < |x| ==> !OpensAt(x + Reference(v) + y, i)
    ensures Step(env, x + Reference(v) + y) == Some(x + env(v) + y)
  {
    var s := x + Reference(v) + y;
    assert OpensAt(s, |x|);
    var start := FindOpen(s).value;
    assert start == |x|;
    var close := |x| + 2 + |v|;
    assert s[close] == '}' && s[|x| + 2..close] == v;
    var end := FindClose(s, start).value;
    assert end == close by {
      assert forall i :: start <= i < close ==> s[i] == '$' || s[i] == '{' || s[i] in v;
    }
    assert s[..start] == x && s[end + 1..] == y;
  }

  // ---- When rewriting is one pass ------------------------------------------

  // Each reference of the input replaced once, from left to right.
  function OnePass(env: Env, s: string): string
    decreases |s|
  {
    if s == "" then ""
    else if OpensAt(s, 0) then
      var end := FindClose(s, 0);
      if end.None? then s else env(s[2..end.value]) + OnePass(env, s[end.value + 1..])
    else [s[0]] + OnePass(env, s[1..])
  }

  ghost predicate NoDoubleDollar(s: string) {
    forall i :: OpensAt(s, i) ==> i == 0 || s[i - 1] != '$'
  }

  ghost predicate PlainValues(env: Env) {
    forall v :: '$' !in env(v) && '{' !in env(v)
  }

  // `x` is finished output and `s` the input still to come: no reference begins in
  // `x`, and what is rewritten in `s` cannot complete one.
  ghost predicate Settled(x: string, s: string) {
    && (forall i :: i < |x| ==> !OpensAt(x + s, i))
    && (x != "" && x[|x| - 1] == '$' ==> !OpensAt(s, 0))
    && NoDoubleDollar(s)
  }

  lemma SettlesNow(env: Env, s: string)
    requires Step(env, s).None?
    ensures SettlesOn(env, s, s)
  {
    assert HaltsIn(env, s, 0);
  }

  lemma SettlesNext(env: Env, s: string, t: string)
    requires Step(env, s).Some? && SettlesOn(env, Step(env, s).value, t)
    ensures SettlesOn(env, s, t)
  {
    var n: nat :| HaltsIn(env, Step(env, s).value, n) && Rewrite(env, Step(env, s).value, n) == t;
    assert HaltsIn(env, s, n + 1);
  }

  lemma Associate(a: string, b: string, c: string)
    ensures a + b + c == a + (b + c)
  {
  }

  lemma {:induction false} OnePassReached(env: Env, x: string, s: string)
    requires PlainValues(env) && Settled(x, s)
    ensures SettlesOn(env, x + s, x + OnePass(env, s))
    decreases |s|
  {
    hide Step, SettlesOn, OnePass;
    if s == "" || (OpensAt(s, 0) && FindClose(s, 0).None?) {
      NothingLeft(env, x, s);
    } else if !OpensAt(s, 0) {
      SettledShift(x, s);
      OnePassReached(env, x + [s[0]], s[1..]);
      PassPlain(env, x, s);
    } else {
      var end := FindClose(s, 0).value;
      var v, rest := s[2..end], s[end + 1..];
      assert s == Reference(v) + rest;
      SettledReplace(env, x, v, rest);
      OnePassReached(env, x + env(v), rest);
      PassReference(env, x, s, v, rest);
    }
  }

  lemma NothingLeft(env: Env, x: string, s: string)
    requires Settled(x, s) && (s == "" || (OpensAt(s, 0) && FindClose(s, 0).None?))
    ensures SettlesOn(env, x + s, x + OnePass(env, s))
  {
    hide Step, SettlesOn;
    assert OnePass(env, s) == s;
    IrreducibleMeansNoReference(env, x + s);
    SettlesNow(env, x + s);
  }

  lemma PassPlain(env: Env, x: string, s: string)
    requires s != "" && !OpensAt(s, 0)
    requires SettlesOn(env, x + [s[0]] + s[1..], x + [s[0]] + OnePass(env, s[1..]))
    ensures SettlesOn(env, x + s, x + OnePass(env, s))
  {
    hide SettlesOn;
    Associate(x, [s[0]], s[1..]);
    assert [s[0]] + s[1..] == s;
    Associate(x, [s[0]], OnePass(env, s[1..]));
  }

  lemma PassReference(env: Env, x: string, s: string, v: string, rest: string)
    requires Settled(x, s) && s == Reference(v) + rest && '}' !in v
    requires SettlesOn(env, x + env(v) + rest, x + env(v) + OnePass(env, rest))
    ensures SettlesOn(env, x + s, x + OnePass(env, s))
  {
    hide Step, SettlesOn;
    Associate(x, Reference(v), rest);
    ReferenceStep(env, v, x, rest);
    OnePassReference(env, v, rest);
    Associate(x, env(v), OnePass(env, rest));
    SettlesNext(env, x + s, x + OnePass(env, s));
  }

  lemma OnePassReference(env: Env, v: string, rest: string)
    requires '}' !in v
    ensures OnePass(env, Reference(v) + rest) == env(v) + OnePass(env, rest)
  {
    var s := Reference(v) + rest;
    var close := 2 + |v|;
    assert OpensAt(s, 0) && s[close] == '}' && s[2..close] == v && s[close + 1..] == rest;
    var end := FindClose(s, 0).value;
    assert forall i :: 0 <= i < close ==> s[i] == '$' || s[i] == '{' || s[i] in v;
    assert end == close;
  }

  lemma SettledShift(x: string, s: string)
    requires Settled(x, s) && s != "" && !OpensAt(s, 0)
    ensures Settled(x + [s[0]], s[1..])
  {
    var x' := x + [s[0]];
    assert x' + s[1..] == x + s;
    forall i | i < |x'| ensures !OpensAt(x' + s[1..], i) {
      if i == |x| {
        assert OpensAt(x + s, i) ==> OpensAt(s, 0);
      }
    }
    forall i | OpensAt(s[1..], i) ensures i == 0 || s[1..][i - 1] != '$' {
      assert OpensAt(s, i + 1);
    }
    assert OpensAt(s[1..], 0) ==> OpensAt(s, 1);
  }

  lemma SettledReplace(env: Env, x: string, v: string, rest: string)
    requires PlainValues(env) && Settled(x, Reference(v) + rest)
    ensures Settled(x + env(v), rest)
  {
    var s, x' := Reference(v) + rest, x + env(v);
    assert OpensAt(s, 0);
    forall i | i < |x'| ensures !OpensAt(x' + rest, i) {
      if i + 1 < |x| {
        assert OpensAt(x' + rest, i) ==> OpensAt(x + s, i);
      } else if i >= |x| {
        assert (x' + rest)[i] == env(v)[i - |x|];
      }
    }
    forall i | OpensAt(rest, i) ensures i == 0 || rest[i - 1] != '$' {
      assert OpensAt(s, i + |Reference(v)|);
    }
  }

  // With values free of `$` and `{`, and an input without `$${`, the expander makes
  // exactly one pass.
  lemma ExpansionIsOnePass(env: Env, s: string)
    requires PlainValues(env) && NoDoubleDollar(s)
    ensures SettlesOn(env, s, OnePass(env, s))
  {
    assert "" + s == s && "" + OnePass(env, s) == OnePass(env, s);
    OnePassReached(env, "", s);
  }

  // The loop has only one result.
  lemma ResultUnique(env: Env, s: string, t: string, u: string)
    requires SettlesOn(env, s, t) && SettlesOn(env, s, u)
    ensures t == u
  {
    var m: nat :| HaltsIn(env, s, m) && Rewrite(env, s, m) == t;
    var n: nat :| HaltsIn(env, s, n) && Rewrite(env, s, n) == u;
    SameNormalForm(env, s, m, n);
  }

  lemma {:induction false} SameNormalForm(env: Env, s: string, m: nat, n: nat)
    requires HaltsIn(env, s, m) && HaltsIn(env, s, n)
    ensures Rewrite(env, s, m) == Rewrite(env, s, n)
    decreases m
  {
    hide Step;
    if Step(env, s).Some? {
      SameNormalForm(env, Step(env, s).value, m - 1, n - 1);
    }
  }
}
