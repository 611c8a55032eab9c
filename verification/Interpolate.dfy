/** Expansion of environment placeholders in the configuration text, in one pass. */
module Interpolate {
  import opened Wrappers

  predicate NameStart(c: char) { 'A' <= c <= 'Z' || c == '_' }

  predicate NameChar(c: char) { NameStart(c) || '0' <= c <= '9' }

  predicate IsName(name: string) {
    name != "" && NameStart(name[0]) && forall i :: 0 <= i < |name| ==> NameChar(name[i])
  }

  /** The text from `i` up to `j` is a placeholder. */
  predicate IsMatch(s: string, i: int, j: int) {
    && 0 <= i && i + 4 <= j <= |s|
    && s[i] == '$' && s[i + 1] == '{' && s[j - 1] == '}'
    && IsName(s[i + 2..j - 1])
  }

  /** End of the name characters that begin at `i`. */
  function NameRun(s: string, i: nat): (j: nat)
    requires i <= |s|
    ensures i <= j <= |s|
    ensures forall k :: i <= k < j ==> NameChar(s[k])
    ensures j < |s| ==> !NameChar(s[j])
    decreases |s| - i
  {
    if i < |s| && NameChar(s[i]) then NameRun(s, i + 1) else i
  }

  lemma RunIsName(s: string, i: nat, k: nat)
    requires i < k <= |s| && NameStart(s[i]) && forall n :: i <= n < k ==> NameChar(s[n])
    ensures IsName(s[i..k])
  {
  }

  function MatchEnd(s: string, i: nat): (end: Option<nat>)
    requires i <= |s|
    ensures end.Some? ==> IsMatch(s, i, end.value)
  {
    if i + 4 <= |s| && s[i] == '$' && s[i + 1] == '{' && NameStart(s[i + 2]) then
      var k := NameRun(s, i + 2);
      RunIsName(s, i + 2, k);
      if k < |s| && s[k] == '}' then Some(k + 1) else None
    else
      None
  }

  /** At most one match starts at a position, and it is found. */
  lemma MatchEndIs(s: string, i: nat, j: nat)
    requires IsMatch(s, i, j)
    ensures MatchEnd(s, i) == Some(j)
  {
    var name, k := s[i + 2..j - 1], NameRun(s, i + 2);
    assert forall n :: i + 2 <= n < j - 1 ==> s[n] == name[n - (i + 2)];
    assert NameStart(s[i + 2]) && !NameChar('}');
  }

  /** The leftmost match that starts at `from` or later. */
  function Find(s: string, from: nat): (found: Option<(nat, nat)>)
    requires from <= |s|
    ensures found.Some? ==> from <= found.value.0 && IsMatch(s, found.value.0, found.value.1)
    decreases |s| - from
  {
    match MatchEnd(s, from)
    case Some(end) => Some((from, end))
    case None => if from == |s| then None else Find(s, from + 1)
  }

  /** No match starts before the one that is found. */
  lemma {:induction false} FindLeftmost(s: string, from: nat, i: nat, j: nat)
    requires from <= i && IsMatch(s, i, j)
    ensures Find(s, from).Some? && Find(s, from).value.0 <= i
    ensures Find(s, from).value.0 == i ==> Find(s, from) == Some((i, j))
    decreases i - from
  {
    MatchEndIs(s, i, j);
    if MatchEnd(s, from).None? {
      FindLeftmost(s, from + 1, i, j);
    }
  }

  datatype Outcome = Expanded(text: string) | Unset(name: string)

  function Prepend(out: string, rest: Outcome): Outcome {
    match rest
    case Expanded(text) => Expanded(out + text)
    case Unset(name) => Unset(name)
  }

  /** Left to right, each match gives way to the value of its variable. */
  function Expand(s: string, from: nat, env: map<string, string>): Outcome
    requires from <= |s|
    decreases |s| - from
  {
    match Find(s, from)
    case None => Expanded(s[from..])
    case Some((i, j)) =>
      var name := s[i + 2..j - 1];
      if name !in env then Unset(name) else Prepend(s[from..i] + env[name], Expand(s, j, env))
  }

  lemma PrependTwice(out: string, literal: string, value: string, rest: Outcome)
    ensures Prepend(out + literal + value, rest) == Prepend(out, Prepend(literal + value, rest))
  {
    if rest.Expanded? {
      assert (out + literal + value) + rest.text == out + ((literal + value) + rest.text);
    }
  }

  /** Copying the literal and the value to the output moves the rest of the work to the
      end of the match. */
  lemma ExpandMatch(s: string, from: nat, i: nat, j: nat, env: map<string, string>, out: string)
    requires from <= |s| && Find(s, from) == Some((i, j)) && s[i + 2..j - 1] in env
    ensures Prepend(out, Expand(s, from, env)) == Prepend(out + s[from..i] + env[s[i + 2..j - 1]], Expand(s, j, env))
  {
    PrependTwice(out, s[from..i], env[s[i + 2..j - 1]], Expand(s, j, env));
  }

  lemma ExpandUnset(s: string, from: nat, i: nat, j: nat, env: map<string, string>)
    requires from <= |s| && Find(s, from) == Some((i, j)) && s[i + 2..j - 1] !in env
    ensures Expand(s, from, env) == Unset(s[i + 2..j - 1])
  {
  }

  lemma PrependNothing(r: Outcome)
    ensures Prepend("", r) == r
  {
    assert r.Expanded? ==> "" + r.text == r.text;
  }

  method InterpolateEnv(input: string, env: map<string, string>) returns (r: Outcome)
    ensures r == Expand(input, 0, env)
  {
    var last := 0;
    var out := "";
    var found := Find(input, last);
    PrependNothing(Expand(input, 0, env));
    while found.Some?
      invariant last <= |input| && found == Find(input, last)
      invariant Expand(input, 0, env) == Prepend(out, Expand(input, last, env))
      decreases |input| - last
    {
      var start, end := found.value.0, found.value.1;
      var name := input[start + 2..end - 1];
      if name !in env {
        ExpandUnset(input, last, start, end, env);
        return Unset(name);
      }
      ExpandMatch(input, last, start, end, env, out);
      out := out + input[last..start];
      out := out + env[name];
      last := end;
      found := Find(input, last);
    }
    r := Expanded(out + input[last..]);
  }

  // ---- What is a placeholder -----------------------------------------------

  lemma {:induction false} NoMatchAfter(s: string, from: nat)
    requires from <= |s| && forall i :: from <= i < |s| ==> s[i] != '$'
    ensures Find(s, from).None?
    decreases |s| - from
  {
    if from < |s| {
      NoMatchAfter(s, from + 1);
    }
  }

  lemma MatchIsWhole(name: string, j: nat)
    requires '$' !in name && '}' !in name && IsMatch("${" + name + "}", 0, j)
    ensures j == |name| + 3 && IsName(name)
  {
    var s := "${" + name + "}";
    assert forall k :: 2 <= k < |s| - 1 ==> s[k] == name[k - 2];
    assert s[2..|s| - 1] == name;
  }

  /** What stands between braces, itself without them, is expanded exactly if it is made of capital letters, digits and
      underscores and does not begin with a digit; anything else stays as it is. */
  lemma OnePlaceholder(name: string, env: map<string, string>)
    requires '$' !in name && '}' !in name
    ensures var s := "${" + name + "}";
            Expand(s, 0, env) ==
              if name != "" && !('0' <= name[0] <= '9')
                 && forall k :: 0 <= k < |name| ==> 'A' <= name[k] <= 'Z' || '0' <= name[k] <= '9' || name[k] == '_'
              then (if name in env then Expanded(env[name]) else Unset(name))
              else Expanded(s)
  {
    var s := "${" + name + "}";
    var n := |s|;
    assert s[2..n - 1] == name && s[n - 1] == '}';
    assert forall i :: 1 <= i < n ==> s[i] != '$';
    NoMatchAfter(s, 1);
    forall j | IsMatch(s, 0, j) ensures IsName(name) {
      MatchIsWhole(name, j);
    }
    if IsName(name) {
      MatchEndIs(s, 0, n);
      NoMatchAfter(s, n);
      assert s[0..0] + "" == "" && s[n..] == "";
      if name in env {
        assert s[0..0] + env[name] == env[name] && env[name] + "" == env[name];
      }
    } else {
      assert s[0..] == s;
    }
  }

  // ---- What the text means -------------------------------------------------

  /** Literal text with placeholders in it. */
  datatype Template = End(literal: string) | Part(literal: string, name: string, rest: Template)

  function Placeholder(name: string): string { "${" + name + "}" }

  function Show(t: Template): string {
    match t
    case End(literal) => literal
    case Part(literal, name, rest) => literal + Placeholder(name) + Show(rest)
  }

  ghost predicate MatchFree(s: string) {
    forall i, j :: !IsMatch(s, i, j)
  }

  /** Names are names, and no literal hides a further placeholder. */
  ghost predicate Canonical(t: Template) {
    MatchFree(t.literal) && (t.Part? ==> IsName(t.name) && Canonical(t.rest))
  }

  /** Values go in as they are; the first variable that is not set stops it. */
  function Substitute(t: Template, env: map<string, string>): Outcome {
    match t
    case End(literal) => Expanded(literal)
    case Part(literal, name, rest) =>
      if name !in env then Unset(name) else Prepend(literal + env[name], Substitute(rest, env))
  }

  function Parse(s: string, from: nat): Template
    requires from <= |s|
    decreases |s| - from
  {
    match Find(s, from)
    case None => End(s[from..])
    case Some((i, j)) => Part(s[from..i], s[i + 2..j - 1], Parse(s, j))
  }

  predicate Within(s: string, from: nat, part: string) {
    from + |part| <= |s| && s[from..from + |part|] == part
  }

  lemma MatchWithin(s: string, from: nat, part: string, i: nat, j: nat)
    requires Within(s, from, part) && j <= |part|
    ensures IsMatch(part, i, j) <==> IsMatch(s, from + i, from + j)
  {
    if i + 4 <= j {
      assert forall k :: 0 <= k < |part| ==> part[k] == s[from + k];
      assert part[i + 2..j - 1] == s[from + i + 2..from + j - 1];
    }
  }

  /** No match starts from the one place up to, not including, the other. */
  ghost predicate Clear(s: string, from: int, end: int) {
    forall i, j :: from <= i < end ==> !IsMatch(s, i, j)
  }

  lemma MatchFreeWithin(s: string, from: nat, part: string)
    requires Within(s, from, part) && Clear(s, from, from + |part|)
    ensures MatchFree(part)
  {
    forall i, j ensures !IsMatch(part, i, j) {
      if 0 <= i && i + 4 <= j <= |part| {
        MatchWithin(s, from, part, i, j);
      }
    }
  }

  lemma BeforeFound(s: string, from: nat)
    requires from <= |s|
    ensures var end := if Find(s, from).None? then |s| else Find(s, from).value.0;
            from <= end <= |s| && MatchFree(s[from..end]) && Clear(s, from, end)
  {
    forall i, j | from <= i && IsMatch(s, i, j) ensures Find(s, from).Some? && Find(s, from).value.0 <= i {
      FindLeftmost(s, from, i, j);
    }
    var end := if Find(s, from).None? then |s| else Find(s, from).value.0;
    assert Clear(s, from, end);
    hide Clear, MatchFree;
    MatchFreeWithin(s, from, s[from..end]);
  }

  lemma ShowPart(s: string, from: nat, i: nat, j: nat)
    requires from <= i && IsMatch(s, i, j)
    ensures s[from..i] + Placeholder(s[i + 2..j - 1]) + s[j..] == s[from..]
  {
    assert s[i..j] == Placeholder(s[i + 2..j - 1]);
    assert s[from..] == s[from..i] + s[i..j] + s[j..];
  }

  lemma ParseFound(s: string, from: nat, i: nat, j: nat)
    requires from <= |s| && Find(s, from) == Some((i, j))
    ensures from <= i && i + 4 <= j <= |s| && IsName(s[i + 2..j - 1])
    ensures Parse(s, from) == Part(s[from..i], s[i + 2..j - 1], Parse(s, j))
  {
    hide IsName;
  }

  lemma PiecesShow(s: string, from: nat, i: nat, j: nat, rest: Template)
    requires from <= i && IsMatch(s, i, j) && Show(rest) == s[j..] && Canonical(rest) && MatchFree(s[from..i])
    ensures var t := Part(s[from..i], s[i + 2..j - 1], rest); Canonical(t) && Show(t) == s[from..]
  {
    ShowPart(s, from, i, j);
    hide MatchFree, IsName, Placeholder;
  }

  /** Every text is a template, and its pieces join up to the text. */
  lemma {:induction false} ParseShows(s: string, from: nat)
    requires from <= |s|
    ensures Canonical(Parse(s, from)) && Show(Parse(s, from)) == s[from..]
    decreases |s| - from
  {
    BeforeFound(s, from);
    match Find(s, from)
    case None => assert s[from..|s|] == s[from..];
    case Some((i, j)) =>
      hide *;
      ParseFound(s, from, i, j);
      ParseShows(s, j);
      PiecesShow(s, from, i, j, Parse(s, j));
  }

  /** A placeholder holds a dollar sign at its start only. */
  lemma OneDollar(s: string, i: int, j: int, k: int)
    requires IsMatch(s, i, j) && i < k < j
    ensures s[k] != '$'
  {
    if i + 2 <= k < j - 1 {
      assert NameChar(s[i + 2..j - 1][k - (i + 2)]);
    }
  }

  /** So none reaches over the end of a literal. */
  lemma NoMatchBefore(s: string, from: nat, literal: string)
    requires MatchFree(literal) && Within(s, from, literal)
    requires from + |literal| < |s| ==> s[from + |literal|] == '$'
    ensures Clear(s, from, from + |literal|)
  {
    forall i, j | from <= i < from + |literal| && IsMatch(s, i, j) ensures false {
      var end := from + |literal|;
      if j <= end {
        MatchWithin(s, from, literal, i - from, j - from);
      } else {
        OneDollar(s, i, j, end);
      }
    }
  }

  lemma FoundAt(s: string, from: nat, i: nat, j: nat)
    requires from <= i && IsMatch(s, i, j) && Clear(s, from, i)
    ensures Find(s, from) == Some((i, j))
  {
    FindLeftmost(s, from, i, j);
  }

  lemma SliceOfSlice(s: string, i: nat, j: nat, a: nat, b: nat)
    requires i <= j <= |s| && a <= b <= j - i
    ensures s[i..j][a..b] == s[i + a..i + b]
  {
    var t := s[i..j];
    assert forall k :: a <= k < b ==> t[k] == s[i + k];
  }

  lemma PlaceholderMatches(s: string, i: nat, name: string)
    requires IsName(name) && Within(s, i, Placeholder(name))
    ensures IsMatch(s, i, i + |name| + 3) && s[i + 2..i + |name| + 2] == name
  {
    var p := Placeholder(name);
    assert p[2..|name| + 2] == name;
    SliceOfSlice(s, i, i + |p|, 2, |name| + 2);
    assert s[i] == p[0] && s[i + 1] == p[1] && s[i + |name| + 2] == p[|name| + 2];
  }

  lemma PartWithin(s: string, from: nat, literal: string, name: string, rest: string)
    requires from <= |s| && s[from..] == literal + Placeholder(name) + rest
    ensures Within(s, from, literal) && Within(s, from + |literal|, Placeholder(name))
    ensures s[from + |literal|] == '$'
    ensures from + |literal| + |name| + 3 <= |s| && s[from + |literal| + |name| + 3..] == rest
  {
    var tail := s[from..];
    assert forall k :: 0 <= k < |tail| ==> s[from + k] == tail[k];
    assert s[from..from + |literal|] == literal;
    assert s[from + |literal|..from + |literal| + |name| + 3] == Placeholder(name);
    assert s[from + |literal| + |name| + 3..] == rest;
  }

  /** Where the rest of a template starts. */
  function RestAt(t: Template, from: nat): nat
    requires t.Part?
  {
    from + |t.literal| + |t.name| + 3
  }

  lemma RestShown(t: Template, s: string, from: nat)
    requires t.Part? && from <= |s| && s[from..] == Show(t)
    ensures RestAt(t, from) <= |s| && s[RestAt(t, from)..] == Show(t.rest)
  {
    PartWithin(s, from, t.literal, t.name, Show(t.rest));
  }

  lemma PartFound(s: string, from: nat, literal: string, name: string, rest: string)
    requires MatchFree(literal) && IsName(name) && ShownAt(s, from, literal + Placeholder(name) + rest)
    ensures var i := from + |literal|;
            && i + |name| + 3 <= |s| && Find(s, from) == Some((i, i + |name| + 3))
            && s[from..i] == literal && s[i + 2..i + |name| + 2] == name
  {
    var i := from + |literal|;
    PartWithin(s, from, literal, name, rest);
    NoMatchBefore(s, from, literal);
    PlaceholderMatches(s, i, name);
    hide IsMatch, IsName, MatchFree, Clear, Placeholder, Find;
    FoundAt(s, from, i, i + |name| + 3);
  }

  lemma RestIs(t: Template, from: nat)
    requires t.Part?
    ensures RestAt(t, from) == from + |t.literal| + |t.name| + 3
  {
  }

  lemma CanonicalPart(t: Template)
    requires t.Part? && Canonical(t)
    ensures MatchFree(t.literal) && IsName(t.name) && Show(t) == t.literal + Placeholder(t.name) + Show(t.rest)
  {
  }

  lemma PartParsed(s: string, from: nat, literal: string, name: string, i: nat, j: nat)
    requires from <= |s| && Find(s, from) == Some((i, j)) && i <= j - 3 && j <= |s|
    requires from <= i && s[from..i] == literal && s[i + 2..j - 1] == name
    ensures Parse(s, from) == Part(literal, name, Parse(s, j))
  {
    hide *;
    ParseFound(s, from, i, j);
  }

  /** The text goes on as the template says. */
  predicate ShownAt(s: string, from: nat, text: string) {
    from <= |s| && s[from..] == text
  }

  lemma FirstPart(t: Template, s: string, from: nat)
    requires t.Part? && Canonical(t) && ShownAt(s, from, Show(t))
    ensures RestAt(t, from) <= |s| && Parse(s, from) == Part(t.literal, t.name, Parse(s, RestAt(t, from)))
  {
    CanonicalPart(t);
    RestIs(t, from);
    hide *;
    PartFound(s, from, t.literal, t.name, Show(t.rest));
    var i, j := from + |t.literal|, RestAt(t, from);
    PartParsed(s, from, t.literal, t.name, i, j);
  }

  lemma LastLiteral(s: string, from: nat, literal: string)
    requires from <= |s| && s[from..] == literal && MatchFree(literal)
    ensures Parse(s, from) == End(literal)
  {
    assert Within(s, from, literal) && from + |literal| == |s|;
    NoMatchBefore(s, from, literal);
    assert forall i, j :: from <= i < |s| ==> !IsMatch(s, i, j);
  }

  /** The template of a text is the only one. */
  lemma {:induction false} ParseUnique(t: Template, s: string, from: nat)
    requires Canonical(t) && from <= |s| && s[from..] == Show(t)
    ensures Parse(s, from) == t
    decreases t
  {
    match t
    case End(literal) =>
      LastLiteral(s, from, literal);
    case Part(_, _, rest) =>
      RestShown(t, s, from);
      ParseUnique(rest, s, RestAt(t, from));
      FirstPart(t, s, from);
  }

  lemma {:induction false} ExpandSubstitutes(s: string, from: nat, env: map<string, string>)
    requires from <= |s|
    ensures Expand(s, from, env) == Substitute(Parse(s, from), env)
    decreases |s| - from
  {
    match Find(s, from)
    case None =>
    case Some((_, j)) => ExpandSubstitutes(s, j, env);
  }

  /** The one-pass expansion of a text is the substitution into the one template that
      it stands for, so values are never looked at again. */
  lemma ExpansionIsSubstitution(t: Template, env: map<string, string>)
    requires Canonical(t)
    ensures Expand(Show(t), 0, env) == Substitute(t, env)
  {
    ParseUnique(t, Show(t), 0);
    ExpandSubstitutes(Show(t), 0, env);
  }

  function Names(t: Template): set<string> {
    if t.End? then {} else {t.name} + Names(t.rest)
  }

  lemma {:induction false} SubstituteFailsIff(t: Template, env: map<string, string>)
    ensures Substitute(t, env).Unset? <==> !(Names(t) <= env.Keys)
    ensures Substitute(t, env).Unset? ==> Substitute(t, env).name in Names(t) - env.Keys
  {
    if t.Part? {
      SubstituteFailsIff(t.rest, env);
    }
  }

  /** Some variable between `from` and the end is referred to and not set. */
  ghost predicate Missing(s: string, from: nat, env: map<string, string>) {
    exists i, j :: from <= i && IsMatch(s, i, j) && s[i + 2..j - 1] !in env
  }

  lemma MatchesApart(s: string, i: int, j: int, k: int, l: int)
    requires IsMatch(s, i, j) && IsMatch(s, k, l) && i < k
    ensures j <= k
  {
    if k < j {
      OneDollar(s, i, j, k);
    }
  }

  lemma MissingAfter(s: string, from: nat, i: nat, j: nat, env: map<string, string>)
    requires from <= |s| && Find(s, from) == Some((i, j))
    ensures Missing(s, from, env) <==> s[i + 2..j - 1] !in env || Missing(s, j, env)
  {
    if s[i + 2..j - 1] in env && Missing(s, from, env) {
      var k, l :| from <= k && IsMatch(s, k, l) && s[k + 2..l - 1] !in env;
      FindLeftmost(s, from, k, l);
      MatchesApart(s, i, j, k, l);
    }
  }

  /** The call fails exactly when some placeholder of the input names an unset variable. */
  lemma {:induction false} FailsIffMissing(s: string, from: nat, env: map<string, string>)
    requires from <= |s|
    ensures Expand(s, from, env).Unset? <==> Missing(s, from, env)
    decreases |s| - from
  {
    match Find(s, from)
    case None => BeforeFound(s, from);
    case Some((i, j)) =>
      FailsIffMissing(s, j, env);
      MissingAfter(s, from, i, j, env);
  }
}
