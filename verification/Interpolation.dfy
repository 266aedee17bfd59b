/**
 Interpolations in compose values, as compose/convert.go reads them:
 ${NAME}, ${NAME-default} and ${NAME:-default}, found leftmost first and without
 overlap. Names of the SERVICE_ convention ask the platform to mint a value.
 */
module Interpolation {
  import opened Common
  import opened Text

  /** How many leading name characters. */
  function NameRun(s: string): (n: nat)
    ensures n <= |s| && (forall i :: 0 <= i < n ==> NameChar(s[i])) && (n < |s| ==> !NameChar(s[n]))
  {
    if s == "" || !NameChar(s[0]) then 0 else 1 + NameRun(s[1..])
  }

  datatype Match = Match(name: string, fallback: string, length: nat)

  /** How many characters introduce the default after the name: ":-", "-" or nothing that does. */
  function Introducer(rest: string): (k: nat)
    ensures k <= |rest|
  {
    if HasPrefix(rest, ":-") then 2 else if HasPrefix(rest, "-") then 1 else 0
  }

  /** The interpolation that begins a string, if one does. */
  function MatchAt(s: string): (m: Option<Match>)
    ensures m.Some? ==> 3 < m.value.length <= |s| && s[0] == '$' && IsName(m.value.name)
  {
    if |s| < 3 || s[0] != '$' || s[1] != '{' || !NameStart(s[2]) then None
    else
      var n := NameRun(s[2..]);
      MatchRest(s[2..2 + n], s[2 + n..])
  }

  /** What follows the name: the closing brace, or a default up to the first one. */
  function MatchRest(name: string, rest: string): (m: Option<Match>)
    ensures m.Some? ==> m.value.name == name && |name| + 3 <= m.value.length <= |name| + 2 + |rest|
  {
    if rest == "" then None
    else if rest[0] == '}' then Some(Match(name, "", |name| + 3))
    else
      var k := Introducer(rest);
      var d := IndexOf(rest[k..], '}');
      if k == 0 || d == |rest[k..]| then None
      else Some(Match(name, rest[k..k + d], |name| + k + d + 3))
  }

  datatype Token = Lit(c: char) | Var(name: string, fallback: string)

  /** The value cut into characters and interpolations. */
  function Scan(s: string): (ts: seq<Token>)
    ensures forall i :: 0 <= i < |ts| && ts[i].Var? ==> IsName(ts[i].name)
    decreases |s|
  {
    if s == "" then []
    else if s[0] != '$' then [Lit(s[0])] + Scan(s[1..])
    else
      match MatchAt(s)
      case None => [Lit(s[0])] + Scan(s[1..])
      case Some(m) => [Var(m.name, m.fallback)] + Scan(s[m.length..])
  }

  // ---- Which names are generated ----

  predicate UpperChar(c: char) {
    'A' <= c <= 'Z' || IsDigit(c) || c == '_'
  }

  /** SERVICE_<keyword>, alone or followed by an underscore and more. */
  predicate ServiceName(name: string, keywords: seq<string>) {
    && HasPrefix(name, "SERVICE_")
    && var rest := name[8..];
       exists i :: 0 <= i < |keywords| && Keyworded(rest, keywords[i])
  }

  predicate Keyworded(rest: string, keyword: string) {
    || rest == keyword
    || (HasPrefix(rest, keyword + "_") && |rest| > |keyword| + 1
        && forall k :: |keyword| < k < |rest| ==> UpperChar(rest[k]))
  }

  const KEYWORDS := ["PASSWORD", "USER", "BASE64", "REALBASE64", "HEX", "KEY", "ENCRYPTION", "ROLE"]

  /** magicVar: a value the platform generates. */
  predicate Magic(name: string) {
    ServiceName(name, KEYWORDS)
  }

  ghost predicate AllUpper(s: string) {
    forall i :: 0 <= i < |s| ==> UpperChar(s[i])
  }

  lemma KeywordsAreUpper(i: nat)
    requires i < |KEYWORDS|
    ensures AllUpper(KEYWORDS[i])
  {}

  lemma KeywordedIsUpper(rest: string, keyword: string)
    requires Keyworded(rest, keyword) && AllUpper(keyword)
    ensures AllUpper(rest)
  {
    if rest != keyword {
      var p := keyword + "_";
      assert rest[..|p|] == p && p[|keyword|] == '_';
      forall k | 0 <= k < |rest| ensures UpperChar(rest[k]) {
        assert k < |p| ==> rest[k] == rest[..|p|][k];
        assert k < |keyword| ==> p[k] == keyword[k];
      }
    }
  }

  /** A generated name is one a reference can spell. */
  lemma MagicIsName(name: string)
    requires Magic(name)
    ensures IsName(name)
  {
    var i :| 0 <= i < |KEYWORDS| && Keyworded(name[8..], KEYWORDS[i]);
    KeywordsAreUpper(i);
    KeywordedIsUpper(name[8..], KEYWORDS[i]);
    forall k | 0 <= k < |name| ensures NameChar(name[k]) {
      assert k < 8 ==> name[k] == name[..8][k];
      assert k >= 8 ==> name[k] == name[8..][k - 8];
    }
    assert name[0] == name[..8][0];
  }

  /** urlVar: the app's own address. */
  predicate IsUrl(name: string) {
    ServiceName(name, ["URL", "FQDN"])
  }

  datatype Kind = Password | User | Hex | Base64 | Unknown
  datatype Source = Source(name: string, kind: Kind)

  function MagicKind(name: string): Kind {
    if HasPrefix(name, "SERVICE_PASSWORD") then Password
    else if HasPrefix(name, "SERVICE_USER") then User
    else if HasPrefix(name, "SERVICE_HEX") then Hex
    else if Contains(name, "BASE64") then Base64
    else Unknown
  }

  // ---- What the tokens come to ----

  function Placeholder(name: string): string {
    "${" + name + "}"
  }

  /** literal: every interpolation at its default. */
  function Literal(ts: seq<Token>): string {
    if ts == [] then ""
    else (match ts[0] case Lit(c) => [c] case Var(_, d) => d) + Literal(ts[1..])
  }

  /** literalExceptSources: generated names left as bare placeholders, the rest at their defaults. */
  function Template(ts: seq<Token>): string {
    if ts == [] then ""
    else
      (match ts[0] case Lit(c) => [c] case Var(n, d) => if Magic(n) then Placeholder(n) else d)
      + Template(ts[1..])
  }

  /** The value the template's author means, given the minted values. */
  function Evaluate(ts: seq<Token>, mint: string -> string): string {
    if ts == [] then ""
    else
      (match ts[0] case Lit(c) => [c] case Var(n, d) => if Magic(n) then mint(n) else d)
      + Evaluate(ts[1..], mint)
  }

  /** The minted values put in place of the bare placeholders of a text; nothing else is looked at. */
  function Substitute(t: string, mint: string -> string): string
    decreases |t|
  {
    if t == "" then ""
    else if t[0] != '$' then [t[0]] + Substitute(t[1..], mint)
    else
      match MatchAt(t)
      case Some(m) =>
        if Magic(m.name) && t[..m.length] == Placeholder(m.name)
        then mint(m.name) + Substitute(t[m.length..], mint)
        else [t[0]] + Substitute(t[1..], mint)
      case None => [t[0]] + Substitute(t[1..], mint)
  }

  /** The generated names in order of first appearance. */
  function SourceNames(ts: seq<Token>): (ns: seq<string>)
    ensures forall i :: 0 <= i < |ns| ==> Magic(ns[i])
  {
    if ts == [] then []
    else
      var ns, t := SourceNames(Init(ts)), Last(ts);
      if t.Var? && Magic(t.name) && t.name !in ns then ns + [t.name] else ns
  }

  /** sources: the list accumulated match by match. */
  method Sources(v: string) returns (out: seq<Source>)
    ensures |out| == |SourceNames(Scan(v))|
    ensures forall i :: 0 <= i < |out| ==> out[i] == Source(SourceNames(Scan(v))[i], MagicKind(out[i].name))
  {
    out := [];
    var ts := Scan(v);
    for i := 0 to |ts|
      invariant |out| == |SourceNames(ts[..i])|
      invariant forall k :: 0 <= k < |out| ==> out[k] == Source(SourceNames(ts[..i])[k], MagicKind(out[k].name))
    {
      assert Init(ts[..i + 1]) == ts[..i];
      if ts[i].Var? && Magic(ts[i].name) {
        var seen := exists k :: 0 <= k < |out| && out[k].name == ts[i].name;
        assert seen <==> ts[i].name in SourceNames(ts[..i]);
        if !seen {
          out := out + [Source(ts[i].name, MagicKind(ts[i].name))];
        }
      }
    }
    assert ts[..|ts|] == ts;
  }

  /** No repeats, and exactly the generated names the value mentions. */
  lemma {:induction false} SourceNamesAreExact(ts: seq<Token>)
    ensures var ns := SourceNames(ts);
            && (forall i, j :: 0 <= i < j < |ns| ==> ns[i] != ns[j])
            && (forall n :: n in ns <==> Magic(n) && exists i :: 0 <= i < |ts| && ts[i].Var? && ts[i].name == n)
  {
    if ts != [] {
      SourceNamesAreExact(Init(ts));
      assert forall i :: 0 <= i < |ts| - 1 ==> Init(ts)[i] == ts[i];
      var ns, ns0, t := SourceNames(ts), SourceNames(Init(ts)), Last(ts);
      forall n ensures n in ns <==> Magic(n) && exists i :: 0 <= i < |ts| && ts[i].Var? && ts[i].name == n {
        assert n in ns <==> n in ns0 || (t.Var? && Magic(t.name) && t.name == n);
        if t.Var? && t.name == n {
          assert ts[|ts| - 1].Var?;
        }
        if i :| 0 <= i < |ts| && ts[i].Var? && ts[i].name == n {
          assert i < |ts| - 1 ==> Init(ts)[i].name == n;
        }
      }
    }
  }

  // ---- Scanning ----

  ghost predicate NoDollar(s: string) {
    forall i :: 0 <= i < |s| ==> s[i] != '$'
  }

  function Lits(s: string): seq<Token> {
    seq(|s|, i requires 0 <= i < |s| => Lit(s[i]))
  }

  lemma ScanChar(c: char, rest: string)
    requires c != '$'
    ensures Scan([c] + rest) == [Lit(c)] + Scan(rest)
  {
    assert ([c] + rest)[1..] == rest;
  }

  lemma PlainStep(d: string, rest: string)
    requires d != ""
    ensures d + rest == [d[0]] + (d[1..] + rest) && Lits(d) == [Lit(d[0])] + Lits(d[1..])
  {}

  lemma Regroup(a: seq<Token>, b: seq<Token>, c: seq<Token>)
    ensures (a + b) + c == a + (b + c)
  {}

  lemma ScanOneMore(s: string, c: char, rest: string, ts: seq<Token>)
    requires c != '$' && s == [c] + rest && Scan(rest) == ts
    ensures Scan(s) == [Lit(c)] + ts
  {
    ScanChar(c, rest);
  }

  lemma {:induction false} ScanPlain(d: string, rest: string)
    requires NoDollar(d)
    ensures Scan(d + rest) == Lits(d) + Scan(rest)
  {
    if d == "" {
      assert d + rest == rest && Lits(d) == [];
    } else {
      PlainStep(d, rest);
      ScanPlain(d[1..], rest);
      ScanOneMore(d + rest, d[0], d[1..] + rest, Lits(d[1..]) + Scan(rest));
      Regroup([Lit(d[0])], Lits(d[1..]), Scan(rest));
    }
  }

  lemma {:induction false} NameRunOf(name: string, rest: string)
    requires (forall i :: 0 <= i < |name| ==> NameChar(name[i])) && (rest != "" ==> !NameChar(rest[0]))
    ensures NameRun(name + rest) == |name|
  {
    if name == "" {
      assert name + rest == rest;
    } else {
      assert (name + rest)[1..] == name[1..] + rest;
      NameRunOf(name[1..], rest);
    }
  }

  lemma MatchPlaceholder(name: string, rest: string)
    requires IsName(name)
    ensures MatchAt(Placeholder(name) + rest) == Some(Match(name, "", |name| + 3))
    ensures (Placeholder(name) + rest)[|name| + 3..] == rest
    ensures (Placeholder(name) + rest)[..|name| + 3] == Placeholder(name)
  {
    var s := Placeholder(name) + rest;
    assert s[2..] == name + ("}" + rest);
    NameRunOf(name, "}" + rest);
    assert s[2..2 + |name|] == name && s[2 + |name|] == '}';
  }

  lemma MatchAtHead(s: string, n: nat)
    requires |s| >= 3 && s[0] == '$' && s[1] == '{' && NameStart(s[2]) && NameRun(s[2..]) == n
    ensures MatchAt(s) == MatchRest(s[2..2 + n], s[2 + n..])
  {}

  lemma MatchRestDefault(name: string, r: string, k: nat, d: nat)
    requires r != "" && r[0] != '}' && Introducer(r) == k && IndexOf(r[k..], '}') == d
    ensures MatchRest(name, r) == if k == 0 || d == |r| - k then None else Some(Match(name, r[k..k + d], |name| + k + d + 3))
  {}

  lemma MatchFromParts(s: string, n: nat, rest: string, d: nat)
    requires |s| >= 3 && s[0] == '$' && s[1] == '{' && NameStart(s[2])
    requires NameRun(s[2..]) == n && rest == s[2 + n..] && rest != "" && rest[0] != '}'
    requires Introducer(rest) == 2 && |rest| >= 2 && IndexOf(rest[2..], '}') == d < |rest| - 2
    ensures MatchAt(s) == Some(Match(s[2..2 + n], rest[2..2 + d], n + d + 5))
  {
    MatchAtHead(s, n);
    MatchRestDefault(s[2..2 + n], rest, 2, d);
  }

  lemma Pieces(s: string, p: string, name: string, tail: string)
    requires s == p + (name + tail)
    ensures |s| == |p| + |name| + |tail| && s[..|p|] == p
    ensures s[|p|..] == name + tail && s[|p|..|p| + |name|] == name && s[|p| + |name|..] == tail
  {}

  lemma NamedHead(s: string, name: string, tail: string)
    requires IsName(name) && s == "${" + (name + tail) && tail != "" && !NameChar(tail[0])
    ensures |s| >= 3 && s[0] == '$' && s[1] == '{' && NameStart(s[2]) && NameRun(s[2..]) == |name|
    ensures s[2..2 + |name|] == name && s[2 + |name|..] == tail
  {
    Pieces(s, "${", name, tail);
    NameRunOf(name, tail);
    assert s[2] == s[2..][0] == name[0];
  }

  lemma DefaultTail(d: string, rest: string, tail: string)
    requires (forall i :: 0 <= i < |d| ==> d[i] != '}') && tail == ":-" + d + "}" + rest
    ensures |tail| == |d| + |rest| + 3 && !NameChar(tail[0]) && tail[0] != '}' && Introducer(tail) == 2
    ensures IndexOf(tail[2..], '}') == |d| && tail[2..2 + |d|] == d
  {
    DefaultRuns(d, rest);
    assert tail[0] == ':';
  }

  lemma MatchWithDefault(s: string, name: string, d: string, rest: string, tail: string)
    requires IsName(name) && forall i :: 0 <= i < |d| ==> d[i] != '}'
    requires s == "${" + (name + tail) && tail == ":-" + d + "}" + rest
    ensures MatchAt(s) == Some(Match(name, d, |name| + |d| + 5))
  {
    DefaultTail(d, rest, tail);
    MatchBeforeTail(s, name, d, tail);
  }

  lemma MatchBeforeTail(s: string, name: string, d: string, tail: string)
    requires IsName(name) && s == "${" + (name + tail) && |tail| > |d| + 2
    requires !NameChar(tail[0]) && tail[0] != '}' && Introducer(tail) == 2
    requires IndexOf(tail[2..], '}') == |d| && tail[2..2 + |d|] == d
    ensures MatchAt(s) == Some(Match(name, d, |name| + |d| + 5))
  {
    NamedHead(s, name, tail);
    MatchFromParts(s, |name|, tail, |d|);
  }

  lemma RestAfterDefault(s: string, name: string, d: string, rest: string, tail: string)
    requires s == "${" + (name + tail) && tail == ":-" + d + "}" + rest
    ensures |s| >= |name| + |d| + 5 && s[|name| + |d| + 5..] == rest
  {
    Pieces(s, "${", name, tail);
    assert tail[|d| + 3..] == rest;
    assert s[|name| + |d| + 5..] == s[2 + |name|..][|d| + 3..];
  }

  lemma DefaultRuns(d: string, rest: string)
    requires forall i :: 0 <= i < |d| ==> d[i] != '}'
    ensures var tail := ":-" + d + "}" + rest;
            Introducer(tail) == 2 && IndexOf(tail[2..], '}') == |d| && tail[2..2 + |d|] == d && tail[0] != '}'
  {
    var tail := ":-" + d + "}" + rest;
    var body := tail[2..];
    assert body == d + "}" + rest;
    assert forall i :: 0 <= i < |d| ==> body[i] == d[i];
    assert body[|d|] == '}' && tail[..2] == ":-";
  }

  lemma ScanOfPlaceholder(n: string)
    requires Magic(n)
    ensures SourceNames(Scan(Placeholder(n))) == [n]
  {
    MagicIsName(n);
    MatchPlaceholder(n, "");
    assert Placeholder(n) + "" == Placeholder(n);
    var b := Var(n, "");
    assert Scan("") == [] && Scan(Placeholder(n)) == [b] && Init([b]) == [];
    assert SourceNames([]) == [];
  }

  lemma ScanOfNestedDefault(v: string, a: string, d: string)
    requires IsName(a) && (forall i :: 0 <= i < |d| ==> d[i] != '}') && v == "${" + (a + (":-" + d + "}" + "}"))
    ensures Scan(v) == [Var(a, d)] + [Lit('}')]
  {
    var tail := ":-" + d + "}" + "}";
    MatchWithDefault(v, a, d, "}", tail);
    RestAfterDefault(v, a, d, "}", tail);
    ScanOneMatch(v, Match(a, d, |a| + |d| + 5), "}");
    ScanChar('}', "");
    assert Scan("") == [] && ['}'] + "" == "}";
  }

  lemma ScanOneMatch(v: string, m: Match, rest: string)
    requires MatchAt(v) == Some(m) && v[m.length..] == rest
    ensures Scan(v) == [Var(m.name, m.fallback)] + Scan(rest)
  {}

  lemma TwoTokens(a: string, d: string)
    requires !Magic(a)
    ensures Template([Var(a, d)] + [Lit('}')]) == d + "}"
    ensures SourceNames([Var(a, d)] + [Lit('}')]) == []
  {
    var x := Var(a, d);
    var ts := [x] + [Lit('}')];
    assert ts[1..] == [Lit('}')] && [Lit('}')][1..] == [];
    assert Template([Lit('}')]) == "}";
    assert Init(ts) == [x] && Init([x]) == [];
    assert SourceNames([]) == [] && SourceNames([x]) == [];
  }

  lemma NoBraceInAName(n: string)
    requires IsName(n)
    ensures forall i :: 0 <= i < |"${" + n| ==> ("${" + n)[i] != '}'
  {
    forall i | 0 <= i < |"${" + n| ensures ("${" + n)[i] != '}' {
      assert i >= 2 ==> ("${" + n)[i] == n[i - 2];
    }
  }

  /** A default that spells the start of a reference becomes one. */
  lemma DollarInDefaultBecomesAReference(a: string, n: string, v: string)
    requires IsName(a) && !Magic(a) && Magic(n) && v == "${" + (a + (":-" + ("${" + n) + "}" + "}"))
    ensures SourceNames(Scan(v)) == []
    ensures Template(Scan(v)) == Placeholder(n)
    ensures SourceNames(Scan(Template(Scan(v)))) == [n]
  {
    MagicIsName(n);
    NoBraceInAName(n);
    ScanOfNestedDefault(v, a, "${" + n);
    TwoTokens(a, "${" + n);
    ScanOfPlaceholder(n);
  }
}
