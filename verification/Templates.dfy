/**
 What literalExceptSources of compose/convert.go promises of its template, and
 exactly when it keeps it: minting into the template is evaluating the value,
 and a second pass over the template leaves it alone.
 */
module Templates {
  import opened Common
  import opened Text
  import opened Interpolation

  /** The text begins with a bare placeholder of a generated name. */
  predicate BareAt(t: string) {
    t != "" && t[0] == '$' && MatchAt(t).Some? && Magic(MatchAt(t).value.name)
    && t[..MatchAt(t).value.length] == Placeholder(MatchAt(t).value.name)
  }

  /** No position of a piece of text, as it stands before what follows it, opens a bare placeholder. */
  ghost predicate Unopened(d: string, rest: string) {
    forall i :: 0 <= i < |d| ==> !BareAt(d[i..] + rest)
  }

  /** No dollar a value spells itself, in a character or in a default that is kept, opens a placeholder in its template. */
  ghost predicate NoStray(ts: seq<Token>) {
    ts == [] || (NoStray(ts[1..]) && StaysPut(ts[0], Template(ts[1..])))
  }

  ghost predicate StaysPut(t: Token, rest: string) {
    match t case Lit(c) => Unopened([c], rest) case Var(n, d) => Magic(n) || Unopened(d, rest)
  }

  ghost predicate WellNamed(ts: seq<Token>) {
    forall i :: 0 <= i < |ts| && ts[i].Var? ==> IsName(ts[i].name)
  }

  lemma UnopenedTail(d: string, rest: string)
    requires d != "" && Unopened(d, rest)
    ensures Unopened(d[1..], rest) && !BareAt(d + rest)
  {
    assert d[0..] == d;
    forall i | 0 <= i < |d[1..]| ensures !BareAt(d[1..][i..] + rest) {
      assert d[1..][i..] == d[i + 1..];
    }
  }

  lemma HeadAndTail(d: string, rest: string)
    requires d != ""
    ensures (d + rest)[0] == d[0] && (d + rest)[1..] == d[1..] + rest && d == [d[0]] + d[1..]
  {}

  // ---- Minting into the template ----

  /** Text that opens nothing is copied. */
  lemma {:induction false} SubstituteUnopened(d: string, rest: string, mint: string -> string)
    requires Unopened(d, rest)
    ensures Substitute(d + rest, mint) == d + Substitute(rest, mint)
  {
    if d == "" {
      assert d + rest == rest;
    } else {
      UnopenedTail(d, rest);
      SubstituteUnopened(d[1..], rest, mint);
      SubstitutePast(d + rest, d, rest, mint);
    }
  }

  lemma SubstitutePast(t: string, d: string, rest: string, mint: string -> string)
    requires d != "" && t == d + rest && !BareAt(t)
    requires Substitute(d[1..] + rest, mint) == d[1..] + Substitute(rest, mint)
    ensures Substitute(t, mint) == d + Substitute(rest, mint)
  {
    HeadAndTail(d, rest);
    SubstituteSkips(t, mint);
    Rejoin(d, Substitute(rest, mint));
  }

  lemma Rejoin(d: string, more: string)
    requires d != ""
    ensures [d[0]] + (d[1..] + more) == d + more
  {}

  lemma SubstituteSkips(t: string, mint: string -> string)
    requires t != "" && !BareAt(t)
    ensures Substitute(t, mint) == [t[0]] + Substitute(t[1..], mint)
  {}

  lemma SubstituteMints(n: string, rest: string, mint: string -> string)
    requires IsName(n) && Magic(n)
    ensures BareAt(Placeholder(n) + rest)
    ensures Substitute(Placeholder(n) + rest, mint) == mint(n) + Substitute(rest, mint)
  {
    MatchPlaceholder(n, rest);
  }

  /** Minting into a template with no stray placeholder is evaluating the value, whatever is minted. */
  lemma {:induction false} NoStrayEvaluates(ts: seq<Token>, mint: string -> string)
    requires WellNamed(ts) && NoStray(ts)
    ensures Substitute(Template(ts), mint) == Evaluate(ts, mint)
  {
    if ts != [] {
      NoStrayEvaluates(ts[1..], mint);
      var rest := Template(ts[1..]);
      assert StaysPut(ts[0], rest);
      match ts[0]
      case Lit(c) => SubstituteUnopened([c], rest, mint);
      case Var(n, d) =>
        if Magic(n) {
          SubstituteMints(n, rest, mint);
        } else {
          SubstituteUnopened(d, rest, mint);
        }
    }
  }

  // ---- Counting the placeholders ----

  /** The names of the bare placeholders of a text, in order. */
  function BareNames(t: string): seq<string> {
    if t == "" then [] else (if BareAt(t) then [MatchAt(t).value.name] else []) + BareNames(t[1..])
  }

  /** The generated names of a value, in order, repeats included. */
  function Generated(ts: seq<Token>): seq<string> {
    if ts == [] then [] else (if ts[0].Var? && Magic(ts[0].name) then [ts[0].name] else []) + Generated(ts[1..])
  }

  function StraysIn(d: string, rest: string): nat {
    if d == "" then 0 else (if BareAt(d + rest) then 1 else 0) + StraysIn(d[1..], rest)
  }

  function Strays(ts: seq<Token>): nat {
    if ts == [] then 0
    else
      Strays(ts[1..])
      + match ts[0] case Lit(c) => StraysIn([c], Template(ts[1..]))
                    case Var(n, d) => if Magic(n) then 0 else StraysIn(d, Template(ts[1..]))
  }

  lemma {:induction false} NoneInIff(d: string, rest: string)
    ensures StraysIn(d, rest) == 0 <==> Unopened(d, rest)
  {
    if d != "" {
      NoneInIff(d[1..], rest);
      if Unopened(d, rest) {
        UnopenedTail(d, rest);
      }
      if StraysIn(d, rest) == 0 {
        forall i | 0 <= i < |d| ensures !BareAt(d[i..] + rest) {
          assert i == 0 ==> d[i..] == d;
          assert i > 0 ==> d[1..][i - 1..] == d[i..];
        }
      }
    }
  }

  lemma {:induction false} NoneIff(ts: seq<Token>)
    ensures Strays(ts) == 0 <==> NoStray(ts)
  {
    if ts != [] {
      NoneIff(ts[1..]);
      match ts[0]
      case Lit(c) => NoneInIff([c], Template(ts[1..]));
      case Var(_, d) => NoneInIff(d, Template(ts[1..]));
    }
  }

  lemma {:induction false} BareNamesPlain(d: string, rest: string)
    requires NoDollar(d)
    ensures BareNames(d + rest) == BareNames(rest)
  {
    if d == "" {
      assert d + rest == rest;
    } else {
      HeadAndTail(d, rest);
      BareNamesPlain(d[1..], rest);
    }
  }

  lemma PlaceholderTail(n: string, rest: string)
    requires IsName(n)
    ensures (Placeholder(n) + rest)[1..] == ("{" + n + "}") + rest && NoDollar("{" + n + "}")
  {
    var inner := "{" + n + "}";
    assert Placeholder(n) == "$" + inner;
    assert forall i :: 0 <= i < |n| ==> NameChar(n[i]);
    forall i | 0 <= i < |inner| ensures inner[i] != '$' {
      assert 0 < i < |inner| - 1 ==> inner[i] == n[i - 1];
    }
  }

  lemma BareNamesStep(t: string)
    requires BareAt(t)
    ensures BareNames(t) == [MatchAt(t).value.name] + BareNames(t[1..])
  {}

  lemma BareNamesMint(n: string, rest: string)
    requires IsName(n) && Magic(n)
    ensures BareNames(Placeholder(n) + rest) == [n] + BareNames(rest)
  {
    MatchPlaceholder(n, rest);
    SubstituteMints(n, rest, NOTHING);
    PlaceholderTail(n, rest);
    BareNamesPlain("{" + n + "}", rest);
    BareNamesStep(Placeholder(n) + rest);
  }

  lemma {:induction false} BareNamesIn(d: string, rest: string)
    ensures |BareNames(d + rest)| == StraysIn(d, rest) + |BareNames(rest)|
    ensures Unopened(d, rest) ==> BareNames(d + rest) == BareNames(rest)
  {
    if d == "" {
      assert d + rest == rest;
    } else {
      HeadAndTail(d, rest);
      BareNamesIn(d[1..], rest);
      if Unopened(d, rest) {
        UnopenedTail(d, rest);
      }
    }
  }

  /** The placeholders of a template are the generated references of the value and the strays. */
  lemma {:induction false} BareNamesOfTemplate(ts: seq<Token>)
    requires WellNamed(ts)
    ensures |BareNames(Template(ts))| == |Generated(ts)| + Strays(ts)
    ensures NoStray(ts) ==> BareNames(Template(ts)) == Generated(ts)
  {
    if ts != [] {
      BareNamesOfTemplate(ts[1..]);
      var rest := Template(ts[1..]);
      match ts[0]
      case Lit(c) => BareNamesIn([c], rest);
      case Var(n, d) =>
        if Magic(n) {
          BareNamesMint(n, rest);
        } else {
          BareNamesIn(d, rest);
        }
    }
  }

  const NOTHING := (n: string) => ""
  const ONE := (n: string) => "x"

  lemma {:induction false} SubstituteCounts(t: string)
    ensures |Substitute(t, ONE)| == |Substitute(t, NOTHING)| + |BareNames(t)|
    decreases |t|
  {
    if t != "" {
      if BareAt(t) {
        var m := MatchAt(t).value;
        var rest := t[m.length..];
        assert t == Placeholder(m.name) + rest;
        SubstituteCounts(rest);
        SubstituteMints(m.name, rest, ONE);
        SubstituteMints(m.name, rest, NOTHING);
        BareNamesMint(m.name, rest);
      } else {
        SubstituteCounts(t[1..]);
        SubstituteSkips(t, ONE);
        SubstituteSkips(t, NOTHING);
      }
    }
  }

  lemma {:induction false} EvaluateCounts(ts: seq<Token>)
    ensures |Evaluate(ts, ONE)| == |Evaluate(ts, NOTHING)| + |Generated(ts)|
  {
    if ts != [] {
      EvaluateCounts(ts[1..]);
    }
  }

  ghost predicate MeansTheValue(ts: seq<Token>) {
    forall mint: string -> string :: Substitute(Template(ts), mint) == Evaluate(ts, mint)
  }

  /**
   Minting into the template is evaluating the value, generated names minted and
   all others at their defaults, whatever is minted, if and only if no dollar the
   value spells itself opens a placeholder of a generated name.
   */
  lemma MeansTheValueIff(v: string)
    ensures MeansTheValue(Scan(v)) <==> NoStray(Scan(v))
  {
    var ts := Scan(v);
    if NoStray(ts) {
      forall mint: string -> string ensures Substitute(Template(ts), mint) == Evaluate(ts, mint) {
        NoStrayEvaluates(ts, mint);
      }
    }
    if MeansTheValue(ts) {
      assert Substitute(Template(ts), ONE) == Evaluate(ts, ONE);
      assert Substitute(Template(ts), NOTHING) == Evaluate(ts, NOTHING);
      SubstituteCounts(Template(ts));
      EvaluateCounts(ts);
      BareNamesOfTemplate(ts);
      NoneIff(ts);
    }
  }

  // ---- A second pass ----

  /** Every reference of a text is a bare placeholder of a generated name. */
  predicate OnlyBare(t: string)
    decreases |t|
  {
    if t == "" then true
    else if MatchAt(t).None? then OnlyBare(t[1..])
    else BareAt(t) && OnlyBare(t[MatchAt(t).value.length..])
  }

  lemma RestLength(name: string, rest: string)
    requires MatchRest(name, rest).Some?
    ensures var m := MatchRest(name, rest).value;
            |m.name| + |m.fallback| + 3 <= m.length && (m.length == |name| + 3 ==> rest[0] == '}')
  {}

  lemma BareText(t: string, n: nat)
    requires n + 3 <= |t| && t[0] == '$' && t[1] == '{' && t[2 + n] == '}'
    ensures t[..n + 3] == Placeholder(t[2..2 + n])
  {}

  lemma BareIsShortest(t: string)
    requires t != "" && MatchAt(t).Some?
    ensures var m := MatchAt(t).value;
            && |m.name| + |m.fallback| + 3 <= m.length
            && (t[..m.length] == Placeholder(m.name) <==> m.length == |m.name| + 3)
  {
    var n := NameRun(t[2..]);
    MatchAtHead(t, n);
    RestLength(t[2..2 + n], t[2 + n..]);
    if MatchAt(t).value.length == n + 3 {
      BareText(t, n);
    }
  }

  lemma ScanMatch(t: string)
    requires t != "" && MatchAt(t).Some?
    ensures var m := MatchAt(t).value; Scan(t) == [Var(m.name, m.fallback)] + Scan(t[m.length..])
  {}

  lemma ScanSkip(t: string)
    requires t != "" && MatchAt(t).None?
    ensures Scan(t) == [Lit(t[0])] + Scan(t[1..])
  {}

  lemma TemplateFirst(x: Token, ts: seq<Token>)
    ensures Template([x] + ts)
         == (match x case Lit(c) => [c] case Var(n, d) => if Magic(n) then Placeholder(n) else d) + Template(ts)
    ensures Generated([x] + ts) == (if x.Var? && Magic(x.name) then [x.name] else []) + Generated(ts)
  {
    assert ([x] + ts)[1..] == ts;
  }

  lemma ShorterThanTheMatch(t: string, m: Match)
    requires t != "" && MatchAt(t) == Some(m) && !BareAt(t)
    ensures |if Magic(m.name) then Placeholder(m.name) else m.fallback| < m.length
  {
    BareIsShortest(t);
  }

  /** What one pass makes of a text that begins with a reference. */
  lemma PassMatched(t: string, m: Match, rest: string)
    requires t != "" && MatchAt(t) == Some(m) && rest == t[m.length..]
    ensures Template(Scan(t)) == (if Magic(m.name) then Placeholder(m.name) else m.fallback) + Template(Scan(rest))
    ensures Generated(Scan(t)) == (if Magic(m.name) then [m.name] else []) + Generated(Scan(rest))
    ensures BareAt(t) ==> t == Placeholder(m.name) + rest
    ensures !BareAt(t) ==> |Template(Scan(t))| < m.length + |Template(Scan(rest))|
  {
    ScanMatch(t);
    TemplateFirst(Var(m.name, m.fallback), Scan(rest));
    assert t == t[..m.length] + rest;
    if !BareAt(t) {
      ShorterThanTheMatch(t, m);
    }
  }

  lemma PassSkipped(t: string, rest: string)
    requires t != "" && MatchAt(t).None? && rest == t[1..]
    ensures Template(Scan(t)) == [t[0]] + Template(Scan(rest)) && t == [t[0]] + rest
    ensures Generated(Scan(t)) == Generated(Scan(rest))
  {
    ScanSkip(t);
    TemplateFirst(Lit(t[0]), Scan(rest));
  }

  /** A pass over a text leaves it alone if its references are bare placeholders, and shortens it otherwise. */
  lemma {:induction false} PassShortens(t: string)
    ensures OnlyBare(t) ==> Template(Scan(t)) == t
    ensures !OnlyBare(t) ==> |Template(Scan(t))| < |t|
    decreases |t|
  {
    if t != "" {
      if MatchAt(t).None? {
        PassSkipped(t, t[1..]);
        PassShortens(t[1..]);
      } else {
        var m := MatchAt(t).value;
        PassMatched(t, m, t[m.length..]);
        PassShortens(t[m.length..]);
      }
    }
  }

  /** A pass over a text leaves it as it is if and only if its only references are bare placeholders of generated names. */
  lemma PassIsIdleIff(t: string)
    ensures Template(Scan(t)) == t <==> OnlyBare(t)
  {
    PassShortens(t);
  }

  lemma {:induction false} BareNamesAreScanned(t: string)
    requires OnlyBare(t)
    ensures Generated(Scan(t)) == BareNames(t)
    decreases |t|
  {
    if t != "" {
      if MatchAt(t).None? {
        PassSkipped(t, t[1..]);
        BareNamesAreScanned(t[1..]);
      } else {
        var m := MatchAt(t).value;
        PassMatched(t, m, t[m.length..]);
        BareNamesAreScanned(t[m.length..]);
        BareNamesMint(m.name, t[m.length..]);
      }
    }
  }

  /**
   A second pass over a value's template changes nothing, and names the same
   generated references one for one, if and only if the template's references are
   all bare placeholders and none of them is a stray.
   */
  lemma SecondPassIff(v: string)
    ensures var t := Template(Scan(v));
            (Template(Scan(t)) == t && Generated(Scan(t)) == Generated(Scan(v))) <==> OnlyBare(t) && NoStray(Scan(v))
  {
    var ts := Scan(v);
    var t := Template(ts);
    PassIsIdleIff(t);
    BareNamesOfTemplate(ts);
    NoneIff(ts);
    if OnlyBare(t) {
      BareNamesAreScanned(t);
    }
  }

  // ---- The sources ----

  function Distinct(ns: seq<string>): seq<string> {
    if ns == [] then []
    else
      var r := Distinct(Init(ns));
      if Last(ns) in r then r else r + [Last(ns)]
  }

  function GeneratedBy(t: Token): seq<string> {
    if t.Var? && Magic(t.name) then [t.name] else []
  }

  lemma GeneratedFirst(ts: seq<Token>)
    requires ts != []
    ensures Generated(ts) == GeneratedBy(ts[0]) + Generated(ts[1..])
  {}

  lemma {:induction false} GeneratedSnoc(ts: seq<Token>, t: Token)
    ensures Generated(ts + [t]) == Generated(ts) + GeneratedBy(t)
  {
    var more := ts + [t];
    GeneratedFirst(more);
    if ts == [] {
      assert more == [t] && more[1..] == [];
    } else {
      assert more[0] == ts[0] && more[1..] == ts[1..] + [t];
      GeneratedFirst(ts);
      GeneratedSnoc(ts[1..], t);
    }
  }

  lemma {:induction false} SourcesAreDistinct(ts: seq<Token>)
    ensures SourceNames(ts) == Distinct(Generated(ts))
  {
    if ts != [] {
      var init, t := Init(ts), Last(ts);
      SourcesAreDistinct(init);
      GeneratedSnoc(init, t);
      assert ts == init + [t];
      if t.Var? && Magic(t.name) {
        assert Generated(ts) == Generated(init) + [t.name];
        assert Init(Generated(ts)) == Generated(init);
      } else {
        assert Generated(ts) == Generated(init);
      }
    }
  }

  /** With no stray and only bare placeholders, the template's sources are the value's, in order. */
  lemma SameSources(v: string)
    requires OnlyBare(Template(Scan(v))) && NoStray(Scan(v))
    ensures SourceNames(Scan(Template(Scan(v)))) == SourceNames(Scan(v))
  {
    SecondPassIff(v);
    SourcesAreDistinct(Scan(v));
    SourcesAreDistinct(Scan(Template(Scan(v))));
  }

  // ---- When strays leave the sources as they are ----

  /** A bare placeholder of a template: a reference of the value's own, or one a dollar of its text opens. */
  datatype Mark = Mark(name: string, own: bool)

  /** The mark a text begins with, if it begins with one. */
  function HeadMark(t: string): seq<Mark> {
    if BareAt(t) then [Mark(MatchAt(t).value.name, false)] else []
  }

  function StrayMarks(d: string, rest: string): seq<Mark> {
    if d == "" then [] else HeadMark(d + rest) + StrayMarks(d[1..], rest)
  }

  function MarksOf(t: Token, rest: string): seq<Mark> {
    match t
    case Lit(c) => StrayMarks([c], rest)
    case Var(n, d) => if Magic(n) then [Mark(n, true)] else StrayMarks(d, rest)
  }

  function Marks(ts: seq<Token>): seq<Mark> {
    if ts == [] then [] else MarksOf(ts[0], Template(ts[1..])) + Marks(ts[1..])
  }

  function AllNames(ms: seq<Mark>): (ns: seq<string>)
    ensures |ns| == |ms|
  {
    seq(|ms|, i requires 0 <= i < |ms| => ms[i].name)
  }

  function OwnNames(ms: seq<Mark>): seq<string> {
    if ms == [] then [] else OwnNames(Init(ms)) + if Last(ms).own then [Last(ms).name] else []
  }

  lemma AllNamesConcat(a: seq<Mark>, b: seq<Mark>)
    ensures AllNames(a + b) == AllNames(a) + AllNames(b)
  {}

  lemma {:induction false} OwnNamesConcat(a: seq<Mark>, b: seq<Mark>)
    ensures OwnNames(a + b) == OwnNames(a) + OwnNames(b)
  {
    if b == [] {
      assert a + b == a;
    } else {
      assert Init(a + b) == a + Init(b) && Last(a + b) == Last(b);
      OwnNamesConcat(a, Init(b));
    }
  }

  lemma HeadIsMarked(t: string)
    requires t != ""
    ensures BareNames(t) == AllNames(HeadMark(t)) + BareNames(t[1..]) && OwnNames(HeadMark(t)) == []
  {
    OwnOfOne(HeadMark(t));
  }

  lemma {:induction false} StraysAreMarked(d: string, rest: string)
    ensures BareNames(d + rest) == AllNames(StrayMarks(d, rest)) + BareNames(rest)
    ensures OwnNames(StrayMarks(d, rest)) == []
  {
    if d == "" {
      assert d + rest == rest;
    } else {
      StraysAreMarked(d[1..], rest);
      StraysOneMore(d + rest, d, rest, HeadMark(d + rest), StrayMarks(d[1..], rest));
    }
  }

  lemma StraysOneMore(t: string, d: string, rest: string, head: seq<Mark>, ms: seq<Mark>)
    requires d != "" && t == d + rest && head == HeadMark(t) && OwnNames(ms) == []
    requires BareNames(d[1..] + rest) == AllNames(ms) + BareNames(rest)
    ensures BareNames(t) == AllNames(head + ms) + BareNames(rest) && OwnNames(head + ms) == []
  {
    HeadAndTail(d, rest);
    HeadIsMarked(t);
    AllNamesConcat(head, ms);
    OwnNamesConcat(head, ms);
  }

  lemma OwnOfOne(ms: seq<Mark>)
    requires |ms| <= 1
    ensures OwnNames(ms) == if ms == [] || !ms[0].own then [] else [ms[0].name]
  {
    if ms != [] {
      assert Init(ms) == [];
    }
  }

  function TextOf(t: Token): string {
    match t case Lit(c) => [c] case Var(n, d) => if Magic(n) then Placeholder(n) else d
  }

  lemma MarkedPlaceholder(n: string, rest: string)
    requires Magic(n) && IsName(n)
    ensures BareNames(Placeholder(n) + rest) == AllNames([Mark(n, true)]) + BareNames(rest) && OwnNames([Mark(n, true)]) == [n]
  {
    BareNamesMint(n, rest);
    OwnOfOne([Mark(n, true)]);
    assert AllNames([Mark(n, true)]) == [n];
  }

  lemma MarkedFirst(t: Token, rest: string)
    requires t.Var? ==> IsName(t.name)
    ensures BareNames(TextOf(t) + rest) == AllNames(MarksOf(t, rest)) + BareNames(rest)
    ensures OwnNames(MarksOf(t, rest)) == GeneratedBy(t)
  {
    match t
    case Lit(c) => StraysAreMarked([c], rest);
    case Var(n, d) =>
      if Magic(n) {
        MarkedPlaceholder(n, rest);
      } else {
        StraysAreMarked(d, rest);
      }
  }

  /** The marks are the template's bare placeholders, in order, and the own ones the value's generated references. */
  lemma {:induction false} MarksAre(ts: seq<Token>)
    requires WellNamed(ts)
    ensures BareNames(Template(ts)) == AllNames(Marks(ts)) && Generated(ts) == OwnNames(Marks(ts))
  {
    if ts != [] {
      MarksAre(ts[1..]);
      MarkedFirst(ts[0], Template(ts[1..]));
      AllNamesConcat(MarksOf(ts[0], Template(ts[1..])), Marks(ts[1..]));
      OwnNamesConcat(MarksOf(ts[0], Template(ts[1..])), Marks(ts[1..]));
      GeneratedFirst(ts);
    }
  }

  // ---- Lists without their repeats ----

  ghost predicate NoRepeats(ns: seq<string>) {
    forall i, j :: 0 <= i < j < |ns| ==> ns[i] != ns[j]
  }

  lemma {:induction false} DistinctIs(ns: seq<string>)
    ensures NoRepeats(Distinct(ns)) && |Distinct(ns)| <= |ns| && forall n :: n in Distinct(ns) <==> n in ns
  {
    if ns != [] {
      DistinctIs(Init(ns));
      assert ns == Init(ns) + [Last(ns)];
    }
  }

  lemma DistinctSnoc(ns: seq<string>, n: string)
    ensures Distinct(ns + [n]) == if n in Distinct(ns) then Distinct(ns) else Distinct(ns) + [n]
  {
    assert Init(ns + [n]) == ns;
  }

  lemma {:induction false} DistinctPrefix(a: seq<string>, b: seq<string>)
    ensures Distinct(a) <= Distinct(a + b)
  {
    if b == [] {
      assert a + b == a;
    } else {
      assert a + b == (a + Init(b)) + [Last(b)];
      DistinctPrefix(a, Init(b));
      DistinctSnoc(a + Init(b), Last(b));
    }
  }

  lemma NotAmongTheFirst(ns: seq<string>, k: nat)
    requires NoRepeats(ns) && k < |ns|
    ensures ns[k] !in ns[..k]
  {
    forall i | 0 <= i < k ensures ns[..k][i] != ns[k] {}
  }

  /** The next name of a list without repeats is the first that is not among some of its first ones. */
  lemma NextInTurn(all: seq<string>, j: nat, k: nat, n: string)
    requires NoRepeats(all) && k <= |all| && j < |all| && all[j] == n
    requires n !in all[..k] && forall i :: 0 <= i < j ==> all[i] in all[..k]
    ensures j == k
  {
    if k < |all| {
      NotAmongTheFirst(all, k);
    }
    if k < j {
      assert false;
    }
  }

  /** Every stray names a source named before it, or the one whose turn it is. */
  predicate InTurn(ms: seq<Mark>, sources: seq<string>) {
    ms == []
    || (InTurn(Init(ms), sources) && (Last(ms).own || Among(Last(ms).name, sources, |Distinct(AllNames(Init(ms)))|)))
  }

  predicate Among(n: string, sources: seq<string>, k: nat) {
    n in sources[..if k < |sources| then k + 1 else |sources|]
  }

  lemma AmongIff(n: string, sources: seq<string>, k: nat)
    requires k <= |sources|
    ensures Among(n, sources, k) <==> n in sources[..k] || (k < |sources| && n == sources[k])
  {
    if k < |sources| {
      assert sources[..k + 1] == sources[..k] + [sources[k]];
    }
  }

  lemma OneMoreMark(ms: seq<Mark>)
    requires ms != []
    ensures AllNames(ms) == AllNames(Init(ms)) + [Last(ms).name]
    ensures Distinct(AllNames(ms))
         == var seen := Distinct(AllNames(Init(ms))); if Last(ms).name in seen then seen else seen + [Last(ms).name]
  {
    DistinctSnoc(AllNames(Init(ms)), Last(ms).name);
  }

  lemma {:induction false} OwnAreAmongAll(ms: seq<Mark>)
    ensures forall n :: n in OwnNames(ms) ==> n in AllNames(ms)
  {
    if ms != [] {
      OwnAreAmongAll(Init(ms));
      OneMoreMark(ms);
    }
  }

  /** An own reference that is new is the source whose turn it is. */
  lemma OwnIsNext(ms: seq<Mark>, more: seq<Mark>, sources: seq<string>, seen: seq<string>)
    requires ms != [] && Last(ms).own && sources == Distinct(OwnNames(ms + more))
    requires seen == Distinct(AllNames(Init(ms))) && seen <= sources && Last(ms).name !in seen
    ensures |seen| < |sources| && sources[|seen|] == Last(ms).name
  {
    var n, before := Last(ms).name, OwnNames(Init(ms));
    DistinctIs(OwnNames(ms + more));
    DistinctIs(AllNames(Init(ms)));
    DistinctIs(before);
    OwnAreAmongAll(Init(ms));
    OwnNamesConcat(ms, more);
    DistinctPrefix(OwnNames(ms), OwnNames(more));
    DistinctSnoc(before, n);
    var j := |Distinct(before)|;
    assert n !in Distinct(before);
    assert Distinct(before) + [n] <= sources;
    assert sources[j] == n && sources[..|seen|] == seen;
    forall i | 0 <= i < j ensures sources[i] in sources[..|seen|] {
      assert sources[i] == Distinct(before)[i];
    }
    NextInTurn(sources, j, |seen|, n);
  }

  /** Whether one name more keeps what was seen a beginning of the sources. */
  lemma OneMoreSeen(seen: seq<string>, n: string, own: bool, sources: seq<string>)
    requires own && seen <= sources && n !in seen ==> |seen| < |sources| && sources[|seen|] == n
    ensures (if n in seen then seen else seen + [n]) <= sources <==> seen <= sources && (own || Among(n, sources, |seen|))
  {
    if seen <= sources {
      assert sources[..|seen|] == seen;
      AmongIff(n, sources, |seen|);
    }
  }

  lemma {:induction false} InTurnIff(ms: seq<Mark>, more: seq<Mark>, sources: seq<string>)
    requires sources == Distinct(OwnNames(ms + more))
    ensures InTurn(ms, sources) <==> Distinct(AllNames(ms)) <= sources
  {
    if ms != [] {
      var init, x := Init(ms), Last(ms);
      var seen := Distinct(AllNames(init));
      assert init + ([x] + more) == ms + more;
      InTurnIff(init, [x] + more, sources);
      OneMoreMark(ms);
      if x.own && seen <= sources && x.name !in seen {
        OwnIsNext(ms, more, sources, seen);
      }
      OneMoreSeen(seen, x.name, x.own, sources);
    }
  }

  lemma WholePrefix(a: seq<string>, b: seq<string>)
    requires a <= b && NoRepeats(b) && forall n :: n in b ==> n in a
    ensures a == b
  {
    assert a == b[..|a|];
    if |a| < |b| {
      NotAmongTheFirst(b, |a|);
    }
  }

  /**
   Where a template's references are all bare placeholders, it names the value's
   sources, in the value's order, if and only if every stray names a source named
   before it or the one whose turn it is.
   */
  lemma SameSourcesIff(v: string)
    requires OnlyBare(Template(Scan(v)))
    ensures SourceNames(Scan(Template(Scan(v)))) == SourceNames(Scan(v)) <==> InTurn(Marks(Scan(v)), SourceNames(Scan(v)))
  {
    var ts, t, ms := Scan(v), Template(Scan(v)), Marks(Scan(v));
    MarksAre(ts);
    BareNamesAreScanned(t);
    SourcesAreDistinct(ts);
    SourcesAreDistinct(Scan(t));
    assert ms + [] == ms;
    InTurnIff(ms, [], Distinct(OwnNames(ms)));
    DistinctIs(OwnNames(ms));
    DistinctIs(AllNames(ms));
    OwnAreAmongAll(ms);
    if Distinct(AllNames(ms)) <= Distinct(OwnNames(ms)) {
      WholePrefix(Distinct(AllNames(ms)), Distinct(OwnNames(ms)));
    }
  }

  // ---- Values whose only dollars open a reference ----

  /** The only dollars that survive are those that open a generated reference. */
  ghost predicate Clean(ts: seq<Token>) {
    forall i :: 0 <= i < |ts| ==> CleanToken(ts[i]) && (ts[i].Var? ==> IsName(ts[i].name))
  }

  ghost predicate CleanToken(t: Token) {
    match t case Lit(c) => c != '$' case Var(n, d) => Magic(n) || NoDollar(d)
  }

  lemma PlainIsUnopened(d: string, rest: string)
    requires NoDollar(d)
    ensures Unopened(d, rest)
  {
    forall i | 0 <= i < |d| ensures !BareAt(d[i..] + rest) {
      assert (d[i..] + rest)[0] == d[i];
    }
  }

  lemma {:induction false} OnlyBarePlain(d: string, rest: string)
    requires NoDollar(d)
    ensures OnlyBare(d + rest) == OnlyBare(rest)
  {
    if d == "" {
      assert d + rest == rest;
    } else {
      HeadAndTail(d, rest);
      OnlyBarePlain(d[1..], rest);
    }
  }

  lemma {:induction false} CleanHasNoStray(ts: seq<Token>)
    requires Clean(ts)
    ensures NoStray(ts) && OnlyBare(Template(ts))
  {
    if ts != [] {
      CleanHasNoStray(ts[1..]);
      var rest := Template(ts[1..]);
      assert CleanToken(ts[0]);
      match ts[0]
      case Lit(c) =>
        PlainIsUnopened([c], rest);
        OnlyBarePlain([c], rest);
      case Var(n, d) =>
        if Magic(n) {
          MatchPlaceholder(n, rest);
        } else {
          PlainIsUnopened(d, rest);
          OnlyBarePlain(d, rest);
        }
    }
  }

  /** So a value whose only dollars open a reference keeps every promise of its template. */
  lemma CleanValuesKeepThePromise(v: string)
    requires Clean(Scan(v))
    ensures MeansTheValue(Scan(v))
    ensures Template(Scan(Template(Scan(v)))) == Template(Scan(v))
    ensures SourceNames(Scan(Template(Scan(v)))) == SourceNames(Scan(v))
  {
    CleanHasNoStray(Scan(v));
    MeansTheValueIff(v);
    SecondPassIff(v);
    SameSources(v);
  }

  /** A dollar that opens nothing does no harm: a price keeps the promise too. */
  lemma PricesKeepThePromise()
    ensures MeansTheValue(Scan("a$5"))
  {
    assert "a$5"[1..] == "$5" && "$5"[1..] == "5" && "5"[1..] == "";
    assert MatchAt("$5").None?;
    var ts := Scan("a$5");
    assert ts == [Lit('a'), Lit('$'), Lit('5')];
    assert ts[1..] == [Lit('$'), Lit('5')] && ts[1..][1..] == [Lit('5')] && [Lit('5')][1..] == [];
    assert Template([Lit('5')]) == "5";
    assert Template(ts[1..]) == "$5";
    assert !BareAt("$5");
    assert forall c: char, r: string :: c != '$' ==> Unopened([c], r) by {
      forall c: char, r: string | c != '$' ensures Unopened([c], r) {
        PlainIsUnopened([c], r);
      }
    }
    assert Unopened("$", "5") by {
      assert "$"[0..] + "5" == "$5";
    }
    MeansTheValueIff("a$5");
  }
}
