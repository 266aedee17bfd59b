/**
 Repointing the addresses of sibling services, as compose/convert.go does it:
 every host that names another service of the template is replaced by the name
 that service gets here, spliced in by offset so that nothing else moves.
 */
module Siblings {
  import opened Common
  import opened Text
  import opened Interpolation
  import Templates

  // ---- objectName ----

  predicate DnsChar(c: char) {
    'a' <= c <= 'z' || '0' <= c <= '9' || c == '-'
  }

  ghost predicate AllDns(s: string) {
    forall i :: 0 <= i < |s| ==> DnsChar(s[i])
  }

  /** A DNS label for any text: at most 40 characters, letters, digits and inner dashes, never empty. */
  function ObjectName(s: string): (r: string)
    ensures AllDns(r) && 0 < |r| <= 40 && r[0] != '-' && Last(r) != '-'
  {
    var a := TrimChar(Squeezed(s, DnsChar, '-', false), '-');
    var b := if |a| > 40 then TrimChar(a[..40], '-') else a;
    if b == "" then "app" else b
  }

  lemma {:induction false} EitherIsAMark(x: string, c: char, d: char, y: string, inRun: bool)
    requires !DnsChar(LowerChar(c)) && !DnsChar(LowerChar(d))
    ensures Squeezed(x + [c] + y, DnsChar, '-', inRun) == Squeezed(x + [d] + y, DnsChar, '-', inRun)
  {
    if x == "" {
      assert x + [c] + y == [c] + y && x + [d] + y == [d] + y;
      assert ([c] + y)[1..] == y && ([d] + y)[1..] == y;
    } else {
      EitherIsAMark(x[1..], c, d, y, !DnsChar(LowerChar(x[0])));
      assert (x + [c] + y)[1..] == x[1..] + [c] + y && (x + [d] + y)[1..] == x[1..] + [d] + y;
    }
  }

  /** Not injective: names that differ only in characters a label cannot hold meet. */
  lemma ObjectNamesMeet(x: string, c: char, d: char, y: string)
    requires !DnsChar(LowerChar(c)) && !DnsChar(LowerChar(d))
    ensures ObjectName(x + [c] + y) == ObjectName(x + [d] + y)
  {
    EitherIsAMark(x, c, d, y, false);
  }

  // ---- Host matches ----

  datatype Span = Span(lo: nat, hi: nat)

  predicate HostChar(c: char) {
    'a' <= c <= 'z' || 'A' <= c <= 'Z' || '0' <= c <= '9' || c in {'.', '_', '-'}
  }

  ghost predicate AllHost(s: string) {
    forall i :: 0 <= i < |s| ==> HostChar(s[i])
  }

  /** What stands before a host in siblingHost: a slash, an at sign or an equals sign. */
  predicate Separator(c: char) {
    c in {'/', '@', '='}
  }

  /** A host group of one match: host characters, at the start or right after a separator. */
  ghost predicate HostSpan(v: string, s: Span) {
    && s.lo < s.hi <= |v| && AllHost(v[s.lo..s.hi])
    && (s.lo > 0 ==> Separator(v[s.lo - 1]))
  }

  /** Left to right and disjoint, as FindAll reports them. */
  ghost predicate HostSpans(v: string, spans: seq<Span>) {
    && (forall i :: 0 <= i < |spans| ==> HostSpan(v, spans[i]))
    && (forall i, j :: 0 <= i < j < |spans| ==> spans[i].hi <= spans[j].lo)
  }

  // ---- What rewriting means ----

  /** Spans in order inside the value. */
  ghost predicate Placed(v: string, spans: seq<Span>) {
    && (forall i :: 0 <= i < |spans| ==> spans[i].lo <= spans[i].hi <= |v|)
    && (forall i, j :: 0 <= i < j < |spans| ==> spans[i].hi <= spans[j].lo)
  }

  lemma PlacedInit(v: string, spans: seq<Span>)
    requires Placed(v, spans) && spans != []
    ensures Placed(v, Init(spans)) && Placed(v[..Last(spans).lo], Init(spans))
  {
    assert forall i :: 0 <= i < |Init(spans)| ==> Init(spans)[i] == spans[i];
  }

  datatype Template = Template(name: string, services: set<string>)

  /** One service of the template, asked from inside it. */
  datatype Site = Site(t: Template, self: string, primary: string)

  predicate Sibling(site: Site, host: string) {
    host != site.self && host in site.t.services
  }

  predicate Eligible(site: Site, host: string) {
    Sibling(site, host) && host != site.primary
  }

  function NameHere(site: Site, host: string): string {
    ObjectName(site.t.name + "-" + host)
  }

  function Replacement(site: Site, host: string): string {
    if Eligible(site, host) then NameHere(site, host) else host
  }

  /** The value with each span's text replaced in its place and every other character kept. */
  function Rewritten(site: Site, v: string, spans: seq<Span>): string
    requires Placed(v, spans)
    decreases |spans|
  {
    if spans == [] then v
    else
      var s := Last(spans);
      PlacedInit(v, spans);
      Rewritten(site, v[..s.lo], Init(spans)) + Replacement(site, v[s.lo..s.hi]) + v[s.hi..]
  }

  /** An address found, and where it was pointed; None is one left alone. */
  datatype Found = Found(host: string, to: Option<string>)

  function FoundIn(site: Site, v: string, spans: seq<Span>): seq<Found>
    requires Placed(v, spans)
    decreases |spans|
  {
    if spans == [] then []
    else
      var host := v[Last(spans).lo..Last(spans).hi];
      PlacedInit(v, spans);
      FoundIn(site, v, Init(spans))
      + if !Sibling(site, host) then []
        else [Found(host, if host == site.primary then None else Some(NameHere(site, host)))]
  }

  /** Rewriting does not reach past the last span. */
  lemma RewrittenKeepsTheTail(site: Site, v: string, spans: seq<Span>, at: nat)
    requires at <= |v| && Placed(v, spans) && (spans != [] ==> Last(spans).hi <= at)
    ensures Placed(v[..at], spans)
    ensures Rewritten(site, v, spans) == Rewritten(site, v[..at], spans) + v[at..]
  {
    if spans == [] {
      assert v == v[..at] + v[at..];
    } else {
      var s := Last(spans);
      assert v[..at][..s.lo] == v[..s.lo] && v[..at][s.lo..s.hi] == v[s.lo..s.hi];
      assert v[s.hi..] == v[..at][s.hi..] + v[at..];
    }
  }

  lemma PlacedPrefix(v: string, spans: seq<Span>, i: nat)
    requires Placed(v, spans) && i <= |spans|
    ensures Placed(v, spans[..i])
  {}

  /** A loop that has copied up to last has, up to any later point, what rewriting gives there. */
  lemma CopiedSoFar(site: Site, v: string, spans: seq<Span>, out: string, last: nat, at: nat)
    requires Placed(v, spans) && last <= at <= |v| && (spans != [] ==> Last(spans).hi <= at)
    requires out + v[last..] == Rewritten(site, v, spans)
    ensures Placed(v[..at], spans) && out + v[last..at] == Rewritten(site, v[..at], spans)
  {
    RewrittenKeepsTheTail(site, v, spans, at);
    assert v[last..] == v[last..at] + v[at..];
    assert (out + v[last..at]) + v[at..] == Rewritten(site, v[..at], spans) + v[at..];
    SameTail(out + v[last..at], Rewritten(site, v[..at], spans), v[at..]);
  }

  lemma SpliceStep(site: Site, v: string, spans: seq<Span>, i: nat, out: string, last: nat, s: Span)
    requires Placed(v, spans) && i < |spans| && s == spans[i] && last <= s.lo && Placed(v, spans[..i])
    requires out + v[last..] == Rewritten(site, v, spans[..i])
    ensures Placed(v, spans[..i + 1])
    ensures Rewritten(site, v, spans[..i + 1]) == out + v[last..s.lo] + Replacement(site, v[s.lo..s.hi]) + v[s.hi..]
  {
    PlacedPrefix(v, spans, i + 1);
    assert Init(spans[..i + 1]) == spans[..i] && Last(spans[..i + 1]) == s;
    assert i > 0 ==> Last(spans[..i]) == spans[i - 1] && spans[i - 1].hi <= s.lo;
    CopiedSoFar(site, v, spans[..i], out, last, s.lo);
  }

  lemma KeptInPlace(v: string, out: string, last: nat, s: Span)
    requires last <= s.lo <= s.hi <= |v|
    ensures out + v[last..s.lo] + v[s.lo..s.hi] + v[s.hi..] == out + v[last..]
  {
    assert v[last..] == v[last..s.lo] + v[s.lo..s.hi] + v[s.hi..];
  }

  /** The splice by offsets: one pass, copying only when there is something to replace. */
  method RewriteSiblings(site: Site, v: string, spans: seq<Span>) returns (out: string, found: seq<Found>)
    requires Placed(v, spans)
    ensures out == Rewritten(site, v, spans)
    ensures found == FoundIn(site, v, spans)
  {
    out, found := "", [];
    var last := 0;
    for i := 0 to |spans|
      invariant 0 <= last <= |v| && (forall k :: i <= k < |spans| ==> last <= spans[k].lo)
      invariant Placed(v, spans[..i])
      invariant out + v[last..] == Rewritten(site, v, spans[..i])
      invariant found == FoundIn(site, v, spans[..i])
    {
      var s := spans[i];
      var host := v[s.lo..s.hi];
      assert Init(spans[..i + 1]) == spans[..i] && Last(spans[..i + 1]) == s;
      SpliceStep(site, v, spans, i, out, last, s);
      KeptInPlace(v, out, last, s);
      if host == site.self || host !in site.t.services {
        continue;
      }
      if host == site.primary {
        found := found + [Found(host, None)];
        continue;
      }
      var to := ObjectName(site.t.name + "-" + host);
      out := out + v[last..s.lo] + to;
      last := s.hi;
      found := found + [Found(host, Some(to))];
    }
    assert spans[..|spans|] == spans;
    out := out + v[last..];
  }

  lemma SameTail(a: string, b: string, t: string)
    requires a + t == b + t
    ensures a == b
  {
    assert |a| == |b|;
    assert a == (a + t)[..|a|] && b == (b + t)[..|b|];
  }

  ghost predicate NoneEligible(site: Site, v: string, spans: seq<Span>)
    requires Placed(v, spans)
  {
    forall i :: 0 <= i < |spans| ==> !Eligible(site, v[spans[i].lo..spans[i].hi])
  }

  lemma NoneEligibleInit(site: Site, v: string, spans: seq<Span>)
    requires Placed(v, spans) && spans != [] && NoneEligible(site, v, spans)
    ensures Placed(v[..Last(spans).lo], Init(spans)) && NoneEligible(site, v[..Last(spans).lo], Init(spans))
    ensures !Eligible(site, v[Last(spans).lo..Last(spans).hi])
  {
    var s, init := Last(spans), Init(spans);
    PlacedInit(v, spans);
    forall i | 0 <= i < |init| ensures !Eligible(site, v[..s.lo][init[i].lo..init[i].hi]) {
      assert init[i] == spans[i] && spans[|spans| - 1] == s && spans[i].hi <= s.lo;
      assert v[..s.lo][init[i].lo..init[i].hi] == v[spans[i].lo..spans[i].hi];
    }
  }

  lemma RewrittenLast(site: Site, v: string, spans: seq<Span>)
    requires Placed(v, spans) && spans != []
    ensures Placed(v[..Last(spans).lo], Init(spans))
    ensures Rewritten(site, v, spans)
         == Rewritten(site, v[..Last(spans).lo], Init(spans)) + Replacement(site, v[Last(spans).lo..Last(spans).hi]) + v[Last(spans).hi..]
  {
    PlacedInit(v, spans);
  }

  lemma Reassembled(v: string, s: Span)
    requires s.lo <= s.hi <= |v|
    ensures v[..s.lo] + v[s.lo..s.hi] + v[s.hi..] == v
  {}

  /** Self, primary and foreign hosts are untouched: with no eligible host, the value is as it was. */
  lemma {:induction false} NothingEligibleNothingChanged(site: Site, v: string, spans: seq<Span>)
    requires Placed(v, spans) && NoneEligible(site, v, spans)
    ensures Rewritten(site, v, spans) == v
    decreases |spans|
  {
    if spans != [] {
      NoneEligibleInit(site, v, spans);
      NothingEligibleNothingChanged(site, v[..Last(spans).lo], Init(spans));
      RewrittenLast(site, v, spans);
      Reassembled(v, Last(spans));
    }
  }

  // ---- The interpolations survive ----

  /** The names a value's interpolations mention, in order. */
  function Names(ts: seq<Token>): seq<string> {
    if ts == [] then [] else (if ts[0].Var? then [ts[0].name] else []) + Names(ts[1..])
  }

  lemma {:induction false} NamesOfLits(s: string, ts: seq<Token>)
    ensures Names(Lits(s) + ts) == Names(ts)
  {
    if s == "" {
      assert Lits(s) + ts == ts;
    } else {
      assert (Lits(s) + ts)[1..] == Lits(s[1..]) + ts;
      NamesOfLits(s[1..], ts);
    }
  }

  lemma {:induction false} IndexOfConcat(p: string, q: string, c: char)
    ensures IndexOf(p + q, c) == if IndexOf(p, c) < |p| then IndexOf(p, c) else |p| + IndexOf(q, c)
  {
    if p == "" {
      assert p + q == q;
    } else {
      assert (p + q)[1..] == p[1..] + q;
      IndexOfConcat(p[1..], q, c);
    }
  }

  /** A host holds no brace, so the first brace after it is the first in what follows it. */
  lemma FirstBrace(x: string, a: string, y: string)
    requires AllHost(a)
    ensures IndexOf(x + a + y, '}')
         == if IndexOf(x, '}') < |x| then IndexOf(x, '}') else |x| + |a| + IndexOf(y, '}')
  {
    IndexOfConcat(x, a + y, '}');
    IndexOfConcat(a, y, '}');
    assert x + a + y == x + (a + y);
  }

  lemma {:induction false} NameRunStops(x: string, t: string)
    requires x != "" && Separator(Last(x))
    ensures NameRun(x + t) == NameRun(x) < |x|
  {
    if NameChar(x[0]) {
      assert (x + t)[1..] == x[1..] + t;
      NameRunStops(x[1..], t);
    }
  }

  /** The same name at the start, and either the same end inside x or the same remainder of y. */
  ghost predicate Matched(x: string, a: string, b: string, y: string, m: Match, m': Match) {
    && m.name == m'.name
    && (|| (m.length == m'.length < |x|)
        || (m.length >= |x| + |a| && m.length - |a| == m'.length - |b| && m.length - |x| - |a| <= |y|))
  }

  /** Where a match's remainder ends when a host interrupts it. */
  lemma RestShape(name: string, xr: string, a: string, y: string)
    requires AllHost(a) && xr != "" && Separator(Last(xr))
    ensures xr[0] == '}' ==> |xr| > 1 && MatchRest(name, xr + a + y) == Some(Match(name, "", |name| + 3))
    ensures xr[0] != '}' ==>
              var k := Introducer(xr);
              var d, e := IndexOf(xr[k..], '}'), IndexOf(y, '}');
              && k < |xr| && d != |xr| - k - 1
              && (k == 0 ==> MatchRest(name, xr + a + y).None?)
              && (k > 0 && d < |xr| - k ==>
                    && MatchRest(name, xr + a + y).Some?
                    && MatchRest(name, xr + a + y).value.length == |name| + k + d + 3)
              && (k > 0 && d == |xr| - k ==>
                    && (MatchRest(name, xr + a + y).Some? <==> e < |y|)
                    && (e < |y| ==> MatchRest(name, xr + a + y).value.length == |name| + |xr| + |a| + e + 3))
  {
    var r := xr + a + y;
    assert r[0] == xr[0];
    if xr[0] != '}' {
      IntroducerPastTheHost(xr, a, y);
      var k := Introducer(xr);
      BracePastTheHost(xr, a, y, k);
      MatchRestDefault(name, r, k, IndexOf(r[k..], '}'));
    }
  }

  lemma BracePastTheHost(xr: string, a: string, y: string, k: nat)
    requires AllHost(a) && k < |xr| && Separator(Last(xr))
    ensures var d := IndexOf(xr[k..], '}');
            && d != |xr| - k - 1
            && IndexOf((xr + a + y)[k..], '}') == if d < |xr| - k then d else |xr| - k + |a| + IndexOf(y, '}')
  {
    assert (xr + a + y)[k..] == xr[k..] + a + y && Last(xr[k..]) == Last(xr);
    FirstBrace(xr[k..], a, y);
  }

  lemma RestPastTheHost(name: string, xr: string, a: string, b: string, y: string)
    requires AllHost(a) && AllHost(b) && xr != "" && Separator(Last(xr))
    ensures MatchRest(name, xr + a + y).Some? <==> MatchRest(name, xr + b + y).Some?
    ensures MatchRest(name, xr + a + y).Some? ==>
              var m, m' := MatchRest(name, xr + a + y).value, MatchRest(name, xr + b + y).value;
              || (m.length == m'.length < |name| + 2 + |xr|)
              || (m.length - |a| == m'.length - |b| && 0 <= m.length - |name| - 2 - |xr| - |a| <= |y|)
  {
    RestShape(name, xr, a, y);
    RestShape(name, xr, b, y);
  }

  lemma MatchPastTheHost(x: string, a: string, b: string, y: string)
    requires AllHost(a) && AllHost(b) && x != "" && x[0] == '$' && Separator(Last(x))
    ensures MatchAt(x + a + y).Some? <==> MatchAt(x + b + y).Some?
    ensures MatchAt(x + a + y).Some? ==> Matched(x, a, b, y, MatchAt(x + a + y).value, MatchAt(x + b + y).value)
  {
    if Opens(x) {
      var n := NameRun(x[2..]);
      HeadMatched(x, a, y, n);
      HeadMatched(x, b, y, n);
      RestPastTheHost(x[2..2 + n], x[2 + n..], a, b, y);
    } else {
      HeadUnmatched(x, a, y);
      HeadUnmatched(x, b, y);
    }
  }

  predicate Opens(x: string) {
    |x| >= 3 && x[0] == '$' && x[1] == '{' && NameStart(x[2])
  }

  lemma OpensBeforeTheHost(x: string, t: string)
    requires x != "" && x[0] == '$' && Separator(Last(x))
    ensures Opens(x + t) <==> Opens(x)
  {
    assert forall i :: 0 <= i < |x| ==> (x + t)[i] == x[i];
  }

  lemma NoOpeningNoMatch(s: string)
    requires !Opens(s)
    ensures MatchAt(s).None?
  {}

  lemma HeadUnmatched(x: string, a: string, y: string)
    requires x != "" && x[0] == '$' && Separator(Last(x)) && !Opens(x)
    ensures MatchAt(x + a + y).None?
  {
    assert x + a + y == x + (a + y);
    OpensBeforeTheHost(x, a + y);
    NoOpeningNoMatch(x + a + y);
  }

  /** The name of an interpolation that starts before a host ends before it. */
  lemma HeadMatched(x: string, a: string, y: string, n: nat)
    requires Opens(x) && Separator(Last(x)) && n == NameRun(x[2..])
    ensures 2 + n < |x| && Last(x[2 + n..]) == Last(x)
    ensures MatchAt(x + a + y) == MatchRest(x[2..2 + n], x[2 + n..] + a + y)
  {
    assert x + a + y == x + (a + y);
    OpensBeforeTheHost(x, a + y);
    NameBeforeTheHost(x, a, y);
    MatchAtHead(x + a + y, n);
  }

  lemma NameBeforeTheHost(x: string, a: string, y: string)
    requires Opens(x) && Separator(Last(x))
    ensures var s, n := x + a + y, NameRun(x[2..]);
            2 + n < |x| && NameRun(s[2..]) == n && s[2..2 + n] == x[2..2 + n] && s[2 + n..] == x[2 + n..] + a + y
  {
    var s := x + a + y;
    assert s[2..] == x[2..] + (a + y);
    NameRunStops(x[2..], a + y);
  }

  lemma IntroducerPastTheHost(xr: string, a: string, y: string)
    requires xr != "" && Separator(Last(xr))
    ensures Introducer(xr + a + y) == Introducer(xr)
    ensures Introducer(xr) < |xr|
  {
    var s := xr + a + y;
    assert s[0] == xr[0];
    if |xr| >= 2 {
      assert s[..2] == xr[..2];
    }
    assert s[..1] == xr[..1];
  }

  lemma SwapHostAtStart(a: string, b: string, y: string)
    requires AllHost(a) && AllHost(b)
    ensures Names(Scan(a + y)) == Names(Scan(b + y))
  {
    ScanPlain(a, y);
    ScanPlain(b, y);
    NamesOfLits(a, Scan(y));
    NamesOfLits(b, Scan(y));
  }

  lemma SwapUnmatched(x: string, a: string, b: string, y: string)
    requires x != "" && MatchAt(x + a + y).None? && MatchAt(x + b + y).None?
    requires Names(Scan(x[1..] + a + y)) == Names(Scan(x[1..] + b + y))
    ensures Names(Scan(x + a + y)) == Names(Scan(x + b + y))
  {
    TailPast(x, a, y, 1);
    TailPast(x, b, y, 1);
    ScanUnmatched(x + a + y);
    ScanUnmatched(x + b + y);
  }

  /** What is left after the two matches: the same tail of x before either host, or the very same text. */
  lemma Remainders(x: string, a: string, b: string, y: string, m: Match, m': Match)
    requires Matched(x, a, b, y, m, m')
    ensures m.length <= |x + a + y| && m'.length <= |x + b + y|
    ensures m.length < |x| ==> (x + a + y)[m.length..] == x[m.length..] + a + y && (x + b + y)[m'.length..] == x[m.length..] + b + y
    ensures m.length >= |x| ==> (x + a + y)[m.length..] == (x + b + y)[m'.length..]
  {
    if m.length < |x| {
      TailPast(x, a, y, m.length);
      TailPast(x, b, y, m.length);
    } else {
      var k := m.length - |x| - |a|;
      assert m.length == |x| + |a| + k && m'.length == |x| + |b| + k;
      SameRemainder(x, a, b, y, k);
    }
  }

  /** Past the first character, or past the first match, the swap leaves the names as they were. */
  ghost predicate SwapsLater(x: string, a: string, b: string, y: string) {
    forall k :: 0 < k <= |x| ==> SwapsPast(x[k..], a, b, y)
  }

  predicate SwapsPast(x: string, a: string, b: string, y: string) {
    Names(Scan(x + a + y)) == Names(Scan(x + b + y))
  }

  lemma SwapStep(x: string, a: string, b: string, y: string)
    requires AllHost(a) && AllHost(b) && x != "" && Separator(Last(x)) && SwapsLater(x, a, b, y)
    ensures SwapsPast(x, a, b, y)
  {
    if x[0] == '$' {
      MatchPastTheHost(x, a, b, y);
    }
    var m, m' := MatchAt(x + a + y), MatchAt(x + b + y);
    if m.None? {
      assert SwapsPast(x[1..], a, b, y);
      SwapUnmatched(x, a, b, y);
    } else {
      assert m.value.length < |x| ==> SwapsPast(x[m.value.length..], a, b, y);
      SwapMatched(x, a, b, y, m.value, m'.value);
    }
  }

  /** Swapping one host for another leaves the interpolations' names as they were. */
  lemma {:induction false} SwapHost(x: string, a: string, b: string, y: string)
    requires AllHost(a) && AllHost(b) && (x != "" ==> Separator(Last(x)))
    ensures SwapsPast(x, a, b, y)
    decreases |x|
  {
    if x == "" {
      assert x + a + y == a + y && x + b + y == b + y;
      SwapHostAtStart(a, b, y);
    } else {
      forall k | 0 < k <= |x| ensures SwapsPast(x[k..], a, b, y) {
        SwapHost(x[k..], a, b, y);
      }
      SwapStep(x, a, b, y);
    }
  }

  lemma SwapMatched(x: string, a: string, b: string, y: string, m: Match, m': Match)
    requires x != "" && MatchAt(x + a + y) == Some(m) && MatchAt(x + b + y) == Some(m') && Matched(x, a, b, y, m, m')
    requires m.length < |x| ==> Names(Scan(x[m.length..] + a + y)) == Names(Scan(x[m.length..] + b + y))
    ensures Names(Scan(x + a + y)) == Names(Scan(x + b + y))
  {
    Remainders(x, a, b, y, m, m');
    BothMatched(x + a + y, x + b + y, m, m');
  }

  lemma TailPast(x: string, a: string, y: string, k: nat)
    requires k <= |x|
    ensures (x + a + y)[k..] == x[k..] + a + y
  {}

  lemma BothMatched(s: string, s': string, m: Match, m': Match)
    requires s != "" && s' != "" && MatchAt(s) == Some(m) && MatchAt(s') == Some(m') && m.name == m'.name
    requires Names(Scan(s[m.length..])) == Names(Scan(s'[m'.length..]))
    ensures Names(Scan(s)) == Names(Scan(s'))
  {
    ScanMatched(s);
    ScanMatched(s');
  }

  lemma SameRemainder(x: string, a: string, b: string, y: string, k: nat)
    requires k <= |y|
    ensures (x + a + y)[|x| + |a| + k..] == (x + b + y)[|x| + |b| + k..] == y[k..]
  {}

  lemma ScanMatched(s: string)
    requires s != "" && MatchAt(s).Some?
    ensures Names(Scan(s)) == [MatchAt(s).value.name] + Names(Scan(s[MatchAt(s).value.length..]))
  {
    var m := MatchAt(s).value;
    var ts := [Var(m.name, m.fallback)] + Scan(s[m.length..]);
    assert Scan(s) == ts && ts[1..] == Scan(s[m.length..]);
  }

  lemma ScanUnmatched(s: string)
    requires s != "" && MatchAt(s).None?
    ensures Names(Scan(s)) == Names(Scan(s[1..]))
  {
    var ts := [Lit(s[0])] + Scan(s[1..]);
    assert Scan(s) == ts && ts[1..] == Scan(s[1..]);
  }

  lemma SpanStopsBefore(v: string, s: Span, at: nat)
    requires HostSpan(v, s) && s.hi <= at <= |v| && at > 0 && Separator(v[at - 1])
    ensures s.hi < at
  {
    assert v[s.lo..s.hi][s.hi - 1 - s.lo] == v[s.hi - 1];
  }

  lemma EndsWithTheSeparator(site: Site, v: string, spans: seq<Span>, at: nat)
    requires 0 < at <= |v| && Separator(v[at - 1])
    requires Placed(v[..at], spans) && (spans != [] ==> HostSpan(v, Last(spans)) && Last(spans).hi <= at)
    ensures var r := Rewritten(site, v[..at], spans); r != "" && Last(r) == v[at - 1]
  {
    if spans != [] {
      SpanStopsBefore(v, Last(spans), at);
    }
    RewrittenEndsAlike(site, v[..at], spans);
  }

  lemma RewrittenEndsAlike(site: Site, w: string, spans: seq<Span>)
    requires w != "" && Placed(w, spans) && (spans != [] ==> Last(spans).hi < |w|)
    ensures var r := Rewritten(site, w, spans); r != "" && Last(r) == Last(w)
  {
    RewrittenKeepsTheTail(site, w, spans, |w| - 1);
    LastOfTail(Rewritten(site, w[..|w| - 1], spans), w, Rewritten(site, w, spans));
  }

  lemma LastOfTail(p: string, w: string, r: string)
    requires w != "" && r == p + w[|w| - 1..]
    ensures r != "" && Last(r) == Last(w)
  {}

  /** Whatever is repointed, the value goes on naming the same variables in the same order. */
  lemma {:induction false} RewritingKeepsNames(site: Site, v: string, spans: seq<Span>)
    requires HostSpans(v, spans)
    ensures Names(Scan(Rewritten(site, v, spans))) == Names(Scan(v))
    decreases |spans|
  {
    if spans != [] {
      HostSpansInit(v, spans);
      RewritingKeepsNames(site, v, Init(spans));
      LastSpanKeepsNames(site, v, spans);
    }
  }

  lemma HostSpansInit(v: string, spans: seq<Span>)
    requires HostSpans(v, spans) && spans != []
    ensures HostSpans(v, Init(spans)) && HostSpan(v, Last(spans)) && Placed(v, spans)
    ensures Init(spans) != [] ==> 0 < Last(Init(spans)).hi <= Last(spans).lo
  {
    forall i | 0 <= i < |spans| ensures spans[i].lo < spans[i].hi <= |v| {
      assert HostSpan(v, spans[i]);
    }
    assert forall i :: 0 <= i < |Init(spans)| ==> Init(spans)[i] == spans[i];
  }

  /** The last span in its surroundings, rewritten and not. */
  lemma LastSpanShape(site: Site, v: string, spans: seq<Span>, x: string, host: string, y: string)
    requires spans != [] && Placed(v, spans) && Placed(v, Init(spans)) && Placed(v[..Last(spans).lo], Init(spans))
    requires x == Rewritten(site, v[..Last(spans).lo], Init(spans))
    requires host == v[Last(spans).lo..Last(spans).hi] && y == v[Last(spans).hi..]
    ensures Rewritten(site, v, spans) == x + Replacement(site, host) + y
    ensures Rewritten(site, v, Init(spans)) == x + host + y
  {
    RewrittenLast(site, v, spans);
    WithoutTheLast(site, v, spans);
    Regrouped(x, v, Last(spans));
  }

  lemma WithoutTheLast(site: Site, v: string, spans: seq<Span>)
    requires spans != [] && Placed(v, spans) && Placed(v, Init(spans)) && Placed(v[..Last(spans).lo], Init(spans))
    ensures Rewritten(site, v, Init(spans)) == Rewritten(site, v[..Last(spans).lo], Init(spans)) + v[Last(spans).lo..]
  {
    assert Init(spans) != [] ==> spans[|spans| - 2].hi <= spans[|spans| - 1].lo;
    RewrittenKeepsTheTail(site, v, Init(spans), Last(spans).lo);
  }

  lemma Regrouped(x: string, v: string, s: Span)
    requires s.lo <= s.hi <= |v|
    ensures x + v[s.lo..] == x + v[s.lo..s.hi] + v[s.hi..]
  {
    assert v[s.lo..] == v[s.lo..s.hi] + v[s.hi..];
  }

  lemma LastSpanKeepsNames(site: Site, v: string, spans: seq<Span>)
    requires HostSpans(v, spans) && spans != [] && Placed(v, spans) && Placed(v, Init(spans))
    ensures Names(Scan(Rewritten(site, v, spans))) == Names(Scan(Rewritten(site, v, Init(spans))))
  {
    var s, init := Last(spans), Init(spans);
    HostSpansInit(v, spans);
    PlacedInit(v, spans);
    var x, host, y := Rewritten(site, v[..s.lo], init), v[s.lo..s.hi], v[s.hi..];
    LastSpanShape(site, v, spans, x, host, y);
    HostAfterSeparator(site, v, spans, x);
    DnsIsHost(NameHere(site, host));
    SwapHost(x, host, Replacement(site, host), y);
  }

  lemma HostAfterSeparator(site: Site, v: string, spans: seq<Span>, x: string)
    requires HostSpans(v, spans) && spans != [] && Placed(v[..Last(spans).lo], Init(spans))
    requires x == Rewritten(site, v[..Last(spans).lo], Init(spans))
    ensures x != "" ==> Separator(Last(x))
  {
    HostSpansInit(v, spans);
    if Last(spans).lo > 0 {
      EndsWithTheSeparator(site, v, Init(spans), Last(spans).lo);
    }
  }

  lemma DnsIsHost(s: string)
    requires AllDns(s)
    ensures AllHost(s)
  {}

  /** The generated ones among some names. */
  function MagicOf(ns: seq<string>): seq<string> {
    if ns == [] then [] else (if Magic(ns[0]) then [ns[0]] else []) + MagicOf(ns[1..])
  }

  lemma {:induction false} GeneratedAreNames(ts: seq<Token>)
    ensures Templates.Generated(ts) == MagicOf(Names(ts))
  {
    if ts != [] {
      GeneratedAreNames(ts[1..]);
      var ns := Names(ts[1..]);
      assert Names(ts) == (if ts[0].Var? then [ts[0].name] else []) + ns;
      assert ts[0].Var? ==> Names(ts)[1..] == ns;
      assert !ts[0].Var? ==> Names(ts) == ns;
    }
  }

  lemma RewritingKeepsGenerated(site: Site, v: string, spans: seq<Span>)
    requires HostSpans(v, spans)
    ensures Templates.Generated(Scan(Rewritten(site, v, spans))) == Templates.Generated(Scan(v))
  {
    RewritingKeepsNames(site, v, spans);
    GeneratedAreNames(Scan(v));
    GeneratedAreNames(Scan(Rewritten(site, v, spans)));
  }

  /** In particular the same generated sources: a template stays one its plan can mint into. */
  lemma RewritingKeepsSources(site: Site, v: string, spans: seq<Span>)
    requires HostSpans(v, spans)
    ensures SourceNames(Scan(Rewritten(site, v, spans))) == SourceNames(Scan(v))
  {
    RewritingKeepsGenerated(site, v, spans);
    Templates.SourcesAreDistinct(Scan(v));
    Templates.SourcesAreDistinct(Scan(Rewritten(site, v, spans)));
  }

  // ---- Every value of a service ----

  /** What is said about an address: the field it was first seen in, and where it points now, if anywhere new. */
  datatype Note = Note(field: string, host: string, to: Option<string>)

  function HostsOf(found: seq<Found>): set<string> {
    set i | 0 <= i < |found| :: found[i].host
  }

  /** A matcher whose matches are in order inside the value, whatever the value. */
  ghost predicate Finds(find: string -> seq<Span>) {
    forall v :: Placed(v, find(v))
  }

  /** A matcher whose matches are hosts, whatever the value. */
  ghost predicate FindsHosts(find: string -> seq<Span>) {
    forall v :: HostSpans(v, find(v)) && Placed(v, find(v))
  }

  ghost function Repointed(site: Site, v: string, find: string -> seq<Span>): string
    requires Finds(find)
  {
    Rewritten(site, v, find(v))
  }

  ghost function HostsIn(site: Site, values: seq<string>, find: string -> seq<Span>): set<string>
    requires Finds(find)
  {
    if values == [] then {}
    else HostsIn(site, Init(values), find) + HostsOf(FoundIn(site, Last(values), find(Last(values))))
  }

  predicate PointsRight(site: Site, host: string, to: Option<string>) {
    to == if host == site.primary then None else Some(NameHere(site, host))
  }

  ghost predicate NotedOnce(site: Site, notes: seq<Note>, hosts: set<string>) {
    && (forall i, j :: 0 <= i < j < |notes| ==> notes[i].host != notes[j].host)
    && (forall i :: 0 <= i < |notes| ==> notes[i].host in hosts)
    && (forall h :: h in hosts ==> exists i :: 0 <= i < |notes| && notes[i].host == h)
    && (forall i :: 0 <= i < |notes| ==> PointsRight(site, notes[i].host, notes[i].to))
  }

  lemma {:induction false} FoundPointsRight(site: Site, v: string, spans: seq<Span>, fs: seq<Found>)
    requires Placed(v, spans) && fs == FoundIn(site, v, spans)
    ensures forall i :: 0 <= i < |fs| ==> PointsRight(site, fs[i].host, fs[i].to)
    decreases |spans|
  {
    if spans != [] {
      PlacedInit(v, spans);
      var fs0, host := FoundIn(site, v, Init(spans)), v[Last(spans).lo..Last(spans).hi];
      FoundPointsRight(site, v, Init(spans), fs0);
      FoundLast(site, v, spans);
      assert forall i :: 0 <= i < |fs0| ==> fs[i] == fs0[i];
    }
  }

  lemma FoundLast(site: Site, v: string, spans: seq<Span>)
    requires Placed(v, spans) && spans != []
    ensures Placed(v, Init(spans)) && Last(spans).lo <= Last(spans).hi <= |v|
    ensures var host := v[Last(spans).lo..Last(spans).hi];
            FoundIn(site, v, spans) == FoundIn(site, v, Init(spans))
            + if !Sibling(site, host) then [] else [Found(host, if host == site.primary then None else Some(NameHere(site, host)))]
  {
    PlacedInit(v, spans);
  }

  lemma NoteOneMore(site: Site, notes: seq<Note>, hosts: set<string>, n: Note)
    requires NotedOnce(site, notes, hosts) && n.host !in hosts
    requires PointsRight(site, n.host, n.to)
    ensures NotedOnce(site, notes + [n], hosts + {n.host})
  {
    var notes' := notes + [n];
    forall h | h in hosts + {n.host} ensures exists i :: 0 <= i < |notes'| && notes'[i].host == h {
      if h in hosts {
        var i :| 0 <= i < |notes| && notes[i].host == h;
        assert notes'[i].host == h;
      } else {
        assert notes'[|notes|].host == h;
      }
    }
  }

  /** The notes after one more address: a host is spoken of where it is first seen. */
  function Noted(notes: seq<Note>, field: string, f: Found): seq<Note> {
    if exists k :: 0 <= k < |notes| && notes[k].host == f.host then notes else notes + [Note(field, f.host, f.to)]
  }

  function NotedAll(notes: seq<Note>, field: string, found: seq<Found>): seq<Note> {
    if found == [] then notes else Noted(NotedAll(notes, field, Init(found)), field, Last(found))
  }

  /** What is said of the addresses in a service's values, field by field. */
  ghost function NotesOf(site: Site, fields: seq<string>, values: seq<string>, find: string -> seq<Span>): seq<Note>
    requires |fields| == |values| && Finds(find)
  {
    if values == [] then []
    else NotedAll(NotesOf(site, Init(fields), Init(values), find), Last(fields), FoundIn(site, Last(values), find(Last(values))))
  }

  ghost predicate Addresses(site: Site, v: string, find: string -> seq<Span>, host: string)
    requires Finds(find)
  {
    host in HostsOf(FoundIn(site, v, find(v)))
  }

  /** A note names the first field whose value addresses its host. */
  ghost predicate FirstMention(site: Site, fields: seq<string>, values: seq<string>, find: string -> seq<Span>, n: Note)
    requires |fields| == |values| && Finds(find)
  {
    exists i :: && 0 <= i < |values| && n.field == fields[i] && Addresses(site, values[i], find, n.host)
                && forall j :: 0 <= j < i ==> !Addresses(site, values[j], find, n.host)
  }

  lemma HostsSnoc(found: seq<Found>)
    requires found != []
    ensures HostsOf(found) == HostsOf(Init(found)) + {Last(found).host}
  {
    assert forall k :: 0 <= k < |found| - 1 ==> found[k] == Init(found)[k];
  }

  lemma {:induction false} NotedAllOnce(site: Site, notes: seq<Note>, hosts: set<string>, field: string, found: seq<Found>)
    requires NotedOnce(site, notes, hosts)
    requires forall i :: 0 <= i < |found| ==> PointsRight(site, found[i].host, found[i].to)
    ensures NotedOnce(site, NotedAll(notes, field, found), hosts + HostsOf(found))
    ensures forall n :: n in NotedAll(notes, field, found) ==>
              n in notes || (n.field == field && n.host in HostsOf(found) && n.host !in hosts)
  {
    if found == [] {
      assert hosts + HostsOf(found) == hosts;
    } else {
      var before, seen := NotedAll(notes, field, Init(found)), hosts + HostsOf(Init(found));
      assert forall i :: 0 <= i < |found| - 1 ==> Init(found)[i] == found[i];
      NotedAllOnce(site, notes, hosts, field, Init(found));
      HostsSnoc(found);
      assert hosts + HostsOf(found) == seen + {Last(found).host};
      if Last(found).host in seen {
        assert seen + {Last(found).host} == seen;
      } else {
        NoteOneMore(site, before, seen, Note(field, Last(found).host, Last(found).to));
      }
    }
  }

  lemma HostsInSnoc(site: Site, values: seq<string>, find: string -> seq<Span>, host: string)
    requires Finds(find) && values != []
    ensures host in HostsIn(site, values, find) <==> host in HostsIn(site, Init(values), find) || Addresses(site, Last(values), find, host)
  {}

  lemma {:induction false} AddressedIn(site: Site, values: seq<string>, find: string -> seq<Span>, host: string)
    requires Finds(find)
    ensures host in HostsIn(site, values, find) <==> exists i :: 0 <= i < |values| && Addresses(site, values[i], find, host)
  {
    if values != [] {
      HostsInSnoc(site, values, find, host);
      AddressedIn(site, Init(values), find, host);
      assert forall i :: 0 <= i < |values| - 1 ==> Init(values)[i] == values[i];
      assert Last(values) == values[|values| - 1];
    }
  }

  lemma FirstMentionStays(site: Site, fields: seq<string>, values: seq<string>, find: string -> seq<Span>, n: Note)
    requires |fields| == |values| > 0 && Finds(find)
    requires FirstMention(site, Init(fields), Init(values), find, n)
    ensures FirstMention(site, fields, values, find, n)
  {
    var i :| && 0 <= i < |values| - 1 && n.field == Init(fields)[i] && Addresses(site, Init(values)[i], find, n.host)
             && forall j :: 0 <= j < i ==> !Addresses(site, Init(values)[j], find, n.host);
    assert n.field == fields[i] && Addresses(site, values[i], find, n.host);
    forall j | 0 <= j < i ensures !Addresses(site, values[j], find, n.host) {
      assert Init(values)[j] == values[j];
    }
  }

  /**
   Each sibling host the values address is noted exactly once, under the first
   field that addresses it, with where it points now or with the fact that it was
   left as compose wrote it; and nothing else is noted.
   */
  lemma {:induction false} NotedAtFirstMention(site: Site, fields: seq<string>, values: seq<string>, find: string -> seq<Span>)
    requires |fields| == |values| && Finds(find)
    ensures NotedOnce(site, NotesOf(site, fields, values, find), HostsIn(site, values, find))
    ensures forall n :: n in NotesOf(site, fields, values, find) ==> FirstMention(site, fields, values, find, n)
  {
    if values != [] {
      var v, fields0, values0 := Last(values), Init(fields), Init(values);
      var found, notes0 := FoundIn(site, v, find(v)), NotesOf(site, fields0, values0, find);
      NotedAtFirstMention(site, fields0, values0, find);
      FoundPointsRight(site, v, find(v), found);
      NotedAllOnce(site, notes0, HostsIn(site, values0, find), Last(fields), found);
      forall n | n in NotesOf(site, fields, values, find) ensures FirstMention(site, fields, values, find, n) {
        if n in notes0 {
          FirstMentionStays(site, fields, values, find, n);
        } else {
          FreshMention(site, fields, values, find, n);
        }
      }
    }
  }

  lemma FreshMention(site: Site, fields: seq<string>, values: seq<string>, find: string -> seq<Span>, n: Note)
    requires |fields| == |values| > 0 && Finds(find)
    requires n.field == Last(fields) && Addresses(site, Last(values), find, n.host) && n.host !in HostsIn(site, Init(values), find)
    ensures FirstMention(site, fields, values, find, n)
  {
    AddressedIn(site, Init(values), find, n.host);
    var k := |values| - 1;
    assert n.field == fields[k] && Addresses(site, values[k], find, n.host);
    forall j | 0 <= j < k ensures !Addresses(site, values[j], find, n.host) {
      assert Init(values)[j] == values[j];
    }
  }

  /** Notes the hosts of one value that have not been noted yet. */
  method NoteFound(field: string, found: seq<Found>, notes0: seq<Note>) returns (notes: seq<Note>)
    ensures notes == NotedAll(notes0, field, found)
  {
    notes := notes0;
    for i := 0 to |found|
      invariant notes == NotedAll(notes0, field, found[..i])
    {
      assert Init(found[..i + 1]) == found[..i] && Last(found[..i + 1]) == found[i];
      if !exists k :: 0 <= k < |notes| && notes[k].host == found[i].host {
        notes := notes + [Note(field, found[i].host, found[i].to)];
      }
    }
    assert found[..|found|] == found;
  }

  lemma NotesOneMore(site: Site, fields: seq<string>, values: seq<string>, i: nat, find: string -> seq<Span>)
    requires |fields| == |values| && i < |values| && Finds(find)
    ensures NotesOf(site, fields[..i + 1], values[..i + 1], find)
         == NotedAll(NotesOf(site, fields[..i], values[..i], find), fields[i], FoundIn(site, values[i], find(values[i])))
  {
    assert Init(values[..i + 1]) == values[..i] && Last(values[..i + 1]) == values[i];
    assert Init(fields[..i + 1]) == fields[..i] && Last(fields[..i + 1]) == fields[i];
  }

  method RepointOne(site: Site, field: string, v: string, find: string -> seq<Span>, notes0: seq<Note>)
    returns (rewritten: string, notes: seq<Note>)
    requires Finds(find)
    ensures rewritten == Repointed(site, v, find)
    ensures notes == NotedAll(notes0, field, FoundIn(site, v, find(v)))
  {
    assert Placed(v, find(v));
    var found;
    rewritten, found := RewriteSiblings(site, v, find(v));
    notes := NoteFound(field, found, notes0);
  }

  /** The first n values repointed, the others as they were. */
  ghost function RepointedTo(site: Site, values: seq<string>, n: nat, find: string -> seq<Span>): (r: seq<string>)
    requires Finds(find)
    ensures |r| == |values|
  {
    seq(|values|, i requires 0 <= i < |values| => if i < n then Repointed(site, values[i], find) else values[i])
  }

  lemma RepointedOneMore(site: Site, values: seq<string>, n: nat, find: string -> seq<Span>)
    requires Finds(find) && n < |values|
    ensures RepointedTo(site, values, n, find)[n] == values[n]
    ensures RepointedTo(site, values, n + 1, find) == RepointedTo(site, values, n, find)[n := Repointed(site, values[n], find)]
  {}

  /** Repoints every value in place, and says of each sibling host addressed what became of it. */
  method RepointSiblings(site: Site, fields: seq<string>, values: array<string>, find: string -> seq<Span>)
    returns (notes: seq<Note>)
    requires |fields| == values.Length && Finds(find)
    modifies values
    ensures forall i :: 0 <= i < values.Length ==> values[i] == Repointed(site, old(values[i]), find)
    ensures notes == NotesOf(site, fields, old(values[..]), find)
  {
    notes := [];
    ghost var was := values[..];
    for i := 0 to values.Length
      invariant values[..] == RepointedTo(site, was, i, find)
      invariant notes == NotesOf(site, fields[..i], was[..i], find)
    {
      NotesOneMore(site, fields, was, i, find);
      RepointedOneMore(site, was, i, find);
      assert values[..][i] == was[i];
      var rewritten;
      rewritten, notes := RepointOne(site, fields[i], values[i], find, notes);
      values[i] := rewritten;
    }
    assert was[..values.Length] == was && fields[..values.Length] == fields;
    forall i | 0 <= i < values.Length ensures values[i] == Repointed(site, was[i], find) {
      assert values[..][i] == RepointedTo(site, was, values.Length, find)[i];
    }
  }
}
