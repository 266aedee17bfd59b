/**
 The sources any template is read to name, whatever its references look like: a
 dollar of the value's own text can open a reference with a default, and such a
 reference can take in a placeholder that follows.
 */
module TemplateSources {
  import opened Common
  import opened Text
  import opened Interpolation
  import opened Templates

  /**
   A generated name of a template: a placeholder the value's own reference left, found
   there when the template is read or taken in by a reference before it, or a stray.
   */
  datatype Event = Event(name: string, own: bool, found: bool)

  /**
   What a text, before what follows it, is read to hold when so many of its first
   characters belong to a reference already read; and how far the last reaches beyond it.
   */
  function ReadIn(d: string, rest: string, inside: nat): (r: (seq<Event>, nat))
    ensures forall i :: 0 <= i < |r.0| ==> !r.0[i].own && r.0[i].found
  {
    if d == "" then ([], inside)
    else if inside > 0 then ReadIn(d[1..], rest, inside - 1)
    else
      match MatchAt(d + rest)
      case None => ReadIn(d[1..], rest, 0)
      case Some(m) =>
        var (es, k) := ReadIn(d[1..], rest, m.length - 1);
        ((if Magic(m.name) then [Event(m.name, false, true)] else []) + es, k)
  }

  function EventsOf(t: Token, rest: string, inside: nat): (seq<Event>, nat) {
    match t
    case Lit(c) => ReadIn([c], rest, inside)
    case Var(n, d) =>
      if !Magic(n) then ReadIn(d, rest, inside)
      else if inside == 0 then ([Event(n, true, true)], 0)
      else
        var (es, k) := ReadIn(Placeholder(n), rest, inside);
        ([Event(n, true, false)] + es, k)
  }

  function EventsFrom(ts: seq<Token>, inside: nat): seq<Event> {
    if ts == [] then []
    else
      var (es, k) := EventsOf(ts[0], Template(ts[1..]), inside);
      es + EventsFrom(ts[1..], k)
  }

  /** The generated names of a value's template, in order. */
  function Events(v: string): seq<Event> {
    EventsFrom(Scan(v), 0)
  }

  function FoundNames(es: seq<Event>): seq<string> {
    if es == [] then [] else (if es[0].found then [es[0].name] else []) + FoundNames(es[1..])
  }

  function OwnOnes(es: seq<Event>): seq<string> {
    if es == [] then [] else (if es[0].own then [es[0].name] else []) + OwnOnes(es[1..])
  }

  lemma {:induction false} NamesConcat(a: seq<Event>, b: seq<Event>)
    ensures FoundNames(a + b) == FoundNames(a) + FoundNames(b) && OwnOnes(a + b) == OwnOnes(a) + OwnOnes(b)
  {
    if a == [] {
      assert a + b == b;
    } else {
      NamesConcat(a[1..], b);
      assert a == [a[0]] + a[1..];
      NamesJoin(a[0], a[1..], b, a[1..] + b, a + b);
    }
  }

  lemma NamesJoin(e: Event, es: seq<Event>, b: seq<Event>, more: seq<Event>, all: seq<Event>)
    requires more == es + b && all == [e] + es + b
    requires FoundNames(more) == FoundNames(es) + FoundNames(b) && OwnOnes(more) == OwnOnes(es) + OwnOnes(b)
    ensures FoundNames(all) == FoundNames([e] + es) + FoundNames(b) && OwnOnes(all) == OwnOnes([e] + es) + OwnOnes(b)
  {
    assert all == [e] + more;
    NamesFirst(e, more);
    NamesFirst(e, es);
    Associates(if e.found then [e.name] else [], FoundNames(es), FoundNames(b));
    Associates(if e.own then [e.name] else [], OwnOnes(es), OwnOnes(b));
  }

  lemma NamesFirst(e: Event, es: seq<Event>)
    ensures FoundNames([e] + es) == (if e.found then [e.name] else []) + FoundNames(es)
    ensures OwnOnes([e] + es) == (if e.own then [e.name] else []) + OwnOnes(es)
  {
    assert ([e] + es)[1..] == es;
  }

  // ---- The template is read as told ----

  /** The generated names a text is read to hold from a place on. */
  function ReadFrom(t: string, k: nat): seq<string>
    requires k <= |t|
  {
    Generated(Scan(t[k..]))
  }

  lemma ReadPastOne(t: string, c: string, k: nat)
    requires c != "" && t == c && 0 < k <= |t|
    ensures ReadFrom(t, k) == ReadFrom(t[1..], k - 1)
  {
    assert t[1..][k - 1..] == t[k..];
  }

  lemma ReadHere(t: string)
    requires t != ""
    ensures MatchAt(t).None? ==> ReadFrom(t, 0) == ReadFrom(t[1..], 0)
    ensures MatchAt(t).Some? ==>
              var m := MatchAt(t).value;
              ReadFrom(t, 0) == (if Magic(m.name) then [m.name] else []) + ReadFrom(t[1..], m.length - 1)
  {
    assert t[0..] == t && t[1..][0..] == t[1..];
    if MatchAt(t).None? {
      PassSkipped(t, t[1..]);
    } else {
      var m := MatchAt(t).value;
      PassMatched(t, m, t[m.length..]);
      assert t[1..][m.length - 1..] == t[m.length..];
    }
  }

  /** What events say of a text, and of what follows it once they are past. */
  ghost predicate Tells(r: (seq<Event>, nat), t: string, inside: nat, rest: string, own: seq<string>) {
    && inside <= |t| && r.1 <= |rest|
    && ReadFrom(t, inside) == FoundNames(r.0) + ReadFrom(rest, r.1) && OwnOnes(r.0) == own
  }

  lemma ReadInInside(d: string, rest: string, inside: nat, t: string, r: (seq<Event>, nat))
    requires d != "" && t == d + rest && 0 < inside <= |t|
    requires Tells(r, d[1..] + rest, inside - 1, rest, [])
    ensures Tells(r, t, inside, rest, [])
  {
    HeadAndTail(d, rest);
    ReadPastOne(t, t, inside);
  }

  lemma ReadInHere(d: string, rest: string, t: string, m: Match, es: seq<Event>, k: nat, more: seq<Event>)
    requires d != "" && t == d + rest && MatchAt(t) == Some(m)
    requires more == (if Magic(m.name) then [Event(m.name, false, true)] else []) + es
    requires Tells((es, k), d[1..] + rest, m.length - 1, rest, [])
    ensures Tells((more, k), t, 0, rest, [])
  {
    HeadAndTail(d, rest);
    ReadHere(t);
    FirstFound(m, es, more);
    TellsMore(more, k, t, rest, if Magic(m.name) then [m.name] else [], FoundNames(es), ReadFrom(t[1..], m.length - 1));
  }

  lemma FirstFound(m: Match, es: seq<Event>, more: seq<Event>)
    requires more == (if Magic(m.name) then [Event(m.name, false, true)] else []) + es
    ensures FoundNames(more) == (if Magic(m.name) then [m.name] else []) + FoundNames(es) && OwnOnes(more) == OwnOnes(es)
  {
    NamesFirst(Event(m.name, false, true), es);
    if !Magic(m.name) {
      assert more == es;
    }
  }

  lemma TellsMore(more: seq<Event>, k: nat, t: string, rest: string, first: seq<string>, names: seq<string>, read: seq<string>)
    requires k <= |rest| && read == names + ReadFrom(rest, k) && ReadFrom(t, 0) == first + read
    requires FoundNames(more) == first + names && OwnOnes(more) == []
    ensures Tells((more, k), t, 0, rest, [])
  {
    Associates(first, names, ReadFrom(rest, k));
  }

  lemma Associates(a: seq<string>, b: seq<string>, c: seq<string>)
    ensures a + (b + c) == (a + b) + c
  {}

  lemma ReadInNothing(d: string, rest: string, t: string, r: (seq<Event>, nat))
    requires d != "" && t == d + rest && MatchAt(t).None?
    requires Tells(r, d[1..] + rest, 0, rest, [])
    ensures Tells(r, t, 0, rest, [])
  {
    HeadAndTail(d, rest);
    ReadHere(t);
  }

  lemma {:induction false} ReadInIs(d: string, rest: string, inside: nat, t: string)
    requires t == d + rest && inside <= |t|
    ensures Tells(ReadIn(d, rest, inside), t, inside, rest, [])
    decreases |d|
  {
    if d == "" {
      assert t == rest;
    } else if inside > 0 {
      ReadInIs(d[1..], rest, inside - 1, d[1..] + rest);
      ReadInInside(d, rest, inside, t, ReadIn(d[1..], rest, inside - 1));
    } else if MatchAt(t).None? {
      ReadInIs(d[1..], rest, 0, d[1..] + rest);
      ReadInNothing(d, rest, t, ReadIn(d[1..], rest, 0));
    } else {
      var m := MatchAt(t).value;
      ReadInIs(d[1..], rest, m.length - 1, d[1..] + rest);
      var (es, k) := ReadIn(d[1..], rest, m.length - 1);
      var more := (if Magic(m.name) then [Event(m.name, false, true)] else []) + es;
      ReadInHere(d, rest, t, m, es, k, more);
      ReadInMatched(d, rest, m, es, k, more);
    }
  }

  lemma ReadInMatched(d: string, rest: string, m: Match, es: seq<Event>, k: nat, more: seq<Event>)
    requires d != "" && MatchAt(d + rest) == Some(m) && ReadIn(d[1..], rest, m.length - 1) == (es, k)
    requires more == (if Magic(m.name) then [Event(m.name, false, true)] else []) + es
    ensures ReadIn(d, rest, 0) == (more, k)
  {}

  lemma ReadAPlaceholder(n: string, rest: string)
    requires Magic(n) && IsName(n)
    ensures ReadFrom(Placeholder(n) + rest, 0) == [n] + ReadFrom(rest, 0)
  {
    var t := Placeholder(n) + rest;
    MatchPlaceholder(n, rest);
    PassMatched(t, MatchAt(t).value, rest);
    assert t[0..] == t && rest[0..] == rest;
  }

  lemma OwnFound(n: string, rest: string)
    requires Magic(n) && IsName(n)
    ensures Tells(([Event(n, true, true)], 0), Placeholder(n) + rest, 0, rest, [n])
  {
    ReadAPlaceholder(n, rest);
    OneEvent(Event(n, true, true));
  }

  lemma OneEvent(e: Event)
    ensures FoundNames([e]) == (if e.found then [e.name] else []) && OwnOnes([e]) == if e.own then [e.name] else []
  {
    assert [e][1..] == [];
  }

  lemma OwnTakenIn(n: string, es: seq<Event>, more: seq<Event>, k: nat, rest: string, inside: nat, t: string)
    requires Tells((es, k), t, inside, rest, []) && more == [Event(n, true, false)] + es
    ensures Tells((more, k), t, inside, rest, [n])
  {
    TakenIn(n, es, more);
  }

  lemma TakenIn(n: string, es: seq<Event>, more: seq<Event>)
    requires more == [Event(n, true, false)] + es
    ensures FoundNames(more) == FoundNames(es) && OwnOnes(more) == [n] + OwnOnes(es)
  {
    NamesFirst(Event(n, true, false), es);
  }

  lemma EventsOfAre(x: Token, rest: string, inside: nat, t: string)
    requires (x.Var? ==> IsName(x.name)) && t == TextOf(x) + rest && inside <= |t|
    ensures Tells(EventsOf(x, rest, inside), t, inside, rest, GeneratedBy(x))
  {
    match x
    case Lit(c) => ReadInIs([c], rest, inside, t);
    case Var(n, d) =>
      if !Magic(n) {
        ReadInIs(d, rest, inside, t);
      } else if inside == 0 {
        OwnFound(n, rest);
      } else {
        ReadInIs(Placeholder(n), rest, inside, t);
        var (es, k) := ReadIn(Placeholder(n), rest, inside);
        OwnTakenIn(n, es, EventsOf(x, rest, inside).0, k, rest, inside, t);
      }
  }

  /** What the template is read to hold is what is found, and the value's references are the own ones. */
  lemma {:induction false} EventsAre(ts: seq<Token>, inside: nat)
    requires WellNamed(ts) && inside <= |Template(ts)|
    ensures ReadFrom(Template(ts), inside) == FoundNames(EventsFrom(ts, inside)) && OwnOnes(EventsFrom(ts, inside)) == Generated(ts)
  {
    if ts == [] {
      assert Template(ts)[inside..] == "";
    } else {
      var rest := Template(ts[1..]);
      EventsOfAre(ts[0], rest, inside, Template(ts));
      var (es, k) := EventsOf(ts[0], rest, inside);
      EventsAre(ts[1..], k);
      NamesConcat(es, EventsFrom(ts[1..], k));
      GeneratedFirst(ts);
    }
  }

  // ---- When the sources stay the same ----

  /** Every name is one named before or the one whose turn it is. */
  predicate AllInTurn(names: seq<string>, sources: seq<string>) {
    names == [] || (AllInTurn(Init(names), sources) && Among(Last(names), sources, |Distinct(Init(names))|))
  }

  lemma {:induction false} AllInTurnIff(names: seq<string>, sources: seq<string>)
    ensures AllInTurn(names, sources) <==> Distinct(names) <= sources
  {
    if names != [] {
      AllInTurnIff(Init(names), sources);
      OneMoreSeen(Distinct(Init(names)), Last(names), false, sources);
    }
  }

  /** A name taken in by a reference is found elsewhere. */
  ghost predicate NoneLost(es: seq<Event>) {
    forall i :: 0 <= i < |es| && es[i].own && !es[i].found ==> es[i].name in FoundNames(es)
  }

  lemma {:induction false} FoundIff(es: seq<Event>, n: string)
    ensures n in FoundNames(es) <==> exists i :: 0 <= i < |es| && es[i].found && es[i].name == n
    ensures n in OwnOnes(es) <==> exists i :: 0 <= i < |es| && es[i].own && es[i].name == n
  {
    if es != [] {
      FoundIff(es[1..], n);
      NamesFirst(es[0], es[1..]);
      assert es == [es[0]] + es[1..];
      assert forall i :: 0 <= i < |es| - 1 ==> es[1..][i] == es[i + 1];
      assert forall i :: 0 < i < |es| ==> es[i] == es[1..][i - 1];
    }
  }

  lemma NoneLostIff(es: seq<Event>)
    ensures NoneLost(es) <==> forall n :: n in OwnOnes(es) ==> n in FoundNames(es)
  {
    if NoneLost(es) {
      forall n | n in OwnOnes(es) ensures n in FoundNames(es) {
        FoundIff(es, n);
      }
    } else {
      var i :| 0 <= i < |es| && es[i].own && !es[i].found && es[i].name !in FoundNames(es);
      FoundIff(es, es[i].name);
    }
  }

  lemma SameListIff(found: seq<string>, own: seq<string>)
    ensures Distinct(found) == Distinct(own) <==> AllInTurn(found, Distinct(own)) && forall n :: n in own ==> n in found
  {
    AllInTurnIff(found, Distinct(own));
    DistinctIs(found);
    DistinctIs(own);
    if Distinct(found) <= Distinct(own) && forall n :: n in own ==> n in found {
      WholePrefix(Distinct(found), Distinct(own));
    }
  }

  /**
   A template, whatever its references, names the value's sources in the value's order,
   if and only if every name it is read to hold is a source named before or the one
   whose turn it is, and none is lost in the default of a reference before it.
   */
  lemma SourcesStayIff(v: string)
    ensures SourceNames(Scan(Template(Scan(v)))) == SourceNames(Scan(v))
       <==> AllInTurn(FoundNames(Events(v)), SourceNames(Scan(v))) && NoneLost(Events(v))
  {
    var ts := Scan(v);
    EventsAre(ts, 0);
    assert Template(ts)[0..] == Template(ts);
    SourcesAreDistinct(ts);
    SourcesAreDistinct(Scan(Template(ts)));
    SameListIff(FoundNames(Events(v)), Generated(ts));
    NoneLostIff(Events(v));
  }
}
