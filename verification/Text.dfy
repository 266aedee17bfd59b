/** Strings as the Go source compares, sorts, trims and prints them. */
module Text {
  import opened Common

  // ---- strings.Compare ----

  /** Strictly before, in code point order, which is also the byte order of the UTF-8 encodings. */
  predicate Less(a: string, b: string) {
    if b == "" then false
    else if a == "" then true
    else a[0] < b[0] || (a[0] == b[0] && Less(a[1..], b[1..]))
  }

  lemma {:induction false} LessIsTotal(a: string, b: string)
    ensures Less(a, b) || Less(b, a) || a == b
  {
    if a != "" && b != "" && a[0] == b[0] {
      LessIsTotal(a[1..], b[1..]);
      assert a == [a[0]] + a[1..] && b == [b[0]] + b[1..];
    }
  }

  lemma {:induction false} LessIsTransitive(a: string, b: string, c: string)
    requires Less(a, b) && Less(b, c)
    ensures Less(a, c)
  {
    if a != "" && a[0] == b[0] == c[0] {
      LessIsTransitive(a[1..], b[1..], c[1..]);
    }
  }

  lemma {:induction false} LessIsIrreflexive(a: string)
    ensures !Less(a, a)
  {
    if a != "" {
      LessIsIrreflexive(a[1..]);
    }
  }

  // ---- Sorting by a string key ----

  /** Strictly ascending keys; in particular, no key twice. */
  ghost predicate Ascending<T(!new)>(s: seq<T>, key: T -> string) {
    forall i, j :: 0 <= i < j < |s| ==> Less(key(s[i]), key(s[j]))
  }

  ghost predicate DistinctKeys<T(!new)>(s: seq<T>, key: T -> string) {
    forall i, j :: 0 <= i < j < |s| ==> key(s[i]) != key(s[j])
  }

  function Insert<T>(x: T, s: seq<T>, key: T -> string): (r: seq<T>)
    ensures multiset(r) == multiset([x]) + multiset(s)
  {
    if s == [] || Less(key(x), key(s[0])) then [x] + s
    else
      assert s == [s[0]] + s[1..];
      [s[0]] + Insert(x, s[1..], key)
  }

  /** slices.SortFunc by key. */
  function SortBy<T>(s: seq<T>, key: T -> string): (r: seq<T>)
    ensures multiset(r) == multiset(s) && |r| == |s|
  {
    if s == [] then []
    else
      assert s == [s[0]] + s[1..];
      var r := Insert(s[0], SortBy(s[1..], key), key);
      assert |multiset(r)| == |r| && |multiset(s)| == |s|;
      r
  }

  lemma {:induction false} InsertAscends<T(!new)>(x: T, s: seq<T>, key: T -> string)
    requires Ascending(s, key) && forall i :: 0 <= i < |s| ==> key(s[i]) != key(x)
    ensures Ascending(Insert(x, s, key), key)
  {
    if s == [] {
    } else if Less(key(x), key(s[0])) {
      forall j | 0 < j < |s| ensures Less(key(x), key(s[j])) {
        LessIsTransitive(key(x), key(s[0]), key(s[j]));
      }
    } else {
      LessIsTotal(key(x), key(s[0]));
      InsertAscends(x, s[1..], key);
      var r := Insert(x, s[1..], key);
      forall j | 0 <= j < |r| ensures Less(key(s[0]), key(r[j])) {
        assert r[j] in multiset(r);
        assert r[j] == x || r[j] in s[1..];
      }
    }
  }

  lemma {:induction false} SortAscends<T(!new)>(s: seq<T>, key: T -> string)
    requires DistinctKeys(s, key)
    ensures Ascending(SortBy(s, key), key)
  {
    if s != [] {
      SortAscends(s[1..], key);
      var r := SortBy(s[1..], key);
      forall i | 0 <= i < |r| ensures key(r[i]) != key(s[0]) {
        assert r[i] in multiset(r);
        assert r[i] in s[1..];
      }
      InsertAscends(s[0], r, key);
    }
  }

  lemma AscendingSnoc<T(!new)>(s: seq<T>, x: T, key: T -> string)
    requires Ascending(s, key) && forall y :: y in s ==> Less(key(y), key(x))
    ensures Ascending(s + [x], key)
  {
    var more := s + [x];
    forall i, j | 0 <= i < j < |more| ensures Less(key(more[i]), key(more[j])) {
      assert i < |s| && more[i] == s[i] && s[i] in s;
      assert j < |s| ==> more[j] == s[j];
    }
  }

  lemma AscendingInit<T(!new)>(s: seq<T>, key: T -> string)
    requires s != [] && Ascending(s, key)
    ensures Ascending(Init(s), key) && forall x :: x in Init(s) ==> Less(key(x), key(Last(s)))
  {
    var init := Init(s);
    assert forall i :: 0 <= i < |init| ==> init[i] == s[i];
    forall i, j | 0 <= i < j < |init| ensures Less(key(init[i]), key(init[j])) {
      assert Less(key(s[i]), key(s[j]));
    }
    forall x | x in init ensures Less(key(x), key(Last(s))) {
      var i :| 0 <= i < |init| && init[i] == x;
      assert Less(key(s[i]), key(s[|s| - 1]));
    }
  }

  /** There is one ascending arrangement of given elements, however they were gathered. */
  lemma {:induction false} AscendingIsUnique<T(!new)>(a: seq<T>, b: seq<T>, key: T -> string)
    requires Ascending(a, key) && Ascending(b, key)
    requires forall x :: x in a <==> x in b
    ensures a == b
  {
    assert b != [] ==> b[0] in a;
    if a != [] {
      assert a[0] in b;
      if a[0] != b[0] {
        var i :| 0 <= i < |b| && b[i] == a[0];
        var j :| 0 <= j < |a| && a[j] == b[0];
        LessIsTransitive(key(a[0]), key(b[0]), key(a[0]));
        LessIsIrreflexive(key(a[0]));
      }
      forall x ensures x in a[1..] <==> x in b[1..] {
        LessIsIrreflexive(key(a[0]));
        if x in a[1..] {
          var i :| 0 <= i < |a[1..]| && a[1..][i] == x;
          assert Less(key(a[0]), key(a[i + 1])) && x in a && x in b;
        }
        if x in b[1..] {
          var i :| 0 <= i < |b[1..]| && b[1..][i] == x;
          assert Less(key(b[0]), key(b[i + 1])) && x in b && x in a;
        }
      }
      AscendingIsUnique(a[1..], b[1..], key);
      assert a == [a[0]] + a[1..] && b == [b[0]] + b[1..];
    }
  }

  // ---- Maps in key order ----

  const SELF := (s: string) => s

  ghost predicate IsInOrder(ks: seq<string>, s: set<string>) {
    Ascending(ks, SELF) && forall k :: k in ks <==> k in s
  }

  method SortedKeys(s: set<string>) returns (ks: seq<string>)
    ensures IsInOrder(ks, s)
  {
    ks := [];
    var left := s;
    while left != {}
      invariant left <= s && DistinctKeys(ks, SELF) && forall k :: k in ks <==> k in s && k !in left
      decreases left
    {
      var k :| k in left;
      ks := ks + [k];
      left := left - {k};
    }
    SortAscends(ks, SELF);
    ghost var sorted := SortBy(ks, SELF);
    forall k ensures k in sorted <==> k in ks {
      assert k in multiset(sorted) <==> k in multiset(ks);
    }
    ks := SortBy(ks, SELF);
  }

  lemma {:induction false} OrderExists(s: set<string>) returns (ks: seq<string>)
    ensures IsInOrder(ks, s)
  {
    ks := [];
    if s != {} {
      var k :| k in s;
      var rest := OrderExists(s - {k});
      assert forall i :: 0 <= i < |rest| ==> rest[i] in rest;
      InsertAscends(k, rest, SELF);
      ks := Insert(k, rest, SELF);
      forall x ensures x in ks <==> x in s {
        assert x in ks <==> x in multiset(ks);
        assert x in multiset([k]) + multiset(rest) <==> x == k || x in rest;
      }
    }
  }

  /** The one ascending list of a set's elements. */
  ghost function InOrder(s: set<string>): (ks: seq<string>)
    ensures IsInOrder(ks, s)
  {
    assert exists ks :: IsInOrder(ks, s) by {
      var ks := OrderExists(s);
    }
    var ks :| IsInOrder(ks, s);
    ks
  }

  lemma OrderIsUnique(ks: seq<string>, s: set<string>)
    requires IsInOrder(ks, s)
    ensures ks == InOrder(s)
  {
    AscendingIsUnique(ks, InOrder(s), SELF);
  }

  // ---- strings.TrimSpace ----

  /** unicode.IsSpace. */
  predicate IsSpace(c: char) {
    || c in {'\t', '\n', '\U{0B}', '\U{0C}', '\r', ' ', '\U{85}', '\U{A0}', '\U{1680}',
             '\U{2028}', '\U{2029}', '\U{202F}', '\U{205F}', '\U{3000}'}
    || '\U{2000}' <= c <= '\U{200A}'
  }

  function TrimLeft(s: string): string {
    if s != "" && IsSpace(s[0]) then TrimLeft(s[1..]) else s
  }

  function TrimRight(s: string): string {
    if s != "" && IsSpace(Last(s)) then TrimRight(Init(s)) else s
  }

  function TrimSpace(s: string): string {
    TrimRight(TrimLeft(s))
  }

  lemma TrimKeeps(s: string)
    requires s != "" && !IsSpace(s[0]) && !IsSpace(Last(s))
    ensures TrimSpace(s) == s
  {}

  // ---- Names made of other texts ----

  /** strings.ToLower on the characters that can become a letter from a to z. */
  function LowerChar(c: char): char {
    if 'A' <= c <= 'Z' then c - 'A' + 'a'
    else if c == '\U{212A}' then 'k'
    else if c == '\U{0130}' then 'i'
    else c
  }

  /** Lower case, with every run of characters that may not stay made one mark. */
  function Squeezed(s: string, stays: char -> bool, mark: char, inRun: bool): (r: string)
    ensures forall i :: 0 <= i < |r| ==> stays(r[i]) || r[i] == mark
  {
    if s == "" then ""
    else if stays(LowerChar(s[0])) then [LowerChar(s[0])] + Squeezed(s[1..], stays, mark, false)
    else (if inRun then "" else [mark]) + Squeezed(s[1..], stays, mark, true)
  }

  /** strings.Trim of one character. */
  function TrimChar(s: string, mark: char): (r: string)
    ensures |r| <= |s| && forall i :: 0 <= i < |r| ==> r[i] in s
    ensures r != "" ==> r[0] != mark && Last(r) != mark
    decreases |s|
  {
    if s == "" then ""
    else if s[0] == mark then TrimChar(s[1..], mark)
    else if Last(s) == mark then TrimChar(Init(s), mark)
    else s
  }

  // ---- Decimal printing ----

  function Digit(d: nat): char
    requires d < 10
  {
    '0' + d as char
  }

  predicate IsDigit(c: char) {
    '0' <= c <= '9'
  }

  function DigitValue(c: char): nat
    requires IsDigit(c)
  {
    (c - '0') as nat
  }

  /** %d of a nonnegative integer. */
  function Decimal(n: nat): (s: string)
    ensures s != "" && forall i :: 0 <= i < |s| ==> IsDigit(s[i])
  {
    if n < 10 then [Digit(n)] else Decimal(n / 10) + [Digit(n % 10)]
  }

  /** The number a string of digits spells. */
  function DecimalValue(s: string): nat
    requires forall i :: 0 <= i < |s| ==> IsDigit(s[i])
  {
    if s == "" then 0 else 10 * DecimalValue(Init(s)) + DigitValue(Last(s))
  }

  lemma {:induction false} DecimalRoundTrip(n: nat)
    ensures DecimalValue(Decimal(n)) == n
  {
    if n < 10 {
      assert Init(Decimal(n)) == "";
    } else {
      DecimalRoundTrip(n / 10);
      assert Init(Decimal(n)) == Decimal(n / 10);
    }
  }

  /** A number as %d prints it: digits, and no zero in front of others. */
  predicate PlainNumber(s: string) {
    s != "" && (forall i :: 0 <= i < |s| ==> IsDigit(s[i])) && (s[0] == '0' ==> |s| == 1)
  }

  lemma {:induction false} DecimalIsPlain(n: nat)
    ensures PlainNumber(Decimal(n)) && (n > 0 ==> Decimal(n)[0] != '0')
  {
    if n >= 10 {
      DecimalIsPlain(n / 10);
    }
  }

  lemma PlainInit(s: string)
    requires PlainNumber(s) && |s| > 1
    ensures PlainNumber(Init(s)) && Init(s)[0] == s[0] != '0'
  {}

  lemma DigitOfValue(c: char)
    requires IsDigit(c)
    ensures DigitValue(c) < 10 && Digit(DigitValue(c)) == c && (c != '0' ==> DigitValue(c) > 0)
  {}

  /** A plain number is the print of its value, and so the only one. */
  lemma {:induction false} PlainIsPrinted(s: string)
    requires PlainNumber(s)
    ensures Decimal(DecimalValue(s)) == s && (s[0] != '0' ==> DecimalValue(s) > 0)
  {
    DigitOfValue(Last(s));
    assert s == Init(s) + [Last(s)];
    if |s| == 1 {
      assert Init(s) == "";
    } else {
      PlainInit(s);
      PlainIsPrinted(Init(s));
    }
  }

  // ---- Identifiers ----

  predicate NameStart(c: char) {
    'A' <= c <= 'Z' || 'a' <= c <= 'z' || c == '_'
  }

  predicate NameChar(c: char) {
    NameStart(c) || IsDigit(c)
  }

  /** A letter or underscore, then letters, digits and underscores. */
  predicate IsName(s: string) {
    s != "" && NameStart(s[0]) && forall i :: 0 <= i < |s| ==> NameChar(s[i])
  }

  // ---- Searching ----

  /** The first index of a character, or the length when there is none. */
  function IndexOf(s: string, c: char): (i: nat)
    ensures i <= |s| && (forall k :: 0 <= k < i ==> s[k] != c) && (i < |s| ==> s[i] == c)
  {
    if s == "" || s[0] == c then 0 else 1 + IndexOf(s[1..], c)
  }

  predicate HasPrefix(s: string, p: string) {
    |p| <= |s| && s[..|p|] == p
  }

  /** strings.Contains. */
  predicate Contains(s: string, sub: string) {
    exists i :: 0 <= i <= |s| && HasPrefix(s[i..], sub)
  }

  predicate HasSuffix(s: string, p: string) {
    |p| <= |s| && s[|s| - |p|..] == p
  }

  /** strings.Split on one character. */
  function Split(s: string, c: char): (parts: seq<string>)
    ensures parts != []
    decreases |s|
  {
    var i := IndexOf(s, c);
    if i == |s| then [s] else [s[..i]] + Split(s[i + 1..], c)
  }

  /** strings.Join with one character. */
  function Join(parts: seq<string>, c: char): string
    requires parts != []
  {
    if |parts| == 1 then parts[0] else parts[0] + [c] + Join(parts[1..], c)
  }

  lemma JoinFirst(a: string, parts: seq<string>, c: char)
    requires parts != []
    ensures Join([a] + parts, c) == a + [c] + Join(parts, c)
  {
    assert ([a] + parts)[1..] == parts;
  }

  lemma CutAt(s: string, c: char, i: nat)
    requires i < |s| && s[i] == c
    ensures s[..i] + [c] + s[i + 1..] == s
  {}

  lemma SplitAtFirst(s: string, c: char, i: nat)
    requires i == IndexOf(s, c) < |s|
    ensures Split(s, c) == [s[..i]] + Split(s[i + 1..], c)
  {}

  lemma {:induction false} JoinUndoesSplit(s: string, c: char)
    ensures Join(Split(s, c), c) == s
    decreases |s|
  {
    var i := IndexOf(s, c);
    if i < |s| {
      var a, rest := s[..i], s[i + 1..];
      var parts := Split(rest, c);
      CutAt(s, c, i);
      SplitAtFirst(s, c, i);
      JoinUndoesSplit(rest, c);
      JoinFirst(a, parts, c);
    }
  }

  ghost predicate Free(s: string, c: char) {
    forall i :: 0 <= i < |s| ==> s[i] != c
  }

  lemma SplitHead(a: string, rest: string, c: char)
    requires Free(a, c)
    ensures Split(a + [c] + rest, c) == [a] + Split(rest, c)
  {
    var s := a + [c] + rest;
    var i := IndexOf(s, c);
    assert s[|a|] == c && forall k :: 0 <= k < |a| ==> s[k] == a[k];
    assert i == |a|;
    assert s[..i] == a && s[i + 1..] == rest;
  }

  lemma SplitLast(a: string, c: char)
    requires Free(a, c)
    ensures Split(a, c) == [a]
  {}
}
