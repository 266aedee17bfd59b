/**
 Installing a planned entry (server/catalog.go): the values the plan asks for
 become a field the operator mints, everything that field cannot say is refused,
 and each object is rendered into a file of its own.
 */
module CatalogueInstall {
  import opened Common
  import opened Text
  import opened CataloguePlan
  import Dir = ManifestDirectory

  const MAX_GENERATED := 16
  const MAX_ENV_NAME := 64

  // ---- plannedSecrets ----

  function TrimSuffix(s: string, p: string): string {
    if HasSuffix(s, p) then s[..|s| - |p|] else s
  }

  /** One request of the plan, with the workload it belongs to. */
  datatype Ask = Ask(owner: string, key: Key)

  function AsksOf(owner: string, keys: seq<Key>): (asks: seq<Ask>)
    ensures |asks| == |keys| && forall i :: 0 <= i < |keys| ==> asks[i] == Ask(owner, keys[i])
  {
    seq(|keys|, i requires 0 <= i < |keys| => Ask(owner, keys[i]))
  }

  function Asks(secrets: seq<Secret>): seq<Ask> {
    if secrets == [] then []
    else Asks(Init(secrets)) + AsksOf(TrimSuffix(Last(secrets).name, SECRET_SUFFIX), Last(secrets).keys)
  }

  datatype Refusal =
    | Assembled(key: string)
    | Shared(first: string, key: string, source: string)
    | NoSuchKind(key: string, kind: string)
    | UnusableName(key: string)
    | TooMany(owner: string, count: nat)

  /** generatedKind: the three kinds the API mints, spelled as the converter spells them. */
  function Kind(kind: string): Option<string> {
    if kind in {"password", "hex", "base64"} then Some(kind) else None
  }

  predicate IsUpper(c: char) {
    'A' <= c <= 'Z'
  }

  /** ^[A-Z][A-Z0-9_]*$ */
  predicate IsEnvName(s: string) {
    s != "" && IsUpper(s[0]) && forall i :: 0 <= i < |s| ==> IsUpper(s[i]) || IsDigit(s[i]) || s[i] == '_'
  }

  predicate IsOneSource(k: Key) {
    |k.sources| == 1 && k.template == "${" + k.sources[0].name + "}"
  }

  datatype Claims = Claims(out: map<string, seq<GeneratedSecret>>, claimed: map<string, string>, refusals: seq<Refusal>)

  function WhyNot(k: Key, claimed: map<string, string>): (r: Option<Refusal>)
    ensures r.None? ==> IsOneSource(k)
  {
    if !IsOneSource(k) then Some(Assembled(k.name))
    else if k.sources[0].name in claimed then Some(Shared(claimed[k.sources[0].name], k.name, k.sources[0].name))
    else if Kind(k.sources[0].kind).None? then Some(NoSuchKind(k.name, k.sources[0].kind))
    else if !IsEnvName(k.name) || |k.name| > MAX_ENV_NAME then Some(UnusableName(k.name))
    else None
  }

  /** The request as the API's field carries it. */
  function Value(k: Key): GeneratedSecret {
    GeneratedSecret(k.name, if |k.sources| == 1 then k.sources[0].kind else "")
  }

  function Claim(c: Claims, a: Ask): Claims {
    var no := WhyNot(a.key, c.claimed);
    if no.Some? then c.(refusals := c.refusals + [no.value])
    else
      c.(claimed := c.claimed[a.key.sources[0].name := a.key.name],
         out := c.out[a.owner := ListAt(c.out, a.owner) + [Value(a.key)]])
  }

  function ClaimAll(asks: seq<Ask>): Claims {
    if asks == [] then Claims(map[], map[], []) else Claim(ClaimAll(Init(asks)), Last(asks))
  }

  /** One refusal for each workload that holds too many, in whatever order the map yields them. */
  ghost predicate AreOverfull(over: seq<Refusal>, out: map<string, seq<GeneratedSecret>>) {
    && (forall i, j :: 0 <= i < j < |over| ==> over[i] != over[j])
    && forall r :: r in over <==> r.TooMany? && r.owner in out && |out[r.owner]| == r.count > MAX_GENERATED
  }

  method PlannedSecrets(secrets: seq<Secret>)
    returns (out: map<string, seq<GeneratedSecret>>, refusals: seq<Refusal>)
    ensures out == ClaimAll(Asks(secrets)).out
    ensures exists over :: AreOverfull(over, out) && refusals == ClaimAll(Asks(secrets)).refusals + over
  {
    var c := Claims(map[], map[], []);
    for i := 0 to |secrets|
      invariant c == ClaimAll(Asks(secrets[..i]))
    {
      assert Init(secrets[..i + 1]) == secrets[..i] && Last(secrets[..i + 1]) == secrets[i];
      c := ClaimSecret(c, TrimSuffix(secrets[i].name, SECRET_SUFFIX), secrets[i].keys, Asks(secrets[..i]));
    }
    assert secrets[..|secrets|] == secrets;
    var over := Overfull(c.out);
    return c.out, c.refusals + over;
  }

  /** The loop over one Secret's keys. */
  method ClaimSecret(c0: Claims, owner: string, keys: seq<Key>, ghost before: seq<Ask>) returns (c: Claims)
    requires c0 == ClaimAll(before)
    ensures c == ClaimAll(before + AsksOf(owner, keys))
  {
    c := c0;
    ghost var asks := AsksOf(owner, keys);
    assert before + asks[..0] == before;
    for j := 0 to |keys|
      invariant c == ClaimAll(before + asks[..j])
    {
      assert Init(before + asks[..j + 1]) == before + asks[..j] && Last(before + asks[..j + 1]) == Ask(owner, keys[j]);
      c := Claim(c, Ask(owner, keys[j]));
    }
    assert asks[..|keys|] == asks;
  }

  method Overfull(out: map<string, seq<GeneratedSecret>>) returns (over: seq<Refusal>)
    ensures AreOverfull(over, out)
  {
    over := [];
    var left := out.Keys;
    while left != {}
      invariant left <= out.Keys
      invariant AreOverfull(over, map o | o in out && o !in left :: out[o])
      decreases left
    {
      var o :| o in left;
      ghost var seen := map o | o in out && o !in left :: out[o];
      ghost var seen' := map p | p in out && p !in left - {o} :: out[p];
      assert seen' == seen[o := out[o]];
      left := left - {o};
      if |out[o]| > MAX_GENERATED {
        forall i | 0 <= i < |over| ensures over[i] != TooMany(o, |out[o]|) {
          assert over[i] in over;
        }
        over := over + [TooMany(o, |out[o]|)];
      }
      assert AreOverfull(over, seen');
    }
    assert (map o | o in out && o !in left :: out[o]) == out;
  }

  // ---- What is never refused ----

  /** A request the API's field can carry. */
  ghost predicate Expressible(k: Key) {
    && IsOneSource(k) && Kind(k.sources[0].kind).Some? && IsEnvName(k.name) && |k.name| <= MAX_ENV_NAME
  }

  /** The value a request wants, when it wants exactly one. */
  function Wants(a: Ask): string {
    if |a.key.sources| == 1 then a.key.sources[0].name else ""
  }

  function Wanted(asks: seq<Ask>): set<string> {
    set i | 0 <= i < |asks| :: Wants(asks[i])
  }

  /** Every request expressible, and no value wanted twice. */
  ghost predicate Clean(asks: seq<Ask>) {
    && (forall i :: 0 <= i < |asks| ==> Expressible(asks[i].key))
    && forall i, j :: 0 <= i < j < |asks| ==> Wants(asks[i]) != Wants(asks[j])
  }

  /** What one workload is to be given. */
  function ValuesFor(asks: seq<Ask>, owner: string): seq<GeneratedSecret> {
    if asks == [] then []
    else ValuesFor(Init(asks), owner) + if Last(asks).owner == owner then [Value(Last(asks).key)] else []
  }

  lemma CleanSplit(asks: seq<Ask>)
    requires asks != []
    ensures Clean(asks) <==> Clean(Init(asks)) && Expressible(Last(asks).key) && Wants(Last(asks)) !in Wanted(Init(asks))
    ensures Wanted(asks) == Wanted(Init(asks)) + {Wants(Last(asks))}
  {
    var init, n := Init(asks), |asks| - 1;
    assert forall i :: 0 <= i < n ==> init[i] == asks[i];
    assert Last(asks) == asks[n];
    if Clean(asks) {
      assert forall i :: 0 <= i < n ==> Wants(asks[i]) != Wants(asks[n]);
    }
  }

  /** The claims of clean requests: every value claimed, every workload's list in order. */
  ghost predicate AllClaimed(c: Claims, asks: seq<Ask>) {
    && c.refusals == [] && c.claimed.Keys == Wanted(asks)
    && (forall o :: ListAt(c.out, o) == ValuesFor(asks, o))
    && (forall o :: o in c.out ==> c.out[o] != [])
  }

  lemma ClaimIsClean(c: Claims, asks: seq<Ask>, a: Ask)
    requires AllClaimed(c, asks)
    ensures WhyNot(a.key, c.claimed).None? <==> Expressible(a.key) && Wants(a) !in Wanted(asks)
    ensures WhyNot(a.key, c.claimed).None? ==>
              forall o :: ListAt(Claim(c, a).out, o) == ValuesFor(asks, o) + if a.owner == o then [Value(a.key)] else []
  {}

  /** Nothing is refused key by key exactly when the requests are clean. */
  lemma {:induction false} UnrefusedIffClean(asks: seq<Ask>)
    ensures ClaimAll(asks).refusals == [] <==> Clean(asks)
    ensures Clean(asks) ==> AllClaimed(ClaimAll(asks), asks)
  {
    if asks != [] {
      var init, a := Init(asks), Last(asks);
      UnrefusedIffClean(init);
      CleanSplit(asks);
      if Clean(init) {
        ClaimIsClean(ClaimAll(init), init, a);
      }
    }
  }

  // ---- whyRefused ----

  ghost predicate FewEnough(asks: seq<Ask>) {
    forall o :: |ValuesFor(asks, o)| <= MAX_GENERATED
  }

  datatype Why = Blocked(blocker: Blocker) | Unmintable(refusal: Refusal)

  /** The blockers, then what the platform cannot mint. */
  function WhysOf(blockers: seq<Blocker>, refusals: seq<Refusal>): (whys: seq<Why>)
    ensures |whys| == |blockers| + |refusals|
    ensures forall i :: 0 <= i < |blockers| ==> whys[i] == Blocked(blockers[i])
    ensures forall i :: 0 <= i < |refusals| ==> whys[|blockers| + i] == Unmintable(refusals[i])
  {
    seq(|blockers|, i requires 0 <= i < |blockers| => Blocked(blockers[i]))
    + seq(|refusals|, i requires 0 <= i < |refusals| => Unmintable(refusals[i]))
  }

  lemma NoneOverfull(over: seq<Refusal>, asks: seq<Ask>)
    requires Clean(asks) && AreOverfull(over, ClaimAll(asks).out)
    ensures over == [] <==> FewEnough(asks)
  {
    UnrefusedIffClean(asks);
    var out := ClaimAll(asks).out;
    assert over != [] ==> over[0] in over;
    if FewEnough(asks) {
      forall r ensures r !in over {
        assert r.TooMany? ==> ListAt(out, r.owner) == ValuesFor(asks, r.owner);
      }
    } else {
      var o :| |ValuesFor(asks, o)| > MAX_GENERATED;
      assert ListAt(out, o) == ValuesFor(asks, o);
      assert TooMany(o, |out[o]|) in over;
    }
  }

  /**
   The reasons are the blockers, the refusals key by key and one for each workload
   that holds too many; and there are none exactly when the plan has no blocker, its
   requests are clean, and no workload holds too many.
   */
  method WhyRefused(p: Plan) returns (whys: seq<Why>)
    ensures whys == [] <==> p.blockers == [] && Clean(Asks(p.secrets)) && FewEnough(Asks(p.secrets))
    ensures exists over :: AreOverfull(over, ClaimAll(Asks(p.secrets)).out)
                        && whys == WhysOf(p.blockers, ClaimAll(Asks(p.secrets)).refusals + over)
  {
    var _, refusals := PlannedSecrets(p.secrets);
    UnrefusedIffClean(Asks(p.secrets));
    ghost var over :| AreOverfull(over, ClaimAll(Asks(p.secrets)).out) && refusals == ClaimAll(Asks(p.secrets)).refusals + over;
    if Clean(Asks(p.secrets)) {
      NoneOverfull(over, Asks(p.secrets));
    }
    whys := WhysOf(p.blockers, refusals);
  }

  // ---- From the requests to the workloads ----

  function Values(keys: seq<Key>): seq<GeneratedSecret> {
    seq(|keys|, i requires 0 <= i < |keys| => Value(keys[i]))
  }

  /** The keys planned for one workload, in name order. */
  function KeysFor(w: Workload, gs: seq<Generated>, owned: seq<Source>): seq<Key> {
    SortBy(Kept(Asked(gs, w.service), owned), KEY_NAME)
  }

  lemma OwnerOfSecret(w: Workload)
    ensures TrimSuffix(SecretName(w), SECRET_SUFFIX) == w.name
  {
    assert SecretName(w)[|w.name|..] == SECRET_SUFFIX;
  }

  lemma AttachedAsks(ws: seq<Workload>, gs: seq<Generated>, owned: seq<Source>)
    requires ws != []
    ensures Asks(Attach(ws, gs, owned).secrets)
         == Asks(Attach(Init(ws), gs, owned).secrets) + AsksOf(Last(ws).name, KeysFor(Last(ws), gs, owned))
  {
    var a, w := Attach(Init(ws), gs, owned), Last(ws);
    var keys := Kept(Asked(gs, w.service), owned);
    OwnerOfSecret(w);
    if keys == [] {
      assert AsksOf(w.name, KeysFor(w, gs, owned)) == [];
    } else {
      assert Init(a.secrets + [SecretFor(w, keys)]) == a.secrets;
    }
  }

  lemma {:induction false} ValuesForConcat(a: seq<Ask>, b: seq<Ask>, owner: string)
    ensures ValuesFor(a + b, owner) == ValuesFor(a, owner) + ValuesFor(b, owner)
  {
    if b == [] {
      assert a + b == a;
    } else {
      assert Init(a + b) == a + Init(b) && Last(a + b) == Last(b);
      ValuesForConcat(a, Init(b), owner);
    }
  }

  lemma AsksSnoc(owner: string, keys: seq<Key>)
    requires keys != []
    ensures AsksOf(owner, keys) != [] && Init(AsksOf(owner, keys)) == AsksOf(owner, Init(keys))
    ensures Last(AsksOf(owner, keys)) == Ask(owner, Last(keys))
  {}

  lemma ValuesSnoc(keys: seq<Key>)
    requires keys != []
    ensures Values(keys) == Values(Init(keys)) + [Value(Last(keys))]
  {}

  lemma {:induction false} ValuesForOne(owner: string, keys: seq<Key>, o: string)
    ensures ValuesFor(AsksOf(owner, keys), o) == if o == owner then Values(keys) else []
  {
    if keys != [] {
      AsksSnoc(owner, keys);
      ValuesForOne(owner, Init(keys), o);
      ValuesSnoc(keys);
    }
  }

  lemma ValuesForLast(ws: seq<Workload>, gs: seq<Generated>, owned: seq<Source>, o: string)
    requires ws != []
    ensures ValuesFor(Asks(Attach(ws, gs, owned).secrets), o)
         == ValuesFor(Asks(Attach(Init(ws), gs, owned).secrets), o)
            + if o == Last(ws).name then Values(KeysFor(Last(ws), gs, owned)) else []
  {
    AttachedAsks(ws, gs, owned);
    ValuesForConcat(Asks(Attach(Init(ws), gs, owned).secrets), AsksOf(Last(ws).name, KeysFor(Last(ws), gs, owned)), o);
    ValuesForOne(Last(ws).name, KeysFor(Last(ws), gs, owned), o);
  }

  /** No other workload of the same name is to be given anything. */
  ghost predicate Alone(ws: seq<Workload>, gs: seq<Generated>, owned: seq<Source>, i: nat)
    requires i < |ws|
  {
    forall j :: 0 <= j < |ws| && j != i ==> AddsNothing(ws[j], gs, owned, ws[i].name)
  }

  /** A workload adds nothing to what a name is given. */
  predicate AddsNothing(w: Workload, gs: seq<Generated>, owned: seq<Source>, o: string) {
    w.name == o ==> KeysFor(w, gs, owned) == []
  }

  lemma AddsNothingSnoc(ws: seq<Workload>, gs: seq<Generated>, owned: seq<Source>, o: string)
    requires ws != []
    ensures (forall i :: 0 <= i < |ws| ==> AddsNothing(ws[i], gs, owned, o))
       <==> (forall i :: 0 <= i < |Init(ws)| ==> AddsNothing(Init(ws)[i], gs, owned, o)) && AddsNothing(Last(ws), gs, owned, o)
  {
    assert forall i :: 0 <= i < |ws| - 1 ==> Init(ws)[i] == ws[i];
    assert Last(ws) == ws[|ws| - 1];
  }

  lemma {:induction false} NobodysValues(ws: seq<Workload>, gs: seq<Generated>, owned: seq<Source>, o: string)
    ensures ValuesFor(Asks(Attach(ws, gs, owned).secrets), o) == [] <==> forall i :: 0 <= i < |ws| ==> AddsNothing(ws[i], gs, owned, o)
  {
    if ws != [] {
      AddsNothingSnoc(ws, gs, owned, o);
      NobodysValues(Init(ws), gs, owned, o);
      ValuesForLast(ws, gs, owned, o);
    }
  }

  lemma AloneInit(ws: seq<Workload>, gs: seq<Generated>, owned: seq<Source>, i: nat)
    requires i < |ws| - 1
    ensures Alone(ws, gs, owned, i) <==> Alone(Init(ws), gs, owned, i) && AddsNothing(Last(ws), gs, owned, ws[i].name)
  {
    var init := Init(ws);
    assert forall j :: 0 <= j < |init| ==> init[j] == ws[j];
    assert Last(ws) == ws[|ws| - 1];
  }

  /** At least one's own; and just that, in number as in value, exactly when a condition holds. */
  ghost predicate OwnIff(given: seq<GeneratedSecret>, own: seq<GeneratedSecret>, alone: bool) {
    |given| >= |own| && (|given| == |own| <==> alone) && (given == own <==> alone)
  }

  lemma OwnThenMore(before: seq<GeneratedSecret>, own: seq<GeneratedSecret>, alone: bool, more: seq<GeneratedSecret>)
    requires OwnIff(before, own, alone)
    ensures OwnIff(before + more, own, alone && more == [])
  {
    assert more == [] ==> before + more == before;
  }

  lemma OthersThenOwn(before: seq<GeneratedSecret>, own: seq<GeneratedSecret>)
    ensures OwnIff(before + own, own, before == [])
  {
    assert before == [] ==> before + own == own;
  }

  lemma ValuesNone(keys: seq<Key>)
    ensures Values(keys) == [] <==> keys == []
  {}

  lemma AloneLast(ws: seq<Workload>, gs: seq<Generated>, owned: seq<Source>)
    requires ws != []
    ensures Alone(ws, gs, owned, |ws| - 1) <==> ValuesFor(Asks(Attach(Init(ws), gs, owned).secrets), Last(ws).name) == []
  {
    NobodysValues(Init(ws), gs, owned, Last(ws).name);
    assert forall j :: 0 <= j < |ws| - 1 ==> Init(ws)[j] == ws[j];
  }

  /**
   Requests find their way back to the workload that made them; with them come
   those of every other workload of that name, and nothing else exactly when those
   ask for nothing.
   */
  lemma {:induction false} ValuesOfAWorkload(ws: seq<Workload>, gs: seq<Generated>, owned: seq<Source>, i: nat)
    requires i < |ws|
    ensures OwnIff(ValuesFor(Asks(Attach(ws, gs, owned).secrets), ws[i].name), Values(KeysFor(ws[i], gs, owned)), Alone(ws, gs, owned, i))
  {
    var before, w := ValuesFor(Asks(Attach(Init(ws), gs, owned).secrets), ws[i].name), Last(ws);
    ValuesForLast(ws, gs, owned, ws[i].name);
    if i == |ws| - 1 {
      AloneLast(ws, gs, owned);
      OthersThenOwn(before, Values(KeysFor(w, gs, owned)));
    } else {
      assert Init(ws)[i] == ws[i];
      ValuesOfAWorkload(Init(ws), gs, owned, i);
      AloneInit(ws, gs, owned, i);
      ValuesNone(KeysFor(w, gs, owned));
      OwnThenMore(before, Values(KeysFor(ws[i], gs, owned)), Alone(Init(ws), gs, owned, i),
                  if ws[i].name == w.name then Values(KeysFor(w, gs, owned)) else []);
    }
  }

  // ---- Mint ----

  /** The sources of clean requests, one for one. */
  function SourcesOf(asks: seq<Ask>): (sources: seq<Source>)
    requires forall i :: 0 <= i < |asks| ==> |asks[i].key.sources| == 1
    ensures |sources| == |asks| && forall i :: 0 <= i < |asks| ==> sources[i] == asks[i].key.sources[0]
  {
    seq(|asks|, i requires 0 <= i < |asks| => asks[i].key.sources[0])
  }

  ghost predicate Uses(keys: seq<Key>, s: Source) {
    exists i :: 0 <= i < |keys| && s in keys[i].sources
  }

  ghost predicate AnyUses(asks: seq<Ask>, s: Source) {
    exists i :: 0 <= i < |asks| && s in asks[i].key.sources
  }

  lemma {:induction false} MintSourcesAre(m: map<string, Source>, sources: seq<Source>)
    ensures forall s :: s in sources ==> s.name in MintSources(m, sources)
    ensures forall k :: k in m ==> k in MintSources(m, sources)
    ensures forall k :: k in MintSources(m, sources) ==> MintSources(m, sources)[k] in sources || (k in m && MintSources(m, sources)[k] == m[k])
  {
    if sources != [] {
      MintSourcesAre(m, Init(sources));
      assert sources == Init(sources) + [Last(sources)];
    }
  }

  lemma UsesSplit(keys: seq<Key>, s: Source)
    requires keys != []
    ensures Uses(keys, s) <==> Uses(Init(keys), s) || s in Last(keys).sources
  {
    assert forall i :: 0 <= i < |keys| - 1 ==> Init(keys)[i] == keys[i];
    assert Last(keys) == keys[|keys| - 1];
  }

  lemma {:induction false} MintKeysAre(m: map<string, Source>, keys: seq<Key>)
    ensures forall s :: Uses(keys, s) ==> s.name in MintKeys(m, keys)
    ensures forall k :: k in m ==> k in MintKeys(m, keys)
    ensures forall k :: k in MintKeys(m, keys) ==> Uses(keys, MintKeys(m, keys)[k]) || (k in m && MintKeys(m, keys)[k] == m[k])
  {
    if keys != [] {
      MintKeysAre(m, Init(keys));
      MintSourcesAre(MintKeys(m, Init(keys)), Last(keys).sources);
      forall s ensures Uses(keys, s) <==> Uses(Init(keys), s) || s in Last(keys).sources {
        UsesSplit(keys, s);
      }
    }
  }

  lemma SortedUses(keys: seq<Key>, s: Source)
    ensures Uses(SortBy(keys, KEY_NAME), s) <==> Uses(keys, s)
  {
    var sorted := SortBy(keys, KEY_NAME);
    if Uses(keys, s) {
      var i :| 0 <= i < |keys| && s in keys[i].sources;
      assert keys[i] in multiset(keys) && keys[i] in multiset(sorted);
    }
    if Uses(sorted, s) {
      var i :| 0 <= i < |sorted| && s in sorted[i].sources;
      assert sorted[i] in multiset(sorted) && sorted[i] in multiset(keys);
    }
  }

  lemma AnyUsesMore(asks: seq<Ask>, owner: string, keys: seq<Key>, s: Source)
    ensures AnyUses(asks + AsksOf(owner, keys), s) <==> AnyUses(asks, s) || Uses(keys, s)
  {
    var more := asks + AsksOf(owner, keys);
    assert forall i :: 0 <= i < |asks| ==> more[i] == asks[i];
    assert forall i :: 0 <= i < |keys| ==> more[|asks| + i] == Ask(owner, keys[i]);
    if AnyUses(more, s) {
      var i :| 0 <= i < |more| && s in more[i].key.sources;
      assert i >= |asks| ==> more[i] == Ask(owner, keys[i - |asks|]);
    }
  }

  ghost predicate MintsForAll(m: map<string, Source>, asks: seq<Ask>) {
    && (forall s :: AnyUses(asks, s) ==> s.name in m)
    && (forall k :: k in m ==> AnyUses(asks, m[k]) && m[k].name == k)
  }

  /** What is minted is what the planned keys use, by name. */
  lemma {:induction false} MintIsWhatIsUsed(ws: seq<Workload>, gs: seq<Generated>, owned: seq<Source>)
    ensures MintsForAll(Attach(ws, gs, owned).mint, Asks(Attach(ws, gs, owned).secrets))
  {
    if ws != [] {
      MintIsWhatIsUsed(Init(ws), gs, owned);
      MintStep(Attach(Init(ws), gs, owned), Last(ws), gs, owned, Asks(Attach(Init(ws), gs, owned).secrets));
      AttachedAsks(ws, gs, owned);
    }
  }

  lemma MintStep(a: Attached, w: Workload, gs: seq<Generated>, owned: seq<Source>, asks: seq<Ask>)
    requires MintsForAll(a.mint, asks)
    ensures MintsForAll(AttachOne(a, w, Asked(gs, w.service), owned).mint, asks + AsksOf(w.name, KeysFor(w, gs, owned)))
  {
    var keys := Kept(Asked(gs, w.service), owned);
    MintKeysAre(a.mint, keys);
    MintKeysNames(a.mint, keys);
    forall s ensures AnyUses(asks + AsksOf(w.name, KeysFor(w, gs, owned)), s) <==> AnyUses(asks, s) || Uses(keys, s) {
      AnyUsesMore(asks, w.name, KeysFor(w, gs, owned), s);
      SortedUses(keys, s);
    }
  }

  lemma {:induction false} MintKeysNames(m: map<string, Source>, keys: seq<Key>)
    requires KeyedByName(m)
    ensures KeyedByName(MintKeys(m, keys))
  {
    if keys != [] {
      MintKeysNames(m, Init(keys));
      MintNames(MintKeys(m, Init(keys)), Last(keys).sources);
    }
  }

  /** For clean requests, the values minted are their sources, each exactly once. */
  lemma MintMatchesTheRequests(ws: seq<Workload>, gs: seq<Generated>, owned: seq<Source>, mint: seq<Source>)
    requires var a := Attach(ws, gs, owned); IsMint(mint, a.mint) && Clean(Asks(a.secrets))
    ensures var asks := Asks(Attach(ws, gs, owned).secrets);
            mint == SortBy(SourcesOf(asks), SOURCE_NAME) && DistinctKeys(SourcesOf(asks), SOURCE_NAME) && |mint| == |asks|
  {
    var a := Attach(ws, gs, owned);
    var asks := Asks(a.secrets);
    var sources := SourcesOf(asks);
    forall i, j | 0 <= i < j < |sources| ensures SOURCE_NAME(sources[i]) != SOURCE_NAME(sources[j]) {
      assert Wants(asks[i]) != Wants(asks[j]);
    }
    MintIsWhatIsUsed(ws, gs, owned);
    SortAscends(sources, SOURCE_NAME);
    forall s ensures s in mint <==> s in SortBy(sources, SOURCE_NAME) {
      assert s in SortBy(sources, SOURCE_NAME) <==> s in multiset(SortBy(sources, SOURCE_NAME));
      UsedIffASource(asks, s);
      if s in sources {
        UsedIffASource(asks, a.mint[s.name]);
        SameNameSameSource(sources, s, a.mint[s.name]);
      }
    }
    AscendingIsUnique(mint, SortBy(sources, SOURCE_NAME), SOURCE_NAME);
  }

  lemma UsedIffASource(asks: seq<Ask>, s: Source)
    requires Clean(asks)
    ensures AnyUses(asks, s) <==> s in SourcesOf(asks)
  {
    forall i | 0 <= i < |asks| ensures s in asks[i].key.sources <==> SourcesOf(asks)[i] == s {
      assert Expressible(asks[i].key);
      assert asks[i].key.sources == [asks[i].key.sources[0]];
    }
  }

  lemma SameNameSameSource(sources: seq<Source>, s: Source, t: Source)
    requires DistinctKeys(sources, SOURCE_NAME) && s in sources && t in sources && s.name == t.name
    ensures s == t
  {
    var i :| 0 <= i < |sources| && sources[i] == s;
    var j :| 0 <= j < |sources| && sources[j] == t;
    assert i < j ==> SOURCE_NAME(sources[i]) != SOURCE_NAME(sources[j]);
    assert j < i ==> SOURCE_NAME(sources[j]) != SOURCE_NAME(sources[i]);
  }

  lemma {:induction false} OwnedNone(want: seq<Source>, owned: seq<Source>)
    ensures Owned(want, owned) == [] <==> forall s :: s in want ==> !Named(owned, s.name)
  {
    if want != [] {
      OwnedNone(Init(want), owned);
      assert want == Init(want) + [Last(want)];
    }
  }

  lemma {:induction false} KeptIsUnowned(asked: seq<Generated>, owned: seq<Source>, s: Source)
    requires Uses(Kept(asked, owned), s)
    ensures !Named(owned, s.name)
  {
    var keys := Kept(asked, owned);
    var i :| 0 <= i < |keys| && s in keys[i].sources;
    if Owned(Last(asked).sources, owned) == [] && i == |keys| - 1 {
      OwnedNone(Last(asked).sources, owned);
    } else {
      assert s in Kept(Init(asked), owned)[i].sources;
      KeptIsUnowned(Init(asked), owned, s);
    }
  }

  /** A value a Database publishes itself is never minted a second time. */
  lemma {:induction false} NothingOwnedIsMinted(ws: seq<Workload>, gs: seq<Generated>, owned: seq<Source>)
    ensures forall k :: k in Attach(ws, gs, owned).mint ==> !Named(owned, k)
  {
    if ws != [] {
      NothingOwnedIsMinted(Init(ws), gs, owned);
      MintIsWhatIsUsed(ws, gs, owned);
      var m, asked := Attach(Init(ws), gs, owned).mint, Asked(gs, Last(ws).service);
      var keys := Kept(asked, owned);
      MintKeysAre(m, keys);
      forall k | k in Attach(ws, gs, owned).mint ensures !Named(owned, k) {
        if Uses(keys, Attach(ws, gs, owned).mint[k]) {
          KeptIsUnowned(asked, owned, Attach(ws, gs, owned).mint[k]);
        }
      }
    }
  }

  // ---- Nothing asked for is dropped ----

  function AllKeys(asked: seq<Generated>): seq<Key> {
    seq(|asked|, i requires 0 <= i < |asked| => KeyOf(asked[i]))
  }

  lemma {:induction false} UnblockedKeepsAll(owner: string, asked: seq<Generated>, owned: seq<Source>)
    requires OwnedBlockers(owner, asked, owned) == []
    ensures Kept(asked, owned) == AllKeys(asked)
  {
    if asked != [] {
      UnblockedKeepsAll(owner, Init(asked), owned);
      assert AllKeys(asked) == AllKeys(Init(asked)) + [KeyOf(Last(asked))];
    }
  }

  lemma {:induction false} UnblockedWorkloads(ws: seq<Workload>, gs: seq<Generated>, owned: seq<Source>, i: nat)
    requires Attach(ws, gs, owned).blockers == [] && i < |ws|
    ensures OwnedBlockers(ws[i].name, Asked(gs, ws[i].service), owned) == []
  {
    if i < |ws| - 1 {
      UnblockedWorkloads(Init(ws), gs, owned, i);
    }
  }

  /** A compose service sets a variable once. */
  ghost predicate OncePerService(gs: seq<Generated>) {
    forall i, j :: 0 <= i < j < |gs| && gs[i].service == gs[j].service ==> gs[i].key != gs[j].key
  }

  lemma {:induction false} AskedOnce(gs: seq<Generated>, service: string)
    requires OncePerService(gs)
    ensures forall i :: 0 <= i < |Asked(gs, service)| ==> Asked(gs, service)[i] in gs && Asked(gs, service)[i].service == service
    ensures forall i, j :: 0 <= i < j < |Asked(gs, service)| ==> Asked(gs, service)[i].key != Asked(gs, service)[j].key
  {
    if gs != [] {
      var init, g := Init(gs), Last(gs);
      assert forall i :: 0 <= i < |init| ==> init[i] == gs[i];
      AskedOnce(init, service);
      forall i | 0 <= i < |Asked(init, service)| && g.service == service ensures Asked(init, service)[i].key != g.key {
        var j :| 0 <= j < |init| && init[j] == Asked(init, service)[i];
        assert gs[j].key != gs[|gs| - 1].key;
      }
    }
  }

  /** What a workload's service asked for, in name order, each variable once. */
  lemma RequestsAscend(gs: seq<Generated>, service: string)
    requires OncePerService(gs)
    ensures Ascending(SortBy(AllKeys(Asked(gs, service)), KEY_NAME), KEY_NAME)
  {
    AskedOnce(gs, service);
    var keys := AllKeys(Asked(gs, service));
    forall i, j | 0 <= i < j < |keys| ensures KEY_NAME(keys[i]) != KEY_NAME(keys[j]) {
      assert Asked(gs, service)[i].key != Asked(gs, service)[j].key;
    }
    SortAscends(keys, KEY_NAME);
  }

  // ---- renderInstall ----

  datatype Doc = FenceDoc(namespace: string) | WorkloadDoc(w: Workload, rollout: string) | DatabaseDoc(d: Database)
  type Files = map<string, Doc>
  datatype Error = Taken | Incomplete

  function WorkloadFile(name: string): string {
    "workload-" + name + ".yaml"
  }

  function SecretNames(secrets: seq<Secret>): set<string> {
    set i | 0 <= i < |secrets| :: secrets[i].name
  }

  /** withoutPlannedSecrets. */
  function Without(envFrom: seq<string>, planned: set<string>): seq<string> {
    if envFrom == [] then [] else Without(Init(envFrom), planned) + if Last(envFrom) in planned then [] else [Last(envFrom)]
  }

  /** An install: where, which plan, which of its workloads is the app, and the values each is to be given. */
  datatype Install = Install(place: Dir.Placement, plan: Plan, primary: nat,
                             secrets: map<string, seq<GeneratedSecret>>, rollout: string)

  function Rendered(x: Install, i: nat): Workload
    requires i < |x.plan.workloads|
  {
    var w := x.plan.workloads[i];
    w.(name := if i == x.primary then x.place.app else w.name,
       secrets := ListAt(x.secrets, w.name),
       envFrom := Without(w.envFrom, SecretNames(x.plan.secrets)))
  }

  function FileOf(x: Install, i: nat): string
    requires i < |x.plan.workloads|
  {
    if i == x.primary then Dir.FILE else WorkloadFile(x.plan.workloads[i].name)
  }

  function DocOf(x: Install, i: nat): Doc
    requires i < |x.plan.workloads|
  {
    WorkloadDoc(Rendered(x, i), if i == x.primary then x.rollout else "")
  }

  /** What manifest.Render and manifest.RenderDatabase insist on. */
  predicate Complete(doc: Doc, namespace: string) {
    match doc
    case FenceDoc(_) => true
    case WorkloadDoc(w, _) => w.name != "" && namespace != "" && w.image != ""
    case DatabaseDoc(d) => d.name != "" && namespace != ""
  }

  function FenceFiles(namespace: string): Files {
    map[Dir.NAMESPACE_FILE := FenceDoc(namespace), Dir.QUOTA_FILE := FenceDoc(namespace),
        Dir.ROLE_FILE := FenceDoc(namespace), Dir.ROLE_BINDING_FILE := FenceDoc(namespace)]
  }

  datatype Entry = Entry(file: string, doc: Doc)

  function DatabaseEntry(d: Database): Entry {
    Entry(Dir.DatabaseFile(d.name), DatabaseDoc(d))
  }

  /** One file per object, workloads first. */
  function Entries(x: Install): (es: seq<Entry>)
    ensures |es| == |x.plan.workloads| + |x.plan.databases|
    ensures forall i :: 0 <= i < |x.plan.workloads| ==> es[i] == Entry(FileOf(x, i), DocOf(x, i))
    ensures forall i :: 0 <= i < |x.plan.databases| ==>
              es[|x.plan.workloads| + i] == DatabaseEntry(x.plan.databases[i])
  {
    seq(|x.plan.workloads|, i requires 0 <= i < |x.plan.workloads| => Entry(FileOf(x, i), DocOf(x, i)))
    + seq(|x.plan.databases|, i requires 0 <= i < |x.plan.databases| => DatabaseEntry(x.plan.databases[i]))
  }

  function Put(files: Files, es: seq<Entry>): Files {
    if es == [] then files else Put(files, Init(es))[Last(es).file := Last(es).doc]
  }

  ghost predicate AllComplete(es: seq<Entry>, namespace: string) {
    forall i :: 0 <= i < |es| ==> Complete(es[i].doc, namespace)
  }

  method DropPlanned(envFrom: seq<string>, secrets: seq<Secret>) returns (kept: seq<string>)
    ensures kept == Without(envFrom, SecretNames(secrets))
  {
    var planned: set<string> := {};
    for i := 0 to |secrets|
      invariant planned == SecretNames(secrets[..i])
    {
      assert SecretNames(secrets[..i + 1]) == SecretNames(secrets[..i]) + {secrets[i].name} by {
        assert forall k :: 0 <= k < i ==> secrets[..i + 1][k] == secrets[..i][k];
        assert secrets[..i + 1][i] == secrets[i];
      }
      planned := planned + {secrets[i].name};
    }
    assert secrets[..|secrets|] == secrets;
    kept := [];
    for i := 0 to |envFrom|
      invariant kept == Without(envFrom[..i], planned)
    {
      assert Init(envFrom[..i + 1]) == envFrom[..i];
      if envFrom[i] !in planned {
        kept := kept + [envFrom[i]];
      }
    }
    assert envFrom[..|envFrom|] == envFrom;
  }

  /** The body of the loop over workloads. */
  method RenderOne(x: Install, i: nat) returns (file: string, doc: Doc)
    requires i < |x.plan.workloads|
    ensures file == FileOf(x, i) && doc == DocOf(x, i)
  {
    var w := x.plan.workloads[i];
    var name, id := w.name, "";
    file := WorkloadFile(w.name);
    if i == x.primary {
      name, file, id := x.place.app, Dir.FILE, x.rollout;
    }
    var envFrom := DropPlanned(w.envFrom, x.plan.secrets);
    doc := WorkloadDoc(w.(name := name, secrets := ListAt(x.secrets, w.name), envFrom := envFrom), id);
  }

  /** One file more, or the refusal to render it. */
  method WriteOne(files: Files, e: Entry, namespace: string, ghost es: seq<Entry>, ghost i: nat, ghost base: Files)
    returns (r: Result<Files, Error>)
    requires i < |es| && e == es[i] && files == Put(base, es[..i]) && AllComplete(es[..i], namespace)
    ensures r.Ok? ==> r.value == Put(base, es[..i + 1]) && AllComplete(es[..i + 1], namespace)
    ensures r.Err? ==> r == Err(Incomplete) && !AllComplete(es, namespace)
  {
    assert Init(es[..i + 1]) == es[..i] && Last(es[..i + 1]) == e;
    assert forall k :: 0 <= k < i ==> es[..i + 1][k] == es[..i][k];
    if !Complete(e.doc, namespace) {
      return Err(Incomplete);
    }
    return Ok(files[e.file := e.doc]);
  }

  /** Refuses to write over an app that exists; otherwise one file per object. */
  method RenderInstall(x: Install, current: Files) returns (r: Result<Files, Error>)
    ensures r == Err(Taken) <==> Dir.FILE in current
    ensures r.Ok? <==> Dir.FILE !in current && AllComplete(Entries(x), x.place.namespace)
    ensures r.Ok? ==> r.value == Installed(x)
  {
    if Dir.FILE in current {
      return Err(Taken);
    }
    var fence := FenceFiles(x.place.namespace);
    ghost var es := Entries(x);
    r := RenderWorkloads(x, es, fence);
    if r.Ok? {
      r := RenderDatabases(x.plan.databases, x.place.namespace, r.value, es, |x.plan.workloads|, fence);
    }
    assert es[..|es|] == es;
  }

  method RenderWorkloads(x: Install, ghost es: seq<Entry>, fence: Files) returns (r: Result<Files, Error>)
    requires |es| >= |x.plan.workloads| && forall i :: 0 <= i < |x.plan.workloads| ==> es[i] == Entry(FileOf(x, i), DocOf(x, i))
    ensures r.Ok? ==> r.value == Put(fence, es[..|x.plan.workloads|]) && AllComplete(es[..|x.plan.workloads|], x.place.namespace)
    ensures r.Err? ==> r == Err(Incomplete) && !AllComplete(es, x.place.namespace)
  {
    r := Ok(fence);
    for i := 0 to |x.plan.workloads|
      invariant r == Ok(Put(fence, es[..i])) && AllComplete(es[..i], x.place.namespace)
    {
      var file, doc := RenderOne(x, i);
      r := WriteOne(r.value, Entry(file, doc), x.place.namespace, es, i, fence);
      if r.Err? {
        return;
      }
    }
  }

  method RenderDatabases(ds: seq<Database>, namespace: string, files: Files, ghost es: seq<Entry>, ghost n: nat, ghost fence: Files)
    returns (r: Result<Files, Error>)
    requires |es| == n + |ds| && es[n..] == seq(|ds|, i requires 0 <= i < |ds| => DatabaseEntry(ds[i]))
    requires files == Put(fence, es[..n]) && AllComplete(es[..n], namespace)
    ensures r.Ok? ==> r.value == Put(fence, es[..|es|]) && AllComplete(es[..|es|], namespace)
    ensures r.Err? ==> r == Err(Incomplete) && !AllComplete(es, namespace)
  {
    r := Ok(files);
    for i := 0 to |ds|
      invariant r == Ok(Put(fence, es[..n + i])) && AllComplete(es[..n + i], namespace)
    {
      assert es[n..][i] == DatabaseEntry(ds[i]);
      r := WriteOne(r.value, DatabaseEntry(ds[i]), namespace, es, n + i, fence);
      if r.Err? {
        return;
      }
    }
  }

  // ---- Every object has its file ----

  lemma FirstLetters(a: string, b: string)
    ensures WorkloadFile(a)[0] == 'w' && WorkloadFile(a)[8] == '-' && |WorkloadFile(a)| > 8
    ensures Dir.DatabaseFile(b)[0] == 'd' && Dir.FILE[0] == 'w' && Dir.FILE[8] == '.'
    ensures Dir.NAMESPACE_FILE[0] == 'n' && Dir.QUOTA_FILE[0] == 'q' && Dir.ROLE_FILE[0] == 'p' && Dir.ROLE_BINDING_FILE[0] == 'p'
  {}

  lemma NameInFile(a: string)
    ensures WorkloadFile(a)[9..|WorkloadFile(a)| - 5] == a
  {
    assert WorkloadFile(a) == ("workload-" + a) + ".yaml";
  }

  lemma WorkloadFileIsItsOwn(a: string, b: string)
    ensures WorkloadFile(a) == WorkloadFile(b) <==> a == b
    ensures WorkloadFile(a) != Dir.FILE && WorkloadFile(a) != Dir.DatabaseFile(b) && !Dir.IsFence(WorkloadFile(a))
    ensures Dir.FILE != Dir.DatabaseFile(b)
  {
    FirstLetters(a, b);
    NameInFile(a);
    NameInFile(b);
  }

  /** Two objects rendered under one name, neither of them the app. */
  predicate OneName(x: Install, i: nat, j: nat)
    requires i < j
  {
    var n := |x.plan.workloads|;
    if j < n then i != x.primary && j != x.primary && x.plan.workloads[i].name == x.plan.workloads[j].name
    else n <= i && j < n + |x.plan.databases| && x.plan.databases[i - n].name == x.plan.databases[j - n].name
  }

  lemma WorkloadFilesMeetIff(x: Install, i: nat, j: nat)
    requires i < j < |x.plan.workloads|
    ensures FileOf(x, i) == FileOf(x, j) <==> OneName(x, i, j)
  {
    WorkloadFileIsItsOwn(x.plan.workloads[i].name, x.plan.workloads[j].name);
    WorkloadFileIsItsOwn(x.plan.workloads[j].name, x.plan.workloads[i].name);
  }

  lemma WorkloadIsNoDatabase(x: Install, i: nat, name: string)
    requires i < |x.plan.workloads|
    ensures FileOf(x, i) != Dir.DatabaseFile(name)
  {
    WorkloadFileIsItsOwn(x.plan.workloads[i].name, name);
  }

  function FileName(x: Install, i: nat): string
    requires i < |x.plan.workloads| + |x.plan.databases|
  {
    var n := |x.plan.workloads|;
    if i < n then FileOf(x, i) else Dir.DatabaseFile(x.plan.databases[i - n].name)
  }

  lemma FileAt(x: Install, i: nat)
    requires i < |Entries(x)|
    ensures Entries(x)[i].file == FileName(x, i)
  {
    var n := |x.plan.workloads|;
    assert i >= n ==> Entries(x)[n + (i - n)] == DatabaseEntry(x.plan.databases[i - n]);
  }

  lemma NamesMeetIff(x: Install, i: nat, j: nat)
    requires i < j < |x.plan.workloads| + |x.plan.databases|
    ensures FileName(x, i) == FileName(x, j) <==> OneName(x, i, j)
  {
    var n := |x.plan.workloads|;
    if j < n {
      WorkloadFilesMeetIff(x, i, j);
    } else if i < n {
      WorkloadIsNoDatabase(x, i, x.plan.databases[j - n].name);
    } else {
      Dir.DatabaseFilesAreTheirOwn(x.plan.databases[i - n].name, x.plan.databases[j - n].name);
    }
  }

  /** The kind of object, and its name unless it is the app: two objects get one file exactly when these agree. */
  lemma FilesMeetIff(x: Install, i: nat, j: nat)
    requires i < j < |Entries(x)|
    ensures Entries(x)[i].file == Entries(x)[j].file <==> OneName(x, i, j)
  {
    FileAt(x, i);
    FileAt(x, j);
    NamesMeetIff(x, i, j);
  }

  function FilesOf(es: seq<Entry>): set<string> {
    set i | 0 <= i < |es| :: es[i].file
  }

  lemma FilesSplit(es: seq<Entry>)
    requires es != []
    ensures FilesOf(es) == FilesOf(Init(es)) + {Last(es).file}
  {
    var init, n := Init(es), |es| - 1;
    assert forall i :: 0 <= i < n ==> init[i] == es[i];
    assert Last(es) == es[n];
  }

  lemma {:induction false} FilesWritten(base: Files, es: seq<Entry>)
    ensures Put(base, es).Keys == base.Keys + FilesOf(es)
  {
    if es != [] {
      FilesWritten(base, Init(es));
      FilesSplit(es);
    }
  }

  /** A file holds the last of the objects rendered into it. */
  lemma {:induction false} LastIsWritten(base: Files, es: seq<Entry>, i: nat)
    requires i < |es| && forall j :: i < j < |es| ==> es[j].file != es[i].file
    ensures es[i].file in Put(base, es) && Put(base, es)[es[i].file] == es[i].doc
  {
    if i < |es| - 1 {
      var init := Init(es);
      assert forall j :: 0 <= j < |init| ==> init[j] == es[j];
      assert es[|es| - 1].file != es[i].file;
      LastIsWritten(base, init, i);
    }
  }

  /** The last object rendered into the file of the i-th. */
  function LastWith(es: seq<Entry>, i: nat): (k: nat)
    requires i < |es|
    ensures i <= k < |es| && es[k].file == es[i].file && forall j :: k < j < |es| ==> es[j].file != es[i].file
    decreases |es|
  {
    if es[|es| - 1].file == es[i].file then |es| - 1
    else
      assert forall j :: 0 <= j < |es| - 1 ==> Init(es)[j] == es[j];
      LastWith(Init(es), i)
  }

  /** What an install leaves in the directory. */
  function Installed(x: Install): Files {
    Put(FenceFiles(x.place.namespace), Entries(x))
  }

  ghost predicate InItsFile(x: Install, i: nat)
    requires i < |Entries(x)|
  {
    Entries(x)[i].file in Installed(x) && Installed(x)[Entries(x)[i].file] == Entries(x)[i].doc
  }

  /** An object is overwritten exactly when the last one rendered under its name is another. */
  lemma OverwrittenIff(x: Install, i: nat)
    requires i < |Entries(x)|
    ensures var k := LastWith(Entries(x), i);
            && (k == i || OneName(x, i, k))
            && (InItsFile(x, i) <==> Entries(x)[k].doc == Entries(x)[i].doc)
  {
    var k := LastWith(Entries(x), i);
    LastIsWritten(FenceFiles(x.place.namespace), Entries(x), k);
    if k != i {
      FilesMeetIff(x, i, k);
    }
  }

  /** Objects that get one name are one object. */
  ghost predicate NamesAreObjects(x: Install) {
    forall i, j :: 0 <= i < j < |Entries(x)| && OneName(x, i, j) ==> Entries(x)[i].doc == Entries(x)[j].doc
  }

  /**
   Every object of the plan is in the file named for it if and only if no two
   different ones get one name, the app aside; and nothing is written but the
   fence and those files.
   */
  lemma EveryObjectHasItsFileIff(x: Install)
    ensures (forall i :: 0 <= i < |Entries(x)| ==> InItsFile(x, i)) <==> NamesAreObjects(x)
    ensures Installed(x).Keys == FenceFiles(x.place.namespace).Keys + FilesOf(Entries(x))
  {
    var es := Entries(x);
    FilesWritten(FenceFiles(x.place.namespace), es);
    if NamesAreObjects(x) {
      forall i | 0 <= i < |es| ensures InItsFile(x, i) {
        OverwrittenIff(x, i);
      }
    }
    if forall i :: 0 <= i < |es| ==> InItsFile(x, i) {
      forall i, j | 0 <= i < j < |es| && OneName(x, i, j) ensures es[i].doc == es[j].doc {
        FilesMeetIff(x, i, j);
        assert InItsFile(x, i) && InItsFile(x, j);
      }
    }
  }

  // ---- Every object has a name of its own ----

  /** What the cluster tells objects of one namespace apart by. */
  datatype ObjectName = OfWorkload(name: string) | OfDatabase(name: string) | OfFence

  function ObjectOf(doc: Doc): ObjectName {
    match doc
    case FenceDoc(_) => OfFence
    case WorkloadDoc(w, _) => OfWorkload(w.name)
    case DatabaseDoc(d) => OfDatabase(d.name)
  }

  ghost predicate NamedApart(x: Install) {
    forall i, j :: 0 <= i < j < |Entries(x)| ==> ObjectOf(Entries(x)[i].doc) != ObjectOf(Entries(x)[j].doc)
  }

  /** A workload beside the app that was given the app's name. */
  predicate TakesTheAppsName(x: Install, j: nat) {
    j < |x.plan.workloads| && j != x.primary && x.plan.workloads[j].name == x.place.app
  }

  /** What the object at a place is called. */
  lemma ObjectAt(x: Install, i: nat)
    requires x.primary < |x.plan.workloads| && i < |Entries(x)|
    ensures var n := |x.plan.workloads|;
            ObjectOf(Entries(x)[i].doc)
            == if i == x.primary then OfWorkload(x.place.app)
               else if i < n then OfWorkload(x.plan.workloads[i].name) else OfDatabase(x.plan.databases[i - n].name)
  {
    var es, n := Entries(x), |x.plan.workloads|;
    assert i >= n ==> es[n + (i - n)].doc == DatabaseDoc(x.plan.databases[i - n]);
  }

  lemma SameObjectIff(x: Install, i: nat, j: nat)
    requires x.primary < |x.plan.workloads| && i < j < |Entries(x)|
    ensures ObjectOf(Entries(x)[i].doc) == ObjectOf(Entries(x)[j].doc)
       <==> OneName(x, i, j) || (i == x.primary && TakesTheAppsName(x, j)) || (j == x.primary && TakesTheAppsName(x, i))
  {
    ObjectAt(x, i);
    ObjectAt(x, j);
  }

  /**
   The objects of an install differ in kind or name if and only if no two beside
   the app are given one name and no workload beside the app is given the app's.
   */
  lemma NamedApartIff(x: Install)
    requires x.primary < |x.plan.workloads|
    ensures NamedApart(x)
       <==> && (forall i, j :: 0 <= i < j < |Entries(x)| ==> !OneName(x, i, j))
            && (forall j: nat :: !TakesTheAppsName(x, j))
  {
    if NamedApart(x) {
      forall i, j | 0 <= i < j < |Entries(x)| ensures !OneName(x, i, j) {
        SameObjectIff(x, i, j);
      }
      forall j: nat ensures !TakesTheAppsName(x, j) {
        if TakesTheAppsName(x, j) {
          SameObjectIff(x, if j < x.primary then j else x.primary, if j < x.primary then x.primary else j);
        }
      }
    } else {
      var i, j :| 0 <= i < j < |Entries(x)| && ObjectOf(Entries(x)[i].doc) == ObjectOf(Entries(x)[j].doc);
      SameObjectIff(x, i, j);
    }
  }

  /** An app may be called what one of its own services became: two files then hold a Workload of one name. */
  lemma AppsNameIsTaken(x: Install, j: nat)
    requires x.primary < |x.plan.workloads| && TakesTheAppsName(x, j) && NamesAreObjects(x)
    ensures InItsFile(x, x.primary) && InItsFile(x, j) && Entries(x)[x.primary].file != Entries(x)[j].file
    ensures ObjectOf(Entries(x)[x.primary].doc) == ObjectOf(Entries(x)[j].doc) == OfWorkload(x.place.app)
  {
    EveryObjectHasItsFileIff(x);
    WorkloadFileIsItsOwn(x.plan.workloads[j].name, "");
  }

  // ---- The main result ----

  lemma WithoutSnoc(a: seq<string>, k: string, planned: set<string>)
    ensures Without(a + [k], planned) == Without(a, planned) + if k in planned then [] else [k]
  {
    assert Init(a + [k]) == a;
  }

  lemma {:induction false} WithoutKeeps(a: seq<string>, planned: set<string>)
    ensures forall k :: k in Without(a, planned) <==> k in a && k !in planned
  {
    if a != [] {
      WithoutKeeps(Init(a), planned);
      assert a == Init(a) + [Last(a)];
    }
  }

  /** A list that names none of the planned Secrets is left as it is. */
  lemma {:induction false} WithoutNone(a: seq<string>, planned: set<string>)
    requires forall i :: 0 <= i < |a| ==> a[i] !in planned
    ensures Without(a, planned) == a
  {
    if a != [] {
      var init, last := Init(a), Last(a);
      assert forall i :: 0 <= i < |init| ==> init[i] == a[i];
      assert last == a[|a| - 1];
      WithoutNone(init, planned);
      assert a == init + [last];
    }
  }

  lemma {:induction false} AttachedWorkload(ws: seq<Workload>, gs: seq<Generated>, owned: seq<Source>, i: nat)
    requires i < |ws|
    ensures var a := Attach(ws, gs, owned);
            && |a.workloads| == |ws|
            && (a.workloads[i] == ws[i] || (a.workloads[i] == Reading(ws[i]) && SecretName(ws[i]) in SecretNames(a.secrets)))
  {
    AttachedCount(ws, gs, owned);
    AttachedCount(Init(ws), gs, owned);
    var b, w := Attach(Init(ws), gs, owned), Last(ws);
    var keys := Kept(Asked(gs, w.service), owned);
    var more := b.secrets + [SecretFor(w, keys)];
    assert more[|b.secrets|].name == SecretName(w);
    assert forall j :: 0 <= j < |b.secrets| ==> more[j] == b.secrets[j];
    assert SecretNames(b.secrets) <= SecretNames(more);
    if i < |ws| - 1 {
      AttachedWorkload(Init(ws), gs, owned, i);
    }
  }

  lemma {:induction false} AttachedCount(ws: seq<Workload>, gs: seq<Generated>, owned: seq<Source>)
    ensures |Attach(ws, gs, owned).workloads| == |ws|
  {
    if ws != [] {
      AttachedCount(Init(ws), gs, owned);
    }
  }

  /** The plan after attachSecrets, images and ports settled by whatever follows. */
  ghost predicate PlannedFrom(p: Plan, ws: seq<Workload>, gs: seq<Generated>, owned: seq<Source>) {
    var a := Attach(ws, gs, owned);
    && p.secrets == a.secrets && a.blockers <= p.blockers && IsMint(p.mint, a.mint)
    && |p.workloads| == |ws| && SameReaders(a.workloads, p.workloads)
  }

  /** The same objects reading the same Secrets, whatever became of their images and ports. */
  ghost predicate SameReaders(ws: seq<Workload>, ws': seq<Workload>) {
    |ws| == |ws'| && forall i :: 0 <= i < |ws| ==> ws'[i].name == ws[i].name && ws'[i].envFrom == ws[i].envFrom
  }

  lemma PinningKeepsReaders(p: Plan, pin: Pin)
    ensures SameReaders(p.workloads, PinImages(p, pin).workloads)
  {}

  lemma PortsKeepReaders(p: Plan, ports: Ports)
    ensures SameReaders(p.workloads, ResolvePorts(p, ports).workloads)
  {
    forall i | 0 <= i < |p.workloads| ensures ResolvePorts(p, ports).workloads[i] == WithPort(p.workloads[i], ports) {
      OnlyPortsChange(p.workloads, ports, i);
    }
  }

  lemma FinishedIsPlanned(p: Plan, pin: Pin, ports: Ports, ws: seq<Workload>, gs: seq<Generated>, owned: seq<Source>)
    requires PlannedFrom(p, ws, gs, owned)
    ensures PlannedFrom(Finished(p, pin, ports), ws, gs, owned)
  {
    PinningKeepsReaders(p, pin);
    PortsKeepReaders(PinImages(p, pin), ports);
  }

  ghost predicate Unrefused(p: Plan) {
    p.blockers == [] && Clean(Asks(p.secrets)) && FewEnough(Asks(p.secrets))
  }

  /** Pointing a workload at its planned Secret and dropping the planned Secrets again leaves what it read before. */
  lemma NoPlannedSecretIsRead(ws: seq<Workload>, gs: seq<Generated>, owned: seq<Source>, i: nat)
    requires i < |ws|
    ensures var a := Attach(ws, gs, owned);
            && |a.workloads| == |ws|
            && Without(a.workloads[i].envFrom, SecretNames(a.secrets)) == Without(ws[i].envFrom, SecretNames(a.secrets))
            && ((forall k :: 0 <= k < |ws[i].envFrom| ==> ws[i].envFrom[k] !in SecretNames(a.secrets)) ==>
                  Without(ws[i].envFrom, SecretNames(a.secrets)) == ws[i].envFrom)
  {
    AttachedWorkload(ws, gs, owned, i);
    var planned := SecretNames(Attach(ws, gs, owned).secrets);
    WithoutSnoc(ws[i].envFrom, SecretName(ws[i]), planned);
    if forall k :: 0 <= k < |ws[i].envFrom| ==> ws[i].envFrom[k] !in planned {
      WithoutNone(ws[i].envFrom, planned);
    }
  }

  /** No other workload of the same name has a service that asked for anything. */
  ghost predicate AsksAlone(ws: seq<Workload>, gs: seq<Generated>, i: nat)
    requires i < |ws|
  {
    forall j :: 0 <= j < |ws| && j != i && ws[j].name == ws[i].name ==> Asked(gs, ws[j].service) == []
  }

  lemma UnblockedKeys(ws: seq<Workload>, gs: seq<Generated>, owned: seq<Source>, i: nat)
    requires Attach(ws, gs, owned).blockers == [] && i < |ws|
    ensures KeysFor(ws[i], gs, owned) == SortBy(AllKeys(Asked(gs, ws[i].service)), KEY_NAME)
    ensures KeysFor(ws[i], gs, owned) == [] <==> Asked(gs, ws[i].service) == []
  {
    UnblockedWorkloads(ws, gs, owned, i);
    UnblockedKeepsAll(ws[i].name, Asked(gs, ws[i].service), owned);
  }

  lemma AloneIff(ws: seq<Workload>, gs: seq<Generated>, owned: seq<Source>, i: nat)
    requires Attach(ws, gs, owned).blockers == [] && i < |ws|
    ensures Alone(ws, gs, owned, i) <==> AsksAlone(ws, gs, i)
  {
    forall j | 0 <= j < |ws| ensures KeysFor(ws[j], gs, owned) == [] <==> Asked(gs, ws[j].service) == [] {
      UnblockedKeys(ws, gs, owned, j);
    }
  }

  /**
   For an entry refused nothing, a rendered workload asks for exactly what its
   compose service asked for, in name order, if and only if no other workload got
   its name and asked for anything; either way it asks for at most sixteen values,
   and reads what it read before less every Secret of the plan's.
   */
  lemma EachValueOnceIff(x: Install, ws: seq<Workload>, gs: seq<Generated>, owned: seq<Source>, i: nat)
    requires OncePerService(gs) && PlannedFrom(x.plan, ws, gs, owned) && Unrefused(x.plan)
    requires x.secrets == ClaimAll(Asks(x.plan.secrets)).out && i < |x.plan.workloads|
    ensures Rendered(x, i).secrets == Values(SortBy(AllKeys(Asked(gs, ws[i].service)), KEY_NAME)) <==> AsksAlone(ws, gs, i)
    ensures Ascending(SortBy(AllKeys(Asked(gs, ws[i].service)), KEY_NAME), KEY_NAME) && |Rendered(x, i).secrets| <= MAX_GENERATED
    ensures Rendered(x, i).envFrom == Without(ws[i].envFrom, SecretNames(x.plan.secrets))
    ensures forall s :: s in Rendered(x, i).envFrom ==> s !in SecretNames(x.plan.secrets)
  {
    var a := Attach(ws, gs, owned);
    var asks := Asks(a.secrets);
    AttachedWorkload(ws, gs, owned, i);
    NoPlannedSecretIsRead(ws, gs, owned, i);
    UnrefusedIffClean(asks);
    assert ListAt(x.secrets, ws[i].name) == ValuesFor(asks, ws[i].name);
    ValuesOfAWorkload(ws, gs, owned, i);
    UnblockedKeys(ws, gs, owned, i);
    AloneIff(ws, gs, owned, i);
    RequestsAscend(gs, ws[i].service);
    WithoutKeeps(ws[i].envFrom, SecretNames(x.plan.secrets));
  }

  function Labelled(owner: string, values: seq<GeneratedSecret>): seq<(string, GeneratedSecret)> {
    seq(|values|, i requires 0 <= i < |values| => (owner, values[i]))
  }

  /** The variables rendered, workload by workload. */
  function Delivered(ws: seq<Workload>, out: map<string, seq<GeneratedSecret>>): seq<(string, GeneratedSecret)> {
    if ws == [] then [] else Delivered(Init(ws), out) + Labelled(Last(ws).name, ListAt(out, Last(ws).name))
  }

  function Pairs(asks: seq<Ask>): seq<(string, GeneratedSecret)> {
    seq(|asks|, i requires 0 <= i < |asks| => (asks[i].owner, Value(asks[i].key)))
  }

  /** How many values a workload is given beyond its own. */
  function Surplus(w: Workload, gs: seq<Generated>, owned: seq<Source>, out: map<string, seq<GeneratedSecret>>): int {
    |ListAt(out, w.name)| - |KeysFor(w, gs, owned)|
  }

  function TotalSurplus(ws: seq<Workload>, gs: seq<Generated>, owned: seq<Source>, out: map<string, seq<GeneratedSecret>>): int {
    if ws == [] then 0 else TotalSurplus(Init(ws), gs, owned, out) + Surplus(Last(ws), gs, owned, out)
  }

  lemma {:induction false} DeliveredCount(ws: seq<Workload>, gs: seq<Generated>, owned: seq<Source>, out: map<string, seq<GeneratedSecret>>)
    ensures |Delivered(ws, out)| == |Asks(Attach(ws, gs, owned).secrets)| + TotalSurplus(ws, gs, owned, out)
  {
    if ws != [] {
      DeliveredCount(Init(ws), gs, owned, out);
      AttachedAsks(ws, gs, owned);
    }
  }

  /** Where each workload is given at least its own, nothing more is given in all only if nobody is given more. */
  lemma {:induction false} NoSurplusAtAll(ws: seq<Workload>, gs: seq<Generated>, owned: seq<Source>, out: map<string, seq<GeneratedSecret>>)
    requires forall w :: w in ws ==> Surplus(w, gs, owned, out) >= 0
    ensures TotalSurplus(ws, gs, owned, out) >= 0
    ensures TotalSurplus(ws, gs, owned, out) == 0 ==> forall w :: w in ws ==> Surplus(w, gs, owned, out) == 0
  {
    if ws != [] {
      assert ws == Init(ws) + [Last(ws)];
      NoSurplusAtAll(Init(ws), gs, owned, out);
    }
  }

  lemma {:induction false} DeliveredInOrder(ws: seq<Workload>, gs: seq<Generated>, owned: seq<Source>, out: map<string, seq<GeneratedSecret>>)
    requires forall i :: 0 <= i < |ws| ==> ListAt(out, ws[i].name) == Values(KeysFor(ws[i], gs, owned))
    ensures Delivered(ws, out) == Pairs(Asks(Attach(ws, gs, owned).secrets))
  {
    if ws != [] {
      var w := Last(ws);
      assert forall i :: 0 <= i < |ws| - 1 ==> Init(ws)[i] == ws[i];
      assert ListAt(out, ws[|ws| - 1].name) == Values(KeysFor(w, gs, owned));
      DeliveredInOrder(Init(ws), gs, owned, out);
      AttachedAsks(ws, gs, owned);
      PairsConcat(Asks(Attach(Init(ws), gs, owned).secrets), w.name, KeysFor(w, gs, owned));
    }
  }

  lemma PairsConcat(asks: seq<Ask>, owner: string, keys: seq<Key>)
    ensures Pairs(asks + AsksOf(owner, keys)) == Pairs(asks) + Labelled(owner, Values(keys))
  {
    var a, b := Pairs(asks + AsksOf(owner, keys)), Pairs(asks) + Labelled(owner, Values(keys));
    forall i | 0 <= i < |a| ensures a[i] == b[i] {
      assert i >= |asks| ==> (asks + AsksOf(owner, keys))[i] == Ask(owner, keys[i - |asks|]);
    }
  }

  /** What two workloads of one name share is nothing: neither asked for anything. */
  ghost predicate NamesAskAlone(ws: seq<Workload>, gs: seq<Generated>) {
    forall i :: 0 <= i < |ws| ==> AsksAlone(ws, gs, i)
  }

  /**
   Minted values and planned keys correspond one for one: the minted values are
   the keys' sources in name order, no source twice and none of them a Database's
   own. The rendered (workload, variable) pairs are those keys, one for one and in
   order, if and only if workloads of one name ask for nothing.
   */
  lemma MintOncePerRequest(p: Plan, ws: seq<Workload>, gs: seq<Generated>, owned: seq<Source>)
    requires PlannedFrom(p, ws, gs, owned) && Unrefused(p)
    ensures var asks := Asks(p.secrets);
            && |p.mint| == |asks| && p.mint == SortBy(SourcesOf(asks), SOURCE_NAME) && DistinctKeys(SourcesOf(asks), SOURCE_NAME)
            && (forall s :: s in p.mint ==> !Named(owned, s.name))
            && (Delivered(ws, ClaimAll(asks).out) == Pairs(asks) <==> NamesAskAlone(ws, gs))
  {
    MintMatchesTheRequests(ws, gs, owned, p.mint);
    NothingOwnedIsMinted(ws, gs, owned);
    DeliveredIff(p, ws, gs, owned);
  }

  lemma DeliveredIff(p: Plan, ws: seq<Workload>, gs: seq<Generated>, owned: seq<Source>)
    requires PlannedFrom(p, ws, gs, owned) && Unrefused(p)
    ensures Delivered(ws, ClaimAll(Asks(p.secrets)).out) == Pairs(Asks(p.secrets)) <==> NamesAskAlone(ws, gs)
  {
    var asks := Asks(p.secrets);
    var out := ClaimAll(asks).out;
    UnrefusedIffClean(asks);
    forall i | 0 <= i < |ws| ensures OwnIff(ListAt(out, ws[i].name), Values(KeysFor(ws[i], gs, owned)), AsksAlone(ws, gs, i)) {
      assert ListAt(out, ws[i].name) == ValuesFor(asks, ws[i].name);
      ValuesOfAWorkload(ws, gs, owned, i);
      AloneIff(ws, gs, owned, i);
    }
    DeliveredCount(ws, gs, owned, out);
    NoSurplusAtAll(ws, gs, owned, out);
    forall i | 0 <= i < |ws| && Delivered(ws, out) == Pairs(asks) ensures AsksAlone(ws, gs, i) {
      assert ws[i] in ws && Surplus(ws[i], gs, owned, out) == 0;
    }
    if NamesAskAlone(ws, gs) {
      DeliveredInOrder(ws, gs, owned, out);
    }
  }
}
