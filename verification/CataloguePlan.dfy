/**
 The catalogue planner of catalog/plan.go: which values an entry asks the
 platform to invent, which images the API would refuse, which ports are known,
 and every reason the entry is not installable.
 */
module CataloguePlan {
  import opened Common
  import opened Text

  const SECRET_SUFFIX := "-env"

  datatype Source = Source(name: string, kind: string)
  datatype Generated = Generated(service: string, key: string, value: string, sources: seq<Source>)

  datatype GeneratedSecret = GeneratedSecret(name: string, kind: string)

  /** The parts of a Workload the planner reads or writes; `service` is its compose annotation, `rest` all it leaves alone. */
  datatype Workload = Workload(name: string, service: string, image: string, port: int,
                               envFrom: seq<string>, secrets: seq<GeneratedSecret>, rest: string)
  datatype Database = Database(name: string, image: string, rest: string)

  datatype Key = Key(name: string, template: string, sources: seq<Source>)
  datatype Secret = Secret(name: string, keys: seq<Key>)

  datatype Reason =
    | OwnedByDatabase(owned: seq<string>)
    | ImageRefused
    | ImageUnresolved(why: string)
    | NobodyToAsk
    | ImageNotAsked(why: string)
    | NoPort
    | SeveralPorts
  datatype Blocker = Blocker(owner: string, field: string, reason: Reason)

  datatype Plan = Plan(workloads: seq<Workload>, databases: seq<Database>, secrets: seq<Secret>,
                       mint: seq<Source>, blockers: seq<Blocker>)

  const KEY_NAME := (k: Key) => k.name
  const SOURCE_NAME := (s: Source) => s.name

  // ---- attachSecrets ----

  /** The requests of one compose service, in the order they were made. */
  function Asked(gs: seq<Generated>, service: string): seq<Generated> {
    if gs == [] then []
    else Asked(Init(gs), service) + if Last(gs).service == service then [Last(gs)] else []
  }

  /** ownedByDatabase: the names among `want` that a Database publishes itself. */
  function Owned(want: seq<Source>, owned: seq<Source>): seq<string> {
    if want == [] then []
    else Owned(Init(want), owned) + if Named(owned, Last(want).name) then [Last(want).name] else []
  }

  predicate Named(sources: seq<Source>, name: string) {
    exists i :: 0 <= i < |sources| && sources[i].name == name
  }

  function KeyOf(g: Generated): Key {
    Key(g.key, g.value, g.sources)
  }

  function Kept(asked: seq<Generated>, owned: seq<Source>): seq<Key> {
    if asked == [] then []
    else Kept(Init(asked), owned) + if Owned(Last(asked).sources, owned) == [] then [KeyOf(Last(asked))] else []
  }

  function OwnedBlockers(owner: string, asked: seq<Generated>, owned: seq<Source>): seq<Blocker> {
    if asked == [] then []
    else
      var names := Owned(Last(asked).sources, owned);
      OwnedBlockers(owner, Init(asked), owned)
      + if names == [] then [] else [Blocker(owner, Last(asked).key, OwnedByDatabase(names))]
  }

  /** The values to mint, by name. */
  function MintSources(m: map<string, Source>, sources: seq<Source>): map<string, Source> {
    if sources == [] then m else MintSources(m, Init(sources))[Last(sources).name := Last(sources)]
  }

  function MintKeys(m: map<string, Source>, keys: seq<Key>): map<string, Source> {
    if keys == [] then m else MintSources(MintKeys(m, Init(keys)), Last(keys).sources)
  }

  datatype Attached = Attached(workloads: seq<Workload>, secrets: seq<Secret>, blockers: seq<Blocker>, mint: map<string, Source>)

  function SecretName(w: Workload): string {
    w.name + SECRET_SUFFIX
  }

  function SecretFor(w: Workload, keys: seq<Key>): Secret {
    Secret(SecretName(w), SortBy(keys, KEY_NAME))
  }

  /** The workload pointed at the Secret planned for it. */
  function Reading(w: Workload): Workload {
    w.(envFrom := w.envFrom + [SecretName(w)])
  }

  function AttachOne(a: Attached, w: Workload, asked: seq<Generated>, owned: seq<Source>): Attached {
    var keys := Kept(asked, owned);
    var blockers := a.blockers + OwnedBlockers(w.name, asked, owned);
    if keys == [] then a.(workloads := a.workloads + [w], blockers := blockers)
    else
      Attached(a.workloads + [Reading(w)], a.secrets + [SecretFor(w, keys)], blockers, MintKeys(a.mint, keys))
  }

  function Attach(ws: seq<Workload>, gs: seq<Generated>, owned: seq<Source>): Attached {
    if ws == [] then Attached([], [], [], map[])
    else AttachOne(Attach(Init(ws), gs, owned), Last(ws), Asked(gs, Last(ws).service), owned)
  }

  ghost predicate KeyedByName(m: map<string, Source>) {
    forall k :: k in m ==> m[k].name == k
  }

  /** Every value to mint, once each, in name order. */
  ghost predicate IsMint(mint: seq<Source>, m: map<string, Source>) {
    Ascending(mint, SOURCE_NAME) && forall s :: s in mint <==> s.name in m && m[s.name] == s
  }

  lemma MintIsDetermined(a: seq<Source>, b: seq<Source>, m: map<string, Source>)
    requires IsMint(a, m) && IsMint(b, m)
    ensures a == b
  {
    AscendingIsUnique(a, b, SOURCE_NAME);
  }

  // ---- refusedImage ----

  /** The two rules of refusedImage; true when neither refuses. */
  predicate Accepted(image: string) {
    if HasSuffix(image, ":latest") then false
    else '@' in image || ':' in Last(Split(image, '/'))
  }

  /** The three rules on the Image field of the Workload and Database APIs. */
  ghost predicate AdmittedByTheApi(image: string) {
    && |image| >= 1
    && (Contains(image, "@") || Contains(Last(Split(image, '/')), ":"))
    && !HasSuffix(image, ":latest")
  }

  // ---- pinImages ----

  /** A resolver may answer each call differently; none at all is None. */
  type Pin = Option<(nat, string) -> Result<string, string>>

  function Pinned(image: string, pin: Pin, call: nat): (string, Option<Reason>) {
    if Accepted(image) then (image, None)
    else
      match pin
      case None => (image, Some(ImageRefused))
      case Some(resolve) =>
        match resolve(call, image)
        case Err(why) => (image, Some(ImageUnresolved(why)))
        case Ok(resolved) => (resolved, if Accepted(resolved) then None else Some(ImageRefused))
  }

  /** The images of a plan, workloads' first, and the objects they belong to. */
  function ImagesOf(p: Plan): (images: seq<string>)
    ensures |images| == |p.workloads| + |p.databases|
  {
    seq(|p.workloads|, i requires 0 <= i < |p.workloads| => p.workloads[i].image)
    + seq(|p.databases|, i requires 0 <= i < |p.databases| => p.databases[i].image)
  }

  function ObjectsOf(p: Plan): (names: seq<string>)
    ensures |names| == |p.workloads| + |p.databases|
  {
    seq(|p.workloads|, i requires 0 <= i < |p.workloads| => p.workloads[i].name)
    + seq(|p.databases|, i requires 0 <= i < |p.databases| => p.databases[i].name)
  }

  /** The plan with each image written where it belongs. */
  function WithImages(p: Plan, images: seq<string>): (r: Plan)
    requires |images| == |p.workloads| + |p.databases|
    ensures |r.workloads| == |p.workloads| && |r.databases| == |p.databases|
  {
    var n := |p.workloads|;
    p.(workloads := seq(n, i requires 0 <= i < n => p.workloads[i].(image := images[i])),
       databases := seq(|p.databases|, i requires 0 <= i < |p.databases| => p.databases[i].(image := images[n + i])))
  }

  lemma ImagesInPlace(p: Plan, images: seq<string>)
    requires |images| == |p.workloads| + |p.databases|
    ensures ImagesOf(WithImages(p, images)) == images
    ensures WithImages(p, ImagesOf(p)) == p
  {
    var q := WithImages(p, ImagesOf(p));
    assert forall i :: 0 <= i < |p.workloads| ==> q.workloads[i] == p.workloads[i];
    assert forall i :: 0 <= i < |p.databases| ==> q.databases[i] == p.databases[i];
    assert q.workloads == p.workloads && q.databases == p.databases;
    var r := ImagesOf(WithImages(p, images));
    forall i | 0 <= i < |images| ensures r[i] == images[i] {
      assert i >= |p.workloads| ==> images[|p.workloads| + (i - |p.workloads|)] == images[i];
    }
  }

  function BlockedBy(name: string, field: string, no: Option<Reason>): seq<Blocker> {
    if no.Some? then [Blocker(name, field, no.value)] else []
  }

  function PinnedImages(images: seq<string>, pin: Pin): (r: seq<string>)
    ensures |r| == |images|
  {
    if images == [] then [] else PinnedImages(Init(images), pin) + [Pinned(Last(images), pin, |images| - 1).0]
  }

  function ImageBlockers(names: seq<string>, images: seq<string>, pin: Pin): seq<Blocker>
    requires |names| == |images|
  {
    if images == [] then []
    else
      ImageBlockers(Init(names), Init(images), pin) + BlockedBy(Last(names), "image", Pinned(Last(images), pin, |images| - 1).1)
  }

  function PinImages(p: Plan, pin: Pin): (r: Plan)
    ensures |r.workloads| == |p.workloads| && |r.databases| == |p.databases|
  {
    WithImages(p, PinnedImages(ImagesOf(p), pin)).(blockers := p.blockers + ImageBlockers(ObjectsOf(p), ImagesOf(p), pin))
  }

  lemma PinnedStep(names: seq<string>, images: seq<string>, pin: Pin, i: nat)
    requires |names| == |images| && i < |images|
    ensures PinnedImages(images[..i + 1], pin) == PinnedImages(images[..i], pin) + [Pinned(images[i], pin, i).0]
    ensures ImageBlockers(names[..i + 1], images[..i + 1], pin)
         == ImageBlockers(names[..i], images[..i], pin) + BlockedBy(names[i], "image", Pinned(images[i], pin, i).1)
  {
    assert Init(images[..i + 1]) == images[..i] && Last(images[..i + 1]) == images[i];
    assert Init(names[..i + 1]) == names[..i] && Last(names[..i + 1]) == names[i];
  }

  /** The loop of pinImages. */
  method PinEach(names: seq<string>, images: seq<string>, pin: Pin) returns (pinned: seq<string>, blocked: seq<Blocker>)
    requires |names| == |images|
    ensures pinned == PinnedImages(images, pin) && blocked == ImageBlockers(names, images, pin)
  {
    pinned, blocked := [], [];
    for i := 0 to |images|
      invariant pinned == PinnedImages(images[..i], pin) && blocked == ImageBlockers(names[..i], images[..i], pin)
    {
      PinnedStep(names, images, pin, i);
      var (resolved, no) := Pinned(images[i], pin, i);
      pinned := pinned + [resolved];
      blocked := blocked + BlockedBy(names[i], "image", no);
    }
    assert images[..|images|] == images && names[..|names|] == names;
  }

  // ---- resolvePorts ----

  type Ports = Option<string -> Result<seq<int>, string>>

  function Ported(w: Workload, ports: Ports): (int, Option<Reason>) {
    if w.port != 0 then (w.port, None)
    else
      match ports
      case None => (0, Some(NobodyToAsk))
      case Some(ask) =>
        match ask(w.image)
        case Err(why) => (0, Some(ImageNotAsked(why)))
        case Ok(found) => if |found| == 0 then (0, Some(NoPort)) else if |found| > 1 then (0, Some(SeveralPorts)) else (found[0], None)
  }

  function WithPort(w: Workload, ports: Ports): Workload {
    w.(port := Ported(w, ports).0)
  }

  function PortedWorkloads(ws: seq<Workload>, ports: Ports): (r: seq<Workload>)
    ensures |r| == |ws|
  {
    if ws == [] then [] else PortedWorkloads(Init(ws), ports) + [WithPort(Last(ws), ports)]
  }

  function PortBlockers(ws: seq<Workload>, ports: Ports): seq<Blocker> {
    if ws == [] then []
    else PortBlockers(Init(ws), ports) + BlockedBy(Last(ws).name, "port", Ported(Last(ws), ports).1)
  }

  function ResolvePorts(p: Plan, ports: Ports): (r: Plan)
    ensures |r.workloads| == |p.workloads|
  {
    p.(workloads := PortedWorkloads(p.workloads, ports), blockers := p.blockers + PortBlockers(p.workloads, ports))
  }

  lemma PortedStep(ws: seq<Workload>, ports: Ports, i: nat)
    requires i < |ws|
    ensures PortedWorkloads(ws[..i + 1], ports) == PortedWorkloads(ws[..i], ports) + [WithPort(ws[i], ports)]
    ensures PortBlockers(ws[..i + 1], ports) == PortBlockers(ws[..i], ports) + BlockedBy(ws[i].name, "port", Ported(ws[i], ports).1)
  {
    assert Init(ws[..i + 1]) == ws[..i] && Last(ws[..i + 1]) == ws[i];
  }

  /** The loop of resolvePorts. */
  method PortEach(ws: seq<Workload>, ports: Ports) returns (ported: seq<Workload>, blocked: seq<Blocker>)
    ensures ported == PortedWorkloads(ws, ports) && blocked == PortBlockers(ws, ports)
  {
    ported, blocked := [], [];
    for i := 0 to |ws|
      invariant ported == PortedWorkloads(ws[..i], ports) && blocked == PortBlockers(ws[..i], ports)
    {
      PortedStep(ws, ports, i);
      ported := ported + [WithPort(ws[i], ports)];
      blocked := blocked + BlockedBy(ws[i].name, "port", Ported(ws[i], ports).1);
    }
    assert ws[..|ws|] == ws;
  }

  // ---- The planner itself ----

  /** A Go map of slices: a missing key is an empty slice. */
  function ListAt<T>(m: map<string, seq<T>>, k: string): seq<T> {
    if k in m then m[k] else []
  }

  lemma AttachStep(ws: seq<Workload>, i: nat, gs: seq<Generated>, owned: seq<Source>)
    requires i < |ws|
    ensures Attach(ws[..i + 1], gs, owned) == AttachOne(Attach(ws[..i], gs, owned), ws[i], Asked(gs, ws[i].service), owned)
  {
    assert Init(ws[..i + 1]) == ws[..i] && Last(ws[..i + 1]) == ws[i];
  }

  /** byService. */
  method GroupByService(gs: seq<Generated>) returns (m: map<string, seq<Generated>>)
    ensures forall s :: ListAt(m, s) == Asked(gs, s)
  {
    m := map[];
    for i := 0 to |gs|
      invariant forall s :: ListAt(m, s) == Asked(gs[..i], s)
    {
      assert Init(gs[..i + 1]) == gs[..i] && Last(gs[..i + 1]) == gs[i];
      m := m[gs[i].service := ListAt(m, gs[i].service) + [gs[i]]];
    }
    assert gs[..|gs|] == gs;
  }

  method OwnedNames(want: seq<Source>, owned: seq<Source>) returns (names: seq<string>)
    ensures names == Owned(want, owned)
  {
    names := [];
    for i := 0 to |want|
      invariant names == Owned(want[..i], owned)
    {
      assert Init(want[..i + 1]) == want[..i];
      if Named(owned, want[i].name) {
        names := names + [want[i].name];
      }
    }
    assert want[..|want|] == want;
  }

  method AddSources(m: map<string, Source>, sources: seq<Source>) returns (r: map<string, Source>)
    ensures r == MintSources(m, sources)
  {
    r := m;
    for i := 0 to |sources|
      invariant r == MintSources(m, sources[..i])
    {
      assert Init(sources[..i + 1]) == sources[..i];
      r := r[sources[i].name := sources[i]];
    }
    assert sources[..|sources|] == sources;
  }

  /** The minted values out of their map, in whatever order it yields them, then sorted. */
  method SortedMint(m: map<string, Source>) returns (mint: seq<Source>)
    requires KeyedByName(m)
    ensures IsMint(mint, m)
  {
    mint := [];
    var left := m.Keys;
    while left != {}
      invariant left <= m.Keys
      invariant DistinctKeys(mint, SOURCE_NAME)
      invariant forall s :: s in mint <==> s.name in m && s.name !in left && m[s.name] == s
      decreases left
    {
      var k :| k in left;
      forall i | 0 <= i < |mint| ensures SOURCE_NAME(mint[i]) != k {
        assert mint[i] in mint;
      }
      mint := mint + [m[k]];
      left := left - {k};
    }
    SortAscends(mint, SOURCE_NAME);
    ghost var sorted := SortBy(mint, SOURCE_NAME);
    forall s ensures s in sorted <==> s in mint {
      assert s in multiset(sorted) <==> s in multiset(mint);
    }
    mint := SortBy(mint, SOURCE_NAME);
  }

  /** The loop of attachSecrets over the workloads. */
  method AttachEach(ws: seq<Workload>, gs: seq<Generated>, owned: seq<Source>) returns (a: Attached)
    ensures a == Attach(ws, gs, owned) && KeyedByName(a.mint)
  {
    var byService := GroupByService(gs);
    a := Attached([], [], [], map[]);
    for i := 0 to |ws|
      invariant a == Attach(ws[..i], gs, owned) && KeyedByName(a.mint)
    {
      AttachStep(ws, i, gs, owned);
      a := AttachTo(a, ws[i], ListAt(byService, ws[i].service), owned);
    }
    assert ws[..|ws|] == ws;
  }

  /** Its body: one workload's requests. */
  method AttachTo(a: Attached, w: Workload, asked: seq<Generated>, owned: seq<Source>) returns (r: Attached)
    requires KeyedByName(a.mint)
    ensures r == AttachOne(a, w, asked, owned) && KeyedByName(r.mint)
  {
    var keys, blocked, minted := KeysFor(w.name, asked, owned, a.mint);
    if keys == [] {
      return a.(workloads := a.workloads + [w], blockers := a.blockers + blocked);
    }
    var secret := Secret(SecretName(w), SortBy(keys, KEY_NAME));
    return Attached(a.workloads + [w.(envFrom := w.envFrom + [secret.name])], a.secrets + [secret], a.blockers + blocked, minted);
  }

  class Planner {
    var workloads: seq<Workload>
    var databases: seq<Database>
    var secrets: seq<Secret>
    var mint: seq<Source>
    var blockers: seq<Blocker>

    constructor (workloads: seq<Workload>, databases: seq<Database>)
      ensures State() == Plan(workloads, databases, [], [], [])
    {
      this.workloads := workloads;
      this.databases := databases;
      secrets := [];
      mint := [];
      blockers := [];
    }

    function State(): Plan
      reads this
    {
      Plan(workloads, databases, secrets, mint, blockers)
    }

    method AttachSecrets(gs: seq<Generated>, owned: seq<Source>)
      requires secrets == [] && blockers == []
      modifies this
      ensures databases == old(databases)
      ensures var a := Attach(old(workloads), gs, owned);
              workloads == a.workloads && secrets == a.secrets && blockers == a.blockers && IsMint(mint, a.mint)
    {
      var a := AttachEach(workloads, gs, owned);
      workloads, secrets, blockers := a.workloads, a.secrets, a.blockers;
      mint := SortedMint(a.mint);
    }

    method PinAll(pin: Pin)
      modifies this
      ensures State() == PinImages(old(State()), pin)
    {
      var p := Plan(workloads, databases, secrets, mint, blockers);
      var images, blocked := PinEach(ObjectsOf(p), ImagesOf(p), pin);
      var q := WithImages(p, images);
      workloads, databases, blockers := q.workloads, q.databases, blockers + blocked;
    }

    method PortAll(ports: Ports)
      modifies this
      ensures State() == ResolvePorts(old(State()), ports)
    {
      var ported, blocked := PortEach(workloads, ports);
      workloads, blockers := ported, blockers + blocked;
    }
  }

  /** The loop over one workload's requests. */
  method KeysFor(owner: string, asked: seq<Generated>, owned: seq<Source>, minting: map<string, Source>)
    returns (keys: seq<Key>, blocked: seq<Blocker>, minted: map<string, Source>)
    requires KeyedByName(minting)
    ensures keys == Kept(asked, owned) && blocked == OwnedBlockers(owner, asked, owned) && minted == MintKeys(minting, keys)
    ensures KeyedByName(minted)
  {
    keys, blocked, minted := [], [], minting;
    for i := 0 to |asked|
      invariant keys == Kept(asked[..i], owned) && blocked == OwnedBlockers(owner, asked[..i], owned)
      invariant minted == MintKeys(minting, keys) && KeyedByName(minted)
    {
      assert Init(asked[..i + 1]) == asked[..i] && Last(asked[..i + 1]) == asked[i];
      var names := OwnedNames(asked[i].sources, owned);
      if names != [] {
        blocked := blocked + [Blocker(owner, asked[i].key, OwnedByDatabase(names))];
      } else {
        assert Init(keys + [KeyOf(asked[i])]) == keys;
        keys := keys + [KeyOf(asked[i])];
        MintNames(minted, asked[i].sources);
        minted := AddSources(minted, asked[i].sources);
      }
    }
    assert asked[..|asked|] == asked;
  }

  lemma {:induction false} MintNames(m: map<string, Source>, sources: seq<Source>)
    requires KeyedByName(m)
    ensures KeyedByName(MintSources(m, sources))
  {
    if sources != [] {
      MintNames(m, Init(sources));
    }
  }

  // ---- Images the API takes ----

  lemma InIffContains(s: string, c: char)
    ensures c in s <==> Contains(s, [c])
  {
    if c in s {
      var i :| 0 <= i < |s| && s[i] == c;
      assert s[i..][..1] == [c];
      assert HasPrefix(s[i..], [c]);
    }
    if Contains(s, [c]) {
      var i :| 0 <= i <= |s| && HasPrefix(s[i..], [c]);
      assert s[i] == s[i..][..1][0] == c;
    }
  }

  /** The planner's two rules refuse exactly what the API's three do. */
  lemma AcceptedIffAdmitted(image: string)
    ensures Accepted(image) <==> AdmittedByTheApi(image)
  {
    InIffContains(image, '@');
    InIffContains(Last(Split(image, '/')), ':');
    assert image == "" ==> Split(image, '/') == [""];
  }

  /** The last piece is what follows the last separator. */
  lemma {:induction false} LastPiece(head: string, tail: string, c: char)
    requires c !in tail
    ensures Last(Split(head + [c] + tail, c)) == tail
    decreases |head|
  {
    var s := head + [c] + tail;
    var i := IndexOf(s, c);
    assert s[|head|] == c && i <= |head|;
    if i < |head| {
      assert s[i + 1..] == head[i + 1..] + [c] + tail;
      LastPiece(head[i + 1..], tail, c);
    } else {
      assert s[i + 1..] == tail;
      assert IndexOf(tail, c) == |tail|;
      assert Split(tail, c) == [tail];
    }
  }

  /** The colon of a registry's port is no tag. */
  lemma RegistryPortIsNoTag(registry: string, path: string)
    requires '/' !in path && ':' !in path && '@' !in path && '@' !in registry
    ensures !Accepted(registry + "/" + path)
  {
    LastPiece(registry, path, '/');
    assert registry + "/" + path == registry + ['/'] + path;
  }

  // ---- What an installable plan is ----

  /** pinImages, then resolvePorts. */
  function Finished(p: Plan, pin: Pin, ports: Ports): Plan {
    ResolvePorts(PinImages(p, pin), ports)
  }

  ghost predicate Nonzero(ports: Ports) {
    ports.Some? ==> forall image :: ports.value(image).Ok? ==> 0 !in ports.value(image).value
  }

  ghost predicate AllAccepted(images: seq<string>) {
    forall i :: 0 <= i < |images| ==> Accepted(images[i])
  }

  lemma AcceptedSplit(images: seq<string>, image: string)
    ensures AllAccepted(images + [image]) <==> AllAccepted(images) && Accepted(image)
  {
    var more := images + [image];
    assert forall i :: 0 <= i < |images| ==> more[i] == images[i];
    assert more[|images|] == image;
  }

  /** No image is blocked exactly when every image the plan ends up with is accepted. */
  lemma {:induction false} NoImageBlockers(names: seq<string>, images: seq<string>, pin: Pin)
    requires |names| == |images|
    ensures ImageBlockers(names, images, pin) == [] <==> AllAccepted(PinnedImages(images, pin))
  {
    if images != [] {
      NoImageBlockers(Init(names), Init(images), pin);
      AcceptedSplit(PinnedImages(Init(images), pin), Pinned(Last(images), pin, |images| - 1).0);
      UnblockedIffAccepted(Last(images), pin, |images| - 1);
    }
  }

  ghost predicate AllKnown(ws: seq<Workload>) {
    forall i :: 0 <= i < |ws| ==> ws[i].port != 0
  }

  lemma KnownSplit(ws: seq<Workload>, w: Workload)
    ensures AllKnown(ws + [w]) <==> AllKnown(ws) && w.port != 0
  {
    var more := ws + [w];
    assert forall i :: 0 <= i < |ws| ==> more[i] == ws[i];
    assert more[|ws|] == w;
  }

  /** No port is blocked exactly when every port the plan ends up with is known. */
  lemma {:induction false} NoPortBlockers(ws: seq<Workload>, ports: Ports)
    requires Nonzero(ports)
    ensures PortBlockers(ws, ports) == [] <==> AllKnown(PortedWorkloads(ws, ports))
  {
    if ws != [] {
      NoPortBlockers(Init(ws), ports);
      KnownSplit(PortedWorkloads(Init(ws), ports), WithPort(Last(ws), ports));
      UnblockedIffKnown(Last(ws), ports);
    }
  }

  /** Resolving a port changes nothing else. */
  lemma {:induction false} OnlyPortsChange(ws: seq<Workload>, ports: Ports, i: nat)
    requires i < |ws|
    ensures PortedWorkloads(ws, ports)[i] == WithPort(ws[i], ports)
  {
    if i < |ws| - 1 {
      OnlyPortsChange(Init(ws), ports, i);
    }
  }

  lemma PortsKeepImages(p: Plan, ports: Ports)
    ensures ImagesOf(ResolvePorts(p, ports)) == ImagesOf(p)
  {
    forall i | 0 <= i < |p.workloads| ensures ResolvePorts(p, ports).workloads[i].image == p.workloads[i].image {
      OnlyPortsChange(p.workloads, ports, i);
    }
  }

  lemma UnblockedIffAccepted(image: string, pin: Pin, call: nat)
    ensures Pinned(image, pin, call).1.None? <==> Accepted(Pinned(image, pin, call).0)
  {}

  lemma UnblockedIffKnown(w: Workload, ports: Ports)
    requires Nonzero(ports)
    ensures Ported(w, ports).1.None? <==> Ported(w, ports).0 != 0
  {}

  /**
   A plan is installable exactly when nothing blocked it before, every image it
   would commit is one the API admits, and every workload's port is known.
   */
  lemma InstallableIff(p: Plan, pin: Pin, ports: Ports)
    requires Nonzero(ports)
    ensures var f := Finished(p, pin, ports);
            f.blockers == [] <==> p.blockers == [] && AllAdmitted(ImagesOf(f)) && AllKnown(f.workloads)
  {
    var q := PinImages(p, pin);
    var images := PinnedImages(ImagesOf(p), pin);
    NoImageBlockers(ObjectsOf(p), ImagesOf(p), pin);
    ImagesInPlace(p, images);
    AcceptedAreAdmitted(images);
    ImagesBesideBlockers(WithImages(p, images), q.blockers);
    NoPortBlockers(q.workloads, ports);
    PortsKeepImages(q, ports);
  }

  lemma ImagesBesideBlockers(p: Plan, blockers: seq<Blocker>)
    ensures ImagesOf(p.(blockers := blockers)) == ImagesOf(p)
  {}

  /** Images the API would take, every one. */
  ghost predicate AllAdmitted(images: seq<string>) {
    forall i :: 0 <= i < |images| ==> AdmittedByTheApi(images[i])
  }

  lemma AcceptedAreAdmitted(images: seq<string>)
    ensures AllAccepted(images) <==> AllAdmitted(images)
  {
    forall i | 0 <= i < |images| ensures Accepted(images[i]) <==> AdmittedByTheApi(images[i]) {
      AcceptedIffAdmitted(images[i]);
    }
  }

  lemma AcceptedIsLeftAlone(image: string, pin: Pin, call: nat)
    requires Accepted(image)
    ensures Pinned(image, pin, call) == (image, None)
  {}

  lemma UnpinnedIsLeftAlone(image: string, call: nat)
    ensures Pinned(image, None, call).0 == image
  {}

  lemma {:induction false} AcceptedAreLeftAlone(names: seq<string>, images: seq<string>, pin: Pin)
    requires |names| == |images| && AllAccepted(images)
    ensures PinnedImages(images, pin) == images && ImageBlockers(names, images, pin) == []
  {
    if images != [] {
      AcceptedSplit(Init(images), Last(images));
      AcceptedAreLeftAlone(Init(names), Init(images), pin);
      AcceptedIsLeftAlone(Last(images), pin, |images| - 1);
    }
  }

  lemma {:induction false} UnpinnedAreLeftAlone(images: seq<string>)
    ensures PinnedImages(images, None) == images
  {
    if images != [] {
      UnpinnedAreLeftAlone(Init(images));
      UnpinnedIsLeftAlone(Last(images), |images| - 1);
    }
  }

  /** A resolver may rescue an entry; it may not take one away, nor change one, however it answers. */
  lemma ResolversOnlyRescue(p: Plan, pin: Pin, ports: Ports)
    requires Finished(p, None, ports).blockers == []
    ensures Finished(p, pin, ports) == Finished(p, None, ports)
  {
    var names, images := ObjectsOf(p), ImagesOf(p);
    NoImageBlockers(names, images, None);
    UnpinnedAreLeftAlone(images);
    AcceptedAreLeftAlone(names, images, pin);
  }
}
