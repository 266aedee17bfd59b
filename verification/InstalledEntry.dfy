/**
 A catalogue entry from its compose template to the objects in the directory:
 the conversion of compose/convert.go, the plan of catalog/plan.go and the
 render of server/catalog.go put together, and what each promises the next.
 */
module InstalledEntry {
  import opened Common
  import opened Text
  import S = Siblings
  import C = Conversion
  import P = CataloguePlan
  import I = CatalogueInstall

  // ---- From the conversion to the plan ----

  /** A converted workload as the planner sees it; `rest` stands for all the planner leaves alone. */
  function AsPlanned(w: C.Workload, rest: C.Workload -> string): P.Workload {
    P.Workload(w.name, w.service, w.image, w.port, [], [], rest(w))
  }

  function WorkloadsOf(r: C.Conversion, rest: C.Workload -> string): (ws: seq<P.Workload>)
    ensures |ws| == |r.workloads| && forall i :: 0 <= i < |ws| ==> ws[i] == AsPlanned(r.workloads[i], rest)
  {
    seq(|r.workloads|, i requires 0 <= i < |r.workloads| => AsPlanned(r.workloads[i], rest))
  }

  function DatabasesOf(r: C.Conversion): (ds: seq<P.Database>)
    ensures |ds| == |r.databases| && forall i :: 0 <= i < |ds| ==> ds[i] == P.Database(r.databases[i].name, r.databases[i].image, "")
  {
    seq(|r.databases|, i requires 0 <= i < |r.databases| => P.Database(r.databases[i].name, r.databases[i].image, ""))
  }

  /** The names Databases publish themselves. */
  function OwnedIn(r: C.Conversion): seq<P.Source> {
    C.SourcesFor(r.databaseSources)
  }

  /** What attachSecrets makes of a conversion. */
  function Attached(r: C.Conversion, rest: C.Workload -> string): P.Attached {
    P.Attach(WorkloadsOf(r, rest), r.generated, OwnedIn(r))
  }

  /** A plan for a converted entry, images and ports settled. */
  ghost predicate PlannedOf(r: C.Conversion, rest: C.Workload -> string, p: P.Plan) {
    && I.PlannedFrom(p, WorkloadsOf(r, rest), r.generated, OwnedIn(r))
    && |p.databases| == |r.databases| && forall i :: 0 <= i < |p.databases| ==> p.databases[i].name == r.databases[i].name
  }

  lemma DatabasesKeepTheirNames(p: P.Plan, pin: P.Pin, ports: P.Ports, i: nat)
    requires i < |p.databases|
    ensures |P.Finished(p, pin, ports).databases| == |p.databases|
    ensures P.Finished(p, pin, ports).databases[i].name == p.databases[i].name
  {}

  /** The planner's three passes over a conversion make such a plan. */
  lemma PlanIsOfTheConversion(r: C.Conversion, rest: C.Workload -> string, mint: seq<P.Source>, pin: P.Pin, ports: P.Ports)
    requires P.IsMint(mint, Attached(r, rest).mint)
    ensures var a := Attached(r, rest);
            PlannedOf(r, rest, P.Finished(P.Plan(a.workloads, DatabasesOf(r), a.secrets, mint, a.blockers), pin, ports))
  {
    var a, ws := Attached(r, rest), WorkloadsOf(r, rest);
    var p := P.Plan(a.workloads, DatabasesOf(r), a.secrets, mint, a.blockers);
    I.AttachedCount(ws, r.generated, OwnedIn(r));
    assert I.PlannedFrom(p, ws, r.generated, OwnedIn(r));
    I.FinishedIsPlanned(p, pin, ports, ws, r.generated, OwnedIn(r));
    forall i | 0 <= i < |p.databases| ensures P.Finished(p, pin, ports).databases[i].name == r.databases[i].name {
      DatabasesKeepTheirNames(p, pin, ports, i);
    }
    assert |P.Finished(p, pin, ports).databases| == |p.databases|;
  }

  /** An install of a converted entry: its plan refused nothing, its app is the entry's front door. */
  ghost predicate Installs(c: C.Context, namespace: string, rest: C.Workload -> string, x: I.Install)
    requires S.Finds(c.find) && C.Parsed(c.t)
  {
    var r := C.Converted(c, namespace);
    && r.Ok? && PlannedOf(r.value, rest, x.plan) && I.Unrefused(x.plan)
    && x.primary == r.value.primary && x.secrets == I.ClaimAll(I.Asks(x.plan.secrets)).out
  }

  // ---- What a service asked for reaches its object ----

  lemma {:induction false} AskedConcat(a: seq<P.Generated>, b: seq<P.Generated>, service: string)
    ensures P.Asked(a + b, service) == P.Asked(a, service) + P.Asked(b, service)
  {
    if b == [] {
      assert a + b == a;
    } else {
      assert Init(a + b) == a + Init(b) && Last(a + b) == Last(b);
      AskedConcat(a, Init(b), service);
    }
  }

  lemma {:induction false} AskedOfOne(gs: seq<P.Generated>, name: string, service: string)
    requires forall g :: g in gs ==> g.service == name
    ensures P.Asked(gs, service) == if name == service then gs else []
  {
    if gs != [] {
      assert gs == Init(gs) + [Last(gs)];
      AskedOfOne(Init(gs), name, service);
    }
  }

  /** What the pieces of a template ask for, service by service. */
  function Requests(p: C.Piece): seq<P.Generated> {
    if p.made.Run? then p.made.requests else []
  }

  lemma AskedOneMore(ps: seq<C.Piece>, primary: string, service: string)
    requires C.Proper(ps) && ps != []
    ensures P.Asked(C.Assembled(ps, primary).generated, service)
         == P.Asked(C.Assembled(Init(ps), primary).generated, service) + if Last(ps).name == service then Requests(Last(ps)) else []
  {
    C.ProperInit(ps);
    AskedConcat(C.Assembled(Init(ps), primary).generated, Requests(Last(ps)), service);
    AskedOfOne(Requests(Last(ps)), Last(ps).name, service);
  }

  lemma {:induction false} AskedOfPieces(ps: seq<C.Piece>, primary: string, i: nat)
    requires C.Proper(ps) && i < |ps|
    ensures P.Asked(C.Assembled(ps, primary).generated, ps[i].name) == Requests(ps[i])
  {
    AskedOneMore(ps, primary, ps[i].name);
    C.ProperInit(ps);
    if i < |ps| - 1 {
      assert Init(ps)[i] == ps[i] && Init(ps)[i] in Init(ps);
      AskedOfPieces(Init(ps), primary, i);
    } else {
      AskedByNobody(Init(ps), primary, ps[i].name);
    }
  }

  lemma {:induction false} AskedByNobody(ps: seq<C.Piece>, primary: string, service: string)
    requires C.Proper(ps) && forall p :: p in ps ==> p.name != service
    ensures P.Asked(C.Assembled(ps, primary).generated, service) == []
  {
    if ps != [] {
      C.ProperInit(ps);
      assert Last(ps) in ps && ps == Init(ps) + [Last(ps)];
      AskedByNobody(Init(ps), primary, service);
      AskedOneMore(ps, primary, service);
    }
  }

  /** A converted template asks, for a workload's service, what that service's variables make of it. */
  lemma AskedForAService(c: C.Context, namespace: string, name: string)
    requires S.Finds(c.find) && C.Parsed(c.t) && C.Converted(c, namespace).Ok?
    requires name in c.t.services && !C.IsDatabase(C.ServiceAt(c.t, name))
    ensures P.Asked(C.Converted(c, namespace).value.generated, name)
         == C.RequestsOf(c, name, C.PrimaryIn(c.t), C.ServiceAt(c.t, name))
  {
    var ps, primary := C.Pieces(c), C.PrimaryIn(c.t);
    C.PiecesAreProper(c);
    C.PieceIsIn(c, name);
    C.PieceIsAbout(c, name, primary, C.ServiceAt(c.t, name));
    var i :| 0 <= i < |ps| && ps[i] == C.PieceFor(c, name);
    AskedOfPieces(ps, primary, i);
    C.FrontIsValid(ps, primary);
    C.FinishedKeeps(C.Assembled(ps, primary));
    C.NotesInPiece(c, name);
  }

  ghost predicate Holds(values: seq<P.GeneratedSecret>, key: string) {
    exists i :: 0 <= i < |values| && values[i].name == key
  }

  lemma HeldIfSorted(keys: seq<P.Key>, k: P.Key)
    ensures k in SortBy(keys, P.KEY_NAME) <==> k in keys
  {
    var sorted := SortBy(keys, P.KEY_NAME);
    assert k in sorted <==> k in multiset(sorted);
    assert k in keys <==> k in multiset(keys);
  }

  lemma HeldIffKey(keys: seq<P.Key>, key: string)
    ensures Holds(I.Values(keys), key) <==> exists k :: k in keys && k.name == key
  {
    if Holds(I.Values(keys), key) {
      var i :| 0 <= i < |keys| && I.Values(keys)[i].name == key;
      assert keys[i] in keys;
    }
    if k :| k in keys && k.name == key {
      var i :| 0 <= i < |keys| && keys[i] == k;
      assert I.Values(keys)[i].name == key;
    }
  }

  lemma KeyIffAsked(gs: seq<P.Generated>, key: string)
    ensures (exists k :: k in I.AllKeys(gs) && k.name == key) <==> exists g :: g in gs && g.key == key
  {
    var keys := I.AllKeys(gs);
    if k :| k in keys && k.name == key {
      var i :| 0 <= i < |keys| && keys[i] == k;
      assert gs[i] in gs;
    }
    if g :| g in gs && g.key == key {
      var i :| 0 <= i < |gs| && gs[i] == g;
      assert keys[i] in keys;
    }
  }

  lemma HeldIffAsked(gs: seq<P.Generated>, key: string)
    ensures Holds(I.Values(SortBy(I.AllKeys(gs), P.KEY_NAME)), key) <==> exists g :: g in gs && g.key == key
  {
    var keys := I.AllKeys(gs);
    HeldIffKey(SortBy(keys, P.KEY_NAME), key);
    forall k: P.Key ensures k in SortBy(keys, P.KEY_NAME) <==> k in keys {
      HeldIfSorted(keys, k);
    }
    KeyIffAsked(gs, key);
  }

  /** A variable of a service is to be minted. */
  predicate IsMinted(svc: C.Service, key: string) {
    key in svc.environment && C.FateOf(key, svc.environment[key]).Minted?
  }

  lemma AskedIffMinted(c: C.Context, name: string, primary: string, key: string)
    requires S.Finds(c.find)
    ensures (exists g :: g in C.RequestsOf(c, name, primary, C.ServiceAt(c.t, name)) && g.key == key)
       <==> IsMinted(C.ServiceAt(c.t, name), key)
  {
    var svc := C.ServiceAt(c.t, name);
    var keys, gs := InOrder(svc.environment.Keys), C.VariablesIn(name, svc).generated;
    var rs := C.RequestsOf(c, name, primary, svc);
    C.EachVariableLandsOnce(name, svc.environment, keys);
    if g :| g in rs && g.key == key {
      var i :| 0 <= i < |rs| && rs[i] == g;
      assert gs[i] in gs && gs[i].key == key;
    }
    if IsMinted(svc, key) {
      var fate := C.FateOf(key, svc.environment[key]);
      var g := P.Generated(name, key, fate.template, C.SourcesFor(fate.sources));
      assert key in keys && C.IsRequest(name, svc.environment, g);
      var i :| 0 <= i < |gs| && gs[i] == g;
      assert rs[i].key == key && rs[i] in rs;
    }
  }

  /** A converted workload is that of a service which is no Database. */
  lemma WorkloadsService(c: C.Context, namespace: string, i: nat)
    requires S.Finds(c.find) && C.Parsed(c.t) && C.Converted(c, namespace).Ok? && i < |C.Converted(c, namespace).value.workloads|
    ensures var w := C.Converted(c, namespace).value.workloads[i];
            && w.service in c.t.services && !C.IsDatabase(C.ServiceAt(c.t, w.service)) && w.name == C.NameOf(c, w.service)
  {
    C.EveryServiceIsOneObject(c, namespace);
    var w := C.Converted(c, namespace).value.workloads[i];
    assert w.(database := "").name == w.name;
  }

  /**
   From template to directory: each workload of an installed entry is given a
   value for exactly those variables of its compose service whose values ask for
   one, in name order, unless another workload of its name asked for any.
   */
  lemma InstalledAsksForItsService(c: C.Context, namespace: string, rest: C.Workload -> string, x: I.Install, i: nat, key: string)
    requires S.Finds(c.find) && C.Parsed(c.t) && Installs(c, namespace, rest, x) && i < |x.plan.workloads|
    requires I.AsksAlone(WorkloadsOf(C.Converted(c, namespace).value, rest), C.Converted(c, namespace).value.generated, i)
    ensures Holds(I.Rendered(x, i).secrets, key)
       <==> IsMinted(C.ServiceAt(c.t, C.Converted(c, namespace).value.workloads[i].service), key)
  {
    var r := C.Converted(c, namespace).value;
    var ws, name := WorkloadsOf(r, rest), r.workloads[i].service;
    WorkloadsService(c, namespace, i);
    C.ConvertedRequestsOnce(c, namespace);
    I.EachValueOnceIff(x, ws, r.generated, OwnedIn(r), i);
    AskedForAService(c, namespace, name);
    HeldIffAsked(P.Asked(r.generated, name), key);
    AskedIffMinted(c, name, C.PrimaryIn(c.t), key);
  }

  // ---- Where an address ends up ----

  /** The name the object of a service is installed under. */
  ghost predicate InstalledAs(r: C.Conversion, x: I.Install, service: string, name: string) {
    || (exists i :: 0 <= i < |r.workloads| && i < |x.plan.workloads| && r.workloads[i].service == service && I.Rendered(x, i).name == name)
    || (exists i :: 0 <= i < |r.databases| && i < |x.plan.databases| && r.databases[i].service == service && x.plan.databases[i].name == name)
  }

  lemma InstalledName(c: C.Context, namespace: string, rest: C.Workload -> string, x: I.Install, i: nat)
    requires S.Finds(c.find) && C.Parsed(c.t) && Installs(c, namespace, rest, x) && i < |x.plan.workloads|
    ensures |x.plan.workloads| == |C.Converted(c, namespace).value.workloads|
    ensures I.Rendered(x, i).name
         == if i == x.primary then x.place.app else C.NameOf(c, C.Converted(c, namespace).value.workloads[i].service)
  {
    var r := C.Converted(c, namespace).value;
    var ws := WorkloadsOf(r, rest);
    I.AttachedWorkload(ws, r.generated, OwnedIn(r), i);
    WorkloadsService(c, namespace, i);
  }

  /** Services are told apart in the list of workloads. */
  lemma OneWorkloadPerService(ws: seq<C.Workload>, i: nat, j: nat)
    requires Ascending(ws, C.WORKLOAD_SERVICE) && i < |ws| && j < |ws|
    ensures ws[i].service == ws[j].service <==> i == j
  {
    if i != j {
      var a, b := if i < j then i else j, if i < j then j else i;
      assert Less(C.WORKLOAD_SERVICE(ws[a]), C.WORKLOAD_SERVICE(ws[b]));
      LessIsIrreflexive(ws[a].service);
    }
  }

  /** The front door of an entry whose primary service became a Database is the first workload. */
  ghost predicate StandsIn(c: C.Context, namespace: string, service: string)
    requires S.Finds(c.find) && C.Parsed(c.t) && C.Converted(c, namespace).Ok?
  {
    var ws := C.Converted(c, namespace).value.workloads;
    C.IsDatabase(C.ServiceAt(c.t, C.PrimaryIn(c.t))) && ws != [] && ws[0].service == service
  }

  lemma FrontDoorIff(c: C.Context, namespace: string, x: I.Install, i: nat)
    requires S.Finds(c.find) && C.Parsed(c.t) && C.Converted(c, namespace).Ok? && x.primary == C.Converted(c, namespace).value.primary
    requires i < |C.Converted(c, namespace).value.workloads|
    requires C.Converted(c, namespace).value.workloads[i].service != C.PrimaryIn(c.t)
    ensures i == x.primary <==> StandsIn(c, namespace, C.Converted(c, namespace).value.workloads[i].service)
  {
    C.PrimaryIsValid(c, namespace);
    C.EveryServiceIsOneObject(c, namespace);
    OneWorkloadPerService(C.Converted(c, namespace).value.workloads, i, x.primary);
  }

  /** More than one service, so that names carry the service. */
  lemma NamedAfterTheService(c: C.Context, a: string, b: string)
    requires C.Parsed(c.t) && a in c.t.services && b in c.t.services && a != b
    ensures C.NameOf(c, b) == S.NameHere(C.SiteOf(c, a, C.PrimaryIn(c.t)), b)
  {
    assert {a, b} <= c.t.services.Keys;
    if |c.t.services| == 1 {
      OneKey(c.t.services.Keys, a, b);
    }
  }

  lemma OneKey(keys: set<string>, a: string, b: string)
    requires a in keys && b in keys && a != b
    ensures |keys| > 1
  {
    assert keys == {a, b} + (keys - {a, b});
    assert |{a, b}| == 2;
  }

  /**
   An address that was repointed is the name its service's object is installed
   under, except when the primary service became a Database and the address is
   that of the first workload, which is then renamed to the app; and then it is
   only if the app has that very name.
   */
  lemma RepointedIsInstalledIff(c: C.Context, namespace: string, rest: C.Workload -> string, x: I.Install, self: string, host: string)
    requires S.Finds(c.find) && C.Parsed(c.t) && Installs(c, namespace, rest, x) && self in c.t.services
    requires S.Eligible(C.SiteOf(c, self, C.PrimaryIn(c.t)), host)
    ensures var to := S.NameHere(C.SiteOf(c, self, C.PrimaryIn(c.t)), host);
            InstalledAs(C.Converted(c, namespace).value, x, host, to) <==> !StandsIn(c, namespace, host) || x.place.app == to
  {
    var r, to := C.Converted(c, namespace).value, S.NameHere(C.SiteOf(c, self, C.PrimaryIn(c.t)), host);
    NamedAfterTheService(c, self, host);
    C.EveryServiceIsOneObject(c, namespace);
    I.AttachedCount(WorkloadsOf(r, rest), r.generated, OwnedIn(r));
    if C.IsDatabase(C.ServiceAt(c.t, host)) {
      DatabaseIsInstalled(c, namespace, rest, x, host);
    } else {
      WorkloadIsInstalledIff(c, namespace, rest, x, host, to);
    }
  }

  lemma DatabaseIsInstalled(c: C.Context, namespace: string, rest: C.Workload -> string, x: I.Install, host: string)
    requires S.Finds(c.find) && C.Parsed(c.t) && Installs(c, namespace, rest, x)
    requires host in c.t.services && C.IsDatabase(C.ServiceAt(c.t, host))
    ensures InstalledAs(C.Converted(c, namespace).value, x, host, S.ObjectName(c.t.name + "-" + host)) && !StandsIn(c, namespace, host)
  {
    var r := C.Converted(c, namespace).value;
    C.EveryServiceIsOneObject(c, namespace);
    var d := C.DatabaseOf(c, host, C.ServiceAt(c.t, host));
    assert C.IsMadeDatabase(c, d) && d in r.databases;
    var i :| 0 <= i < |r.databases| && r.databases[i] == d;
    assert x.plan.databases[i].name == d.name;
    if r.workloads != [] {
      WorkloadsService(c, namespace, 0);
    }
  }

  lemma WorkloadIsInstalledIff(c: C.Context, namespace: string, rest: C.Workload -> string, x: I.Install, host: string, to: string)
    requires S.Finds(c.find) && C.Parsed(c.t) && Installs(c, namespace, rest, x)
    requires host in c.t.services && !C.IsDatabase(C.ServiceAt(c.t, host)) && host != C.PrimaryIn(c.t) && to == C.NameOf(c, host)
    ensures InstalledAs(C.Converted(c, namespace).value, x, host, to) <==> !StandsIn(c, namespace, host) || x.place.app == to
  {
    var r := C.Converted(c, namespace).value;
    C.EveryServiceIsOneObject(c, namespace);
    var i := WorkloadOfService(c, r.workloads, r.databases, host);
    NoSuchDatabase(c, r.workloads, r.databases, host);
    I.AttachedCount(WorkloadsOf(r, rest), r.generated, OwnedIn(r));
    InstalledName(c, namespace, rest, x, i);
    FrontDoorIff(c, namespace, x, i);
    OnlyThatWorkload(r, x, i, host, to);
  }

  lemma OnlyThatWorkload(r: C.Conversion, x: I.Install, i: nat, host: string, to: string)
    requires Ascending(r.workloads, C.WORKLOAD_SERVICE) && forall d :: d in r.databases ==> d.service != host
    requires i < |r.workloads| == |x.plan.workloads| && r.workloads[i].service == host
    ensures InstalledAs(r, x, host, to) <==> I.Rendered(x, i).name == to
  {
    forall j | 0 <= j < |r.workloads| && r.workloads[j].service == host ensures j == i {
      OneWorkloadPerService(r.workloads, i, j);
    }
  }

  lemma WorkloadOfService(c: C.Context, ws: seq<C.Workload>, ds: seq<C.Database>, host: string) returns (i: nat)
    requires S.Finds(c.find) && C.Parsed(c.t) && C.Whole(c, ws, ds)
    requires host in c.t.services && !C.IsDatabase(C.ServiceAt(c.t, host))
    ensures i < |ws| && ws[i].service == host
  {
    var w :| w in ws && w.service == host;
    i :| 0 <= i < |ws| && ws[i] == w;
  }

  lemma NoSuchDatabase(c: C.Context, ws: seq<C.Workload>, ds: seq<C.Database>, host: string)
    requires S.Finds(c.find) && C.Parsed(c.t) && C.Whole(c, ws, ds) && !C.IsDatabase(C.ServiceAt(c.t, host))
    ensures forall d :: d in ds ==> d.service != host
  {
    forall d | d in ds ensures d.service != host {
      assert C.IsMadeDatabase(c, d);
    }
  }

  /** The address of a primary service that became a Database is left as compose wrote it, though its name was known. */
  lemma PrimaryDatabaseIsLeft(c: C.Context, namespace: string, rest: C.Workload -> string, x: I.Install, self: string)
    requires S.Finds(c.find) && C.Parsed(c.t) && Installs(c, namespace, rest, x)
    requires C.IsDatabase(C.ServiceAt(c.t, C.PrimaryIn(c.t)))
    ensures var primary := C.PrimaryIn(c.t);
            && S.Replacement(C.SiteOf(c, self, primary), primary) == primary
            && InstalledAs(C.Converted(c, namespace).value, x, primary, S.ObjectName(c.t.name + "-" + primary))
  {
    C.PrimaryIsAService(c.t);
    DatabaseIsInstalled(c, namespace, rest, x, C.PrimaryIn(c.t));
  }
}
