/**
 Convert of compose/convert.go: one compose template becomes the objects that
 run it, and everything that does not convert is said. Reading a template means
 ranging over maps; nothing here depends on the order they yield.
 */
module Conversion {
  import opened Common
  import opened Text
  import opened Interpolation
  import S = Siblings
  import T = Templates
  import TemplateSources
  import P = CataloguePlan
  import I = CatalogueInstall

  const MAX_VOLUMES := 8

  datatype Volume = Volume(source: string, target: string, bind: bool)

  /** What a healthcheck command yields: the port of its URL and the path, where it has them. */
  datatype Health = Health(port: Option<int>, path: Option<string>)

  /**
   A compose service. `published` is the container port its port list declares
   and `mentions` whether its ports or healthcheck name the template's own port.
   */
  datatype Service = Service(image: string, environment: map<string, string>, volumes: seq<Volume>,
                             published: Option<int>, health: Option<Health>, mentions: bool,
                             command: seq<string>, entrypoint: seq<string>, user: string, capAdd: seq<string>,
                             networkMode: string, securityOpt: seq<string>, ulimits: map<string, string>,
                             dependsOn: map<string, string>)

  datatype Template = Template(name: string, port: int, services: map<string, Service>)

  /** A template that parsed has a service. */
  ghost predicate Parsed(t: Template) {
    t.services.Keys != {}
  }

  datatype EnvVar = EnvVar(name: string, value: string)
  datatype Claim = Claim(name: string, path: string)
  datatype Workload = Workload(name: string, service: string, image: string, port: int, domain: string,
                               env: seq<EnvVar>, volumes: seq<Claim>, probe: Option<string>, database: string)
  datatype Database = Database(name: string, service: string, image: string, database: string, username: string)

  /** The fields of a service that have nowhere to go. */
  datatype Field = Command | Entrypoint | User | CapAdd | NetworkMode | SecurityOpt | Ulimits | DependsOn

  datatype Why =
    | HollowImage(names: seq<string>) | BecameDatabase
    | PortFromHealth(port: int) | NoPort
    | OwnUrl
    | BindMount(source: string) | NoTarget(source: string) | TooManyVolumes(source: string) | Claimed(source: string)
    | NotHttp | Unsupported(field: Field)
    | Addresses(host: string, to: Option<string>)
    | MintsItsOwn | NotAnIdentifier(text: string) | MadeIdentifier(text: string, name: string)
    | LinkedTo(database: string) | SeveralDatabases(names: seq<string>)
  datatype Note = Note(service: string, field: string, why: Why)

  datatype Conversion = Conversion(workloads: seq<Workload>, databases: seq<Database>, primary: nat,
                                   generated: seq<P.Generated>, databaseSources: seq<string>, notes: multiset<Note>)
  datatype Error = NoNamespace | NothingToRun

  /** The template, what the caller chose, and where siblingHost matches in a value. */
  datatype Context = Context(t: Template, domain: string, find: string -> seq<S.Span>)

  // ---- Environment ----

  /** Where one variable goes. */
  datatype Fate = Plain(value: string) | Minted(sources: seq<string>, template: string) | AsksForUrl

  predicate RefersToUrl(ts: seq<Token>) {
    exists i :: 0 <= i < |ts| && ts[i].Var? && IsUrl(ts[i].name)
  }

  function FateOf(k: string, v: string): Fate {
    if v == "" && Magic(k) then Minted([k], Placeholder(k))
    else if IsUrl(k) || RefersToUrl(Scan(v)) then AsksForUrl
    else if SourceNames(Scan(v)) != [] then Minted(SourceNames(Scan(v)), Interpolation.Template(Scan(v)))
    else Plain(Literal(Scan(v)))
  }

  /** A Go map read: a missing key is the empty string. */
  function At(m: map<string, string>, k: string): string {
    if k in m then m[k] else ""
  }

  function KindText(k: Kind): string {
    match k case Password => "password" case User => "user" case Hex => "hex" case Base64 => "base64" case Unknown => "unknown"
  }

  function SourcesFor(names: seq<string>): seq<P.Source> {
    seq(|names|, i requires 0 <= i < |names| => P.Source(names[i], KindText(MagicKind(names[i]))))
  }

  datatype Variables = Variables(env: seq<EnvVar>, generated: seq<P.Generated>, notes: seq<Note>)

  function Sorted(vars: Variables, service: string, k: string, fate: Fate): Variables {
    match fate
    case Plain(v) => vars.(env := vars.env + [EnvVar(k, v)])
    case Minted(ns, v) => vars.(generated := vars.generated + [P.Generated(service, k, v, SourcesFor(ns))])
    case AsksForUrl => vars.(notes := vars.notes + [Note(service, k, OwnUrl)])
  }

  function VariablesOf(service: string, env: map<string, string>, keys: seq<string>): Variables {
    if keys == [] then Variables([], [], [])
    else Sorted(VariablesOf(service, env, Init(keys)), service, Last(keys), FateOf(Last(keys), At(env, Last(keys))))
  }

  method SortVariables(service: string, env: map<string, string>, keys: seq<string>) returns (vars: Variables)
    ensures vars == VariablesOf(service, env, keys)
  {
    vars := Variables([], [], []);
    for i := 0 to |keys|
      invariant vars == VariablesOf(service, env, keys[..i])
    {
      assert Init(keys[..i + 1]) == keys[..i] && Last(keys[..i + 1]) == keys[i];
      vars := Sorted(vars, service, keys[i], FateOf(keys[i], At(env, keys[i])));
    }
    assert keys[..|keys|] == keys;
  }

  // ---- Volumes ----

  predicate Claimable(v: Volume) {
    !v.bind && v.target != ""
  }

  function ClaimsOf(vs: seq<Volume>): seq<Claim> {
    if vs == [] then []
    else
      var claims := ClaimsOf(Init(vs));
      if Claimable(Last(vs)) && |claims| < MAX_VOLUMES then claims + [ClaimFor(Last(vs))] else claims
  }

  function ClaimFor(v: Volume): Claim {
    Claim(S.ObjectName(v.source), v.target)
  }

  function VolumeNote(service: string, v: Volume, claimed: nat): Note {
    Note(service, "volumes",
         if v.bind then BindMount(v.source)
         else if v.target == "" then NoTarget(v.source)
         else if claimed >= MAX_VOLUMES then TooManyVolumes(v.source)
         else Claimed(v.source))
  }

  function VolumeNotes(service: string, vs: seq<Volume>): seq<Note> {
    if vs == [] then []
    else VolumeNotes(service, Init(vs)) + [VolumeNote(service, Last(vs), |ClaimsOf(Init(vs))|)]
  }

  method ClaimVolumes(service: string, vs: seq<Volume>) returns (claims: seq<Claim>, notes: seq<Note>)
    ensures claims == ClaimsOf(vs) && notes == VolumeNotes(service, vs)
  {
    claims, notes := [], [];
    for i := 0 to |vs|
      invariant claims == ClaimsOf(vs[..i]) && notes == VolumeNotes(service, vs[..i])
    {
      assert Init(vs[..i + 1]) == vs[..i] && Last(vs[..i + 1]) == vs[i];
      notes := notes + [VolumeNote(service, vs[i], |claims|)];
      if Claimable(vs[i]) && |claims| < MAX_VOLUMES {
        claims := claims + [ClaimFor(vs[i])];
      }
    }
    assert vs[..|vs|] == vs;
  }

  function Eligible(vs: seq<Volume>): seq<Claim> {
    if vs == [] then [] else Eligible(Init(vs)) + if Claimable(Last(vs)) then [ClaimFor(Last(vs))] else []
  }

  function FirstFew<T>(s: seq<T>): seq<T> {
    if |s| <= MAX_VOLUMES then s else s[..MAX_VOLUMES]
  }

  lemma {:induction false} ClaimsAreTheFirstEight(vs: seq<Volume>)
    ensures ClaimsOf(vs) == FirstFew(Eligible(vs)) && |ClaimsOf(vs)| <= MAX_VOLUMES
  {
    if vs != [] {
      ClaimsAreTheFirstEight(Init(vs));
    }
  }

  lemma {:induction false} VolumeNoteAt(service: string, vs: seq<Volume>, i: nat)
    requires i < |vs|
    ensures |VolumeNotes(service, vs)| == |vs|
    ensures VolumeNotes(service, vs)[i] == VolumeNote(service, vs[i], |ClaimsOf(vs[..i])|)
  {
    var init := Init(vs);
    if init != [] {
      VolumeNoteAt(service, init, if i < |init| then i else 0);
    }
    assert i < |init| ==> init[..i] == vs[..i];
    assert i == |init| ==> vs[..i] == init;
  }

  /** The claims are the first eight volumes that can be claimed; every volume is spoken of once, and as what became of it. */
  lemma VolumesAreAccountedFor(service: string, vs: seq<Volume>, i: nat)
    requires i < |vs|
    ensures ClaimsOf(vs) == FirstFew(Eligible(vs)) && |ClaimsOf(vs)| <= MAX_VOLUMES
    ensures |VolumeNotes(service, vs)| == |vs|
    ensures VolumeNotes(service, vs)[i].why.Claimed? <==> Claimable(vs[i]) && |Eligible(vs[..i])| < MAX_VOLUMES
  {
    ClaimsAreTheFirstEight(vs);
    ClaimsAreTheFirstEight(vs[..i]);
    VolumeNoteAt(service, vs, i);
  }

  // ---- Every variable lands once ----

  ghost predicate IsRequest(service: string, env: map<string, string>, g: P.Generated) {
    var fate := FateOf(g.key, At(env, g.key));
    fate.Minted? && g == P.Generated(service, g.key, fate.template, SourcesFor(fate.sources))
  }

  ghost predicate IsUrlNote(service: string, env: map<string, string>, n: Note) {
    n == Note(service, n.field, OwnUrl) && FateOf(n.field, At(env, n.field)).AsksForUrl?
  }

  lemma LandsOneMore(vars: Variables, service: string, k: string, fate: Fate)
    ensures var more := Sorted(vars, service, k, fate);
            && (forall e :: e in more.env <==> e in vars.env || (fate == Plain(e.value) && e.name == k))
            && (forall g :: g in more.generated <==>
                  g in vars.generated || (fate.Minted? && g == P.Generated(service, k, fate.template, SourcesFor(fate.sources))))
            && (forall n :: n in more.notes <==> n in vars.notes || (fate.AsksForUrl? && n == Note(service, k, OwnUrl)))
            && |more.env| + |more.generated| + |more.notes| == |vars.env| + |vars.generated| + |vars.notes| + 1
  {}

  /**
   A variable is a plain value, a request for generated ones or a note about the
   app's own address: in exactly one of the three lists, once, with what that fate
   makes of its value, and nothing else is in them.
   */
  lemma {:induction false} EachVariableLandsOnce(service: string, env: map<string, string>, keys: seq<string>)
    ensures var vars := VariablesOf(service, env, keys);
            && (forall e :: e in vars.env <==> e.name in keys && FateOf(e.name, At(env, e.name)) == Plain(e.value))
            && (forall g :: g in vars.generated <==> g.key in keys && IsRequest(service, env, g))
            && (forall n :: n in vars.notes <==> n.field in keys && IsUrlNote(service, env, n))
            && |vars.env| + |vars.generated| + |vars.notes| == |keys|
  {
    if keys != [] {
      EachVariableLandsOnce(service, env, Init(keys));
      var k := Last(keys);
      assert keys == Init(keys) + [k];
      LandsOneMore(VariablesOf(service, env, Init(keys)), service, k, FateOf(k, At(env, k)));
    }
  }

  const REQUEST_KEY := (g: P.Generated) => g.key

  lemma {:induction false} RequestsAscend(service: string, env: map<string, string>, keys: seq<string>)
    requires Ascending(keys, SELF)
    ensures Ascending(VariablesOf(service, env, keys).generated, REQUEST_KEY)
  {
    if keys != [] {
      var init, k := Init(keys), Last(keys);
      AscendingInit(keys, SELF);
      RequestsAscend(service, env, init);
      EachVariableLandsOnce(service, env, init);
      var gs, fate := VariablesOf(service, env, init).generated, FateOf(k, At(env, k));
      if fate.Minted? {
        AscendingSnoc(gs, P.Generated(service, k, fate.template, SourcesFor(fate.sources)), REQUEST_KEY);
      }
    }
  }

  // ---- Images ----

  function LastIndex(s: string, c: char): (i: int)
    ensures -1 <= i < |s|
  {
    if s == "" then -1 else if Last(s) == c then |s| - 1 else LastIndex(Init(s), c)
  }

  /** The repository of a reference: without its digest, and without its tag where the last colon is one. */
  function ImageRepo(image: string): string {
    var repo := image[..IndexOf(image, '@')];
    var i := LastIndex(repo, ':');
    if i > LastIndex(repo, '/') then repo[..i] else repo
  }

  predicate IsRepo(repo: string, name: string) {
    repo == name || HasSuffix(repo, "/" + name)
  }

  /** The image as compose would resolve it with no environment to read. */
  function Resolved(svc: Service): string {
    Literal(Scan(svc.image))
  }

  /** A service this platform would rather run as a Database. */
  predicate IsDatabase(svc: Service) {
    var repo := ImageRepo(Resolved(svc));
    IsRepo(repo, "postgres") || IsRepo(repo, "postgis/postgis") || IsRepo(repo, "pgvector/pgvector")
  }

  /** The variables of an image that have no value, in order and without repeats. */
  function Hollow(ts: seq<Token>): seq<string> {
    if ts == [] then []
    else
      var ns, t := Hollow(Init(ts)), Last(ts);
      if t.Var? && t.fallback == "" && t.name !in ns then ns + [t.name] else ns
  }

  function ImageNotes(service: string, svc: Service): seq<Note> {
    var names := Hollow(Scan(svc.image));
    if Resolved(svc) != svc.image && names != [] then [Note(service, "image", HollowImage(names))] else []
  }

  // ---- One workload ----

  function PortOf(c: Context, name: string, primary: string, svc: Service): (int, seq<Note>) {
    if name == primary && c.t.port > 0 then (c.t.port, [])
    else if svc.published.Some? then (svc.published.value, [])
    else if svc.health.Some? && svc.health.value.port.Some? then
      (svc.health.value.port.value, [Note(name, "port", PortFromHealth(svc.health.value.port.value))])
    else (0, [Note(name, "port", NoPort)])
  }

  function HealthNotes(name: string, svc: Service): seq<Note> {
    if svc.health.Some? && svc.health.value.path.None? then [Note(name, "healthcheck", NotHttp)] else []
  }

  /** Whether a service sets a field. */
  predicate Sets(svc: Service, f: Field) {
    match f
    case Command => |svc.command| > 0
    case Entrypoint => |svc.entrypoint| > 0
    case User => svc.user != ""
    case CapAdd => |svc.capAdd| > 0
    case NetworkMode => svc.networkMode != ""
    case SecurityOpt => |svc.securityOpt| > 0
    case Ulimits => |svc.ulimits| > 0
    case DependsOn => |svc.dependsOn| > 0
  }

  function FieldText(f: Field): string {
    match f
    case Command => "command"
    case Entrypoint => "entrypoint"
    case User => "user"
    case CapAdd => "cap_add"
    case NetworkMode => "network_mode"
    case SecurityOpt => "security_opt"
    case Ulimits => "ulimits"
    case DependsOn => "depends_on"
  }

  const FIELDS := [Command, Entrypoint, Field.User, CapAdd, NetworkMode, SecurityOpt, Ulimits, DependsOn]

  function FieldNote(name: string, f: Field): Note {
    Note(name, FieldText(f), Unsupported(f))
  }

  function FieldNotes(name: string, svc: Service, fields: seq<Field>): seq<Note> {
    if fields == [] then []
    else FieldNotes(name, svc, Init(fields)) + if Sets(svc, Last(fields)) then [FieldNote(name, Last(fields))] else []
  }

  function SiteOf(c: Context, name: string, primary: string): S.Site {
    S.Site(S.Template(c.t.name, c.t.services.Keys), name, primary)
  }

  ghost function RepointedEnv(site: S.Site, env: seq<EnvVar>, find: string -> seq<S.Span>): seq<EnvVar>
    requires S.Finds(find)
  {
    seq(|env|, i requires 0 <= i < |env| => env[i].(value := S.Repointed(site, env[i].value, find)))
  }

  ghost function RepointedRequests(site: S.Site, gs: seq<P.Generated>, find: string -> seq<S.Span>): seq<P.Generated>
    requires S.Finds(find)
  {
    seq(|gs|, i requires 0 <= i < |gs| => gs[i].(value := S.Repointed(site, gs[i].value, find)))
  }

  function NameOf(c: Context, name: string): string {
    S.ObjectName(if |c.t.services| == 1 then c.t.name else c.t.name + "-" + name)
  }

  ghost function VariablesIn(name: string, svc: Service): Variables {
    VariablesOf(name, svc.environment, InOrder(svc.environment.Keys))
  }

  ghost function WorkloadOf(c: Context, name: string, primary: string, svc: Service): Workload
    requires S.Finds(c.find)
  {
    Workload(NameOf(c, name), name, Resolved(svc), PortOf(c, name, primary, svc).0,
             if name == primary then c.domain else "",
             RepointedEnv(SiteOf(c, name, primary), VariablesIn(name, svc).env, c.find), ClaimsOf(svc.volumes),
             if svc.health.Some? then svc.health.value.path else None, "")
  }

  ghost function RequestsOf(c: Context, name: string, primary: string, svc: Service): seq<P.Generated>
    requires S.Finds(c.find)
  {
    RepointedRequests(SiteOf(c, name, primary), VariablesIn(name, svc).generated, c.find)
  }

  function FieldsOf(env: seq<EnvVar>, gs: seq<P.Generated>): seq<string> {
    seq(|env|, i requires 0 <= i < |env| => env[i].name) + seq(|gs|, i requires 0 <= i < |gs| => gs[i].key)
  }

  function ValuesOf(env: seq<EnvVar>, gs: seq<P.Generated>): seq<string> {
    seq(|env|, i requires 0 <= i < |env| => env[i].value) + seq(|gs|, i requires 0 <= i < |gs| => gs[i].value)
  }

  /** What is said of the addresses in some variables of a service. */
  ghost function AddressNotes(site: S.Site, env: seq<EnvVar>, gs: seq<P.Generated>, find: string -> seq<S.Span>): seq<S.Note>
    requires S.Finds(find)
  {
    S.NotesOf(site, FieldsOf(env, gs), ValuesOf(env, gs), find)
  }

  function SaidOf(service: string, ns: seq<S.Note>): seq<Note> {
    seq(|ns|, i requires 0 <= i < |ns| => Note(service, ns[i].field, Addresses(ns[i].host, ns[i].to)))
  }

  ghost function SiblingNotes(c: Context, name: string, primary: string, svc: Service): seq<Note>
    requires S.Finds(c.find)
  {
    SaidOf(name, AddressNotes(SiteOf(c, name, primary), VariablesIn(name, svc).env, VariablesIn(name, svc).generated, c.find))
  }

  /** What is said of a workload, whatever the order of the sentences. */
  ghost function NotesOf(c: Context, name: string, primary: string, svc: Service): multiset<Note>
    requires S.Finds(c.find)
  {
    multiset(SaidIn(c, name, primary, svc))
  }

  ghost function SaidIn(c: Context, name: string, primary: string, svc: Service): seq<Note>
    requires S.Finds(c.find)
  {
    PortOf(c, name, primary, svc).1 + VariablesIn(name, svc).notes + SiblingNotes(c, name, primary, svc)
    + VolumeNotes(name, svc.volumes) + HealthNotes(name, svc) + FieldNotes(name, svc, FIELDS)
  }

  ghost predicate AllRepointed(site: S.Site, before: seq<string>, after: seq<string>, find: string -> seq<S.Span>)
    requires S.Finds(find)
  {
    |after| == |before| && forall i :: 0 <= i < |before| ==> after[i] == S.Repointed(site, before[i], find)
  }

  method RepointValues(site: S.Site, fields: seq<string>, vs: seq<string>, find: string -> seq<S.Span>)
    returns (after: seq<string>, notes: seq<S.Note>)
    requires S.Finds(find) && |fields| == |vs|
    ensures AllRepointed(site, vs, after, find)
    ensures notes == S.NotesOf(site, fields, vs, find)
  {
    var values := new string[|vs|](i requires 0 <= i < |vs| => vs[i]);
    assert values[..] == vs;
    notes := S.RepointSiblings(site, fields, values, find);
    after := values[..];
  }

  lemma RepointedSplit(site: S.Site, env: seq<EnvVar>, gs: seq<P.Generated>, before: seq<string>, after: seq<string>, find: string -> seq<S.Span>)
    requires S.Finds(find) && AllRepointed(site, before, after, find) && |before| == |env| + |gs|
    requires forall i :: 0 <= i < |env| ==> before[i] == env[i].value
    requires forall i :: 0 <= i < |gs| ==> before[|env| + i] == gs[i].value
    ensures seq(|env|, i requires 0 <= i < |env| => env[i].(value := after[i])) == RepointedEnv(site, env, find)
    ensures seq(|gs|, i requires 0 <= i < |gs| => gs[i].(value := after[|env| + i])) == RepointedRequests(site, gs, find)
  {
    forall i | 0 <= i < |gs| ensures after[|env| + i] == S.Repointed(site, gs[i].value, find) {
      assert after[|env| + i] == S.Repointed(site, before[|env| + i], find);
    }
  }

  /** repointSiblings, over the environment and the requests in turn. */
  method Repoint(site: S.Site, env: seq<EnvVar>, gs: seq<P.Generated>, find: string -> seq<S.Span>)
    returns (env': seq<EnvVar>, gs': seq<P.Generated>, notes: seq<S.Note>)
    requires S.Finds(find)
    ensures env' == RepointedEnv(site, env, find) && gs' == RepointedRequests(site, gs, find)
    ensures notes == AddressNotes(site, env, gs, find)
  {
    var n, before := |env|, ValuesOf(env, gs);
    var after;
    after, notes := RepointValues(site, FieldsOf(env, gs), before, find);
    RepointedSplit(site, env, gs, before, after, find);
    env' := seq(n, i requires 0 <= i < n => env[i].(value := after[i]));
    gs' := seq(|gs|, i requires 0 <= i < |gs| => gs[i].(value := after[n + i]));
  }

  method AsWorkload(c: Context, name: string, primary: string, svc: Service)
    returns (w: Workload, notes: multiset<Note>, generated: seq<P.Generated>)
    requires S.Finds(c.find)
    ensures w == WorkloadOf(c, name, primary, svc)
    ensures notes == NotesOf(c, name, primary, svc)
    ensures generated == RequestsOf(c, name, primary, svc)
  {
    var (port, said) := PortOf(c, name, primary, svc);
    var domain := if name == primary then c.domain else "";
    var keys := SortedKeys(svc.environment.Keys);
    OrderIsUnique(keys, svc.environment.Keys);
    var vars := SortVariables(name, svc.environment, keys);
    said := said + vars.notes;
    var env, requests, addressed := Repoint(SiteOf(c, name, primary), vars.env, vars.generated, c.find);
    said := said + SaidOf(name, addressed);
    var claims, spoken := ClaimVolumes(name, svc.volumes);
    said := said + spoken + HealthNotes(name, svc) + FieldNotes(name, svc, FIELDS);
    w := Workload(NameOf(c, name), name, Resolved(svc), port, domain, env, claims,
                  if svc.health.Some? then svc.health.value.path else None, "");
    return w, multiset(said), requests;
  }

  // ---- Databases ----

  predicate IdentChar(c: char) {
    'a' <= c <= 'z' || IsDigit(c) || c == '_'
  }

  /** An unquoted PostgreSQL identifier, as the API admits it. */
  ghost predicate IsIdentifier(s: string) {
    s != "" && 'a' <= s[0] <= 'z' && forall i :: 0 <= i < |s| ==> IdentChar(s[i])
  }

  /** A compose value made an identifier, or left out, and what is said of that. */
  function Identifier(v: string): (r: (string, Option<Why>))
    ensures r.0 == "" || IsIdentifier(r.0)
  {
    if v == "" then ("", None)
    else if SourceNames(Scan(v)) != [] then ("", Some(MintsItsOwn))
    else
      var resolved := Literal(Scan(v));
      var fixed := TrimChar(Squeezed(resolved, IdentChar, '_', false), '_');
      if fixed == "" || !('a' <= fixed[0] <= 'z') then ("", Some(NotAnIdentifier(resolved)))
      else (fixed, if fixed != resolved then Some(MadeIdentifier(resolved, fixed)) else None)
  }

  lemma {:induction false} IdentifiersStay(s: string)
    requires forall i :: 0 <= i < |s| ==> IdentChar(s[i])
    ensures Squeezed(s, IdentChar, '_', false) == s
  {
    if s != "" {
      assert IdentChar(s[0]);
      assert LowerChar(s[0]) == s[0];
      IdentifiersStay(s[1..]);
    }
  }

  /** A value is taken as it reads, and nothing is said, exactly when it is an identifier that does not end in an underscore. */
  lemma IdentifierKeptIff(v: string)
    requires v != "" && SourceNames(Scan(v)) == []
    ensures var text := Literal(Scan(v)); Identifier(v) == (text, None) <==> IsIdentifier(text) && Last(text) != '_'
  {
    var text := Literal(Scan(v));
    if IsIdentifier(text) && Last(text) != '_' {
      IdentifiersStay(text);
    }
  }

  function IdentifierNotes(name: string, field: string, v: string): seq<Note> {
    var why := Identifier(v).1;
    if why.Some? then [Note(name, field, why.value)] else []
  }

  function DatabaseOf(c: Context, name: string, svc: Service): Database {
    Database(S.ObjectName(c.t.name + "-" + name), name, Resolved(svc),
             Identifier(At(svc.environment, "POSTGRES_DB")).0, Identifier(At(svc.environment, "POSTGRES_USER")).0)
  }

  function DatabaseNotes(name: string, svc: Service): seq<Note> {
    [Note(name, "image", BecameDatabase)]
    + IdentifierNotes(name, "database", At(svc.environment, "POSTGRES_DB"))
    + IdentifierNotes(name, "username", At(svc.environment, "POSTGRES_USER"))
  }

  /** One service's generated names added to those already there. */
  function AddNames(out: seq<string>, ns: seq<string>): seq<string> {
    if ns == [] then out
    else
      var out' := AddNames(out, Init(ns));
      if Last(ns) in out' then out' else out' + [Last(ns)]
  }

  function NamesIn(k: string, v: string): seq<string> {
    if v == "" && Magic(k) then [k] else SourceNames(Scan(v))
  }

  function Declared(env: map<string, string>, keys: seq<string>): seq<string> {
    if keys == [] then [] else AddNames(Declared(env, Init(keys)), NamesIn(Last(keys), At(env, Last(keys))))
  }

  method DeclaredSources(env: map<string, string>) returns (out: seq<string>)
    ensures out == Declared(env, InOrder(env.Keys))
  {
    var keys := SortedKeys(env.Keys);
    OrderIsUnique(keys, env.Keys);
    out := [];
    for i := 0 to |keys|
      invariant out == Declared(env, keys[..i])
    {
      assert Init(keys[..i + 1]) == keys[..i];
      out := AddNames(out, NamesIn(keys[i], At(env, keys[i])));
    }
    assert keys[..|keys|] == keys;
  }

  lemma {:induction false} AddedNames(out: seq<string>, ns: seq<string>)
    ensures forall n :: n in AddNames(out, ns) <==> n in out || n in ns
  {
    if ns != [] {
      AddedNames(out, Init(ns));
      assert ns == Init(ns) + [Last(ns)];
    }
  }

  /** The sources of a Database are exactly the generated names its service's environment mentions. */
  lemma {:induction false} DeclaredAreExact(env: map<string, string>, keys: seq<string>)
    ensures forall n :: n in Declared(env, keys) <==> exists k :: k in keys && n in NamesIn(k, At(env, k))
  {
    if keys != [] {
      DeclaredAreExact(env, Init(keys));
      AddedNames(Declared(env, Init(keys)), NamesIn(Last(keys), At(env, Last(keys))));
      assert keys == Init(keys) + [Last(keys)];
    }
  }

  // ---- The whole template ----

  /** The first service that mentions the template's port, if there is one. */
  function Mentioning(t: Template, names: seq<string>): Option<string> {
    if names == [] then None
    else if names[0] in t.services && t.services[names[0]].mentions then Some(names[0])
    else Mentioning(t, names[1..])
  }

  function PrimaryOf(t: Template, names: seq<string>): string
    requires names != []
  {
    if |names| == 1 then names[0]
    else if t.port > 0 && Mentioning(t, names).Some? then Mentioning(t, names).value
    else names[0]
  }

  lemma {:induction false} MentioningIsListed(t: Template, names: seq<string>)
    ensures Mentioning(t, names).Some? ==> Mentioning(t, names).value in names
  {
    if names != [] {
      MentioningIsListed(t, names[1..]);
    }
  }

  /** What one service becomes, with what is said about it. */
  datatype Made = Run(w: Workload, requests: seq<P.Generated>) | Kept(d: Database, sources: seq<string>)
  datatype Piece = Piece(name: string, made: Made, notes: multiset<Note>)

  ghost function PieceOf(c: Context, name: string, primary: string, svc: Service): Piece
    requires S.Finds(c.find)
  {
    var notes := multiset(ImageNotes(name, svc));
    if IsDatabase(svc) then
      Piece(name, Kept(DatabaseOf(c, name, svc), Declared(svc.environment, InOrder(svc.environment.Keys))),
            notes + multiset(DatabaseNotes(name, svc)))
    else
      Piece(name, Run(WorkloadOf(c, name, primary, svc), RequestsOf(c, name, primary, svc)), notes + NotesOf(c, name, primary, svc))
  }

  method ConvertService(c: Context, name: string, primary: string, svc: Service) returns (p: Piece)
    requires S.Finds(c.find)
    ensures p == PieceOf(c, name, primary, svc)
  {
    var notes := multiset(ImageNotes(name, svc));
    if IsDatabase(svc) {
      var declared := DeclaredSources(svc.environment);
      return Piece(name, Kept(DatabaseOf(c, name, svc), declared), notes + multiset(DatabaseNotes(name, svc)));
    }
    var w, said, requests := AsWorkload(c, name, primary, svc);
    return Piece(name, Run(w, requests), notes + said);
  }

  // ---- Putting the pieces together ----

  datatype Partial = Partial(workloads: seq<Workload>, databases: seq<Database>, generated: seq<P.Generated>,
                             databaseSources: seq<string>, notes: multiset<Note>, front: int)

  const EMPTY := Partial([], [], [], [], multiset{}, -1)

  function Added(p: Partial, piece: Piece, primary: string): Partial {
    match piece.made
    case Run(w, requests) =>
      p.(workloads := p.workloads + [w], generated := p.generated + requests, notes := p.notes + piece.notes,
         front := if piece.name == primary then |p.workloads| else p.front)
    case Kept(d, sources) =>
      p.(databases := p.databases + [d], databaseSources := p.databaseSources + sources, notes := p.notes + piece.notes)
  }

  function Assembled(ps: seq<Piece>, primary: string): Partial {
    if ps == [] then EMPTY else Added(Assembled(Init(ps), primary), Last(ps), primary)
  }

  /** linkDatabase: only when there is exactly one. */
  function Linked(p: Partial, front: nat): Partial
    requires front < |p.workloads|
  {
    if p.databases == [] then p
    else if |p.databases| == 1 then
      p.(workloads := p.workloads[front := p.workloads[front].(database := p.databases[0].name)],
         notes := p.notes + multiset{Note(p.workloads[front].name, "database", LinkedTo(p.databases[0].name))})
    else
      p.(notes := p.notes + multiset{Note("", "database", SeveralDatabases(DatabaseNames(p.databases)))})
  }

  function DatabaseNames(ds: seq<Database>): seq<string> {
    seq(|ds|, i requires 0 <= i < |ds| => ds[i].name)
  }

  function FrontOf(p: Partial): int {
    if p.front < 0 then 0 else p.front
  }

  function Finished(p: Partial): Result<Conversion, Error>
    requires p.front < |p.workloads|
  {
    if p.workloads == [] then Err(NothingToRun)
    else
      var q := Linked(p, FrontOf(p));
      Ok(Conversion(q.workloads, q.databases, FrontOf(p), q.generated, q.databaseSources, q.notes))
  }

  lemma {:induction false} FrontIsValid(ps: seq<Piece>, primary: string)
    ensures -1 <= Assembled(ps, primary).front < |Assembled(ps, primary).workloads|
  {
    if ps != [] {
      FrontIsValid(Init(ps), primary);
    }
  }

  lemma InOrderIsNonempty(t: Template)
    requires Parsed(t)
    ensures InOrder(t.services.Keys) != []
  {
    var k :| k in t.services;
    assert k in InOrder(t.services.Keys);
  }

  ghost function PrimaryIn(t: Template): string
    requires Parsed(t)
  {
    InOrderIsNonempty(t);
    PrimaryOf(t, InOrder(t.services.Keys))
  }

  const NO_SERVICE := Service("", map[], [], None, None, false, [], [], "", [], "", [], map[], map[])

  /** A Go map read: a missing service is the zero one. */
  function ServiceAt(t: Template, name: string): Service {
    if name in t.services then t.services[name] else NO_SERVICE
  }

  ghost function PiecesOf(c: Context, names: seq<string>, primary: string): (ps: seq<Piece>)
    requires S.Finds(c.find)
    ensures |ps| == |names| && forall i :: 0 <= i < |names| ==> ps[i] == PieceOf(c, names[i], primary, ServiceAt(c.t, names[i]))
  {
    seq(|names|, i requires 0 <= i < |names| => PieceOf(c, names[i], primary, ServiceAt(c.t, names[i])))
  }

  /** The services of a template converted, in name order. */
  ghost function Pieces(c: Context): seq<Piece>
    requires S.Finds(c.find) && Parsed(c.t)
  {
    PiecesOf(c, InOrder(c.t.services.Keys), PrimaryIn(c.t))
  }

  /** What a template converts to: a function of the template and the caller's choices alone. */
  ghost function Converted(c: Context, namespace: string): Result<Conversion, Error>
    requires S.Finds(c.find) && Parsed(c.t)
  {
    if namespace == "" then Err(NoNamespace)
    else
      FrontIsValid(Pieces(c), PrimaryIn(c.t));
      Finished(Assembled(Pieces(c), PrimaryIn(c.t)))
  }

  method Convert(c: Context, namespace: string) returns (r: Result<Conversion, Error>)
    requires S.Finds(c.find) && Parsed(c.t)
    ensures r == Converted(c, namespace)
  {
    if namespace == "" {
      return Err(NoNamespace);
    }
    var names := SortedKeys(c.t.services.Keys);
    OrderIsUnique(names, c.t.services.Keys);
    InOrderIsNonempty(c.t);
    var primary := PrimaryOf(c.t, names);
    var p := ConvertServices(c, names, primary, PiecesOf(c, names, primary));
    FrontIsValid(PiecesOf(c, names, primary), primary);
    return Finished(p);
  }

  /** The loop over the services. */
  method ConvertServices(c: Context, names: seq<string>, primary: string, ghost ps: seq<Piece>) returns (p: Partial)
    requires S.Finds(c.find) && ps == PiecesOf(c, names, primary)
    ensures p == Assembled(ps, primary)
  {
    p := EMPTY;
    for i := 0 to |names|
      invariant p == Assembled(ps[..i], primary)
    {
      AssembledNext(ps, i, primary);
      var piece := ConvertService(c, names[i], primary, ServiceAt(c.t, names[i]));
      p := Added(p, piece, primary);
    }
    assert ps[..|ps|] == ps;
  }

  lemma AssembledNext(ps: seq<Piece>, i: nat, primary: string)
    requires i < |ps|
    ensures Assembled(ps[..i + 1], primary) == Added(Assembled(ps[..i], primary), ps[i], primary)
  {
    assert Init(ps[..i + 1]) == ps[..i] && Last(ps[..i + 1]) == ps[i];
  }

  // ---- Nothing is lost ----

  const WORKLOAD_SERVICE := (w: Workload) => w.service
  const DATABASE_SERVICE := (d: Database) => d.service
  const PIECE_NAME := (p: Piece) => p.name

  /** A piece is about its own service. */
  ghost predicate About(p: Piece) {
    match p.made
    case Run(w, requests) => w.service == p.name && Ascending(requests, REQUEST_KEY) && forall g :: g in requests ==> g.service == p.name
    case Kept(d, _) => d.service == p.name
  }

  ghost predicate Proper(ps: seq<Piece>) {
    Ascending(ps, PIECE_NAME) && forall p :: p in ps ==> About(p)
  }

  lemma ProperInit(ps: seq<Piece>)
    requires ps != [] && Proper(ps)
    ensures Proper(Init(ps)) && About(Last(ps)) && ps == Init(ps) + [Last(ps)]
    ensures forall p :: p in Init(ps) ==> Less(p.name, Last(ps).name) && p.name != Last(ps).name
  {
    var init := Init(ps);
    assert forall i :: 0 <= i < |init| ==> init[i] == ps[i];
    forall i, j | 0 <= i < j < |init| ensures Less(PIECE_NAME(init[i]), PIECE_NAME(init[j])) {
      assert Less(PIECE_NAME(ps[i]), PIECE_NAME(ps[j]));
    }
    forall p | p in init ensures Less(p.name, Last(ps).name) && p.name != Last(ps).name {
      var i :| 0 <= i < |init| && init[i] == p;
      assert Less(PIECE_NAME(ps[i]), PIECE_NAME(ps[|ps| - 1]));
      LessIsIrreflexive(p.name);
    }
    assert ps == init + [Last(ps)];
  }

  ghost predicate RunsIn(ps: seq<Piece>, w: Workload) {
    exists p :: p in ps && p.made.Run? && p.made.w == w
  }

  ghost predicate KeptIn(ps: seq<Piece>, d: Database) {
    exists p :: p in ps && p.made.Kept? && p.made.d == d
  }

  /** Each piece is in the list of its kind, and nothing else is. */
  lemma {:induction false} AssembledHolds(ps: seq<Piece>, primary: string)
    ensures forall w :: w in Assembled(ps, primary).workloads <==> RunsIn(ps, w)
    ensures forall d :: d in Assembled(ps, primary).databases <==> KeptIn(ps, d)
  {
    if ps != [] {
      var init, p := Init(ps), Last(ps);
      AssembledHolds(init, primary);
      assert ps == init + [p];
      forall w ensures RunsIn(ps, w) <==> RunsIn(init, w) || (p.made.Run? && p.made.w == w) {
        assert p in ps;
      }
      forall d ensures KeptIn(ps, d) <==> KeptIn(init, d) || (p.made.Kept? && p.made.d == d) {
        assert p in ps;
      }
    }
  }

  /** Both lists are in the order of their services, so no service is in one twice. */
  lemma {:induction false} AssembledAscends(ps: seq<Piece>, primary: string)
    requires Proper(ps)
    ensures Ascending(Assembled(ps, primary).workloads, WORKLOAD_SERVICE)
    ensures Ascending(Assembled(ps, primary).databases, DATABASE_SERVICE)
  {
    if ps != [] {
      var init, p := Init(ps), Last(ps);
      ProperInit(ps);
      AssembledAscends(init, primary);
      AssembledHolds(init, primary);
      match p.made
      case Run(w, _) => AscendingSnoc(Assembled(init, primary).workloads, w, WORKLOAD_SERVICE);
      case Kept(d, _) => AscendingSnoc(Assembled(init, primary).databases, d, DATABASE_SERVICE);
    }
  }

  /** The front door is the primary's workload, or nothing when it has none. */
  lemma {:induction false} FrontIsPrimary(ps: seq<Piece>, primary: string)
    requires Proper(ps)
    ensures var a := Assembled(ps, primary);
            if exists p :: p in ps && p.name == primary && p.made.Run? then
              0 <= a.front < |a.workloads| && a.workloads[a.front].service == primary
            else a.front == -1
  {
    if ps != [] {
      ProperInit(ps);
      FrontIsPrimary(Init(ps), primary);
      FrontIsValid(Init(ps), primary);
      assert Last(ps) in ps;
    }
  }

  lemma OnceMore(gs: seq<P.Generated>, rs: seq<P.Generated>, name: string)
    requires I.OncePerService(gs) && Ascending(rs, REQUEST_KEY)
    requires (forall g :: g in gs ==> g.service != name) && (forall g :: g in rs ==> g.service == name)
    ensures I.OncePerService(gs + rs)
  {
    var all := gs + rs;
    forall i | 0 <= i < |all| ensures all[i].service == name <==> i >= |gs| {
      assert all[i] == (if i < |gs| then gs[i] else rs[i - |gs|]);
      assert i < |gs| ==> all[i] in gs;
      assert i >= |gs| ==> all[i] in rs;
    }
    forall i, j | 0 <= i < j < |all| && all[i].service == all[j].service ensures all[i].key != all[j].key {
      if j >= |gs| {
        assert Less(REQUEST_KEY(rs[i - |gs|]), REQUEST_KEY(rs[j - |gs|]));
        LessIsIrreflexive(all[i].key);
      }
    }
  }

  lemma {:induction false} RequestedOnce(ps: seq<Piece>, primary: string)
    requires Proper(ps)
    ensures I.OncePerService(Assembled(ps, primary).generated)
    ensures forall g :: g in Assembled(ps, primary).generated ==> exists p :: p in ps && g.service == p.name
  {
    if ps != [] {
      var init, p := Init(ps), Last(ps);
      ProperInit(ps);
      RequestedOnce(init, primary);
      assert p in ps;
      if p.made.Run? {
        OnceMore(Assembled(init, primary).generated, p.made.requests, p.name);
      }
    }
  }

  /** What one piece contributes is in the whole. */
  lemma {:induction false} ContributionStays(ps: seq<Piece>, primary: string, i: nat)
    requires i < |ps|
    ensures ps[i].notes <= Assembled(ps, primary).notes
    ensures ps[i].made.Run? ==> forall g :: g in ps[i].made.requests ==> g in Assembled(ps, primary).generated
  {
    if i < |ps| - 1 {
      assert Init(ps)[i] == ps[i];
      ContributionStays(Init(ps), primary, i);
    }
  }

  lemma FinishedKeeps(p: Partial)
    requires p.front < |p.workloads| && Finished(p).Ok?
    ensures var r := Finished(p).value;
            && r.primary == FrontOf(p) < |p.workloads| == |r.workloads|
            && SameButLinks(p.workloads, r.workloads)
            && r.databases == p.databases && r.generated == p.generated && r.databaseSources == p.databaseSources
            && p.notes <= r.notes
  {}

  // ---- The pieces of a template ----

  lemma RequestsOfOne(c: Context, name: string, primary: string, svc: Service)
    requires S.Finds(c.find)
    ensures Ascending(RequestsOf(c, name, primary, svc), REQUEST_KEY)
    ensures forall g :: g in RequestsOf(c, name, primary, svc) ==> g.service == name
  {
    var keys, gs := InOrder(svc.environment.Keys), VariablesIn(name, svc).generated;
    RequestsAscend(name, svc.environment, keys);
    EachVariableLandsOnce(name, svc.environment, keys);
    var rs := RequestsOf(c, name, primary, svc);
    forall i | 0 <= i < |rs| ensures rs[i].key == gs[i].key && rs[i].service == name {
      assert gs[i] in gs;
    }
    forall i, j | 0 <= i < j < |rs| ensures Less(REQUEST_KEY(rs[i]), REQUEST_KEY(rs[j])) {
      assert Less(REQUEST_KEY(gs[i]), REQUEST_KEY(gs[j]));
    }
  }

  lemma PieceIsAbout(c: Context, name: string, primary: string, svc: Service)
    requires S.Finds(c.find)
    ensures About(PieceOf(c, name, primary, svc)) && PieceOf(c, name, primary, svc).name == name
    ensures PieceOf(c, name, primary, svc).made.Kept? <==> IsDatabase(svc)
  {
    RequestsOfOne(c, name, primary, svc);
  }

  lemma PiecesAreProper(c: Context)
    requires S.Finds(c.find) && Parsed(c.t)
    ensures Proper(Pieces(c))
  {
    var names, ps := InOrder(c.t.services.Keys), Pieces(c);
    forall i | 0 <= i < |ps| ensures About(ps[i]) && ps[i].name == names[i] {
      PieceIsAbout(c, names[i], PrimaryIn(c.t), ServiceAt(c.t, names[i]));
    }
    forall i, j | 0 <= i < j < |ps| ensures Less(PIECE_NAME(ps[i]), PIECE_NAME(ps[j])) {
      assert Less(SELF(names[i]), SELF(names[j]));
    }
  }

  /** The piece of a service of the template. */
  ghost function PieceFor(c: Context, name: string): Piece
    requires S.Finds(c.find) && Parsed(c.t)
  {
    PieceOf(c, name, PrimaryIn(c.t), ServiceAt(c.t, name))
  }

  lemma PieceAt(c: Context, i: nat)
    requires S.Finds(c.find) && Parsed(c.t) && i < |InOrder(c.t.services.Keys)|
    ensures var name := InOrder(c.t.services.Keys)[i];
            |Pieces(c)| == |InOrder(c.t.services.Keys)| && name in c.t.services
            && Pieces(c)[i] == PieceFor(c, name) && Pieces(c)[i].name == name
  {
    var name := InOrder(c.t.services.Keys)[i];
    assert name in InOrder(c.t.services.Keys);
    PieceIsAbout(c, name, PrimaryIn(c.t), ServiceAt(c.t, name));
  }

  lemma PieceIsIn(c: Context, name: string)
    requires S.Finds(c.find) && Parsed(c.t) && name in c.t.services
    ensures PieceFor(c, name) in Pieces(c)
  {
    var names := InOrder(c.t.services.Keys);
    assert name in names;
    var i :| 0 <= i < |names| && names[i] == name;
    PieceAt(c, i);
    assert Pieces(c)[i] in Pieces(c);
  }

  lemma PiecesAre(c: Context, p: Piece)
    requires S.Finds(c.find) && Parsed(c.t)
    ensures p in Pieces(c) <==> p.name in c.t.services && p == PieceFor(c, p.name)
  {
    var ps := Pieces(c);
    if p in ps {
      var i :| 0 <= i < |ps| && ps[i] == p;
      PieceAt(c, i);
    }
    if p.name in c.t.services {
      PieceIsIn(c, p.name);
    }
  }

  /** The workload of a service, apart from the database it may be pointed at. */
  ghost predicate IsWorkloadOf(c: Context, w: Workload, name: string)
    requires S.Finds(c.find) && Parsed(c.t)
  {
    w.(database := "") == WorkloadOf(c, name, PrimaryIn(c.t), ServiceAt(c.t, name))
  }

  ghost predicate IsMadeDatabase(c: Context, d: Database) {
    && d.service in c.t.services && IsDatabase(ServiceAt(c.t, d.service))
    && d == DatabaseOf(c, d.service, ServiceAt(c.t, d.service))
  }

  /** Every service is exactly one object on its side, made by the single conversion. */
  ghost predicate Whole(c: Context, workloads: seq<Workload>, databases: seq<Database>)
    requires S.Finds(c.find) && Parsed(c.t)
  {
    && Ascending(workloads, WORKLOAD_SERVICE) && Ascending(databases, DATABASE_SERVICE)
    && (forall w :: w in workloads ==>
          w.service in c.t.services && !IsDatabase(ServiceAt(c.t, w.service)) && IsWorkloadOf(c, w, w.service))
    && (forall k :: k in c.t.services && !IsDatabase(ServiceAt(c.t, k)) ==> exists w :: w in workloads && w.service == k)
    && (forall d :: d in databases <==> IsMadeDatabase(c, d))
  }

  lemma WorkloadIsItsPiece(c: Context, w: Workload)
    requires S.Finds(c.find) && Parsed(c.t) && RunsIn(Pieces(c), w)
    ensures w.service in c.t.services && !IsDatabase(ServiceAt(c.t, w.service)) && IsWorkloadOf(c, w, w.service) && w.database == ""
  {
    var p :| p in Pieces(c) && p.made.Run? && p.made.w == w;
    PiecesAre(c, p);
    PieceIsAbout(c, p.name, PrimaryIn(c.t), ServiceAt(c.t, p.name));
  }

  lemma DatabaseIsItsPiece(c: Context, d: Database)
    requires S.Finds(c.find) && Parsed(c.t)
    ensures KeptIn(Pieces(c), d) <==> IsMadeDatabase(c, d)
  {
    if KeptIn(Pieces(c), d) {
      var p :| p in Pieces(c) && p.made.Kept? && p.made.d == d;
      PiecesAre(c, p);
      PieceIsAbout(c, p.name, PrimaryIn(c.t), ServiceAt(c.t, p.name));
    }
    if IsMadeDatabase(c, d) {
      var p := PieceFor(c, d.service);
      PiecesAre(c, p);
      assert p in Pieces(c);
    }
  }

  lemma ServiceHasItsWorkload(c: Context, k: string)
    requires S.Finds(c.find) && Parsed(c.t) && k in c.t.services && !IsDatabase(ServiceAt(c.t, k))
    ensures PieceFor(c, k) in Pieces(c) && PieceFor(c, k).made.Run? && PieceFor(c, k).made.w.service == k
  {
    PiecesAre(c, PieceFor(c, k));
    PieceIsAbout(c, k, PrimaryIn(c.t), ServiceAt(c.t, k));
  }

  lemma WholeBeforeLinking(c: Context, a: Partial)
    requires S.Finds(c.find) && Parsed(c.t) && a == Assembled(Pieces(c), PrimaryIn(c.t))
    ensures Whole(c, a.workloads, a.databases)
  {
    PiecesAreProper(c);
    AssembledAscends(Pieces(c), PrimaryIn(c.t));
    AssembledHolds(Pieces(c), PrimaryIn(c.t));
    forall w | w in a.workloads
      ensures w.service in c.t.services && !IsDatabase(ServiceAt(c.t, w.service)) && IsWorkloadOf(c, w, w.service)
    {
      WorkloadIsItsPiece(c, w);
    }
    forall k | k in c.t.services && !IsDatabase(ServiceAt(c.t, k)) ensures exists w :: w in a.workloads && w.service == k {
      ServiceHasItsWorkload(c, k);
      assert RunsIn(Pieces(c), PieceFor(c, k).made.w);
    }
    forall d ensures d in a.databases <==> IsMadeDatabase(c, d) {
      DatabaseIsItsPiece(c, d);
    }
  }

  /** The same workloads, apart from the database each is pointed at. */
  ghost predicate SameButLinks(ws: seq<Workload>, ws': seq<Workload>) {
    |ws| == |ws'| && forall i :: 0 <= i < |ws| ==> ws'[i].(database := "") == ws[i].(database := "")
  }

  lemma LinksKeepOrder(ws: seq<Workload>, ws': seq<Workload>)
    requires SameButLinks(ws, ws') && Ascending(ws, WORKLOAD_SERVICE)
    ensures Ascending(ws', WORKLOAD_SERVICE)
  {
    assert forall i :: 0 <= i < |ws| ==> ws'[i].(database := "").service == ws[i].(database := "").service;
    forall i, j | 0 <= i < j < |ws'| ensures Less(WORKLOAD_SERVICE(ws'[i]), WORKLOAD_SERVICE(ws'[j])) {
      assert Less(WORKLOAD_SERVICE(ws[i]), WORKLOAD_SERVICE(ws[j]));
    }
  }

  lemma LinkedHasItsFellow(ws: seq<Workload>, ws': seq<Workload>, w: Workload) returns (v: Workload)
    requires SameButLinks(ws, ws') && w in ws
    ensures v in ws' && v.service == w.service && v.(database := "") == w.(database := "")
  {
    var i :| 0 <= i < |ws| && ws[i] == w;
    v := ws'[i];
    assert v.(database := "").service == w.(database := "").service;
  }

  lemma WholeAfterLinking(c: Context, ws: seq<Workload>, ws': seq<Workload>, ds: seq<Database>)
    requires S.Finds(c.find) && Parsed(c.t) && SameButLinks(ws, ws') && Whole(c, ws, ds)
    ensures Whole(c, ws', ds)
  {
    LinksKeepOrder(ws, ws');
    forall w | w in ws'
      ensures w.service in c.t.services && !IsDatabase(ServiceAt(c.t, w.service)) && IsWorkloadOf(c, w, w.service)
    {
      var v := LinkedHasItsFellow(ws', ws, w);
    }
    forall k | k in c.t.services && !IsDatabase(ServiceAt(c.t, k)) ensures exists w :: w in ws' && w.service == k {
      var w :| w in ws && w.service == k;
      var v := LinkedHasItsFellow(ws, ws', w);
    }
  }

  /** When a template converts, every service is exactly one Workload or exactly one Database, in service order on its side. */
  lemma EveryServiceIsOneObject(c: Context, namespace: string)
    requires S.Finds(c.find) && Parsed(c.t) && Converted(c, namespace).Ok?
    ensures Whole(c, Converted(c, namespace).value.workloads, Converted(c, namespace).value.databases)
  {
    var a := Assembled(Pieces(c), PrimaryIn(c.t));
    FrontIsValid(Pieces(c), PrimaryIn(c.t));
    WholeBeforeLinking(c, a);
    FinishedKeeps(a);
    WholeAfterLinking(c, a.workloads, Finished(a).value.workloads, a.databases);
  }

  lemma PrimaryIsAService(t: Template)
    requires Parsed(t)
    ensures PrimaryIn(t) in t.services
  {
    InOrderIsNonempty(t);
    var names := InOrder(t.services.Keys);
    MentioningIsListed(t, names);
    assert names[0] in names;
  }

  /** The primary is a valid index: of the primary service's workload, or the first one when that service became a Database. */
  lemma PrimaryIsValid(c: Context, namespace: string)
    requires S.Finds(c.find) && Parsed(c.t) && Converted(c, namespace).Ok?
    ensures PrimaryIn(c.t) in c.t.services
    ensures var r := Converted(c, namespace).value;
            && r.primary < |r.workloads|
            && if IsDatabase(ServiceAt(c.t, PrimaryIn(c.t))) then r.primary == 0 else r.workloads[r.primary].service == PrimaryIn(c.t)
  {
    var primary, ps := PrimaryIn(c.t), Pieces(c);
    PrimaryIsAService(c.t);
    PiecesAreProper(c);
    FrontIsValid(ps, primary);
    FrontIsPrimary(ps, primary);
    FinishedKeeps(Assembled(ps, primary));
    PiecesAre(c, PieceFor(c, primary));
    PieceIsAbout(c, primary, primary, ServiceAt(c.t, primary));
    forall p | p in ps && p.name == primary ensures p == PieceFor(c, primary) {
      PiecesAre(c, p);
    }
  }

  /** A conversion fails exactly without a namespace, or when every service is a database. */
  lemma FailsIffNothingToRun(c: Context, namespace: string)
    requires S.Finds(c.find) && Parsed(c.t)
    ensures Converted(c, namespace).Err? <==> namespace == "" || forall k :: k in c.t.services ==> IsDatabase(ServiceAt(c.t, k))
  {
    var a := Assembled(Pieces(c), PrimaryIn(c.t));
    FrontIsValid(Pieces(c), PrimaryIn(c.t));
    WholeBeforeLinking(c, a);
    assert a.workloads != [] ==> a.workloads[0] in a.workloads;
  }

  /** A converted template asks for each variable of a service once, which is what the catalogue's plan relies on. */
  lemma ConvertedRequestsOnce(c: Context, namespace: string)
    requires S.Finds(c.find) && Parsed(c.t) && Converted(c, namespace).Ok?
    ensures I.OncePerService(Converted(c, namespace).value.generated)
  {
    PiecesAreProper(c);
    FrontIsValid(Pieces(c), PrimaryIn(c.t));
    RequestedOnce(Pieces(c), PrimaryIn(c.t));
    FinishedKeeps(Assembled(Pieces(c), PrimaryIn(c.t)));
  }

  // ---- Nothing is dropped silently ----

  lemma ConvertedHolds(c: Context, namespace: string, name: string)
    requires S.Finds(c.find) && Parsed(c.t) && Converted(c, namespace).Ok?
    requires name in c.t.services && !IsDatabase(ServiceAt(c.t, name))
    ensures var r, svc := Converted(c, namespace).value, ServiceAt(c.t, name);
            && NotesOf(c, name, PrimaryIn(c.t), svc) <= r.notes
            && forall g :: g in RequestsOf(c, name, PrimaryIn(c.t), svc) ==> g in r.generated
  {
    var p, ps := PieceFor(c, name), Pieces(c);
    PiecesAre(c, p);
    var i :| 0 <= i < |ps| && ps[i] == p;
    FrontIsValid(ps, PrimaryIn(c.t));
    ContributionStays(ps, PrimaryIn(c.t), i);
    FinishedKeeps(Assembled(ps, PrimaryIn(c.t)));
    NotesInPiece(c, name);
  }

  lemma NotesInPiece(c: Context, name: string)
    requires S.Finds(c.find) && Parsed(c.t) && !IsDatabase(ServiceAt(c.t, name))
    ensures NotesOf(c, name, PrimaryIn(c.t), ServiceAt(c.t, name)) <= PieceFor(c, name).notes
    ensures PieceFor(c, name).made.Run? && PieceFor(c, name).made.requests == RequestsOf(c, name, PrimaryIn(c.t), ServiceAt(c.t, name))
  {}

  /** What becomes of one variable of a workload's service, addresses repointed. */
  ghost predicate Lands(c: Context, r: Conversion, w: Workload, k: string, fate: Fate)
    requires S.Finds(c.find) && Parsed(c.t)
  {
    var site := SiteOf(c, w.service, PrimaryIn(c.t));
    match fate
    case Plain(v) => EnvVar(k, S.Repointed(site, v, c.find)) in w.env
    case Minted(ns, v) => P.Generated(w.service, k, S.Repointed(site, v, c.find), SourcesFor(ns)) in r.generated
    case AsksForUrl => Note(w.service, k, OwnUrl) in r.notes
  }

  lemma RepointedIn(site: S.Site, vars: Variables, find: string -> seq<S.Span>, e: EnvVar, g: P.Generated)
    requires S.Finds(find)
    ensures e in vars.env ==> e.(value := S.Repointed(site, e.value, find)) in RepointedEnv(site, vars.env, find)
    ensures g in vars.generated ==> g.(value := S.Repointed(site, g.value, find)) in RepointedRequests(site, vars.generated, find)
  {
    if e in vars.env {
      var i :| 0 <= i < |vars.env| && vars.env[i] == e;
      assert RepointedEnv(site, vars.env, find)[i] == e.(value := S.Repointed(site, e.value, find));
    }
    if g in vars.generated {
      var i :| 0 <= i < |vars.generated| && vars.generated[i] == g;
      assert RepointedRequests(site, vars.generated, find)[i] == g.(value := S.Repointed(site, g.value, find));
    }
  }

  lemma NotesInclude(c: Context, name: string, primary: string, svc: Service, n: Note)
    requires S.Finds(c.find)
    ensures n in VariablesIn(name, svc).notes ==> n in NotesOf(c, name, primary, svc)
    ensures n in SiblingNotes(c, name, primary, svc) ==> n in NotesOf(c, name, primary, svc)
    ensures n in VolumeNotes(name, svc.volumes) ==> n in NotesOf(c, name, primary, svc)
    ensures n in FieldNotes(name, svc, FIELDS) ==> n in NotesOf(c, name, primary, svc)
  {
    assert n in SaidIn(c, name, primary, svc) <==> n in NotesOf(c, name, primary, svc);
  }

  /** What holds of the whole about a workload's variables. */
  ghost predicate HoldsVariables(c: Context, r: Conversion, w: Workload)
    requires S.Finds(c.find) && Parsed(c.t)
  {
    var site, vars := SiteOf(c, w.service, PrimaryIn(c.t)), VariablesIn(w.service, ServiceAt(c.t, w.service));
    && w.env == RepointedEnv(site, vars.env, c.find)
    && (forall g :: g in RepointedRequests(site, vars.generated, c.find) ==> g in r.generated)
    && (forall n :: n in vars.notes ==> n in r.notes)
  }

  lemma VariablesAreHeld(c: Context, namespace: string, w: Workload)
    requires S.Finds(c.find) && Parsed(c.t) && Converted(c, namespace).Ok? && w in Converted(c, namespace).value.workloads
    ensures w.service in c.t.services && HoldsVariables(c, Converted(c, namespace).value, w)
  {
    EveryServiceIsOneObject(c, namespace);
    ConvertedHolds(c, namespace, w.service);
    var svc := ServiceAt(c.t, w.service);
    assert w.(database := "").env == w.env;
    forall n | n in VariablesIn(w.service, svc).notes ensures n in Converted(c, namespace).value.notes {
      NotesInclude(c, w.service, PrimaryIn(c.t), svc, n);
    }
  }

  lemma HeldVariableLands(c: Context, r: Conversion, w: Workload, k: string)
    requires S.Finds(c.find) && Parsed(c.t) && HoldsVariables(c, r, w) && k in ServiceAt(c.t, w.service).environment
    ensures Lands(c, r, w, k, FateOf(k, ServiceAt(c.t, w.service).environment[k]))
  {
    var name, svc, site := w.service, ServiceAt(c.t, w.service), SiteOf(c, w.service, PrimaryIn(c.t));
    var fate, keys, vars := FateOf(k, svc.environment[k]), InOrder(svc.environment.Keys), VariablesIn(name, svc);
    assert k in keys;
    EachVariableLandsOnce(name, svc.environment, keys);
    match fate {
      case Plain(v) =>
        RepointedIn(site, vars, c.find, EnvVar(k, v), P.Generated("", "", "", []));
      case Minted(ns, v) =>
        assert IsRequest(name, svc.environment, P.Generated(name, k, v, SourcesFor(ns)));
        RepointedIn(site, vars, c.find, EnvVar("", ""), P.Generated(name, k, v, SourcesFor(ns)));
      case AsksForUrl =>
        assert IsUrlNote(name, svc.environment, Note(name, k, OwnUrl));
    }
  }

  /** Every variable of every workload of a converted template lands where its value says. */
  lemma EveryVariableLands(c: Context, namespace: string, w: Workload, k: string)
    requires S.Finds(c.find) && Parsed(c.t) && Converted(c, namespace).Ok? && w in Converted(c, namespace).value.workloads
    requires k in ServiceAt(c.t, w.service).environment
    ensures Lands(c, Converted(c, namespace).value, w, k, FateOf(k, ServiceAt(c.t, w.service).environment[k]))
  {
    VariablesAreHeld(c, namespace, w);
    HeldVariableLands(c, Converted(c, namespace).value, w, k);
  }

  /** Every volume is spoken of, claimed or not. */
  lemma EveryVolumeIsNoted(c: Context, namespace: string, name: string, i: nat)
    requires S.Finds(c.find) && Parsed(c.t) && Converted(c, namespace).Ok?
    requires name in c.t.services && !IsDatabase(ServiceAt(c.t, name)) && i < |ServiceAt(c.t, name).volumes|
    ensures var vs := ServiceAt(c.t, name).volumes;
            VolumeNote(name, vs[i], |ClaimsOf(vs[..i])|) in Converted(c, namespace).value.notes
  {
    var svc := ServiceAt(c.t, name);
    VolumeNoteAt(name, svc.volumes, i);
    ConvertedHolds(c, namespace, name);
    NotesInclude(c, name, PrimaryIn(c.t), svc, VolumeNotes(name, svc.volumes)[i]);
  }

  /** Where a host of the template is spoken of, and as pointed where. */
  ghost predicate SpokenOf(c: Context, r: Conversion, name: string, host: string, n: S.Note)
    requires S.Finds(c.find) && Parsed(c.t)
  {
    var site, vars := SiteOf(c, name, PrimaryIn(c.t)), VariablesIn(name, ServiceAt(c.t, name));
    && n.host == host && S.PointsRight(site, host, n.to)
    && S.FirstMention(site, FieldsOf(vars.env, vars.generated), ValuesOf(vars.env, vars.generated), c.find, n)
    && Note(name, n.field, Addresses(host, n.to)) in r.notes
  }

  /** Every sibling a workload's variables address is spoken of, under the first variable that does and as pointed where. */
  lemma EverySiblingIsNoted(c: Context, namespace: string, name: string, host: string) returns (n: S.Note)
    requires S.Finds(c.find) && Parsed(c.t) && Converted(c, namespace).Ok?
    requires name in c.t.services && !IsDatabase(ServiceAt(c.t, name))
    requires var site, vars := SiteOf(c, name, PrimaryIn(c.t)), VariablesIn(name, ServiceAt(c.t, name));
             host in S.HostsIn(site, ValuesOf(vars.env, vars.generated), c.find)
    ensures SpokenOf(c, Converted(c, namespace).value, name, host, n)
  {
    var svc, site := ServiceAt(c.t, name), SiteOf(c, name, PrimaryIn(c.t));
    var vars := VariablesIn(name, svc);
    var ns := AddressNotes(site, vars.env, vars.generated, c.find);
    S.NotedAtFirstMention(site, FieldsOf(vars.env, vars.generated), ValuesOf(vars.env, vars.generated), c.find);
    var i :| 0 <= i < |ns| && ns[i].host == host;
    n := ns[i];
    ConvertedHolds(c, namespace, name);
    assert SaidOf(name, ns)[i] == Note(name, n.field, Addresses(host, n.to));
    NotesInclude(c, name, PrimaryIn(c.t), svc, SaidOf(name, ns)[i]);
  }

  // ---- Fields with nowhere to go ----

  lemma {:induction false} FieldNotesAre(name: string, svc: Service, fields: seq<Field>, n: Note)
    ensures n in FieldNotes(name, svc, fields)
       <==> n.why.Unsupported? && n == FieldNote(name, n.why.field) && n.why.field in fields && Sets(svc, n.why.field)
  {
    if fields != [] {
      FieldNotesAre(name, svc, Init(fields), n);
      assert fields == Init(fields) + [Last(fields)];
    }
  }

  lemma EveryFieldIsListed(f: Field)
    ensures f in FIELDS
  {
    match f
    case Command => assert FIELDS[0] == f;
    case Entrypoint => assert FIELDS[1] == f;
    case User => assert FIELDS[2] == f;
    case CapAdd => assert FIELDS[3] == f;
    case NetworkMode => assert FIELDS[4] == f;
    case SecurityOpt => assert FIELDS[5] == f;
    case Ulimits => assert FIELDS[6] == f;
    case DependsOn => assert FIELDS[7] == f;
  }

  lemma {:induction false} VolumeNotesCount(name: string, vs: seq<Volume>)
    ensures |VolumeNotes(name, vs)| == |vs|
  {
    if vs != [] {
      VolumeNotesCount(name, Init(vs));
    }
  }

  lemma VolumeNotesAreNot(name: string, vs: seq<Volume>, n: Note)
    requires n in VolumeNotes(name, vs)
    ensures !n.why.Unsupported?
  {
    VolumeNotesCount(name, vs);
    var i :| 0 <= i < |VolumeNotes(name, vs)| && VolumeNotes(name, vs)[i] == n;
    VolumeNoteAt(name, vs, i);
  }

  lemma NotSaidElsewhere(c: Context, name: string, primary: string, svc: Service, n: Note)
    requires S.Finds(c.find) && n.why.Unsupported?
    ensures n !in PortOf(c, name, primary, svc).1 && n !in VariablesIn(name, svc).notes && n !in SiblingNotes(c, name, primary, svc)
    ensures n !in VolumeNotes(name, svc.volumes) && n !in HealthNotes(name, svc)
  {
    EachVariableLandsOnce(name, svc.environment, InOrder(svc.environment.Keys));
    if n in VolumeNotes(name, svc.volumes) {
      VolumeNotesAreNot(name, svc.volumes, n);
    }
  }

  lemma SaidUnsupported(c: Context, name: string, primary: string, svc: Service, n: Note)
    requires S.Finds(c.find) && n.why.Unsupported?
    ensures n in SaidIn(c, name, primary, svc) <==> n == FieldNote(name, n.why.field) && Sets(svc, n.why.field)
  {
    NotSaidElsewhere(c, name, primary, svc, n);
    EveryFieldIsListed(n.why.field);
    FieldNotesAre(name, svc, FIELDS, n);
  }

  lemma OneNoteIsNot(x: Note, n: Note)
    requires n.why.Unsupported? && !x.why.Unsupported?
    ensures n !in [x]
  {}

  lemma IdentifierNotesAreNot(name: string, field: string, v: string, n: Note)
    requires n.why.Unsupported?
    ensures n !in IdentifierNotes(name, field, v)
  {}

  lemma DatabaseNotesAreNot(name: string, svc: Service, n: Note)
    requires n.why.Unsupported?
    ensures n !in DatabaseNotes(name, svc)
  {
    OneNoteIsNot(Note(name, "image", BecameDatabase), n);
    IdentifierNotesAreNot(name, "database", At(svc.environment, "POSTGRES_DB"), n);
    IdentifierNotesAreNot(name, "username", At(svc.environment, "POSTGRES_USER"), n);
  }

  lemma NeverUnsupported(name: string, svc: Service, n: Note)
    requires n.why.Unsupported?
    ensures n !in multiset(ImageNotes(name, svc)) && n !in multiset(DatabaseNotes(name, svc))
  {
    assert n !in ImageNotes(name, svc);
    DatabaseNotesAreNot(name, svc, n);
  }

  lemma NotesOfPiece(c: Context, name: string, n: Note)
    requires S.Finds(c.find) && Parsed(c.t)
    ensures IsDatabase(ServiceAt(c.t, name)) ==>
              (n in PieceFor(c, name).notes <==>
                 n in multiset(ImageNotes(name, ServiceAt(c.t, name))) || n in multiset(DatabaseNotes(name, ServiceAt(c.t, name))))
    ensures !IsDatabase(ServiceAt(c.t, name)) ==>
              (n in PieceFor(c, name).notes <==>
                 || n in multiset(ImageNotes(name, ServiceAt(c.t, name)))
                 || n in SaidIn(c, name, PrimaryIn(c.t), ServiceAt(c.t, name)))
  {
    var said := SaidIn(c, name, PrimaryIn(c.t), ServiceAt(c.t, name));
    assert n in said <==> n in multiset(said);
  }

  lemma PieceUnsupported(c: Context, name: string, n: Note)
    requires S.Finds(c.find) && Parsed(c.t) && n.why.Unsupported?
    ensures n in PieceFor(c, name).notes
       <==> n == FieldNote(name, n.why.field) && !IsDatabase(ServiceAt(c.t, name)) && Sets(ServiceAt(c.t, name), n.why.field)
  {
    NotesOfPiece(c, name, n);
    NeverUnsupported(name, ServiceAt(c.t, name), n);
    SaidUnsupported(c, name, PrimaryIn(c.t), ServiceAt(c.t, name), n);
  }

  lemma {:induction false} AssembledNotes(ps: seq<Piece>, primary: string, n: Note)
    ensures n in Assembled(ps, primary).notes <==> exists p :: p in ps && n in p.notes
  {
    if ps != [] {
      AssembledNotes(Init(ps), primary, n);
      assert ps == Init(ps) + [Last(ps)];
    }
  }

  lemma LinkingSaysNoMore(p: Partial, n: Note)
    requires p.front < |p.workloads| && Finished(p).Ok? && n.why.Unsupported?
    ensures n in Finished(p).value.notes <==> n in p.notes
  {}

  /** A field is said to have nowhere to go exactly when a service that runs as a workload sets it. */
  lemma UnsupportedAreNotedExactly(c: Context, namespace: string, name: string, f: Field)
    requires S.Finds(c.find) && Parsed(c.t) && Converted(c, namespace).Ok?
    ensures FieldNote(name, f) in Converted(c, namespace).value.notes
       <==> name in c.t.services && !IsDatabase(ServiceAt(c.t, name)) && Sets(ServiceAt(c.t, name), f)
  {
    var n, ps := FieldNote(name, f), Pieces(c);
    FrontIsValid(ps, PrimaryIn(c.t));
    AssembledNotes(ps, PrimaryIn(c.t), n);
    LinkingSaysNoMore(Assembled(ps, PrimaryIn(c.t)), n);
    NotedByItsOwn(c, name, f);
  }

  lemma NotedByItsOwn(c: Context, name: string, f: Field)
    requires S.Finds(c.find) && Parsed(c.t)
    ensures (exists p :: p in Pieces(c) && FieldNote(name, f) in p.notes)
       <==> name in c.t.services && !IsDatabase(ServiceAt(c.t, name)) && Sets(ServiceAt(c.t, name), f)
  {
    var n := FieldNote(name, f);
    PieceUnsupported(c, name, n);
    PiecesAre(c, PieceFor(c, name));
    PieceIsAbout(c, name, PrimaryIn(c.t), ServiceAt(c.t, name));
    if p :| p in Pieces(c) && n in p.notes {
      PiecesAre(c, p);
      PieceUnsupported(c, p.name, n);
    }
  }

  // ---- What a request still names ----

  lemma {:induction false} GeneratedIsFrom(ps: seq<Piece>, primary: string, g: P.Generated)
    ensures g in Assembled(ps, primary).generated <==> exists p :: p in ps && p.made.Run? && g in p.made.requests
  {
    if ps != [] {
      GeneratedIsFrom(Init(ps), primary, g);
      assert ps == Init(ps) + [Last(ps)];
    }
  }

  /** The value a variable of a service has in the template. */
  function ValueIn(c: Context, name: string, key: string): string {
    At(ServiceAt(c.t, name).environment, key)
  }

  lemma RequestInSomePiece(c: Context, namespace: string, g: P.Generated)
    requires S.Finds(c.find) && Parsed(c.t) && Converted(c, namespace).Ok? && g in Converted(c, namespace).value.generated
    ensures exists p :: p in Pieces(c) && p.made.Run? && g in p.made.requests
  {
    FrontIsValid(Pieces(c), PrimaryIn(c.t));
    FinishedKeeps(Assembled(Pieces(c), PrimaryIn(c.t)));
    GeneratedIsFrom(Pieces(c), PrimaryIn(c.t), g);
  }

  lemma RequestComesFrom(c: Context, namespace: string, g: P.Generated) returns (name: string)
    requires S.Finds(c.find) && Parsed(c.t) && Converted(c, namespace).Ok? && g in Converted(c, namespace).value.generated
    ensures g in RequestsOf(c, name, PrimaryIn(c.t), ServiceAt(c.t, name))
  {
    RequestInSomePiece(c, namespace, g);
    var p :| p in Pieces(c) && p.made.Run? && g in p.made.requests;
    RequestOfItsPiece(c, p, g);
    name := p.name;
  }

  lemma RequestsInPiece(c: Context, name: string)
    requires S.Finds(c.find) && Parsed(c.t) && PieceFor(c, name).made.Run?
    ensures PieceFor(c, name).made.requests == RequestsOf(c, name, PrimaryIn(c.t), ServiceAt(c.t, name))
  {}

  lemma RequestOfItsPiece(c: Context, p: Piece, g: P.Generated)
    requires S.Finds(c.find) && Parsed(c.t) && p in Pieces(c) && p.made.Run? && g in p.made.requests
    ensures g in RequestsOf(c, p.name, PrimaryIn(c.t), ServiceAt(c.t, p.name))
  {
    PiecesAre(c, p);
    RequestsInPiece(c, p.name);
  }

  /** A request of a converted template is what its variable's fate makes of it, addresses repointed. */
  lemma RequestIsFated(c: Context, namespace: string, g: P.Generated)
    requires S.Finds(c.find) && Parsed(c.t) && Converted(c, namespace).Ok? && g in Converted(c, namespace).value.generated
    ensures var fate := FateOf(g.key, ValueIn(c, g.service, g.key));
            && fate.Minted? && g.sources == SourcesFor(fate.sources)
            && g.value == S.Repointed(SiteOf(c, g.service, PrimaryIn(c.t)), fate.template, c.find)
  {
    var name := RequestComesFrom(c, namespace, g);
    RequestOfPiece(c, name, PrimaryIn(c.t), ServiceAt(c.t, name), g);
  }

  lemma RequestOfPiece(c: Context, name: string, primary: string, svc: Service, g: P.Generated)
    requires S.Finds(c.find) && g in RequestsOf(c, name, primary, svc)
    ensures var fate := FateOf(g.key, At(svc.environment, g.key));
            && g.service == name && fate.Minted? && g.sources == SourcesFor(fate.sources)
            && g.value == S.Repointed(SiteOf(c, name, primary), fate.template, c.find)
  {
    var gs := VariablesIn(name, svc).generated;
    EachVariableLandsOnce(name, svc.environment, InOrder(svc.environment.Keys));
    var i :| 0 <= i < |gs| && g == gs[i].(value := S.Repointed(SiteOf(c, name, primary), gs[i].value, c.find));
    assert IsRequest(name, svc.environment, gs[i]);
  }

  /** The names of a request's sources. */
  function SourceList(g: P.Generated): seq<string> {
    seq(|g.sources|, i requires 0 <= i < |g.sources| => g.sources[i].name)
  }

  /** The template of a value has only bare placeholders of generated names. */
  predicate Plainly(v: string) {
    T.OnlyBare(Interpolation.Template(Scan(v)))
  }

  /** Whatever the value spells itself names a source only where that source was named or is next. */
  predicate SourcesInTurn(v: string) {
    T.InTurn(T.Marks(Scan(v)), SourceNames(Scan(v)))
  }

  /** Whatever the template's references look like, it is read to name the value's sources in turn, and none is lost. */
  ghost predicate SourcesStay(v: string) {
    TemplateSources.AllInTurn(TemplateSources.FoundNames(TemplateSources.Events(v)), SourceNames(Scan(v)))
    && TemplateSources.NoneLost(TemplateSources.Events(v))
  }

  lemma FateNamesItsSources(k: string, v: string)
    requires FateOf(k, v).Minted?
    ensures SourceNames(Scan(FateOf(k, v).template)) == FateOf(k, v).sources <==> v == "" || SourcesStay(v)
    ensures v != "" && Plainly(v) ==> (SourcesStay(v) <==> SourcesInTurn(v))
    ensures v != "" && Plainly(v) ==> (T.Generated(Scan(FateOf(k, v).template)) == T.Generated(Scan(v)) <==> T.NoStray(Scan(v)))
  {
    if v == "" {
      ScanOfPlaceholder(k);
    } else {
      TemplateSources.SourcesStayIff(v);
      if Plainly(v) {
        T.SameSourcesIff(v);
        T.SecondPassIff(v);
        T.PassIsIdleIff(Interpolation.Template(Scan(v)));
      }
    }
  }

  lemma SourceListOf(g: P.Generated, ns: seq<string>)
    requires g.sources == SourcesFor(ns)
    ensures SourceList(g) == ns
  {}

  /**
   A request of a converted template, its addresses repointed, names exactly its
   sources, in order, if and only if its value's template is read to name them in turn
   and loses none; when that has only bare placeholders, if and only if every stray
   names a source in turn, and it names each as often as the value does if and only if
   there is no stray.
   */
  lemma RequestsNameTheirSources(c: Context, namespace: string, g: P.Generated)
    requires S.Finds(c.find) && S.FindsHosts(c.find) && Parsed(c.t)
    requires Converted(c, namespace).Ok? && g in Converted(c, namespace).value.generated
    ensures var v := ValueIn(c, g.service, g.key);
            && (SourceNames(Scan(g.value)) == SourceList(g) <==> v == "" || SourcesStay(v))
            && (v != "" && Plainly(v) ==> (SourcesStay(v) <==> SourcesInTurn(v)))
            && (v != "" && Plainly(v) ==> (T.Generated(Scan(g.value)) == T.Generated(Scan(v)) <==> T.NoStray(Scan(v))))
  {
    var v := ValueIn(c, g.service, g.key);
    RequestIsFated(c, namespace, g);
    FateNamesItsSources(g.key, v);
    SourceListOf(g, FateOf(g.key, v).sources);
    RepointingKeepsSources(SiteOf(c, g.service, PrimaryIn(c.t)), FateOf(g.key, v).template, c.find);
  }

  lemma RepointingKeepsSources(site: S.Site, t: string, find: string -> seq<S.Span>)
    requires S.Finds(find) && S.FindsHosts(find)
    ensures SourceNames(Scan(S.Repointed(site, t, find))) == SourceNames(Scan(t))
    ensures T.Generated(Scan(S.Repointed(site, t, find))) == T.Generated(Scan(t))
  {
    assert S.HostSpans(t, find(t)) && S.Placed(t, find(t));
    S.RewritingKeepsSources(site, t, find(t));
    S.RewritingKeepsGenerated(site, t, find(t));
  }
}
