/**
 The settings planner of server/settings.go: what a PUT decides before anything
 is written, what a GET shows, and that one undoes the other.
 */
module SettingsPlan {
  import opened Common
  import opened Text

  const MAX_SETTINGS_ENV := 64
  const MAX_NAME := 128

  datatype EnvVar = EnvVar(name: string, value: string)
  datatype SecretRef = SecretRef(name: string, key: string)

  /** One variable on the wire; the absence of a value means something in both directions. */
  datatype Row = Row(key: string, value: Option<string>, secret: bool, build: bool, runtime: bool, ref: Option<SecretRef>)

  datatype Health = Health(livenessPath: string, readinessPath: string, port: int, interval: int, timeout: int, threshold: int)

  /** Quantities as amounts; zero is one nobody set. */
  datatype Resources = Resources(cpuRequest: int, memoryRequest: int, memoryLimit: int)
  datatype WireResources = WireResources(cpuRequest: string, memoryRequest: string, memoryLimit: string)

  /** resource.ParseQuantity and Quantity.String, which are the library's. */
  datatype Quantities = Quantities(parse: string -> Option<int>, show: int -> string)

  predicate Blank(s: string) {
    TrimSpace(s) == ""
  }

  /** A set quantity prints as something that parses back to it. */
  ghost predicate PrintsBack(q: Quantities) {
    forall n: int :: n != 0 ==> q.parse(q.show(n)) == Some(n) && !Blank(q.show(n))
  }

  datatype App = App(name: string, env: seq<EnvVar>, userSecrets: seq<string>, buildEnv: seq<EnvVar>,
                     health: Health, resources: Resources, image: string, rest: string)
  datatype Request = Request(env: seq<Row>, health: Health, resources: WireResources)
  datatype Plan = Plan(app: App, puts: map<string, string>, remove: seq<string>)

  datatype Error = TooMany | NeedsName | UnusableName | LongName | ListedTwice | Nowhere | BuildTimeSecret
                 | EmptySecret | NoValue | NeverSet | BadPath | OutOfRange | TimeoutTooLong
                 | NotAQuantity | NotPositive | LimitBelowRequest

  // ---- One variable ----

  /** What is wrong with a row taken by itself, in the order it is asked. */
  function RowFault(v: Row): Option<Error> {
    var key := TrimSpace(v.key);
    if key == "" then Some(NeedsName)
    else if !IsName(key) then Some(UnusableName)
    else if |key| > MAX_NAME then Some(LongName)
    else if !v.build && !v.runtime then Some(Nowhere)
    else if v.secret && v.build then Some(BuildTimeSecret)
    else if v.secret && v.value == Some("") then Some(EmptySecret)
    else if !v.secret && v.value.None? then Some(NoValue)
    else None
  }

  /** The first refusal a row meets after the ones before it; being listed twice is asked fourth. */
  function Refusal(v: Row, seen: set<string>, was: seq<string>): Option<Error> {
    var fault := RowFault(v);
    if fault in {Some(NeedsName), Some(UnusableName), Some(LongName)} then fault
    else if TrimSpace(v.key) in seen then Some(ListedTwice)
    else if fault.Some? then fault
    else if v.secret && v.value.None? && TrimSpace(v.key) !in was then Some(NeverSet)
    else None
  }

  datatype Draft = Draft(env: seq<EnvVar>, userSecrets: seq<string>, buildEnv: seq<EnvVar>,
                         puts: map<string, string>, seen: set<string>)

  const NOTHING := Draft([], [], [], map[], {})

  function Added(d: Draft, v: Row): Draft
    requires RowFault(v).None?
  {
    var key := TrimSpace(v.key);
    if v.secret then
      d.(userSecrets := d.userSecrets + [key], seen := d.seen + {key},
         puts := if v.value.Some? then d.puts[key := v.value.value] else d.puts)
    else
      var e := EnvVar(key, v.value.value);
      d.(env := if v.runtime then d.env + [e] else d.env,
         buildEnv := if v.build then d.buildEnv + [e] else d.buildEnv, seen := d.seen + {key})
  }

  function Drafted(rows: seq<Row>, was: seq<string>): Result<Draft, Error> {
    if rows == [] then Ok(NOTHING)
    else
      match Drafted(Init(rows), was)
      case Err(e) => Err(e)
      case Ok(d) =>
        var no := Refusal(Last(rows), d.seen, was);
        if no.Some? then Err(no.value) else Ok(Added(d, Last(rows)))
  }

  function Dropped(was: seq<string>, seen: set<string>): seq<string> {
    if was == [] then []
    else Dropped(Init(was), seen) + if Last(was) in seen then [] else [Last(was)]
  }

  // ---- Health and resources ----

  predicate PathOk(p: string) {
    p == "" || p[0] == '/'
  }

  predicate Within(v: int, hi: int) {
    v == 0 || 1 <= v <= hi
  }

  function PlannedHealth(h: Health): Result<Health, Error> {
    if !PathOk(h.livenessPath) || !PathOk(h.readinessPath) then Err(BadPath)
    else if !Within(h.port, 65535) || !Within(h.interval, 300) || !Within(h.timeout, 60) || !Within(h.threshold, 20)
    then Err(OutOfRange)
    else if h.timeout != 0 && h.interval != 0 && h.timeout > h.interval then Err(TimeoutTooLong)
    else Ok(h)
  }

  function PlannedQuantity(q: Quantities, text: string, current: int): Result<int, Error> {
    if Blank(text) then Ok(current)
    else
      match q.parse(text)
      case None => Err(NotAQuantity)
      case Some(n) => if n <= 0 then Err(NotPositive) else Ok(n)
  }

  predicate LimitOk(r: Resources) {
    r.memoryLimit == 0 || r.memoryRequest == 0 || r.memoryLimit >= r.memoryRequest
  }

  function PlannedResources(q: Quantities, r: WireResources, current: Resources): Result<Resources, Error> {
    match PlannedQuantity(q, r.cpuRequest, current.cpuRequest)
    case Err(e) => Err(e)
    case Ok(cpu) =>
      match PlannedQuantity(q, r.memoryRequest, current.memoryRequest)
      case Err(e) => Err(e)
      case Ok(memory) =>
        match PlannedQuantity(q, r.memoryLimit, current.memoryLimit)
        case Err(e) => Err(e)
        case Ok(limit) =>
          var out := Resources(cpu, memory, limit);
          if LimitOk(out) then Ok(out) else Err(LimitBelowRequest)
  }

  // ---- The plan ----

  function Planned(q: Quantities, req: Request, current: App): Result<Plan, Error> {
    if |req.env| > MAX_SETTINGS_ENV then Err(TooMany)
    else
      match Drafted(req.env, current.userSecrets)
      case Err(e) => Err(e)
      case Ok(d) =>
        match PlannedHealth(req.health)
        case Err(e) => Err(e)
        case Ok(health) =>
          match PlannedResources(q, req.resources, current.resources)
          case Err(e) => Err(e)
          case Ok(resources) =>
            Ok(Plan(App(current.name, d.env, d.userSecrets, d.buildEnv, health, resources, current.image, current.rest),
                    d.puts, Dropped(current.userSecrets, d.seen)))
  }

  /** The loop over the rows of the request. */
  method DraftRows(rows: seq<Row>, was: seq<string>) returns (r: Result<Draft, Error>)
    ensures r == Drafted(rows, was)
  {
    var d := NOTHING;
    for i := 0 to |rows|
      invariant Drafted(rows[..i], was) == Ok(d)
    {
      var v := rows[i];
      assert Init(rows[..i + 1]) == rows[..i] && Last(rows[..i + 1]) == v;
      var no := Refusal(v, d.seen, was);
      if no.Some? {
        RefusalStands(rows, was, i + 1);
        return Err(no.value);
      }
      d := Added(d, v);
    }
    assert rows[..|rows|] == rows;
    return Ok(d);
  }

  /** The loop over the names committed before. */
  method DropUnseen(was: seq<string>, seen: set<string>) returns (remove: seq<string>)
    ensures remove == Dropped(was, seen)
  {
    remove := [];
    for i := 0 to |was|
      invariant remove == Dropped(was[..i], seen)
    {
      assert Init(was[..i + 1]) == was[..i];
      if was[i] !in seen {
        remove := remove + [was[i]];
      }
    }
    assert was[..|was|] == was;
  }

  method PlanSettings(q: Quantities, req: Request, current: App) returns (r: Result<Plan, Error>)
    ensures r == Planned(q, req, current)
  {
    if |req.env| > MAX_SETTINGS_ENV {
      return Err(TooMany);
    }
    var drafted := DraftRows(req.env, current.userSecrets);
    if drafted.Err? {
      return Err(drafted.error);
    }
    var d := drafted.value;
    var remove := DropUnseen(current.userSecrets, d.seen);
    var health := PlannedHealth(req.health);
    if health.Err? {
      return Err(health.error);
    }
    var resources := PlannedResources(q, req.resources, current.resources);
    if resources.Err? {
      return Err(resources.error);
    }
    return Ok(Plan(App(current.name, d.env, d.userSecrets, d.buildEnv, health.value, resources.value, current.image, current.rest),
                   d.puts, remove));
  }

  /** A refusal on a prefix is the refusal of the whole list. */
  lemma {:induction false} RefusalStands(rows: seq<Row>, was: seq<string>, n: nat)
    requires n <= |rows| && Drafted(rows[..n], was).Err?
    ensures Drafted(rows, was) == Drafted(rows[..n], was)
  {
    if n == |rows| {
      assert rows[..n] == rows;
    } else {
      assert Init(rows)[..n] == rows[..n];
      RefusalStands(Init(rows), was, n);
    }
  }

  // ---- What a plan accepts ----

  ghost predicate AllNames(s: set<string>) {
    forall k :: k in s ==> IsName(k) && |k| <= MAX_NAME
  }

  function NamesOf(env: seq<EnvVar>): set<string> {
    set i | 0 <= i < |env| :: env[i].name
  }

  function Keys(s: seq<string>): set<string> {
    set i | 0 <= i < |s| :: s[i]
  }

  ghost predicate Distinct(s: seq<string>) {
    forall i, j :: 0 <= i < j < |s| ==> s[i] != s[j]
  }

  ghost predicate DistinctNames(env: seq<EnvVar>) {
    forall i, j :: 0 <= i < j < |env| ==> env[i].name != env[j].name
  }

  /** The build variables that are not run-time variables as well. */
  function BuildOnly(buildEnv: seq<EnvVar>, runtime: set<string>): seq<EnvVar> {
    if buildEnv == [] then []
    else BuildOnly(Init(buildEnv), runtime) + if Last(buildEnv).name in runtime then [] else [Last(buildEnv)]
  }

  /** One variable has one value, whichever side it is on. */
  ghost predicate SameValues(env: seq<EnvVar>, buildEnv: seq<EnvVar>) {
    forall i, j :: 0 <= i < |env| && 0 <= j < |buildEnv| && env[i].name == buildEnv[j].name ==> env[i] == buildEnv[j]
  }

  /** The lists of a workload some PUT has produced. */
  ghost predicate SettledLists(env: seq<EnvVar>, userSecrets: seq<string>, buildEnv: seq<EnvVar>) {
    && DistinctNames(env) && Distinct(userSecrets) && DistinctNames(buildEnv)
    && SameValues(env, buildEnv)
    && Keys(userSecrets) !! NamesOf(env) && Keys(userSecrets) !! NamesOf(buildEnv)
    && AllNames(NamesOf(env)) && AllNames(Keys(userSecrets)) && AllNames(NamesOf(buildEnv))
  }

  ghost predicate Settled(app: App) {
    && SettledLists(app.env, app.userSecrets, app.buildEnv)
    && |app.env| + |app.userSecrets| + |BuildOnly(app.buildEnv, NamesOf(app.env))| <= MAX_SETTINGS_ENV
    && PlannedHealth(app.health).Ok? && LimitOk(app.resources)
  }

  ghost predicate DraftOk(d: Draft, was: seq<string>, count: nat) {
    && SettledLists(d.env, d.userSecrets, d.buildEnv)
    && d.seen == NamesOf(d.env) + Keys(d.userSecrets) + NamesOf(d.buildEnv)
    && |d.env| + |d.userSecrets| + |BuildOnly(d.buildEnv, NamesOf(d.env))| <= count
    && d.puts.Keys <= Keys(d.userSecrets) && Keys(d.userSecrets) <= d.puts.Keys + Keys(was)
  }

  lemma NamesSnoc(env: seq<EnvVar>, e: EnvVar)
    ensures NamesOf(env + [e]) == NamesOf(env) + {e.name}
  {
    assert forall i :: 0 <= i < |env| ==> (env + [e])[i] == env[i];
    assert (env + [e])[|env|] == e;
  }

  lemma KeysSnoc(s: seq<string>, k: string)
    ensures Keys(s + [k]) == Keys(s) + {k}
  {
    assert forall i :: 0 <= i < |s| ==> (s + [k])[i] == s[i];
    assert (s + [k])[|s|] == k;
  }

  /** A new run-time name does not hide any build variable of another name. */
  lemma {:induction false} BuildOnlyWider(buildEnv: seq<EnvVar>, runtime: set<string>, k: string)
    requires k !in NamesOf(buildEnv)
    ensures BuildOnly(buildEnv, runtime + {k}) == BuildOnly(buildEnv, runtime)
  {
    if buildEnv != [] {
      assert buildEnv == Init(buildEnv) + [Last(buildEnv)];
      NamesSnoc(Init(buildEnv), Last(buildEnv));
      BuildOnlyWider(Init(buildEnv), runtime, k);
    }
  }

  lemma AddedSecretOk(d: Draft, was: seq<string>, v: Row, n: nat)
    requires DraftOk(d, was, n) && v.secret && Refusal(v, d.seen, was).None?
    ensures DraftOk(Added(d, v), was, n + 1)
  {
    KeysSnoc(d.userSecrets, TrimSpace(v.key));
  }

  lemma SettledWithRuntime(env: seq<EnvVar>, userSecrets: seq<string>, buildEnv: seq<EnvVar>, e: EnvVar)
    requires SettledLists(env, userSecrets, buildEnv) && IsName(e.name) && |e.name| <= MAX_NAME
    requires e.name !in NamesOf(env) && e.name !in Keys(userSecrets) && e.name !in NamesOf(buildEnv)
    ensures SettledLists(env + [e], userSecrets, buildEnv)
  {
    NamesSnoc(env, e);
    NameIn(env);
    NameIn(buildEnv);
  }

  lemma SettledWithBuild(env: seq<EnvVar>, userSecrets: seq<string>, buildEnv: seq<EnvVar>, e: EnvVar)
    requires SettledLists(env, userSecrets, buildEnv) && IsName(e.name) && |e.name| <= MAX_NAME
    requires e.name !in Keys(userSecrets) && e.name !in NamesOf(buildEnv)
    requires forall i :: 0 <= i < |env| && env[i].name == e.name ==> env[i] == e
    ensures SettledLists(env, userSecrets, buildEnv + [e])
  {
    NamesSnoc(buildEnv, e);
    NameIn(buildEnv);
  }

  lemma NameIn(env: seq<EnvVar>)
    ensures forall i :: 0 <= i < |env| ==> env[i].name in NamesOf(env)
  {}

  lemma BuildOnlySnoc(buildEnv: seq<EnvVar>, e: EnvVar, runtime: set<string>)
    ensures BuildOnly(buildEnv + [e], runtime) == BuildOnly(buildEnv, runtime) + if e.name in runtime then [] else [e]
  {
    assert Init(buildEnv + [e]) == buildEnv;
  }

  lemma LiteralSettles(d: Draft, e: EnvVar, runtime: bool, build: bool)
    requires SettledLists(d.env, d.userSecrets, d.buildEnv) && IsName(e.name) && |e.name| <= MAX_NAME
    requires e.name !in NamesOf(d.env) && e.name !in NamesOf(d.buildEnv) && e.name !in Keys(d.userSecrets)
    ensures SettledLists(if runtime then d.env + [e] else d.env, d.userSecrets, if build then d.buildEnv + [e] else d.buildEnv)
  {
    NameIn(d.env);
    if runtime {
      SettledWithRuntime(d.env, d.userSecrets, d.buildEnv, e);
    }
    if build {
      SettledWithBuild(if runtime then d.env + [e] else d.env, d.userSecrets, d.buildEnv, e);
    }
  }

  lemma LiteralCounts(d: Draft, e: EnvVar, runtime: bool, build: bool)
    requires e.name !in NamesOf(d.env) && e.name !in NamesOf(d.buildEnv) && (runtime || build)
    ensures var env, builds := if runtime then d.env + [e] else d.env, if build then d.buildEnv + [e] else d.buildEnv;
            && |env| + |BuildOnly(builds, NamesOf(env))| == |d.env| + |BuildOnly(d.buildEnv, NamesOf(d.env))| + 1
            && NamesOf(env) + NamesOf(builds) == NamesOf(d.env) + NamesOf(d.buildEnv) + {e.name}
  {
    NamesSnoc(d.env, e);
    NamesSnoc(d.buildEnv, e);
    BuildOnlyWider(d.buildEnv, NamesOf(d.env), e.name);
    BuildOnlySnoc(d.buildEnv, e, NamesOf(if runtime then d.env + [e] else d.env));
  }

  lemma AcceptedRow(v: Row, seen: set<string>, was: seq<string>)
    requires Refusal(v, seen, was).None?
    ensures RowFault(v).None? && IsName(TrimSpace(v.key)) && |TrimSpace(v.key)| <= MAX_NAME && TrimSpace(v.key) !in seen
    ensures v.build || v.runtime
  {}

  lemma Assembled(d: Draft, d': Draft, was: seq<string>, k: string, n: nat)
    requires DraftOk(d, was, n) && d'.userSecrets == d.userSecrets && d'.puts == d.puts && d'.seen == d.seen + {k}
    requires SettledLists(d'.env, d'.userSecrets, d'.buildEnv)
    requires |d'.env| + |BuildOnly(d'.buildEnv, NamesOf(d'.env))| == |d.env| + |BuildOnly(d.buildEnv, NamesOf(d.env))| + 1
    requires NamesOf(d'.env) + NamesOf(d'.buildEnv) == NamesOf(d.env) + NamesOf(d.buildEnv) + {k}
    ensures DraftOk(d', was, n + 1)
  {}

  lemma AddedLiteralOk(d: Draft, was: seq<string>, v: Row, n: nat)
    requires DraftOk(d, was, n) && !v.secret && Refusal(v, d.seen, was).None?
    ensures DraftOk(Added(d, v), was, n + 1)
  {
    AcceptedRow(v, d.seen, was);
    var e := EnvVar(TrimSpace(v.key), v.value.value);
    LiteralSettles(d, e, v.runtime, v.build);
    LiteralCounts(d, e, v.runtime, v.build);
    Assembled(d, Added(d, v), was, e.name, n);
  }

  lemma {:induction false} DraftsAreOk(rows: seq<Row>, was: seq<string>)
    requires Drafted(rows, was).Ok?
    ensures DraftOk(Drafted(rows, was).value, was, |rows|)
  {
    if rows != [] {
      DraftsAreOk(Init(rows), was);
      var d := Drafted(Init(rows), was).value;
      if Last(rows).secret {
        AddedSecretOk(d, was, Last(rows), |rows| - 1);
      } else {
        AddedLiteralOk(d, was, Last(rows), |rows| - 1);
      }
    }
  }

  lemma PlannedParts(q: Quantities, req: Request, current: App)
    requires Planned(q, req, current).Ok?
    ensures |req.env| <= MAX_SETTINGS_ENV && Drafted(req.env, current.userSecrets).Ok?
    ensures var p, d := Planned(q, req, current).value, Drafted(req.env, current.userSecrets).value;
            && p.app.env == d.env && p.app.userSecrets == d.userSecrets && p.app.buildEnv == d.buildEnv
            && p.puts == d.puts && p.remove == Dropped(current.userSecrets, d.seen)
            && p.app.name == current.name && p.app.image == current.image && p.app.rest == current.rest
            && PlannedHealth(p.app.health).Ok? && LimitOk(p.app.resources)
  {}

  /**
   What every accepted PUT leaves: a settled workload that names only secrets it
   sets now or that were set before, and sets no value it does not name.
   */
  lemma PlansAreSettled(q: Quantities, req: Request, current: App)
    requires Planned(q, req, current).Ok?
    ensures var p := Planned(q, req, current).value;
            && Settled(p.app)
            && p.puts.Keys <= Keys(p.app.userSecrets) <= p.puts.Keys + Keys(current.userSecrets)
            && Keys(p.remove) == Keys(current.userSecrets)
                                 - NamesOf(p.app.env) - Keys(p.app.userSecrets) - NamesOf(p.app.buildEnv)
            && p.app.name == current.name && p.app.image == current.image && p.app.rest == current.rest
  {
    PlannedParts(q, req, current);
    DraftsAreOk(req.env, current.userSecrets);
    DroppedKeys(current.userSecrets, Drafted(req.env, current.userSecrets).value.seen);
  }

  lemma {:induction false} DroppedKeys(was: seq<string>, seen: set<string>)
    ensures Keys(Dropped(was, seen)) == Keys(was) - seen
  {
    if was != [] {
      DroppedKeys(Init(was), seen);
      assert was == Init(was) + [Last(was)];
      KeysSnoc(Init(was), Last(was));
      if Last(was) !in seen {
        KeysSnoc(Dropped(Init(was), seen), Last(was));
      } else {
        assert Dropped(was, seen) == Dropped(Init(was), seen);
      }
    }
  }
}
