/**
 What a GET of the settings shows (toWireSettings of server/settings.go), and
 that putting it back unchanged is a no-op.
 */
module SettingsRoundTrip {
  import opened Common
  import opened Text
  import opened SettingsPlan

  // ---- toWireSettings ----

  function EnvRow(e: EnvVar, build: bool): Row {
    Row(e.name, Some(e.value), false, build, true, None)
  }

  /** A secret carries its name and where it lives, and no value at all. */
  function SecretRow(app: string, k: string): Row {
    Row(k, None, true, false, true, Some(SecretRef(app + "-env", k)))
  }

  function BuildRow(e: EnvVar): Row {
    Row(e.name, Some(e.value), false, true, false, None)
  }

  function EnvRows(env: seq<EnvVar>, builds: set<string>): (rows: seq<Row>)
    ensures |rows| == |env| && forall i :: 0 <= i < |env| ==> rows[i] == EnvRow(env[i], env[i].name in builds)
  {
    seq(|env|, i requires 0 <= i < |env| => EnvRow(env[i], env[i].name in builds))
  }

  function SecretRows(app: string, ks: seq<string>): (rows: seq<Row>)
    ensures |rows| == |ks| && forall i :: 0 <= i < |ks| ==> rows[i] == SecretRow(app, ks[i])
  {
    seq(|ks|, i requires 0 <= i < |ks| => SecretRow(app, ks[i]))
  }

  function BuildRows(env: seq<EnvVar>): (rows: seq<Row>)
    ensures |rows| == |env| && forall i :: 0 <= i < |env| ==> rows[i] == BuildRow(env[i])
  {
    seq(|env|, i requires 0 <= i < |env| => BuildRow(env[i]))
  }

  function IndexOfKey(rows: seq<Row>, key: string): (at: int)
    ensures at == -1 ==> forall i :: 0 <= i < |rows| ==> rows[i].key != key
    ensures at != -1 ==> 0 <= at < |rows| && rows[at].key == key && forall i :: 0 <= i < at ==> rows[i].key != key
  {
    if rows == [] then -1
    else if rows[0].key == key then 0
    else var at := IndexOfKey(rows[1..], key); if at == -1 then -1 else at + 1
  }

  /** A build variable ticks the box of the row that has its name, or gets a row of its own. */
  function Merged(rows: seq<Row>, e: EnvVar): seq<Row> {
    var at := IndexOfKey(rows, e.name);
    if at >= 0 then rows[at := rows[at].(build := true)] else rows + [BuildRow(e)]
  }

  function MergedAll(rows: seq<Row>, es: seq<EnvVar>): seq<Row> {
    if es == [] then rows else Merged(MergedAll(rows, Init(es)), Last(es))
  }

  function WireRows(app: App): seq<Row> {
    MergedAll(EnvRows(app.env, {}) + SecretRows(app.name, app.userSecrets), app.buildEnv)
  }

  const KEY := (r: Row) => r.key
  const NAME := (e: EnvVar) => e.name

  function Shown(q: Quantities, n: int): string {
    if n == 0 then "" else q.show(n)
  }

  function ToWire(q: Quantities, app: App): Request {
    Request(SortBy(WireRows(app), KEY), app.health,
            WireResources(Shown(q, app.resources.cpuRequest), Shown(q, app.resources.memoryRequest),
                          Shown(q, app.resources.memoryLimit)))
  }

  method ToWireSettings(q: Quantities, app: App) returns (out: Request)
    ensures out == ToWire(q, app)
  {
    var rows: seq<Row> := [];
    for i := 0 to |app.env|
      invariant rows == EnvRows(app.env, {})[..i]
    {
      rows := rows + [Row(app.env[i].name, Some(app.env[i].value), false, false, true, None)];
    }
    assert rows == EnvRows(app.env, {});
    for i := 0 to |app.userSecrets|
      invariant rows == EnvRows(app.env, {}) + SecretRows(app.name, app.userSecrets)[..i]
    {
      rows := rows + [SecretRow(app.name, app.userSecrets[i])];
    }
    assert rows == EnvRows(app.env, {}) + SecretRows(app.name, app.userSecrets);
    ghost var first := rows;
    for i := 0 to |app.buildEnv|
      invariant rows == MergedAll(first, app.buildEnv[..i])
    {
      assert Init(app.buildEnv[..i + 1]) == app.buildEnv[..i];
      var at := IndexOfKey(rows, app.buildEnv[i].name);
      if at >= 0 {
        rows := rows[at := rows[at].(build := true)];
      } else {
        rows := rows + [BuildRow(app.buildEnv[i])];
      }
    }
    assert app.buildEnv[..|app.buildEnv|] == app.buildEnv;
    return Request(SortBy(rows, KEY), app.health,
                   WireResources(Shown(q, app.resources.cpuRequest), Shown(q, app.resources.memoryRequest),
                                 Shown(q, app.resources.memoryLimit)));
  }

  // ---- The rows of a settled workload ----

  function PlainRows(app: App, builds: seq<EnvVar>): seq<Row> {
    EnvRows(app.env, NamesOf(builds)) + SecretRows(app.name, app.userSecrets)
    + BuildRows(BuildOnly(builds, NamesOf(app.env)))
  }

  lemma {:induction false} BuildOnlyIn(builds: seq<EnvVar>, runtime: set<string>)
    ensures forall i :: 0 <= i < |BuildOnly(builds, runtime)| ==>
              BuildOnly(builds, runtime)[i] in builds && BuildOnly(builds, runtime)[i].name !in runtime
    ensures forall e :: e in builds && e.name !in runtime ==> e in BuildOnly(builds, runtime)
  {
    if builds != [] {
      BuildOnlyIn(Init(builds), runtime);
      assert builds == Init(builds) + [Last(builds)];
    }
  }

  lemma TickedRow(env: seq<EnvVar>, builds: set<string>, at: nat)
    requires DistinctNames(env) && at < |env|
    ensures EnvRows(env, builds)[at := EnvRows(env, builds)[at].(build := true)] == EnvRows(env, builds + {env[at].name})
  {}

  lemma NotAKey(app: App, builds: seq<EnvVar>, e: EnvVar)
    requires e.name !in NamesOf(app.env) && e.name !in Keys(app.userSecrets) && e.name !in NamesOf(builds)
    ensures IndexOfKey(PlainRows(app, builds), e.name) == -1
  {
    var rows := PlainRows(app, builds);
    var bs := BuildOnly(builds, NamesOf(app.env));
    BuildOnlyIn(builds, NamesOf(app.env));
    forall i | 0 <= i < |rows| ensures rows[i].key != e.name {
      if i < |app.env| {
        assert rows[i].key == app.env[i].name;
      } else if i < |app.env| + |app.userSecrets| {
        assert rows[i].key == app.userSecrets[i - |app.env|];
      } else {
        var b := bs[i - |app.env| - |app.userSecrets|];
        assert rows[i].key == b.name && b in builds;
        var j :| 0 <= j < |builds| && builds[j] == b;
        assert builds[j].name in NamesOf(builds);
      }
    }
  }

  /** Ticking one row among those before `tail`. */
  lemma TickedFirst(env: seq<EnvVar>, builds: set<string>, tail: seq<Row>, name: string)
    requires DistinctNames(env) && name in NamesOf(env)
    ensures var rows, at := EnvRows(env, builds) + tail, IndexOfKey(EnvRows(env, builds) + tail, name);
            0 <= at < |env| && rows[at := rows[at].(build := true)] == EnvRows(env, builds + {name}) + tail
  {
    var rows := EnvRows(env, builds) + tail;
    var k :| 0 <= k < |env| && env[k].name == name;
    assert rows[k] == EnvRow(env[k], name in builds);
    var at := IndexOfKey(rows, name);
    assert 0 <= at <= k && rows[at] == EnvRows(env, builds)[at];
    TickedRow(env, builds, at);
  }

  lemma PlainSplit(app: App, builds: seq<EnvVar>, names: set<string>, only: seq<EnvVar>)
    requires names == NamesOf(builds) && only == BuildOnly(builds, NamesOf(app.env))
    ensures PlainRows(app, builds) == EnvRows(app.env, names) + (SecretRows(app.name, app.userSecrets) + BuildRows(only))
  {}

  lemma MergeTicks(app: App, builds: seq<EnvVar>, e: EnvVar)
    requires DistinctNames(app.env) && e.name in NamesOf(app.env)
    ensures Merged(PlainRows(app, builds), e) == PlainRows(app, builds + [e])
  {
    var only, names := BuildOnly(builds, NamesOf(app.env)), NamesOf(builds);
    var tail := SecretRows(app.name, app.userSecrets) + BuildRows(only);
    NamesSnoc(builds, e);
    BuildOnlySnoc(builds, e, NamesOf(app.env));
    PlainSplit(app, builds, names, only);
    PlainSplit(app, builds + [e], names + {e.name}, only);
    TickedFirst(app.env, names, tail, e.name);
  }

  lemma UntickedRows(env: seq<EnvVar>, builds: set<string>, name: string)
    requires name !in NamesOf(env)
    ensures EnvRows(env, builds + {name}) == EnvRows(env, builds)
  {
    assert forall i :: 0 <= i < |env| ==> env[i].name in NamesOf(env);
  }

  lemma RowAtTheEnd(envs: seq<Row>, secrets: seq<Row>, b: seq<EnvVar>, e: EnvVar)
    ensures envs + secrets + BuildRows(b) + [BuildRow(e)] == envs + secrets + BuildRows(b + [e])
  {
    assert BuildRows(b + [e]) == BuildRows(b) + [BuildRow(e)];
  }

  lemma MergeAppends(app: App, builds: seq<EnvVar>, e: EnvVar)
    requires e.name !in NamesOf(app.env) && e.name !in Keys(app.userSecrets) && e.name !in NamesOf(builds)
    ensures Merged(PlainRows(app, builds), e) == PlainRows(app, builds + [e])
  {
    NotAKey(app, builds, e);
    var b := BuildOnly(builds, NamesOf(app.env));
    NamesSnoc(builds, e);
    BuildOnlySnoc(builds, e, NamesOf(app.env));
    UntickedRows(app.env, NamesOf(builds), e.name);
    RowAtTheEnd(EnvRows(app.env, NamesOf(builds)), SecretRows(app.name, app.userSecrets), b, e);
    assert Merged(PlainRows(app, builds), e) == PlainRows(app, builds) + [BuildRow(e)];
  }

  lemma {:induction false} MergeAllOf(app: App, builds: seq<EnvVar>)
    requires DistinctNames(app.env) && DistinctNames(builds) && Keys(app.userSecrets) !! NamesOf(builds)
    ensures MergedAll(EnvRows(app.env, {}) + SecretRows(app.name, app.userSecrets), builds) == PlainRows(app, builds)
  {
    if builds == [] {
      assert NamesOf(builds) == {};
      assert PlainRows(app, builds) == EnvRows(app.env, {}) + SecretRows(app.name, app.userSecrets);
    } else {
      var init, e := Init(builds), Last(builds);
      assert builds == init + [e];
      NamesSnoc(init, e);
      assert e.name !in NamesOf(init);
      MergeAllOf(app, init);
      if e.name in NamesOf(app.env) {
        MergeTicks(app, init, e);
      } else {
        MergeAppends(app, init, e);
      }
    }
  }

  // ---- Drafting rows that are already in order ----

  function Runtimes(rows: seq<Row>): seq<EnvVar> {
    if rows == [] then []
    else
      var r := Last(rows);
      Runtimes(Init(rows)) + if !r.secret && r.runtime && r.value.Some? then [EnvVar(r.key, r.value.value)] else []
  }

  function Builds(rows: seq<Row>): seq<EnvVar> {
    if rows == [] then []
    else
      var r := Last(rows);
      Builds(Init(rows)) + if !r.secret && r.build && r.value.Some? then [EnvVar(r.key, r.value.value)] else []
  }

  function Secrets(rows: seq<Row>): seq<string> {
    if rows == [] then [] else Secrets(Init(rows)) + if Last(rows).secret then [Last(rows).key] else []
  }

  function KeysOf(rows: seq<Row>): set<string> {
    set i | 0 <= i < |rows| :: rows[i].key
  }

  /** A row a GET shows: well named, somewhere to go, and a secret only by name. */
  ghost predicate ShownRow(r: Row, was: seq<string>) {
    && RowFault(r).None? && TrimSpace(r.key) == r.key
    && (r.secret ==> r.value.None? && r.key in was)
  }

  function Expected(rows: seq<Row>): Draft {
    Draft(Runtimes(rows), Secrets(rows), Builds(rows), map[], KeysOf(rows))
  }

  lemma ShownIsAccepted(r: Row, seen: set<string>, was: seq<string>)
    requires ShownRow(r, was) && r.key !in seen
    ensures Refusal(r, seen, was).None?
  {}

  lemma ExpectedGrows(init: seq<Row>, r: Row, was: seq<string>)
    requires ShownRow(r, was)
    ensures Added(Expected(init), r) == Expected(init + [r])
  {
    var rows := init + [r];
    assert Init(rows) == init && Last(rows) == r;
    assert rows[|init|] == r && forall i :: 0 <= i < |init| ==> rows[i] == init[i];
    assert KeysOf(rows) == KeysOf(init) + {r.key};
    assert !r.secret ==> r.value.Some?;
  }

  ghost predicate AllShown(rows: seq<Row>, was: seq<string>) {
    forall i :: 0 <= i < |rows| ==> ShownRow(rows[i], was)
  }

  lemma ShownInit(rows: seq<Row>, was: seq<string>)
    requires rows != [] && DistinctKeys(rows, KEY) && AllShown(rows, was)
    ensures DistinctKeys(Init(rows), KEY) && AllShown(Init(rows), was) && ShownRow(Last(rows), was)
    ensures Last(rows).key !in KeysOf(Init(rows))
  {
    var init := Init(rows);
    assert forall i :: 0 <= i < |init| ==> init[i] == rows[i];
    forall i, j | 0 <= i < j < |init| ensures KEY(init[i]) != KEY(init[j]) {
      assert KEY(rows[i]) != KEY(rows[j]);
    }
    forall i | 0 <= i < |init| ensures init[i].key != Last(rows).key {
      assert KEY(rows[i]) != KEY(rows[|rows| - 1]);
    }
  }

  /** Rows a GET shows are accepted, and nothing is set. */
  lemma {:induction false} DraftOfShown(rows: seq<Row>, was: seq<string>)
    requires DistinctKeys(rows, KEY) && AllShown(rows, was)
    ensures Drafted(rows, was) == Ok(Expected(rows))
  {
    if rows == [] {
      assert KeysOf(rows) == {};
    } else {
      var init, r := Init(rows), Last(rows);
      assert rows == init + [r];
      ShownInit(rows, was);
      DraftOfShown(init, was);
      ShownIsAccepted(r, KeysOf(init), was);
      ExpectedGrows(init, r, was);
    }
  }

  lemma {:induction false} FiltersIn(rows: seq<Row>)
    ensures forall e :: e in Runtimes(rows) <==>
              exists i :: 0 <= i < |rows| && !rows[i].secret && rows[i].runtime && rows[i].value == Some(e.value) && rows[i].key == e.name
    ensures forall e :: e in Builds(rows) <==>
              exists i :: 0 <= i < |rows| && !rows[i].secret && rows[i].build && rows[i].value == Some(e.value) && rows[i].key == e.name
    ensures forall k :: k in Secrets(rows) <==> exists i :: 0 <= i < |rows| && rows[i].secret && rows[i].key == k
  {
    if rows != [] {
      FiltersIn(Init(rows));
      assert forall i :: 0 <= i < |rows| - 1 ==> Init(rows)[i] == rows[i];
      assert Last(rows) == rows[|rows| - 1];
    }
  }

  lemma FiltersBefore(init: seq<Row>, r: Row)
    requires forall x :: x in init ==> Less(x.key, r.key)
    ensures forall e :: e in Runtimes(init) ==> Less(NAME(e), r.key)
    ensures forall e :: e in Builds(init) ==> Less(NAME(e), r.key)
    ensures forall k :: k in Secrets(init) ==> Less(SELF(k), r.key)
  {
    FiltersIn(init);
  }

  lemma {:induction false} FiltersAscend(rows: seq<Row>)
    requires Ascending(rows, KEY)
    ensures Ascending(Runtimes(rows), NAME) && Ascending(Builds(rows), NAME) && Ascending(Secrets(rows), SELF)
  {
    if rows != [] {
      var init, r := Init(rows), Last(rows);
      AscendingInit(rows, KEY);
      assert forall x :: x in init ==> Less(KEY(x), KEY(r));
      FiltersAscend(init);
      FiltersBefore(init, r);
      if r.secret {
        AscendingSnoc(Secrets(init), r.key, SELF);
      } else if r.value.Some? {
        AscendingSnoc(Runtimes(init), EnvVar(r.key, r.value.value), NAME);
        AscendingSnoc(Builds(init), EnvVar(r.key, r.value.value), NAME);
      }
    }
  }

  // ---- What the rows are, order apart ----

  /** A row is shown exactly when it says of its variable where the workload keeps it. */
  ghost predicate RowOf(app: App, r: Row) {
    if r.secret then r == SecretRow(app.name, r.key) && r.key in app.userSecrets
    else
      && r.value.Some? && r.ref.None? && (r.runtime || r.build)
      && r.runtime == (EnvVar(r.key, r.value.value) in app.env)
      && r.build == (EnvVar(r.key, r.value.value) in app.buildEnv)
  }

  ghost predicate Listed(app: App) {
    SettledLists(app.env, app.userSecrets, app.buildEnv)
  }

  lemma InNames(env: seq<EnvVar>, e: EnvVar)
    requires e in env
    ensures e.name in NamesOf(env)
  {}

  /** A run-time variable is a build variable by name exactly when it is one outright. */
  lemma BothSides(app: App, e: EnvVar)
    requires Listed(app) && e in app.env
    ensures e.name in NamesOf(app.buildEnv) <==> e in app.buildEnv
  {
    if e.name in NamesOf(app.buildEnv) {
      var i :| 0 <= i < |app.env| && app.env[i] == e;
      var j :| 0 <= j < |app.buildEnv| && app.buildEnv[j].name == e.name;
      assert app.env[i] == app.buildEnv[j];
    }
  }

  lemma BuildSide(app: App, e: EnvVar)
    requires Listed(app) && e in app.buildEnv
    ensures e.name in NamesOf(app.env) <==> e in app.env
  {
    if e.name in NamesOf(app.env) {
      var i :| 0 <= i < |app.env| && app.env[i].name == e.name;
      var j :| 0 <= j < |app.buildEnv| && app.buildEnv[j] == e;
      assert app.env[i] == app.buildEnv[j];
    }
  }

  lemma PlainRowIsRowOf(app: App, r: Row)
    requires Listed(app) && r in PlainRows(app, app.buildEnv)
    ensures RowOf(app, r)
  {
    var builds := BuildOnly(app.buildEnv, NamesOf(app.env));
    if r in EnvRows(app.env, NamesOf(app.buildEnv)) {
      var i :| 0 <= i < |app.env| && EnvRows(app.env, NamesOf(app.buildEnv))[i] == r;
      BothSides(app, app.env[i]);
    } else if r in SecretRows(app.name, app.userSecrets) {
    } else {
      var i :| 0 <= i < |builds| && BuildRows(builds)[i] == r;
      BuildOnlyIn(app.buildEnv, NamesOf(app.env));
      BuildSide(app, builds[i]);
    }
  }

  lemma RowOfIsPlainRow(app: App, r: Row)
    requires Listed(app) && RowOf(app, r)
    ensures r in PlainRows(app, app.buildEnv)
  {
    if r.secret {
      var i :| 0 <= i < |app.userSecrets| && app.userSecrets[i] == r.key;
      assert SecretRows(app.name, app.userSecrets)[i] == r;
    } else {
      var e := EnvVar(r.key, r.value.value);
      if r.runtime {
        BothSides(app, e);
        var i :| 0 <= i < |app.env| && app.env[i] == e;
        assert EnvRows(app.env, NamesOf(app.buildEnv))[i] == r;
      } else {
        BuildSide(app, e);
        BuildOnlyIn(app.buildEnv, NamesOf(app.env));
        var builds := BuildOnly(app.buildEnv, NamesOf(app.env));
        var i :| 0 <= i < |builds| && builds[i] == e;
        assert BuildRows(builds)[i] == r;
      }
    }
  }

  lemma DistinctConcat(a: seq<Row>, b: seq<Row>)
    requires DistinctKeys(a, KEY) && DistinctKeys(b, KEY) && KeysOf(a) !! KeysOf(b)
    ensures DistinctKeys(a + b, KEY)
  {
    var s := a + b;
    forall i, j | 0 <= i < j < |s| ensures KEY(s[i]) != KEY(s[j]) {
      if j < |a| {
        assert s[i] == a[i] && s[j] == a[j];
        assert KEY(a[i]) != KEY(a[j]);
      } else if i >= |a| {
        assert s[i] == b[i - |a|] && s[j] == b[j - |a|];
        assert KEY(b[i - |a|]) != KEY(b[j - |a|]);
      } else {
        assert a[i].key in KeysOf(a) && b[j - |a|].key in KeysOf(b);
      }
    }
  }

  lemma {:induction false} BuildOnlyDistinct(builds: seq<EnvVar>, runtime: set<string>)
    requires DistinctNames(builds)
    ensures DistinctNames(BuildOnly(builds, runtime))
  {
    if builds != [] {
      var init, e := Init(builds), Last(builds);
      assert forall i :: 0 <= i < |init| ==> init[i] == builds[i];
      BuildOnlyDistinct(init, runtime);
      BuildOnlyIn(init, runtime);
      forall i | 0 <= i < |BuildOnly(init, runtime)| ensures BuildOnly(init, runtime)[i].name != e.name {
        var j :| 0 <= j < |init| && init[j] == BuildOnly(init, runtime)[i];
        assert builds[j].name != builds[|builds| - 1].name;
      }
    }
  }

  lemma PartsDistinct(app: App, b: seq<EnvVar>, ticks: set<string>)
    requires DistinctNames(app.env) && Distinct(app.userSecrets) && DistinctNames(b)
    ensures DistinctKeys(EnvRows(app.env, ticks), KEY) && KeysOf(EnvRows(app.env, ticks)) == NamesOf(app.env)
    ensures DistinctKeys(SecretRows(app.name, app.userSecrets), KEY)
    ensures KeysOf(SecretRows(app.name, app.userSecrets)) == Keys(app.userSecrets)
    ensures DistinctKeys(BuildRows(b), KEY) && KeysOf(BuildRows(b)) == NamesOf(b)
  {
    assert forall i :: 0 <= i < |app.env| ==> EnvRows(app.env, ticks)[i].key == app.env[i].name;
    assert forall i :: 0 <= i < |app.userSecrets| ==> SecretRows(app.name, app.userSecrets)[i].key == app.userSecrets[i];
    assert forall i :: 0 <= i < |b| ==> BuildRows(b)[i].key == b[i].name;
  }

  lemma KeysConcat(a: seq<Row>, b: seq<Row>)
    ensures KeysOf(a + b) == KeysOf(a) + KeysOf(b)
  {
    var s := a + b;
    assert forall i :: 0 <= i < |a| ==> s[i] == a[i];
    assert forall i :: 0 <= i < |b| ==> s[|a| + i] == b[i];
    forall k | k in KeysOf(s) ensures k in KeysOf(a) + KeysOf(b) {
      var i :| 0 <= i < |s| && s[i].key == k;
      assert i < |a| || s[i] == b[i - |a|];
    }
  }

  lemma PlainRowsDistinct(app: App)
    requires Listed(app)
    ensures DistinctKeys(PlainRows(app, app.buildEnv), KEY)
  {
    var b := BuildOnly(app.buildEnv, NamesOf(app.env));
    var envs, secrets := EnvRows(app.env, NamesOf(app.buildEnv)), SecretRows(app.name, app.userSecrets);
    BuildOnlyDistinct(app.buildEnv, NamesOf(app.env));
    PartsDistinct(app, b, NamesOf(app.buildEnv));
    DistinctConcat(envs, secrets);
    KeysConcat(envs, secrets);
    BuildOnlyIn(app.buildEnv, NamesOf(app.env));
    forall k | k in NamesOf(b) ensures k in NamesOf(app.buildEnv) && k !in NamesOf(app.env) {
      var i :| 0 <= i < |b| && b[i].name == k;
      InNames(app.buildEnv, b[i]);
    }
    DistinctConcat(envs + secrets, BuildRows(b));
  }

  lemma AscendingIsDistinct<T(!new)>(s: seq<T>, key: T -> string)
    requires Ascending(s, key)
    ensures DistinctKeys(s, key)
  {
    forall i, j | 0 <= i < j < |s| ensures key(s[i]) != key(s[j]) {
      LessIsIrreflexive(key(s[i]));
    }
  }

  lemma SortKeeps<T(!new)>(s: seq<T>, key: T -> string)
    ensures forall x :: x in SortBy(s, key) <==> x in s
  {
    forall x ensures x in SortBy(s, key) <==> x in s {
      assert x in SortBy(s, key) <==> x in multiset(SortBy(s, key));
      assert x in s <==> x in multiset(s);
    }
  }

  /** What a GET shows: the rows of the workload, each once, in name order. */
  lemma ShownRows(q: Quantities, app: App)
    requires Listed(app)
    ensures Ascending(ToWire(q, app).env, KEY)
    ensures forall r :: r in ToWire(q, app).env <==> RowOf(app, r)
    ensures |ToWire(q, app).env| == |app.env| + |app.userSecrets| + |BuildOnly(app.buildEnv, NamesOf(app.env))|
  {
    MergeAllOf(app, app.buildEnv);
    PlainRowsDistinct(app);
    SortAscends(WireRows(app), KEY);
    SortKeeps(WireRows(app), KEY);
    forall r ensures r in WireRows(app) <==> RowOf(app, r) {
      if r in WireRows(app) {
        PlainRowIsRowOf(app, r);
      }
      if RowOf(app, r) {
        RowOfIsPlainRow(app, r);
      }
    }
  }

  // ---- GET then PUT ----

  lemma NameIsTrimmed(k: string)
    requires IsName(k)
    ensures TrimSpace(k) == k
  {
    assert NameChar(k[0]) && NameChar(k[|k| - 1]);
    TrimKeeps(k);
  }

  lemma RowIsShown(app: App, r: Row)
    requires Listed(app) && RowOf(app, r)
    ensures ShownRow(r, app.userSecrets)
  {
    if r.secret {
      assert r.key in Keys(app.userSecrets);
    } else {
      var e := EnvVar(r.key, r.value.value);
      if r.runtime {
        InNames(app.env, e);
      } else {
        InNames(app.buildEnv, e);
      }
    }
    NameIsTrimmed(r.key);
  }

  lemma RuntimeOfShown(app: App, rows: seq<Row>, e: EnvVar)
    requires forall r :: r in rows <==> RowOf(app, r)
    ensures e in Runtimes(rows) <==> e in app.env
  {
    FiltersIn(rows);
    var r := Row(e.name, Some(e.value), false, e in app.buildEnv, true, None);
    assert RowOf(app, r) <==> e in app.env;
    if e in Runtimes(rows) {
      var i :| 0 <= i < |rows| && !rows[i].secret && rows[i].runtime && rows[i].value == Some(e.value) && rows[i].key == e.name;
      assert RowOf(app, rows[i]);
    }
  }

  lemma BuildOfShown(app: App, rows: seq<Row>, e: EnvVar)
    requires forall r :: r in rows <==> RowOf(app, r)
    ensures e in Builds(rows) <==> e in app.buildEnv
  {
    FiltersIn(rows);
    var r := Row(e.name, Some(e.value), false, true, e in app.env, None);
    assert RowOf(app, r) <==> e in app.buildEnv;
    if e in Builds(rows) {
      var i :| 0 <= i < |rows| && !rows[i].secret && rows[i].build && rows[i].value == Some(e.value) && rows[i].key == e.name;
      assert RowOf(app, rows[i]);
    }
  }

  lemma SecretOfShown(app: App, rows: seq<Row>, k: string)
    requires forall r :: r in rows <==> RowOf(app, r)
    ensures k in Secrets(rows) <==> k in app.userSecrets
  {
    FiltersIn(rows);
    assert RowOf(app, SecretRow(app.name, k)) <==> k in app.userSecrets;
    if k in Secrets(rows) {
      var i :| 0 <= i < |rows| && rows[i].secret && rows[i].key == k;
      assert RowOf(app, rows[i]);
    }
  }

  /** The workload with its lists in name order. */
  function Sorted(app: App): App {
    app.(env := SortBy(app.env, NAME), userSecrets := SortBy(app.userSecrets, SELF), buildEnv := SortBy(app.buildEnv, NAME))
  }

  lemma SortedLists(app: App)
    requires Listed(app)
    ensures Ascending(SortBy(app.env, NAME), NAME) && forall e :: e in SortBy(app.env, NAME) <==> e in app.env
    ensures Ascending(SortBy(app.buildEnv, NAME), NAME) && forall e :: e in SortBy(app.buildEnv, NAME) <==> e in app.buildEnv
    ensures Ascending(SortBy(app.userSecrets, SELF), SELF) && forall k :: k in SortBy(app.userSecrets, SELF) <==> k in app.userSecrets
  {
    assert DistinctKeys(app.env, NAME) && DistinctKeys(app.buildEnv, NAME) && DistinctKeys(app.userSecrets, SELF);
    SortAscends(app.env, NAME);
    SortAscends(app.buildEnv, NAME);
    SortAscends(app.userSecrets, SELF);
    SortKeeps(app.env, NAME);
    SortKeeps(app.buildEnv, NAME);
    SortKeeps(app.userSecrets, SELF);
  }

  lemma ListsComeBack(app: App, rows: seq<Row>)
    requires Listed(app) && Ascending(rows, KEY) && forall r :: r in rows <==> RowOf(app, r)
    ensures Runtimes(rows) == Sorted(app).env && Secrets(rows) == Sorted(app).userSecrets && Builds(rows) == Sorted(app).buildEnv
  {
    forall e ensures e in Runtimes(rows) <==> e in app.env {
      RuntimeOfShown(app, rows, e);
    }
    forall e ensures e in Builds(rows) <==> e in app.buildEnv {
      BuildOfShown(app, rows, e);
    }
    forall k ensures k in Secrets(rows) <==> k in app.userSecrets {
      SecretOfShown(app, rows, k);
    }
    FiltersAscend(rows);
    SortedLists(app);
    AscendingIsUnique(Runtimes(rows), SortBy(app.env, NAME), NAME);
    AscendingIsUnique(Builds(rows), SortBy(app.buildEnv, NAME), NAME);
    AscendingIsUnique(Secrets(rows), SortBy(app.userSecrets, SELF), SELF);
  }

  lemma NothingDropped(was: seq<string>, seen: set<string>)
    requires Keys(was) <= seen
    ensures Dropped(was, seen) == []
  {
    assert Dropped(was, seen) != [] ==> Dropped(was, seen)[0] in Keys(Dropped(was, seen));
    DroppedKeys(was, seen);
  }

  lemma RowsGoBack(q: Quantities, app: App)
    requires Listed(app)
    ensures Drafted(ToWire(q, app).env, app.userSecrets)
         == Ok(Draft(Sorted(app).env, Sorted(app).userSecrets, Sorted(app).buildEnv, map[], KeysOf(ToWire(q, app).env)))
    ensures Dropped(app.userSecrets, KeysOf(ToWire(q, app).env)) == []
  {
    var rows := ToWire(q, app).env;
    ShownRows(q, app);
    ListsComeBack(app, rows);
    AscendingIsDistinct(rows, KEY);
    forall i | 0 <= i < |rows| ensures ShownRow(rows[i], app.userSecrets) {
      assert rows[i] in rows;
      RowIsShown(app, rows[i]);
    }
    DraftOfShown(rows, app.userSecrets);
    forall k | k in Keys(app.userSecrets) ensures k in KeysOf(rows) {
      assert RowOf(app, SecretRow(app.name, k));
      assert SecretRow(app.name, k) in rows;
    }
    NothingDropped(app.userSecrets, KeysOf(rows));
  }

  predicate NoNegative(r: Resources) {
    r.cpuRequest >= 0 && r.memoryRequest >= 0 && r.memoryLimit >= 0
  }

  lemma QuantityGoesBack(q: Quantities, n: int)
    requires PrintsBack(q)
    ensures PlannedQuantity(q, Shown(q, n), n) == if n >= 0 then Ok(n) else Err(NotPositive)
  {}

  lemma ResourcesGoBack(q: Quantities, app: App)
    requires PrintsBack(q) && LimitOk(app.resources)
    ensures PlannedResources(q, ToWire(q, app).resources, app.resources)
         == if NoNegative(app.resources) then Ok(app.resources) else Err(NotPositive)
  {
    QuantityGoesBack(q, app.resources.cpuRequest);
    QuantityGoesBack(q, app.resources.memoryRequest);
    QuantityGoesBack(q, app.resources.memoryLimit);
  }

  lemma PlannedFrom(q: Quantities, req: Request, current: App, d: Draft)
    requires |req.env| <= MAX_SETTINGS_ENV && Drafted(req.env, current.userSecrets) == Ok(d) && PlannedHealth(req.health).Ok?
    ensures Planned(q, req, current) ==
            match PlannedResources(q, req.resources, current.resources)
            case Err(e) => Err(e)
            case Ok(resources) =>
              Ok(Plan(App(current.name, d.env, d.userSecrets, d.buildEnv, req.health, resources, current.image, current.rest),
                      d.puts, Dropped(current.userSecrets, d.seen)))
  {}

  /**
   Putting back what was shown sets nothing, removes nothing and changes only the
   order of the lists. It is refused exactly when the workload already carries a
   negative quantity, which a PUT keeps and never introduces.
   */
  lemma GetThenPut(q: Quantities, app: App)
    requires Settled(app) && PrintsBack(q)
    ensures Planned(q, ToWire(q, app), app)
         == if NoNegative(app.resources) then Ok(Plan(Sorted(app), map[], [])) else Err(NotPositive)
  {
    ShownRows(q, app);
    RowsGoBack(q, app);
    ResourcesGoBack(q, app);
    var rows := ToWire(q, app).env;
    PlannedFrom(q, ToWire(q, app), app,
                Draft(Sorted(app).env, Sorted(app).userSecrets, Sorted(app).buildEnv, map[], KeysOf(rows)));
  }

  lemma SortedTwice(app: App)
    requires Listed(app)
    ensures Sorted(Sorted(app)) == Sorted(app)
  {
    SortedLists(app);
    SortsOnce(app.env, NAME);
    SortsOnce(app.buildEnv, NAME);
    SortsOnce(app.userSecrets, SELF);
  }

  lemma SortsOnce<T(!new)>(s: seq<T>, key: T -> string)
    requires Ascending(SortBy(s, key), key)
    ensures SortBy(SortBy(s, key), key) == SortBy(s, key)
  {
    AscendingIsDistinct(SortBy(s, key), key);
    SortAscends(SortBy(s, key), key);
    SortKeeps(SortBy(s, key), key);
    AscendingIsUnique(SortBy(SortBy(s, key), key), SortBy(s, key), key);
  }

  lemma SortedShowsTheSame(q: Quantities, app: App)
    requires Listed(app) && Listed(Sorted(app))
    ensures ToWire(q, Sorted(app)) == ToWire(q, app)
  {
    var app' := Sorted(app);
    ShownRows(q, app);
    ShownRows(q, app');
    SortedLists(app);
    forall r ensures RowOf(app', r) <==> RowOf(app, r) {}
    AscendingIsUnique(ToWire(q, app').env, ToWire(q, app).env, KEY);
  }

  lemma SortedIsSettled(q: Quantities, app: App)
    requires Settled(app) && PrintsBack(q) && NoNegative(app.resources)
    ensures Settled(Sorted(app))
  {
    GetThenPut(q, app);
    PlansAreSettled(q, ToWire(q, app), app);
  }

  /** The second round trip changes nothing at all, and shows the same page. */
  lemma RoundTripIsAFixpoint(q: Quantities, app: App)
    requires Settled(app) && PrintsBack(q) && NoNegative(app.resources)
    ensures Settled(Sorted(app)) && ToWire(q, Sorted(app)) == ToWire(q, app)
    ensures Planned(q, ToWire(q, Sorted(app)), Sorted(app)) == Ok(Plan(Sorted(app), map[], []))
  {
    SortedIsSettled(q, app);
    SortedShowsTheSame(q, app);
    GetThenPut(q, Sorted(app));
    SortedTwice(app);
  }

  // ---- PUT then GET ----

  /** A row as the page will show it: the name trimmed, and of a secret only where it lives. */
  function Normal(app: string, v: Row): Row {
    if v.secret then SecretRow(app, TrimSpace(v.key)) else v.(key := TrimSpace(v.key), ref := None)
  }

  function Normals(app: string, rows: seq<Row>): seq<Row> {
    seq(|rows|, i requires 0 <= i < |rows| => Normal(app, rows[i]))
  }

  ghost function WithDraft(app: App, d: Draft): App {
    app.(env := d.env, userSecrets := d.userSecrets, buildEnv := d.buildEnv)
  }

  lemma AddedRow(app: App, d: Draft, v: Row, was: seq<string>, n: nat, r: Row)
    requires DraftOk(d, was, n) && Refusal(v, d.seen, was).None?
    ensures RowOf(WithDraft(app, Added(d, v)), r) <==> RowOf(WithDraft(app, d), r) || r == Normal(app.name, v)
  {
    if r.key == TrimSpace(v.key) {
      NameIn(d.env);
      NameIn(d.buildEnv);
      assert r.key !in d.userSecrets;
    }
  }

  lemma NormalsGrow(app: string, init: seq<Row>, v: Row)
    requires DistinctKeys(Normals(app, init), KEY) && TrimSpace(v.key) !in KeysOf(Normals(app, init))
    ensures Normals(app, init + [v]) == Normals(app, init) + [Normal(app, v)]
    ensures DistinctKeys(Normals(app, init + [v]), KEY)
    ensures KeysOf(Normals(app, init + [v])) == KeysOf(Normals(app, init)) + {TrimSpace(v.key)}
  {
    var last := [Normal(app, v)];
    assert last[0].key == TrimSpace(v.key);
    assert KeysOf(last) == {TrimSpace(v.key)};
    assert Normals(app, init + [v]) == Normals(app, init) + last;
    DistinctConcat(Normals(app, init), last);
    KeysConcat(Normals(app, init), last);
  }

  ghost predicate Shows(app: App, d: Draft, rows: seq<Row>) {
    forall r :: r in rows <==> RowOf(WithDraft(app, d), r)
  }

  lemma ShowsOneMore(app: App, d: Draft, v: Row, was: seq<string>, n: nat, rows: seq<Row>)
    requires DraftOk(d, was, n) && Refusal(v, d.seen, was).None? && Shows(app, d, rows)
    ensures Shows(app, Added(d, v), rows + [Normal(app.name, v)])
  {
    forall r ensures r in rows + [Normal(app.name, v)] <==> RowOf(WithDraft(app, Added(d, v)), r) {
      AddedRow(app, d, v, was, n, r);
    }
  }

  lemma {:induction false} DraftShowsTheRequest(app: App, rows: seq<Row>, was: seq<string>)
    requires Drafted(rows, was).Ok?
    ensures DistinctKeys(Normals(app.name, rows), KEY)
    ensures KeysOf(Normals(app.name, rows)) == Drafted(rows, was).value.seen
    ensures Shows(app, Drafted(rows, was).value, Normals(app.name, rows))
  {
    if rows != [] {
      var init, v := Init(rows), Last(rows);
      assert rows == init + [v];
      DraftShowsTheRequest(app, init, was);
      DraftsAreOk(init, was);
      var d := Drafted(init, was).value;
      AcceptedRow(v, d.seen, was);
      NormalsGrow(app.name, init, v);
      ShowsOneMore(app, d, v, was, |init|, Normals(app.name, init));
    }
  }

  lemma PutLists(q: Quantities, req: Request, current: App)
    requires Planned(q, req, current).Ok?
    ensures var app := Planned(q, req, current).value.app;
            && Listed(app) && app.name == current.name && app.health == req.health
            && Drafted(req.env, current.userSecrets).Ok?
            && WithDraft(app, Drafted(req.env, current.userSecrets).value) == app
  {
    PlannedParts(q, req, current);
    PlansAreSettled(q, req, current);
  }

  /** What a page shows of a quantity after one was put: what it showed before where none was, else the amount put. */
  ghost predicate ShowsQuantity(q: Quantities, text: string, before: string, after: string) {
    if Blank(text) then after == before
    else q.parse(text).Some? && q.parse(text).value > 0 && after == q.show(q.parse(text).value)
  }

  lemma QuantityIsShown(q: Quantities, text: string, current: int)
    requires PlannedQuantity(q, text, current).Ok?
    ensures ShowsQuantity(q, text, Shown(q, current), Shown(q, PlannedQuantity(q, text, current).value))
  {}

  ghost predicate ShowsResources(q: Quantities, put: WireResources, before: WireResources, after: WireResources) {
    && ShowsQuantity(q, put.cpuRequest, before.cpuRequest, after.cpuRequest)
    && ShowsQuantity(q, put.memoryRequest, before.memoryRequest, after.memoryRequest)
    && ShowsQuantity(q, put.memoryLimit, before.memoryLimit, after.memoryLimit)
  }

  lemma ResourcesAreShown(q: Quantities, req: Request, current: App)
    requires Planned(q, req, current).Ok?
    ensures ShowsResources(q, req.resources, ToWire(q, current).resources, ToWire(q, Planned(q, req, current).value.app).resources)
  {
    PlannedParts(q, req, current);
    QuantityIsShown(q, req.resources.cpuRequest, current.resources.cpuRequest);
    QuantityIsShown(q, req.resources.memoryRequest, current.resources.memoryRequest);
    QuantityIsShown(q, req.resources.memoryLimit, current.resources.memoryLimit);
  }

  /**
   What a GET shows after an accepted PUT: the rows that were put, trimmed and in
   name order, no value of a secret among them; the health that was put; and each
   quantity as put, or as it was shown before where the PUT left it blank.
   */
  lemma PutThenGet(q: Quantities, req: Request, current: App)
    requires Planned(q, req, current).Ok?
    ensures ToWire(q, Planned(q, req, current).value.app).env == SortBy(Normals(current.name, req.env), KEY)
    ensures ToWire(q, Planned(q, req, current).value.app).health == req.health
    ensures ShowsResources(q, req.resources, ToWire(q, current).resources, ToWire(q, Planned(q, req, current).value.app).resources)
  {
    var app := Planned(q, req, current).value.app;
    PutLists(q, req, current);
    ResourcesAreShown(q, req, current);
    var ns := Normals(current.name, req.env);
    ShownRows(q, app);
    DraftShowsTheRequest(app, req.env, current.userSecrets);
    SortAscends(ns, KEY);
    SortKeeps(ns, KEY);
    AscendingIsUnique(ToWire(q, app).env, SortBy(ns, KEY), KEY);
  }
}
