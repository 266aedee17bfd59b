/**
 A placement's directory of manifests: what each lifecycle render of
 server/deploy.go, server/lifecycle.go, server/settings.go and
 server/databases.go produces from what is committed, and what
 internal/gitwrite then does with it. Leaving a file out of a render is how
 this platform asks for it to be deleted.
 */
module ManifestDirectory {
  import opened Common
  import Text

  // ---- internal/manifest ----

  const FILE := "workload.yaml"
  const NAMESPACE_FILE := "namespace.yaml"
  const QUOTA_FILE := "quota.yaml"
  const ROLE_FILE := "platform-role.yaml"
  const ROLE_BINDING_FILE := "platform-rolebinding.yaml"
  const ROLLOUT_ANNOTATION := "damga.co/rollout"

  function DatabaseFile(name: string): string {
    "database-" + name + ".yaml"
  }

  predicate IsFence(file: string) {
    file in {NAMESPACE_FILE, QUOTA_FILE, ROLE_FILE, ROLE_BINDING_FILE}
  }

  lemma DatabaseFilesAreTheirOwn(a: string, b: string)
    ensures DatabaseFile(a) == DatabaseFile(b) ==> a == b
    ensures DatabaseFile(a) != FILE && !IsFence(DatabaseFile(a))
  {
    assert DatabaseFile(a)[0] == 'd';
    assert |DatabaseFile(a)| == |a| + 14;
    if DatabaseFile(a) == DatabaseFile(b) {
      assert a == DatabaseFile(a)[9..9 + |a|] && b == DatabaseFile(b)[9..9 + |b|];
    }
  }

  /** The five fields the settings endpoint owns, as one value. */
  datatype Settings = Settings(env: string, userSecrets: string, buildEnv: string, health: string, resources: string)
  datatype Spec = Spec(image: string, port: int, replicas: Option<int>, domain: string, autoscaled: bool,
                       volumes: nat, settings: Settings, rest: string)
  datatype Workload = Workload(name: string, namespace: string, labels: string,
                               annotations: map<string, string>, spec: Spec)
  datatype Database = Database(name: string, namespace: string, spec: string)

  /** A committed file by what it holds; anything else is somebody else's. */
  datatype Body = WorkloadDoc(w: Workload) | DatabaseDoc(db: Database)
                | FenceDoc(namespace: string, part: string) | Foreign(bytes: string)
  type Files = map<string, Body>

  /** By content: this platform's own API group. */
  predicate Owns(body: Body) {
    body.WorkloadDoc? || body.DatabaseDoc?
  }

  datatype Error = Unreadable | NothingDeployed | Autoscaled | PinnedByVolumes | Incomplete
                 | DatabaseExists | NoSuchDatabase | LastManifest | NothingToWrite | NoChange

  function RenderWorkload(w: Workload, rolloutId: string): Result<Body, Error> {
    if w.name == "" || w.namespace == "" || w.spec.image == "" then Err(Incomplete)
    else Ok(WorkloadDoc(if rolloutId == "" then w
                        else w.(annotations := w.annotations[ROLLOUT_ANNOTATION := rolloutId])))
  }

  function Fence(namespace: string): Files {
    map[NAMESPACE_FILE := FenceDoc(namespace, NAMESPACE_FILE), QUOTA_FILE := FenceDoc(namespace, QUOTA_FILE),
        ROLE_FILE := FenceDoc(namespace, ROLE_FILE), ROLE_BINDING_FILE := FenceDoc(namespace, ROLE_BINDING_FILE)]
  }

  // ---- The renders ----

  datatype Placement = Placement(app: string, namespace: string)

  datatype Op =
    | Deploy(image: string, port: Option<int>, replicas: Option<int>, domain: Option<string>)
    | Rollback(target: string)
    | Scale(count: int)
    | Configure(settings: Settings)
    | CreateDatabase(db: Database)
    | DeleteDatabase(name: string)

  /** Of the named files, what this platform wrote and the render did not produce. */
  function Omitted(names: set<string>, out: Files, current: Files): Files {
    map f | f in names && f in current && f !in out && Owns(current[f]) :: current[f]
  }

  /** Every other manifest this platform wrote, byte for byte. */
  function Carried(out: Files, current: Files): Files {
    out + Omitted(current.Keys, out, current)
  }

  lemma OmittedOneMore(done: set<string>, name: string, out: Files, current: Files)
    requires name in current && name !in done
    ensures name in out + Omitted(done, out, current) <==> name in out
    ensures out + Omitted(done + {name}, out, current)
         == if name !in out && Owns(current[name]) then (out + Omitted(done, out, current))[name := current[name]]
            else out + Omitted(done, out, current)
  {}

  method CarryForward(out: Files, current: Files) returns (r: Files)
    ensures r == Carried(out, current)
  {
    r := out;
    var todo := current.Keys;
    ghost var done := {};
    while todo != {}
      invariant done + todo == current.Keys && done !! todo
      invariant r == out + Omitted(done, out, current)
      decreases todo
    {
      var name :| name in todo;
      OmittedOneMore(done, name, out, current);
      if name !in r && Owns(current[name]) {
        r := r[name := current[name]];
      }
      todo, done := todo - {name}, done + {name};
    }
  }

  /** Identity from the placement, annotations from the file, labels gone. */
  function Identified(place: Placement, w: Workload): Workload {
    Workload(place.app, place.namespace, "", w.annotations, w.spec)
  }

  /** The workload a read-modify-write starts from. */
  function Committed(current: Files): Result<Workload, Error> {
    if FILE !in current then Err(NothingDeployed)
    else if !current[FILE].WorkloadDoc? then Err(Unreadable)
    else Ok(current[FILE].w)
  }

  const BLANK := Workload("", "", "", map[], Spec("", 0, None, "", false, 0, Settings("", "", "", "", ""), ""))

  function Deployed(spec: Spec, op: Op): Spec
    requires op.Deploy?
  {
    spec.(image := op.image,
          port := if op.port.Some? then op.port.value else spec.port,
          replicas := if op.replicas.Some? then op.replicas else spec.replicas,
          domain := if op.domain.Some? then op.domain.value else spec.domain)
  }

  /** The application's own manifest put among what is carried forward, with or without the fence. */
  function WithApp(place: Placement, w: Workload, rolloutId: string, fenced: bool, current: Files): Result<Files, Error> {
    match RenderWorkload(Identified(place, w), rolloutId)
    case Err(e) => Err(e)
    case Ok(body) => Ok(Carried((if fenced then Fence(place.namespace) else map[])[FILE := body], current))
  }

  ghost function DatabaseNames(files: Files): set<string> {
    set f | f in files && files[f].DatabaseDoc? :: files[f].db.name
  }

  ghost function Render(place: Placement, op: Op, rolloutId: string, current: Files): Result<Files, Error> {
    match op
    case Deploy(_, _, _, _) =>
      if FILE !in current then WithApp(place, BLANK.(spec := Deployed(BLANK.spec, op)), rolloutId, true, current)
      else (match Committed(current)
            case Err(e) => Err(e)
            case Ok(w) => WithApp(place, w.(spec := Deployed(w.spec, op)), rolloutId, true, current))
    case Rollback(image) =>
      if FILE !in current then WithApp(place, BLANK.(spec := BLANK.spec.(image := image)), rolloutId, true, current)
      else (match Committed(current)
            case Err(e) => Err(e)
            case Ok(w) => WithApp(place, w.(spec := w.spec.(image := image)), rolloutId, true, current))
    case Scale(n) =>
      (match Committed(current)
       case Err(e) => Err(e)
       case Ok(w) =>
         if w.spec.autoscaled then Err(Autoscaled)
         else if w.spec.volumes > 0 then Err(PinnedByVolumes)
         else WithApp(place, w.(spec := w.spec.(replicas := Some(n))), rolloutId, false, current))
    case Configure(settings) =>
      (match Committed(current)
       case Err(e) => Err(e)
       case Ok(w) => WithApp(place, w.(spec := w.spec.(settings := settings)), rolloutId, true, current))
    case CreateDatabase(db) =>
      if db.name in DatabaseNames(current) then Err(DatabaseExists)
      else if db.name == "" || place.namespace == "" then Err(Incomplete)
      else Ok(current[DatabaseFile(db.name) := DatabaseDoc(db.(namespace := place.namespace))])
    case DeleteDatabase(name) =>
      if DatabaseFile(name) !in current then Err(NoSuchDatabase)
      else if current.Keys == {DatabaseFile(name)} then Err(LastManifest)
      else Ok(current - {DatabaseFile(name)})
  }

  // ---- internal/gitwrite ----

  /** Only the removal of a database may withdraw a file. */
  predicate MayRemove(op: Op) {
    op.DeleteDatabase?
  }

  function Written(current: Files, rendered: Files, mayRemove: bool): Files {
    (map f | f in current && (f in rendered || !mayRemove || !Owns(current[f])) :: current[f]) + rendered
  }

  /** Withdraws what the render omitted, of the files the caller may remove. */
  method RemoveOmitted(current: Files, rendered: Files) returns (tree: Files)
    ensures tree == Written(current, rendered, true)
  {
    tree := current + rendered;
    var todo := current.Keys;
    while todo != {}
      invariant todo <= current.Keys
      invariant tree == (current + rendered) - (set f | f in current && f !in todo && f !in rendered && Owns(current[f]))
      decreases todo
    {
      var name :| name in todo;
      if name !in rendered && Owns(current[name]) {
        tree := tree - {name};
      }
      todo := todo - {name};
    }
  }

  /** Writes what was rendered, then removes what the render omitted and the caller may remove. */
  method Commit(current: Files, rendered: Files, mayRemove: bool) returns (r: Result<Files, Error>)
    ensures r == if rendered == map[] then Err(NothingToWrite)
                 else if Written(current, rendered, mayRemove) == current then Err(NoChange)
                 else Ok(Written(current, rendered, mayRemove))
  {
    if |rendered| == 0 {
      return Err(NothingToWrite);
    }
    var tree := current + rendered;
    if mayRemove {
      tree := RemoveOmitted(current, rendered);
    } else {
      assert tree == Written(current, rendered, false);
    }
    if tree == current {
      return Err(NoChange);
    }
    return Ok(tree);
  }

  /** The directory after an operation; one that fails leaves it as it was. */
  ghost function After(place: Placement, op: Op, rolloutId: string, current: Files): Files {
    match Render(place, op, rolloutId, current)
    case Err(_) => current
    case Ok(rendered) => if rendered == map[] then current else Written(current, rendered, MayRemove(op))
  }

  function ParsedIn(files: Files, names: seq<string>): seq<Database>
    requires forall n :: n in names ==> n in files
  {
    if names == [] then []
    else
      var dbs := ParsedIn(files, Init(names));
      if files[Last(names)].DatabaseDoc? then dbs + [files[Last(names)].db] else dbs
  }

  /** What committedDatabases answers: every file that parses as a Database, in the order of the file names. */
  method CommittedDatabases(files: Files) returns (dbs: seq<Database>)
    ensures dbs == ParsedIn(files, Text.InOrder(files.Keys))
  {
    dbs := [];
    var names := Text.SortedKeys(files.Keys);
    Text.OrderIsUnique(names, files.Keys);
    for i := 0 to |names|
      invariant forall n :: n in names[..i] ==> n in files
      invariant dbs == ParsedIn(files, names[..i])
    {
      assert names[i] in names;
      assert Init(names[..i + 1]) == names[..i] && Last(names[..i + 1]) == names[i];
      if files[names[i]].DatabaseDoc? {
        dbs := dbs + [files[names[i]].db];
      }
    }
    assert names[..|names|] == names;
  }

  ghost predicate HeldIn(files: Files, names: seq<string>, db: Database) {
    exists f :: f in names && f in files && files[f] == DatabaseDoc(db)
  }

  lemma {:induction false} ParsedAreHeld(files: Files, names: seq<string>, db: Database)
    requires forall n :: n in names ==> n in files
    ensures db in ParsedIn(files, names) <==> HeldIn(files, names, db)
  {
    if names != [] {
      assert names == Init(names) + [Last(names)];
      ParsedAreHeld(files, Init(names), db);
    }
  }

  lemma ListedNames(files: Files, name: string)
    ensures name in DatabaseNames(files) <==> exists d :: d in ParsedIn(files, Text.InOrder(files.Keys)) && d.name == name
  {
    var names := Text.InOrder(files.Keys);
    if name in DatabaseNames(files) {
      var f :| f in files && files[f].DatabaseDoc? && files[f].db.name == name;
      ParsedAreHeld(files, names, files[f].db);
      assert f in names && files[f] == DatabaseDoc(files[f].db);
    }
    if d :| d in ParsedIn(files, names) && d.name == name {
      ParsedAreHeld(files, names, d);
    }
  }

  lemma OnlyOneFile(files: Files, file: string)
    requires file in files
    ensures |files - {file}| == 0 <==> files.Keys == {file}
  {
    assert files.Keys == (files - {file}).Keys + {file};
  }

  /** The tenant's directory in the state repository. */
  class Repository {
    var files: Files

    constructor ()
      ensures files == map[]
    {
      files := map[];
    }

    method RenderApp(place: Placement, w: Workload, rolloutId: string, fenced: bool) returns (r: Result<Files, Error>)
      ensures r == WithApp(place, w, rolloutId, fenced, files)
    {
      var body := RenderWorkload(Identified(place, w), rolloutId);
      if body.Err? {
        return Err(body.error);
      }
      var out := if fenced then Fence(place.namespace) else map[];
      out := out[FILE := body.value];
      var carried := CarryForward(out, files);
      return Ok(carried);
    }

    method IsTaken(name: string) returns (taken: bool)
      ensures taken <==> name in DatabaseNames(files)
    {
      var existing := CommittedDatabases(files);
      ListedNames(files, name);
      for i := 0 to |existing|
        invariant forall k :: 0 <= k < i ==> existing[k].name != name
      {
        if existing[i].name == name {
          return true;
        }
      }
      return false;
    }

    method RenderOp(place: Placement, op: Op, rolloutId: string) returns (r: Result<Files, Error>)
      ensures r == Render(place, op, rolloutId, files)
    {
      match op {
        case Deploy(image, port, replicas, domain) =>
          var app := BLANK;
          if FILE in files {
            if !files[FILE].WorkloadDoc? {
              return Err(Unreadable);
            }
            app := files[FILE].w;
          }
          app := app.(spec := app.spec.(image := image));
          if port.Some? {
            app := app.(spec := app.spec.(port := port.value));
          }
          if replicas.Some? {
            app := app.(spec := app.spec.(replicas := replicas));
          }
          if domain.Some? {
            app := app.(spec := app.spec.(domain := domain.value));
          }
          r := RenderApp(place, app, rolloutId, true);
        case Rollback(image) =>
          var app := BLANK;
          if FILE in files {
            if !files[FILE].WorkloadDoc? {
              return Err(Unreadable);
            }
            app := files[FILE].w;
          }
          r := RenderApp(place, app.(spec := app.spec.(image := image)), rolloutId, true);
        case Scale(n) =>
          var app := Committed(files);
          if app.Err? {
            return Err(app.error);
          }
          if app.value.spec.autoscaled {
            return Err(Autoscaled);
          }
          if app.value.spec.volumes > 0 {
            return Err(PinnedByVolumes);
          }
          r := RenderApp(place, app.value.(spec := app.value.spec.(replicas := Some(n))), rolloutId, false);
        case Configure(settings) =>
          var app := Committed(files);
          if app.Err? {
            return Err(app.error);
          }
          r := RenderApp(place, app.value.(spec := app.value.spec.(settings := settings)), rolloutId, true);
        case CreateDatabase(db) =>
          var taken := IsTaken(db.name);
          if taken {
            return Err(DatabaseExists);
          }
          if db.name == "" || place.namespace == "" {
            return Err(Incomplete);
          }
          r := Ok(files[DatabaseFile(db.name) := DatabaseDoc(db.(namespace := place.namespace))]);
        case DeleteDatabase(name) =>
          var file := DatabaseFile(name);
          if file !in files {
            return Err(NoSuchDatabase);
          }
          var out := files - {file};
          OnlyOneFile(files, file);
          if |out| == 0 {
            return Err(LastManifest);
          }
          r := Ok(out);
      }
    }

    /** One commit: render against what is committed, write, and keep the result if anything changed. */
    method Apply(place: Placement, op: Op, rolloutId: string) returns (error: Option<Error>)
      modifies this
      ensures files == After(place, op, rolloutId, old(files))
      ensures error.Some? ==> files == old(files)
      ensures error.None? ==> files != old(files)
    {
      var rendered := RenderOp(place, op, rolloutId);
      if rendered.Err? {
        return Some(rendered.error);
      }
      var r := Commit(files, rendered.value, MayRemove(op));
      if r.Err? {
        return Some(r.error);
      }
      files := r.value;
      return None;
    }
  }

  // ---- What every run keeps ----

  /** Each file name the platform uses holds the platform's own kind of file, and foreign files use none of them. */
  ghost predicate FileOk(file: string, body: Body) {
    match body
    case WorkloadDoc(_) => forall n :: file != DatabaseFile(n)
    case DatabaseDoc(db) => file == DatabaseFile(db.name)
    case FenceDoc(_, _) => IsFence(file)
    case Foreign(_) => file != FILE && !IsFence(file) && forall n :: file != DatabaseFile(n)
  }

  ghost predicate WellFormed(files: Files) {
    forall f :: f in files ==> FileOk(f, files[f])
  }

  lemma FileIsAWorkloadFile()
    ensures forall n :: FILE != DatabaseFile(n)
    ensures forall f, n :: IsFence(f) ==> f != DatabaseFile(n)
  {
    forall n ensures FILE != DatabaseFile(n) && !IsFence(DatabaseFile(n)) {
      DatabaseFilesAreTheirOwn(n, n);
    }
  }

  /** The files an operation speaks about; everything else it must leave alone. */
  ghost predicate Touches(op: Op, file: string) {
    match op
    case CreateDatabase(db) => file == DatabaseFile(db.name)
    case DeleteDatabase(name) => file == DatabaseFile(name)
    case Scale(_) => file == FILE
    case _ => file == FILE || IsFence(file)
  }

  /** A file the operation does not speak about is there afterwards, byte for byte, and no such file appears. */
  lemma OthersAreUntouched(place: Placement, op: Op, rolloutId: string, current: Files, file: string)
    requires !Touches(op, file)
    ensures file in After(place, op, rolloutId, current) <==> file in current
    ensures file in current ==> After(place, op, rolloutId, current)[file] == current[file]
  {}

  lemma WithAppShape(place: Placement, w: Workload, rolloutId: string, fenced: bool, current: Files, f: string)
    requires WithApp(place, w, rolloutId, fenced, current).Ok? && f in WithApp(place, w, rolloutId, fenced, current).value
    ensures var body := WithApp(place, w, rolloutId, fenced, current).value[f];
            || (f in current && body == current[f])
            || (f == FILE && body.WorkloadDoc?)
            || (IsFence(f) && body.FenceDoc?)
  {}

  lemma AppIsRendered(place: Placement, op: Op, rolloutId: string, current: Files, f: string)
    requires !op.CreateDatabase? && !op.DeleteDatabase? && f in After(place, op, rolloutId, current)
    ensures var body := After(place, op, rolloutId, current)[f];
            || (f in current && body == current[f])
            || (f == FILE && body.WorkloadDoc?)
            || (IsFence(f) && body.FenceDoc?)
  {
    var r := Render(place, op, rolloutId, current);
    if r.Ok? && f in r.value {
      var spec := if Committed(current).Ok? then Committed(current).value else BLANK;
      match op
      case Deploy(_, _, _, _) =>
        WithAppShape(place, spec.(spec := Deployed(spec.spec, op)), rolloutId, true, current, f);
      case Rollback(image) => WithAppShape(place, spec.(spec := spec.spec.(image := image)), rolloutId, true, current, f);
      case Scale(n) => WithAppShape(place, spec.(spec := spec.spec.(replicas := Some(n))), rolloutId, false, current, f);
      case Configure(s) => WithAppShape(place, spec.(spec := spec.spec.(settings := s)), rolloutId, true, current, f);
    }
  }

  lemma StepKeepsFile(place: Placement, op: Op, rolloutId: string, current: Files, f: string)
    requires WellFormed(current) && f in After(place, op, rolloutId, current)
    ensures FileOk(f, After(place, op, rolloutId, current)[f])
  {
    assert f in current ==> FileOk(f, current[f]);
    FileIsAWorkloadFile();
    if !op.CreateDatabase? && !op.DeleteDatabase? {
      AppIsRendered(place, op, rolloutId, current, f);
    }
  }

  lemma StepKeepsWellFormed(place: Placement, op: Op, rolloutId: string, current: Files)
    requires WellFormed(current)
    ensures WellFormed(After(place, op, rolloutId, current))
  {
    var after := After(place, op, rolloutId, current);
    forall f | f in after ensures FileOk(f, after[f]) {
      StepKeepsFile(place, op, rolloutId, current, f);
    }
  }

  /** What is followed of a directory from commit to commit: its databases, and whether it holds anything else. */
  datatype Ledger = Ledger(databases: set<string>, others: bool)

  ghost predicate HoldsOthers(files: Files) {
    exists f :: f in files && !files[f].DatabaseDoc?
  }

  ghost function LedgerOf(files: Files): Ledger {
    Ledger(DatabaseNames(files), HoldsOthers(files))
  }

  /** An operation's effect on the ledger, told without looking at any file. */
  function Told(place: Placement, op: Op, l: Ledger): Ledger {
    match op
    case Deploy(image, _, _, _) =>
      if image == "" || place.app == "" || place.namespace == "" then l else l.(others := true)
    case Rollback(image) =>
      if image == "" || place.app == "" || place.namespace == "" then l else l.(others := true)
    case CreateDatabase(db) =>
      if db.name == "" || place.namespace == "" then l else l.(databases := l.databases + {db.name})
    case DeleteDatabase(name) =>
      if l == Ledger({name}, false) then l else l.(databases := l.databases - {name})
    case _ => l
  }

  lemma NamesAreFiles(files: Files, n: string)
    requires WellFormed(files)
    ensures n in DatabaseNames(files) <==> DatabaseFile(n) in files
    ensures DatabaseFile(n) in files ==> files[DatabaseFile(n)].DatabaseDoc? && files[DatabaseFile(n)].db.name == n
  {
    DatabaseFilesAreTheirOwn(n, n);
    if DatabaseFile(n) in files {
      var body := files[DatabaseFile(n)];
      assert FileOk(DatabaseFile(n), body);
      if body.DatabaseDoc? {
        DatabaseFilesAreTheirOwn(n, body.db.name);
      }
    }
    if n in DatabaseNames(files) {
      var f :| f in files && files[f].DatabaseDoc? && files[f].db.name == n;
      assert FileOk(f, files[f]);
    }
  }

  const BY_FILE := (d: Database) => DatabaseFile(d.name)

  lemma {:induction false} ParsedAscend(files: Files, names: seq<string>)
    requires WellFormed(files) && Text.Ascending(names, Text.SELF) && forall n :: n in names ==> n in files
    ensures Text.Ascending(ParsedIn(files, names), BY_FILE)
  {
    if names != [] {
      var init, dbs := Init(names), ParsedIn(files, Init(names));
      assert forall i, j :: 0 <= i < j < |init| ==> init[i] == names[i] && init[j] == names[j];
      ParsedAscend(files, init);
      assert FileOk(Last(names), files[Last(names)]);
      forall i | 0 <= i < |dbs| ensures Text.Less(BY_FILE(dbs[i]), Last(names)) {
        ParsedAreHeld(files, init, dbs[i]);
        var f :| f in init && f in files && files[f] == DatabaseDoc(dbs[i]);
        assert FileOk(f, files[f]);
        var k :| 0 <= k < |init| && init[k] == f;
        assert Text.Less(Text.SELF(names[k]), Text.SELF(names[|names| - 1]));
      }
    }
  }

  /** In a well-formed directory the list holds each committed Database once, in the order of its file. */
  lemma DatabasesAreListedOnce(files: Files, d: Database)
    requires WellFormed(files)
    ensures Text.Ascending(ParsedIn(files, Text.InOrder(files.Keys)), BY_FILE)
    ensures d in ParsedIn(files, Text.InOrder(files.Keys)) <==> DatabaseFile(d.name) in files && files[DatabaseFile(d.name)] == DatabaseDoc(d)
  {
    var names := Text.InOrder(files.Keys);
    ParsedAscend(files, names);
    ParsedAreHeld(files, names, d);
    assert forall f :: f in names ==> FileOk(f, files[f]);
  }

  lemma LastOneIsKept(files: Files, name: string)
    requires WellFormed(files)
    ensures files.Keys == {DatabaseFile(name)} <==> LedgerOf(files) == Ledger({name}, false)
  {
    NamesAreFiles(files, name);
    forall f | f in files && files[f].DatabaseDoc? ensures f == DatabaseFile(files[f].db.name) {
      assert FileOk(f, files[f]);
    }
    if LedgerOf(files) == Ledger({name}, false) {
      forall f | f in files ensures f == DatabaseFile(name) {
        assert files[f].DatabaseDoc?;
        assert files[f].db.name in DatabaseNames(files);
      }
    }
    if files.Keys == {DatabaseFile(name)} {
      forall n | n in DatabaseNames(files) ensures n == name {
        NamesAreFiles(files, n);
        DatabaseFilesAreTheirOwn(n, name);
      }
    }
  }

  lemma FileAfterCreate(place: Placement, db: Database, rolloutId: string, current: Files, n: string)
    requires WellFormed(current)
    ensures DatabaseFile(n) in After(place, CreateDatabase(db), rolloutId, current)
       <==> n in Told(place, CreateDatabase(db), LedgerOf(current)).databases
  {
    NamesAreFiles(current, n);
    DatabaseFilesAreTheirOwn(n, db.name);
  }

  lemma FileAfterDelete(place: Placement, name: string, rolloutId: string, current: Files, n: string)
    requires WellFormed(current)
    ensures DatabaseFile(n) in After(place, DeleteDatabase(name), rolloutId, current)
       <==> n in Told(place, DeleteDatabase(name), LedgerOf(current)).databases
  {
    NamesAreFiles(current, n);
    NamesAreFiles(current, name);
    LastOneIsKept(current, name);
    DatabaseFilesAreTheirOwn(n, name);
    if DatabaseFile(name) in current {
      OnlyOneFile(current, DatabaseFile(name));
    }
  }

  lemma DatabaseFileAfter(place: Placement, op: Op, rolloutId: string, current: Files, n: string)
    requires WellFormed(current)
    ensures DatabaseFile(n) in After(place, op, rolloutId, current) <==> n in Told(place, op, LedgerOf(current)).databases
  {
    match op
    case CreateDatabase(db) => FileAfterCreate(place, db, rolloutId, current, n);
    case DeleteDatabase(name) => FileAfterDelete(place, name, rolloutId, current, n);
    case _ =>
      NamesAreFiles(current, n);
      DatabaseFilesAreTheirOwn(n, n);
      OthersAreUntouched(place, op, rolloutId, current, DatabaseFile(n));
  }

  lemma StepMovesNames(place: Placement, op: Op, rolloutId: string, current: Files)
    requires WellFormed(current)
    ensures DatabaseNames(After(place, op, rolloutId, current)) == Told(place, op, LedgerOf(current)).databases
  {
    StepKeepsWellFormed(place, op, rolloutId, current);
    forall n ensures n in DatabaseNames(After(place, op, rolloutId, current))
                <==> n in Told(place, op, LedgerOf(current)).databases
    {
      NamesAreFiles(After(place, op, rolloutId, current), n);
      DatabaseFileAfter(place, op, rolloutId, current, n);
    }
  }

  lemma FileIsAnother(files: Files)
    requires WellFormed(files) && FILE in files
    ensures files[FILE].WorkloadDoc? && HoldsOthers(files)
  {
    assert FileOk(FILE, files[FILE]);
    FileIsAWorkloadFile();
  }

  lemma AppCommits(place: Placement, op: Op, rolloutId: string, current: Files)
    requires WellFormed(current) && (op.Deploy? || op.Rollback?)
    ensures var image := if op.Deploy? then op.image else op.target;
            Render(place, op, rolloutId, current).Ok? <==> image != "" && place.app != "" && place.namespace != ""
    ensures Render(place, op, rolloutId, current).Ok? ==> FILE in After(place, op, rolloutId, current)
  {
    if FILE in current {
      FileIsAnother(current);
    }
  }

  lemma OthersStay(place: Placement, op: Op, rolloutId: string, current: Files)
    requires WellFormed(current)
    ensures HoldsOthers(current) ==> HoldsOthers(After(place, op, rolloutId, current))
    ensures (op.CreateDatabase? || op.DeleteDatabase?) && HoldsOthers(After(place, op, rolloutId, current)) ==> HoldsOthers(current)
  {
    var after := After(place, op, rolloutId, current);
    StepKeepsWellFormed(place, op, rolloutId, current);
    FileIsAWorkloadFile();
    if HoldsOthers(current) {
      var f :| f in current && !current[f].DatabaseDoc?;
      assert FileOk(f, current[f]);
      assert f in after;
      assert FileOk(f, after[f]);
    }
    if (op.CreateDatabase? || op.DeleteDatabase?) && HoldsOthers(after) {
      var f :| f in after && !after[f].DatabaseDoc?;
      assert f in current && current[f] == after[f];
    }
  }

  /** A commit moves the databases, and whether there is anything else, exactly as the operation alone tells. */
  lemma StepMovesTheLedger(place: Placement, op: Op, rolloutId: string, current: Files)
    requires WellFormed(current)
    ensures LedgerOf(After(place, op, rolloutId, current)) == Told(place, op, LedgerOf(current))
  {
    StepMovesNames(place, op, rolloutId, current);
    OthersStay(place, op, rolloutId, current);
    OthersAfter(place, op, rolloutId, current);
  }

  lemma OthersAfter(place: Placement, op: Op, rolloutId: string, current: Files)
    requires WellFormed(current)
    ensures HoldsOthers(After(place, op, rolloutId, current)) == Told(place, op, LedgerOf(current)).others
  {
    StepKeepsWellFormed(place, op, rolloutId, current);
    OthersStay(place, op, rolloutId, current);
    if FILE in After(place, op, rolloutId, current) {
      FileIsAnother(After(place, op, rolloutId, current));
    }
    match op
    case Deploy(_, _, _, _) => AppCommits(place, op, rolloutId, current);
    case Rollback(_) => AppCommits(place, op, rolloutId, current);
    case CreateDatabase(_) =>
    case DeleteDatabase(_) =>
    case _ =>
      if FILE in current {
        FileIsAnother(current);
      }
  }

  lemma StepIsNeverEmptying(place: Placement, op: Op, rolloutId: string, current: Files)
    requires current != map[]
    ensures After(place, op, rolloutId, current) != map[]
    ensures FILE in current ==> FILE in After(place, op, rolloutId, current)
  {
    var after := After(place, op, rolloutId, current);
    match op
    case DeleteDatabase(name) =>
      DatabaseFilesAreTheirOwn(name, name);
      if DatabaseFile(name) in current && current.Keys != {DatabaseFile(name)} {
        var f :| f in current && f != DatabaseFile(name);
        OthersAreUntouched(place, op, rolloutId, current, f);
      }
    case _ =>
      var f :| f in current;
      assert f in after;
  }

  // ---- Runs ----

  datatype Change = Change(op: Op, rolloutId: string)

  ghost function Run(place: Placement, commits: seq<Change>, start: Files): Files {
    if commits == [] then start
    else After(place, Last(commits).op, Last(commits).rolloutId, Run(place, Init(commits), start))
  }

  /** The ledger after a run, told from the operations alone. */
  function ToldOfRun(place: Placement, commits: seq<Change>, start: Ledger): Ledger {
    if commits == [] then start else Told(place, Last(commits).op, ToldOfRun(place, Init(commits), start))
  }

  /**
   Over any run of deploys, rollbacks, scales, settings and database commits on a
   well-formed directory: every file holds what its name says, the committed
   databases are those the operations created and did not delete since, a
   directory that holds something is never emptied, and the app's own manifest is
   never lost.
   */
  lemma {:induction false} RunKeepsTheDirectory(place: Placement, commits: seq<Change>, start: Files)
    requires WellFormed(start)
    ensures WellFormed(Run(place, commits, start))
    ensures LedgerOf(Run(place, commits, start)) == ToldOfRun(place, commits, LedgerOf(start))
    ensures start != map[] ==> Run(place, commits, start) != map[]
    ensures FILE in start ==> FILE in Run(place, commits, start)
  {
    if commits != [] {
      var before, c := Run(place, Init(commits), start), Last(commits);
      RunKeepsTheDirectory(place, Init(commits), start);
      StepKeepsWellFormed(place, c.op, c.rolloutId, before);
      StepMovesTheLedger(place, c.op, c.rolloutId, before);
      if start != map[] {
        StepIsNeverEmptying(place, c.op, c.rolloutId, before);
      }
    }
  }

  /** A file no operation of the run speaks about is the same at the end, present or not. */
  lemma {:induction false} RunLeavesOthersAlone(place: Placement, commits: seq<Change>, start: Files, file: string)
    requires forall i :: 0 <= i < |commits| ==> !Touches(commits[i].op, file)
    ensures file in Run(place, commits, start) <==> file in start
    ensures file in start ==> Run(place, commits, start)[file] == start[file]
  {
    if commits != [] {
      assert forall i :: 0 <= i < |commits| - 1 ==> Init(commits)[i] == commits[i];
      RunLeavesOthersAlone(place, Init(commits), start, file);
      assert !Touches(commits[|commits| - 1].op, file);
      OthersAreUntouched(place, Last(commits).op, Last(commits).rolloutId, Run(place, Init(commits), start), file);
    }
  }

  /** Foreign files, wherever the platform's names are not, survive every run byte for byte. */
  lemma ForeignFilesSurvive(place: Placement, commits: seq<Change>, start: Files, file: string)
    requires WellFormed(start) && file in start && start[file].Foreign?
    ensures file in Run(place, commits, start) && Run(place, commits, start)[file] == start[file]
  {
    assert FileOk(file, start[file]);
    RunLeavesOthersAlone(place, commits, start, file);
  }

  /** A scale or a settings change alters exactly its own fields of the committed spec. */
  lemma OnlyItsOwnFields(place: Placement, op: Op, rolloutId: string, current: Files)
    requires Committed(current).Ok? && Render(place, op, rolloutId, current).Ok?
    requires op.Scale? || op.Configure? || op.Rollback?
    ensures var before, after := Committed(current).value, Committed(After(place, op, rolloutId, current));
            && after.Ok?
            && after.value.spec == (match op
                                    case Scale(n) => before.spec.(replicas := Some(n))
                                    case Configure(s) => before.spec.(settings := s)
                                    case Rollback(image) => before.spec.(image := image))
            && after.value.annotations - {ROLLOUT_ANNOTATION} == before.annotations - {ROLLOUT_ANNOTATION}
            && after.value.name == place.app && after.value.namespace == place.namespace
  {}
}
