/**
 A settings PUT across two stores: the workload committed to git, which names
 secrets, and the cluster Secret, which holds their values. The values are
 written first, the names committed next, the stale values removed last
 (updateSettingsRoute of server/settings.go, clusterSecrets.Put of
 server/secretwrite.go).
 */
module SettingsStores {
  import opened Common
  import opened SettingsPlan
  import Text

  type Data = map<string, string>

  /** How one request to the API server or to git ends; a lost answer is an error about something that happened. */
  datatype Outcome = Clean | Refused | LostAnswer

  /** What a Put meets on its way, and what another writer creates between its patch and its create. */
  datatype PutFaults = PutFaults(patch: Outcome, create: Outcome, rival: Option<Data>)

  // ---- The cluster Secret ----

  /** A JSON merge patch of a flat object (section 2 of RFC 7396): a null deletes, anything else replaces. */
  function Patched(d: Data, patch: map<string, Option<string>>): Data {
    map k | k in d.Keys + patch.Keys && (k in patch ==> patch[k].Some?) ::
      if k in patch then patch[k].value else d[k]
  }

  function PatchFor(puts: Data, remove: seq<string>): map<string, Option<string>> {
    map k | k in puts.Keys + Keys(remove) :: if k in remove then None else Some(puts[k])
  }

  /** What Put leaves in the cluster, and whether it reports success. */
  function PutResult(secret: Option<Data>, puts: Data, remove: seq<string>, f: PutFaults): (Option<Data>, bool) {
    if puts == map[] && remove == [] then (secret, true)
    else if f.patch.Refused? then (secret, false)
    else if secret.Some? then (Some(Patched(secret.value, PatchFor(puts, remove))), f.patch.Clean?)
    else if f.patch.LostAnswer? then (secret, false)
    else if puts == map[] then (secret, true)
    else if f.create.Refused? then (f.rival, false)
    else (if f.rival.Some? then f.rival else Some(puts), f.create.Clean?)
  }

  /** What Put is for: the named values set, the named keys gone, the rest as it was. */
  function Written(secret: Option<Data>, puts: Data, remove: seq<string>): Option<Data> {
    match secret
    case None => if puts == map[] then None else Some(puts)
    case Some(d) => Some((d + puts) - Keys(remove))
  }

  lemma PatchIsTheMerge(d: Data, puts: Data, remove: seq<string>)
    ensures Patched(d, PatchFor(puts, remove)) == (d + puts) - Keys(remove)
  {
    var patch := PatchFor(puts, remove);
    forall k ensures k in remove <==> k in Keys(remove) {}
    assert Patched(d, patch).Keys == ((d + puts) - Keys(remove)).Keys;
  }

  /** Nobody else creates the Secret while this Put runs. */
  predicate Alone(secret: Option<Data>, f: PutFaults) {
    secret.Some? || f.rival.None?
  }

  /** Uncontended, a Put happens whole or not at all, and reports success only when it happened. */
  lemma PutIsAllOrNothing(secret: Option<Data>, puts: Data, remove: seq<string>, f: PutFaults)
    requires Alone(secret, f)
    ensures PutResult(secret, puts, remove, f).0 in {secret, Written(secret, puts, remove)}
    ensures PutResult(secret, puts, remove, f).1 ==> PutResult(secret, puts, remove, f).0 == Written(secret, puts, remove)
  {
    if secret.Some? {
      PatchIsTheMerge(secret.value, puts, remove);
      assert puts == map[] && remove == [] ==> (secret.value + puts) - Keys(remove) == secret.value;
    }
  }

  /**
   The lost create race: the second error is shadowed, so Put reports success and
   leaves exactly what the rival wrote. That is the merge it promised if and only
   if the rival had already written the same values.
   */
  lemma LostRace(puts: Data, rival: Data)
    requires puts != map[]
    ensures PutResult(None, puts, [], PutFaults(Clean, Clean, Some(rival))) == (Some(rival), true)
    ensures Written(Some(rival), puts, []) == Some(rival) <==> forall k :: k in puts ==> k in rival && rival[k] == puts[k]
  {
    var merged := (rival + puts) - Keys([]);
    assert merged == rival + puts;
    if forall k :: k in puts ==> k in rival && rival[k] == puts[k] {
      assert merged == rival;
    }
    if merged == rival {
      forall k | k in puts ensures k in rival && rival[k] == puts[k] {
        assert k in merged && merged[k] == puts[k];
      }
    }
  }

  // ---- A settings PUT ----

  datatype Stores = Stores(app: App, secret: Option<Data>)

  datatype Faults = Faults(first: PutFaults, commit: Outcome, last: PutFaults)

  datatype Answer = Saved | BadRequest(why: Error) | NothingDeployed | NoCluster
                  | SecretsFailed | CommitFailed | RemovalFailed

  function Held(secret: Option<Data>): set<string> {
    if secret.Some? then secret.value.Keys else {}
  }

  /** renderSettings: the settings of the plan, on whatever else is committed now. */
  function Committed(now: App, want: App): App {
    now.(env := want.env, userSecrets := want.userSecrets, buildEnv := want.buildEnv,
         health := want.health, resources := want.resources)
  }

  /** Every state the stores pass through while a plan is carried out, and the answer at the end. */
  function Carried(st: Stores, p: Plan, f: Faults): (r: (seq<Stores>, Answer))
    ensures r.0 != [] && r.0[0] == st
  {
    var (secret, ok) := PutResult(st.secret, p.puts, [], f.first);
    var s1 := st.(secret := secret);
    if !ok then ([st, s1], SecretsFailed)
    else if f.commit.Refused? then ([st, s1], CommitFailed)
    else
      var s2 := s1.(app := Committed(st.app, p.app));
      if f.commit.LostAnswer? then ([st, s1, s2], CommitFailed)
      else
        var (secret', ok') := PutResult(s2.secret, map[], p.remove, f.last);
        ([st, s1, s2, s2.(secret := secret')], if ok' then Saved else RemovalFailed)
  }

  /** The whole request: what is refused before anything is written, then the plan. */
  function Handled(q: Quantities, cluster: bool, st: Stores, req: Request, f: Faults): (r: (seq<Stores>, Answer))
    ensures r.0 != [] && r.0[0] == st
  {
    if st.app.image == "" then ([st], NothingDeployed)
    else
      match Planned(q, req, st.app)
      case Err(e) => ([st], BadRequest(e))
      case Ok(p) => if !cluster && (p.puts != map[] || p.remove != []) then ([st], NoCluster) else Carried(st, p, f)
  }

  /** The server, its repository and its cluster. */
  class Installation {
    const cluster: bool
    var app: App
    var secret: Option<Data>

    constructor (app: App, secret: Option<Data>, cluster: bool)
      ensures this.app == app && this.secret == secret && this.cluster == cluster
    {
      this.app := app;
      this.secret := secret;
      this.cluster := cluster;
    }

    /** clusterSecrets.Put. */
    method Put(puts: Data, remove: seq<string>, f: PutFaults) returns (ok: bool)
      modifies this`secret
      ensures (secret, ok) == PutResult(old(secret), puts, remove, f)
    {
      if puts == map[] && remove == [] {
        return true;
      }
      var patch := BuildPatch(puts, remove);
      if f.patch.Refused? {
        return false;
      }
      var found := secret.Some?;
      if found {
        secret := Some(Patched(secret.value, patch));
      }
      if found || f.patch.LostAnswer? {
        return f.patch.Clean?;
      }
      if puts == map[] {
        return true;
      }
      secret := f.rival;
      if f.create.Refused? {
        return false;
      }
      if secret.None? {
        secret := Some(puts);
      }
      // A create that meets the rival's object is swallowed with the outer error still "not found".
      return f.create.Clean?;
    }

    /** updateSettingsRoute. */
    method Update(q: Quantities, req: Request, f: Faults) returns (answer: Answer)
      modifies this
      ensures Stores(app, secret) == Last(Handled(q, cluster, old(Stores(app, secret)), req, f).0)
      ensures answer == Handled(q, cluster, old(Stores(app, secret)), req, f).1
    {
      if app.image == "" {
        return NothingDeployed;
      }
      var planned := PlanSettings(q, req, app);
      if planned.Err? {
        return BadRequest(planned.error);
      }
      var p := planned.value;
      if !cluster && (p.puts != map[] || p.remove != []) {
        return NoCluster;
      }
      if p.puts != map[] {
        var ok := Put(p.puts, [], f.first);
        if !ok {
          return SecretsFailed;
        }
      }
      if f.commit.Refused? {
        return CommitFailed;
      }
      app := Committed(app, p.app);
      if f.commit.LostAnswer? {
        return CommitFailed;
      }
      if p.remove != [] {
        var ok := Put(map[], p.remove, f.last);
        if !ok {
          return RemovalFailed;
        }
      }
      return Saved;
    }
  }

  /** The data of the merge patch, filled key by key in whatever order the maps yield. */
  method BuildPatch(puts: Data, remove: seq<string>) returns (patch: map<string, Option<string>>)
    ensures patch == PatchFor(puts, remove)
  {
    patch := map[];
    var left := puts.Keys;
    while left != {}
      invariant left <= puts.Keys && patch == map k | k in puts.Keys - left :: Some(puts[k])
      decreases left
    {
      var k :| k in left;
      patch := patch[k := Some(puts[k])];
      left := left - {k};
    }
    for i := 0 to |remove|
      invariant patch == PatchFor(puts, remove[..i])
    {
      KeysSnoc(remove[..i], remove[i]);
      assert remove[..i] + [remove[i]] == remove[..i + 1];
      patch := patch[remove[i] := None];
    }
    assert remove[..|remove|] == remove;
  }

  // ---- Git never names a key the Secret lacks ----

  ghost predicate NamesAreHeld(st: Stores) {
    Keys(st.app.userSecrets) <= Held(st.secret)
  }

  lemma PutHolds(secret: Option<Data>, puts: Data, remove: seq<string>, f: PutFaults)
    requires Alone(secret, f)
    ensures var (secret', ok) := PutResult(secret, puts, remove, f);
            && Held(secret) - Keys(remove) <= Held(secret')
            && (ok ==> puts.Keys - Keys(remove) <= Held(secret'))
            && (ok && remove == [] ==> Held(secret') == Held(secret) + puts.Keys)
            && (ok && puts == map[] ==> Held(secret') == Held(secret) - Keys(remove))
  {
    PutIsAllOrNothing(secret, puts, remove, f);
  }

  /** No other writer creates the Secret while the request runs. */
  predicate Serial(f: Faults) {
    f.first.rival.None? && f.last.rival.None?
  }

  function Literals(app: App): set<string> {
    NamesOf(app.env) + NamesOf(app.buildEnv)
  }

  /** What a plan is to the workload it is carried out on: it names what it sets and what was named, and removes nothing it names. */
  ghost predicate Follows(p: Plan, app: App) {
    && p.puts.Keys <= Keys(p.app.userSecrets) <= p.puts.Keys + Keys(app.userSecrets)
    && Keys(p.remove) == Keys(app.userSecrets) - Literals(p.app) - Keys(p.app.userSecrets)
    && Literals(p.app) !! Keys(p.app.userSecrets)
  }

  lemma PlanFollows(q: Quantities, req: Request, app: App)
    requires Planned(q, req, app).Ok?
    ensures Follows(Planned(q, req, app).value, app)
  {
    PlansAreSettled(q, req, app);
  }

  ghost predicate AllHeld(moments: seq<Stores>) {
    forall i :: 0 <= i < |moments| ==> NamesAreHeld(moments[i])
  }

  /** Such a plan keeps the promise at every moment, whatever fails. */
  lemma CarryingKeepsNames(st: Stores, p: Plan, f: Faults)
    requires Follows(p, st.app) && Serial(f) && NamesAreHeld(st)
    ensures AllHeld(Carried(st, p, f).0)
  {
    PutHolds(st.secret, p.puts, [], f.first);
    var (secret, ok) := PutResult(st.secret, p.puts, [], f.first);
    assert NamesAreHeld(st.(secret := secret));
    var app := Committed(st.app, p.app);
    assert ok ==> NamesAreHeld(Stores(app, secret));
    PutHolds(secret, map[], p.remove, f.last);
    var secret' := PutResult(secret, map[], p.remove, f.last).0;
    assert ok ==> NamesAreHeld(Stores(app, secret'));
  }

  lemma HandlingKeepsNames(q: Quantities, cluster: bool, req: Request, st: Stores, f: Faults)
    requires Serial(f) && NamesAreHeld(st)
    ensures AllHeld(Handled(q, cluster, st, req, f).0)
  {
    if Planned(q, req, st.app).Ok? {
      PlanFollows(q, req, st.app);
      CarryingKeepsNames(st, Planned(q, req, st.app).value, f);
    }
  }

  /** One request of a run: what is asked, what fails, and after how many moments the server dies, if it does. */
  datatype Attempt = Attempt(req: Request, faults: Faults, crash: Option<nat>)

  function After(q: Quantities, cluster: bool, st: Stores, a: Attempt): Stores {
    var moments := Handled(q, cluster, st, a.req, a.faults).0;
    if a.crash.Some? && a.crash.value < |moments| then moments[a.crash.value] else Last(moments)
  }

  function Run(q: Quantities, cluster: bool, st: Stores, run: seq<Attempt>): Stores {
    if run == [] then st else After(q, cluster, Run(q, cluster, st, Init(run)), Last(run))
  }

  ghost predicate SerialRun(run: seq<Attempt>) {
    forall i :: 0 <= i < |run| ==> Serial(run[i].faults)
  }

  /** Over every serial run, with any failure and any crash in any request, git names only keys the Secret holds. */
  lemma {:induction false} RunKeepsNames(q: Quantities, cluster: bool, st: Stores, run: seq<Attempt>)
    requires SerialRun(run) && NamesAreHeld(st)
    ensures NamesAreHeld(Run(q, cluster, st, run))
  {
    if run != [] {
      assert forall i :: 0 <= i < |Init(run)| ==> Init(run)[i] == run[i];
      RunKeepsNames(q, cluster, st, Init(run));
      HandlingKeepsNames(q, cluster, Last(run).req, Run(q, cluster, st, Init(run)), Last(run).faults);
    }
  }

  // ---- What a completed request leaves ----

  /** Keys held that git does not name. */
  function Extra(st: Stores): set<string> {
    Held(st.secret) - Keys(st.app.userSecrets)
  }

  /** Secrets before that are literals after. */
  function Turned(before: App, after: App): set<string> {
    Keys(before.userSecrets) * Literals(after) - Keys(after.userSecrets)
  }

  function Final(r: (seq<Stores>, Answer)): Stores
    requires r.0 != []
  {
    Last(r.0)
  }

  lemma SavedSecret(st: Stores, p: Plan, f: Faults)
    requires Serial(f) && Carried(st, p, f).1.Saved?
    ensures Final(Carried(st, p, f)).app == Committed(st.app, p.app)
    ensures Final(Carried(st, p, f)).secret == Written(Written(st.secret, p.puts, []), map[], p.remove)
  {
    PutIsAllOrNothing(st.secret, p.puts, [], f.first);
    PutIsAllOrNothing(Written(st.secret, p.puts, []), map[], p.remove, f.last);
  }

  lemma WrittenValues(secret: Option<Data>, p: Plan, k: string)
    requires k !in p.remove && (k in p.puts || k in Held(secret))
    ensures var s := Written(Written(secret, p.puts, []), map[], p.remove);
            && s.Some? && k in s.value
            && if k in p.puts then s.value[k] == p.puts[k] else secret.Some? && k in secret.value && s.value[k] == secret.value[k]
  {}

  lemma InKeys(ks: seq<string>, k: string)
    ensures k in ks <==> k in Keys(ks)
  {
    if k in ks {
      var i :| 0 <= i < |ks| && ks[i] == k;
      assert ks[i] in Keys(ks);
    }
  }

  lemma NamedIsKept(q: Quantities, st: Stores, req: Request, k: string)
    requires NamesAreHeld(st) && Planned(q, req, st.app).Ok? && k in Keys(Planned(q, req, st.app).value.app.userSecrets)
    ensures var p := Planned(q, req, st.app).value; k !in p.remove && (k in p.puts || k in Held(st.secret))
  {
    var p := Planned(q, req, st.app).value;
    PlansAreSettled(q, req, st.app);
    InKeys(p.remove, k);
    assert k in p.puts.Keys || k in Keys(st.app.userSecrets);
  }

  /** After a saved request every named secret has the value just put, or the one it had. */
  lemma SavedValues(q: Quantities, cluster: bool, st: Stores, req: Request, f: Faults, k: string)
    requires Serial(f) && NamesAreHeld(st) && Handled(q, cluster, st, req, f).1.Saved?
    requires Planned(q, req, st.app).Ok? && k in Keys(Planned(q, req, st.app).value.app.userSecrets)
    ensures var p, s := Planned(q, req, st.app).value, Final(Handled(q, cluster, st, req, f)).secret;
            && s.Some? && k in s.value
            && if k in p.puts then s.value[k] == p.puts[k] else st.secret.Some? && k in st.secret.value && s.value[k] == st.secret.value[k]
  {
    var p := Planned(q, req, st.app).value;
    NamedIsKept(q, st, req, k);
    SavedSecret(st, p, f);
    WrittenValues(st.secret, p, k);
  }

  /** The keys a saved request leaves over: those left over before and not named since, and each secret it turned into a literal. */
  lemma SavedExtra(q: Quantities, cluster: bool, st: Stores, req: Request, f: Faults)
    requires Serial(f) && NamesAreHeld(st) && Handled(q, cluster, st, req, f).1.Saved?
    ensures var st' := Final(Handled(q, cluster, st, req, f));
            Extra(st') == Extra(st) - Keys(st'.app.userSecrets) + Turned(st.app, st'.app)
  {
    var p := Planned(q, req, st.app).value;
    PlanFollows(q, req, st.app);
    SavedSecret(st, p, f);
    WrittenKeys(st.secret, p);
    LeftOver(Held(st.secret), Keys(st.app.userSecrets), Keys(p.app.userSecrets), Literals(p.app), p.puts.Keys);
  }

  lemma WrittenKeys(secret: Option<Data>, p: Plan)
    ensures Held(Written(Written(secret, p.puts, []), map[], p.remove)) == Held(secret) + p.puts.Keys - Keys(p.remove)
  {
    assert Held(Written(secret, p.puts, [])) == Held(secret) + p.puts.Keys;
  }

  lemma LeftOver(held: set<string>, names: set<string>, names': set<string>, literals: set<string>, puts: set<string>)
    requires names <= held && puts <= names' <= puts + names && literals !! names'
    ensures held + puts - (names - literals - names') - names' == held - names - names' + (names * literals - names')
  {}

  /** From keys that match the names, a saved request keeps the match exactly when it turns no secret into a literal. */
  lemma SavedKeysMatch(q: Quantities, cluster: bool, st: Stores, req: Request, f: Faults)
    requires Serial(f) && Held(st.secret) == Keys(st.app.userSecrets) && Handled(q, cluster, st, req, f).1.Saved?
    ensures var st' := Final(Handled(q, cluster, st, req, f));
            Held(st'.secret) == Keys(st'.app.userSecrets) <==> Turned(st.app, st'.app) == {}
  {
    SavedExtra(q, cluster, st, req, f);
    HandlingKeepsNames(q, cluster, req, st, f);
    var st' := Final(Handled(q, cluster, st, req, f));
    assert NamesAreHeld(st');
    assert Held(st'.secret) == Keys(st'.app.userSecrets) + Extra(st');
  }

  // ---- Runs in which every request is saved or refused outright ----

  ghost predicate RunCompletes(q: Quantities, cluster: bool, st: Stores, run: seq<Attempt>) {
    run == [] || (RunCompletes(q, cluster, st, Init(run)) && Completes(q, cluster, Run(q, cluster, st, Init(run)), Last(run)))
  }

  ghost predicate Completes(q: Quantities, cluster: bool, st: Stores, a: Attempt) {
    && Serial(a.faults) && a.crash.None?
    && !Handled(q, cluster, st, a.req, a.faults).1.SecretsFailed?
    && !Handled(q, cluster, st, a.req, a.faults).1.CommitFailed?
    && !Handled(q, cluster, st, a.req, a.faults).1.RemovalFailed?
  }

  lemma CompletedExtra(q: Quantities, cluster: bool, st: Stores, a: Attempt)
    requires Completes(q, cluster, st, a) && NamesAreHeld(st)
    ensures var st' := After(q, cluster, st, a);
            Extra(st') == Extra(st) - Keys(st'.app.userSecrets) + Turned(st.app, st'.app)
  {
    if Handled(q, cluster, st, a.req, a.faults).1.Saved? {
      SavedExtra(q, cluster, st, a.req, a.faults);
    }
  }

  /** The workloads committed before the run and after each of its requests. */
  function Apps(q: Quantities, cluster: bool, st: Stores, run: seq<Attempt>): (apps: seq<App>)
    ensures |apps| == |run| + 1
  {
    if run == [] then [st.app] else Apps(q, cluster, st, Init(run)) + [Run(q, cluster, st, run).app]
  }

  /** The i-th request turned k into a literal and no later one made it a secret again. */
  ghost predicate LeftBehind(apps: seq<App>, k: string, i: nat) {
    && i + 1 < |apps| && k in Turned(apps[i], apps[i + 1])
    && forall j :: i < j < |apps| ==> k !in Keys(apps[j].userSecrets)
  }

  lemma LeftBehindGrows(apps: seq<App>, app: App, k: string)
    requires apps != []
    ensures (exists i :: LeftBehind(apps + [app], k, i)) <==>
            || ((exists i :: LeftBehind(apps, k, i)) && k !in Keys(app.userSecrets))
            || k in Turned(Last(apps), app)
  {
    var more := apps + [app];
    assert forall j :: 0 <= j < |apps| ==> more[j] == apps[j];
    assert more[|apps|] == app;
    if exists i :: LeftBehind(more, k, i) {
      var i: nat :| LeftBehind(more, k, i);
      assert k !in Keys(more[|apps|].userSecrets);
      assert i + 1 < |apps| ==> LeftBehind(apps, k, i);
    }
    if (exists i :: LeftBehind(apps, k, i)) && k !in Keys(app.userSecrets) {
      var i: nat :| LeftBehind(apps, k, i);
      assert LeftBehind(more, k, i);
    }
    if k in Turned(Last(apps), app) {
      assert LeftBehind(more, k, |apps| - 1);
    }
  }

  /**
   When every request completes, what the Secret holds beyond git's names is
   exactly what some request turned into a literal and no later one took back.
   */
  lemma {:induction false} ExtraIsWhatWasTurned(q: Quantities, cluster: bool, st: Stores, run: seq<Attempt>, k: string)
    requires Held(st.secret) == Keys(st.app.userSecrets) && RunCompletes(q, cluster, st, run)
    ensures NamesAreHeld(Run(q, cluster, st, run)) && Last(Apps(q, cluster, st, run)) == Run(q, cluster, st, run).app
    ensures k in Extra(Run(q, cluster, st, run)) <==> exists i :: LeftBehind(Apps(q, cluster, st, run), k, i)
  {
    if run != [] {
      ExtraIsWhatWasTurned(q, cluster, st, Init(run), k);
      var before := Run(q, cluster, st, Init(run));
      CompletedExtra(q, cluster, before, Last(run));
      HandlingKeepsNames(q, cluster, Last(run).req, before, Last(run).faults);
      LeftBehindGrows(Apps(q, cluster, st, Init(run)), Run(q, cluster, st, run).app, k);
    }
  }

  /** So the keys are the names, after a completed run, if and only if every secret turned into a literal was taken back. */
  lemma RunKeysMatch(q: Quantities, cluster: bool, st: Stores, run: seq<Attempt>)
    requires Held(st.secret) == Keys(st.app.userSecrets) && RunCompletes(q, cluster, st, run)
    ensures Held(Run(q, cluster, st, run).secret) == Keys(Run(q, cluster, st, run).app.userSecrets)
       <==> forall k, i :: !LeftBehind(Apps(q, cluster, st, run), k, i)
  {
    var st' := Run(q, cluster, st, run);
    ExtraIsWhatWasTurned(q, cluster, st, run, "");
    forall k ensures k in Extra(st') <==> exists i :: LeftBehind(Apps(q, cluster, st, run), k, i) {
      ExtraIsWhatWasTurned(q, cluster, st, run, k);
    }
    assert Held(st'.secret) == Keys(st'.app.userSecrets) + Extra(st');
  }

  // ---- Where the promise stops ----

  /**
   A plan carried out on stores that have moved on since it was made. Git names
   only held keys afterwards exactly when every name the plan does not set itself
   is still held.
   */
  lemma StalePlans(st: Stores, p: Plan, f: Faults)
    requires Serial(f) && Carried(st, p, f).1.Saved? && Keys(p.remove) !! Keys(p.app.userSecrets)
    ensures NamesAreHeld(Final(Carried(st, p, f))) <==> Keys(p.app.userSecrets) - p.puts.Keys <= Held(st.secret)
  {
    SavedSecret(st, p, f);
    WrittenKeys(st.secret, p);
  }

  const SMOOTH := PutFaults(Clean, Clean, None)
  const FINE := Faults(SMOOTH, Clean, SMOOTH)
  const UNSET := Health("", "", 0, 0, 0, 0)

  function Shop(env: seq<EnvVar>, userSecrets: seq<string>): App {
    App("shop", env, userSecrets, [], UNSET, Resources(0, 0, 0), "shop:1", "")
  }

  function Asking(rows: seq<Row>): Request {
    Request(rows, UNSET, WireResources("", "", ""))
  }

  lemma OneRow(q: Quantities, v: Row, userSecrets: seq<string>)
    requires v.key == "K" && Refusal(v, {}, userSecrets).None?
    ensures Text.TrimSpace("K") == "K"
    ensures var d := Added(NOTHING, v);
            Planned(q, Asking([v]), Shop([], userSecrets)) ==
            Ok(Plan(Shop([], userSecrets).(env := d.env, userSecrets := d.userSecrets, buildEnv := d.buildEnv), d.puts,
                    Dropped(userSecrets, d.seen)))
  {
    Text.TrimKeeps("K");
    assert Init([v]) == [] && Last([v]) == v;
    assert Drafted([], userSecrets) == Ok(NOTHING);
    assert Drafted([v], userSecrets) == Ok(Added(NOTHING, v));
  }

  /** A secret turned into a literal stays in the cluster, whatever its value becomes in git. */
  lemma LiteralLeavesTheSecret(q: Quantities, was: string, now: string)
    ensures var st := Stores(Shop([], ["K"]), Some(map["K" := was]));
            var r := Handled(q, true, st, Asking([Row("K", Some(now), false, false, true, None)]), FINE);
            r.1 == Saved && Final(r) == Stores(Shop([EnvVar("K", now)], []), Some(map["K" := was]))
  {
    var v := Row("K", Some(now), false, false, true, None);
    Text.TrimKeeps("K");
    OneRow(q, v, ["K"]);
    assert Dropped(["K"], {"K"}) == [] by {
      assert Init(["K"]) == [] && Last(["K"]) == "K";
    }
    assert Added(NOTHING, v).seen == {"K"} && Added(NOTHING, v).env == [EnvVar("K", now)];
    assert Planned(q, Asking([v]), Shop([], ["K"])) == Ok(Plan(Shop([EnvVar("K", now)], []), map[], []));
  }

  /** Two PUTs planned from one commit: one removes K, the other keeps it, and git ends up naming a key that is gone. */
  lemma InterleavedPutsBreak(q: Quantities, value: string)
    ensures var st := Stores(Shop([], ["K"]), Some(map["K" := value]));
            var keep := Planned(q, Asking([Row("K", None, true, false, true, None)]), st.app);
            var st' := Final(Handled(q, true, st, Asking([]), FINE));
            NamesAreHeld(st) && keep.Ok? && NamesAreHeld(st') && !NamesAreHeld(Final(Carried(st', keep.value, FINE)))
  {
    var st := Stores(Shop([], ["K"]), Some(map["K" := value]));
    var v := Row("K", None, true, false, true, None);
    Text.TrimKeeps("K");
    OneRow(q, v, ["K"]);
    assert Dropped(["K"], {}) == ["K"] && Dropped(["K"], {"K"}) == [] by {
      assert Init(["K"]) == [] && Last(["K"]) == "K";
    }
    assert Planned(q, Asking([]), st.app) == Ok(Plan(Shop([], []), map[], ["K"]));
    var keep := Planned(q, Asking([v]), st.app).value;
    HandlingKeepsNames(q, true, Asking([]), st, FINE);
    var st' := Final(Handled(q, true, st, Asking([]), FINE));
    SavedSecret(st, Plan(Shop([], []), map[], ["K"]), FINE);
    assert ["K"][0] in Keys(["K"]);
    assert "K" !in Held(st'.secret);
    StalePlans(st', keep, FINE);
    assert keep.app.userSecrets[0] == "K";
  }
}
