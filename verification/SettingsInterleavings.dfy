/**
 Settings PUTs that overlap. Any number of requests planned from one commit
 each patch the Secret, create it if it was missing, commit their names and
 remove their stale values, in that order (updateSettingsRoute of
 server/settings.go, clusterSecrets.Put of server/secretwrite.go). A schedule
 says whose step is next; a request that fails or dies is one that takes no
 further step.
 */
module SettingsInterleavings {
  import opened Common
  import opened SettingsPlan
  import opened SettingsStores
  import Text

  /** What a request does next; Creating is a patch that met no Secret. */
  datatype Phase = Patching | Creating | Committing | Removing | Finished

  datatype World = World(stores: Stores, phases: seq<Phase>)

  function Begin(st: Stores, n: nat): (w: World)
    ensures |w.phases| == n
  {
    World(st, seq(n, _ => Patching))
  }

  /** One step of one request. */
  function Advance(p: Plan, st: Stores, phase: Phase): (Stores, Phase) {
    match phase
    case Patching =>
      if p.puts == map[] then (st, Committing)
      else if st.secret.Some? then (st.(secret := Written(st.secret, p.puts, [])), Committing)
      else (st, Creating)
    // A create that meets a rival's Secret writes nothing and is taken for a success.
    case Creating => (if st.secret.Some? then st else st.(secret := Some(p.puts)), Committing)
    case Committing => (st.(app := Committed(st.app, p.app)), Removing)
    case Removing => (if p.remove == [] then st else st.(secret := Written(st.secret, map[], p.remove)), Finished)
    case Finished => (st, Finished)
  }

  function Step(ps: seq<Plan>, w: World, i: nat): (w': World)
    requires |w.phases| == |ps|
    ensures |w'.phases| == |ps|
  {
    if i >= |ps| then w
    else
      var (st, phase) := Advance(ps[i], w.stores, w.phases[i]);
      World(st, w.phases[i := phase])
  }

  /** The stores after a schedule; a schedule may stop anywhere. */
  function Play(st: Stores, ps: seq<Plan>, schedule: seq<nat>): (w: World)
    ensures |w.phases| == |ps|
  {
    if schedule == [] then Begin(st, |ps|) else Step(ps, Play(st, ps, Init(schedule)), Last(schedule))
  }

  /** Left alone, a request is the one a serial run carries out. */
  lemma AloneItIsCarried(st: Stores, p: Plan)
    ensures Play(st, [p], [0, 0, 0, 0]).stores == Final(Carried(st, p, FINE))
  {
    var (s1, f1) := Advance(p, st, Patching);
    var (s2, f2) := Advance(p, s1, f1);
    var (s3, f3) := Advance(p, s2, f2);
    assert [0] + [0] == [0, 0] && [0, 0] + [0] == [0, 0, 0] && [0, 0, 0] + [0] == [0, 0, 0, 0];
    PlayAlone(st, p, [], st, Patching);
    PlayAlone(st, p, [0], s1, f1);
    PlayAlone(st, p, [0, 0], s2, f2);
    PlayAlone(st, p, [0, 0, 0], s3, f3);
    AdvancedIsCarried(st, p);
  }

  lemma PlayAlone(st: Stores, p: Plan, schedule: seq<nat>, s: Stores, phase: Phase)
    requires Play(st, [p], schedule) == World(s, [phase])
    ensures var (s', phase') := Advance(p, s, phase); Play(st, [p], schedule + [0]) == World(s', [phase'])
  {
    PlaySnoc(st, [p], schedule, 0);
  }

  lemma AdvancedIsCarried(st: Stores, p: Plan)
    ensures var (s1, f1) := Advance(p, st, Patching);
            var (s2, f2) := Advance(p, s1, f1);
            var (s3, f3) := Advance(p, s2, f2);
            Advance(p, s3, f3).0 == Final(Carried(st, p, FINE))
  {
    PutIsAllOrNothing(st.secret, p.puts, [], SMOOTH);
    var secret := PutResult(st.secret, p.puts, [], SMOOTH).0;
    PutIsAllOrNothing(secret, map[], p.remove, SMOOTH);
    SavedSecret(st, p, FINE);
  }

  lemma PlaySnoc(st: Stores, ps: seq<Plan>, schedule: seq<nat>, i: nat)
    ensures Play(st, ps, schedule + [i]) == Step(ps, Play(st, ps, schedule), i)
  {
    assert Init(schedule + [i]) == schedule;
  }

  // ---- When every interleaving keeps the promise ----

  ghost predicate AllFollow(ps: seq<Plan>, app: App) {
    forall i :: 0 <= i < |ps| ==> Follows(ps[i], app)
  }

  /** The second request removes nothing the first one names. */
  ghost predicate Spares(p: Plan, r: Plan) {
    Keys(r.remove) !! Keys(p.app.userSecrets)
  }

  /** Should the second request create the Secret, it holds all the first one sets. */
  ghost predicate Provides(p: Plan, r: Plan) {
    r.puts != map[] ==> p.puts.Keys <= r.puts.Keys
  }

  ghost predicate AllSpare(ps: seq<Plan>) {
    forall i, j :: 0 <= i < |ps| && 0 <= j < |ps| && i != j ==> Spares(ps[i], ps[j])
  }

  ghost predicate AllProvide(ps: seq<Plan>) {
    forall i, j :: 0 <= i < |ps| && 0 <= j < |ps| ==> Provides(ps[i], ps[j])
  }

  /** No request removes a name another one keeps, and a Secret still to be created holds the same keys whoever creates it. */
  ghost predicate Compatible(st: Stores, ps: seq<Plan>) {
    AllSpare(ps) && (st.secret.None? ==> AllProvide(ps))
  }

  lemma HeldWhenWritten(secret: Option<Data>, puts: Data, remove: seq<string>)
    ensures secret.Some? ==> Held(Written(secret, puts, remove)) == Held(secret) + puts.Keys - Keys(remove)
    ensures secret.Some? ==> Written(secret, puts, remove).Some?
    ensures Keys([]) == {}
  {}

  // ---- Compatible requests keep it ----

  /** A request's names stay held, less what it has still to put. */
  ghost predicate Kept(p: Plan, phase: Phase, held: set<string>) {
    Keys(p.app.userSecrets) - (if phase.Patching? || phase.Creating? then p.puts.Keys else {}) <= held
  }

  predicate HasCommitted(phase: Phase) {
    phase.Removing? || phase.Finished?
  }

  ghost predicate NamesOfOne(ps: seq<Plan>, w: World, i: nat) {
    i < |ps| == |w.phases| && HasCommitted(w.phases[i]) && Keys(w.stores.app.userSecrets) == Keys(ps[i].app.userSecrets)
  }

  /** Git names what it named at the start, or what some request committed. */
  ghost predicate NamesOfSome(st: Stores, ps: seq<Plan>, w: World) {
    || (w.stores.app == st.app && forall i :: 0 <= i < |w.phases| ==> !HasCommitted(w.phases[i]))
    || exists i :: NamesOfOne(ps, w, i)
  }

  ghost predicate Inv(st: Stores, ps: seq<Plan>, w: World) {
    && |w.phases| == |ps| && NamesAreHeld(w.stores) && NamesOfSome(st, ps, w)
    && (forall i :: 0 <= i < |ps| ==> Kept(ps[i], w.phases[i], Held(w.stores.secret)))
    && (st.secret.Some? ==> w.stores.secret.Some?)
    && (forall i :: 0 <= i < |ps| && w.phases[i].Creating? ==> st.secret.None? && ps[i].puts != map[])
    && (st.secret.None? && w.stores.secret.Some? ==> forall i :: 0 <= i < |ps| ==> Keys(ps[i].app.userSecrets) <= Held(w.stores.secret))
  }

  /** What one request's step does to the Secret, for any other request. */
  lemma StepHolds(st: Stores, ps: seq<Plan>, w: World, i: nat)
    requires NamesAreHeld(st) && AllFollow(ps, st.app) && Compatible(st, ps) && Inv(st, ps, w) && i < |ps|
    ensures var (st', phase) := Advance(ps[i], w.stores, w.phases[i]);
            && Held(w.stores.secret) - Keys(ps[i].remove) <= Held(st'.secret)
            && (w.stores.secret.Some? ==> st'.secret.Some?)
            && Kept(ps[i], phase, Held(st'.secret))
            && (st'.app == w.stores.app || Keys(st'.app.userSecrets) == Keys(ps[i].app.userSecrets))
            && (st.secret.None? ==> ps[i].remove == [])
  {
    var p := ps[i];
    assert Follows(p, st.app) && Kept(p, w.phases[i], Held(w.stores.secret));
    HeldWhenWritten(w.stores.secret, p.puts, []);
    HeldWhenWritten(w.stores.secret, map[], p.remove);
    assert p.remove != [] ==> p.remove[0] in Keys(p.remove);
  }

  lemma OthersKeep(st: Stores, ps: seq<Plan>, w: World, i: nat, j: nat)
    requires NamesAreHeld(st) && AllFollow(ps, st.app) && Compatible(st, ps) && Inv(st, ps, w) && i < |ps| && j < |ps| && i != j
    ensures Kept(ps[j], w.phases[j], Held(Advance(ps[i], w.stores, w.phases[i]).0.secret))
  {
    StepHolds(st, ps, w, i);
    assert Kept(ps[j], w.phases[j], Held(w.stores.secret));
    assert Spares(ps[j], ps[i]);
  }

  /** A Secret that did not exist, once created, holds every name any request commits. */
  lemma CreatedHoldsAll(st: Stores, ps: seq<Plan>, w: World, i: nat, j: nat)
    requires NamesAreHeld(st) && AllFollow(ps, st.app) && Compatible(st, ps) && Inv(st, ps, w) && i < |ps| && j < |ps|
    requires st.secret.None? && Advance(ps[i], w.stores, w.phases[i]).0.secret.Some?
    ensures Keys(ps[j].app.userSecrets) <= Held(Advance(ps[i], w.stores, w.phases[i]).0.secret)
  {
    StepHolds(st, ps, w, i);
    assert Follows(ps[j], st.app) && Provides(ps[j], ps[i]);
    assert Keys(ps[i].remove) == {} by {
      HeldWhenWritten(None, map[], []);
    }
    if w.stores.secret.Some? {
      assert Keys(ps[j].app.userSecrets) <= Held(w.stores.secret);
    } else {
      assert w.phases[i].Creating?;
      assert Keys(st.app.userSecrets) == {};
    }
  }

  lemma StepKeepsCommitter(st: Stores, ps: seq<Plan>, w: World, i: nat)
    requires |w.phases| == |ps| && i < |ps| && NamesOfSome(st, ps, w)
    ensures NamesOfSome(st, ps, Step(ps, w, i))
  {
    var w' := Step(ps, w, i);
    assert forall j :: 0 <= j < |ps| && j != i ==> w'.phases[j] == w.phases[j];
    if w.phases[i].Committing? {
      assert NamesOfOne(ps, w', i);
    } else if k: nat :| NamesOfOne(ps, w, k) {
      assert NamesOfOne(ps, w', k);
    }
  }

  /** The names in git survive a step: before any commit nothing is removed, and afterwards no request removes another's. */
  lemma StepKeepsNames(st: Stores, ps: seq<Plan>, w: World, i: nat)
    requires NamesAreHeld(st) && AllFollow(ps, st.app) && Compatible(st, ps) && Inv(st, ps, w) && i < |ps|
    ensures NamesAreHeld(Step(ps, w, i).stores)
  {
    StepHolds(st, ps, w, i);
    if w.phases[i].Removing? {
      HeldWhenWritten(w.stores.secret, map[], ps[i].remove);
      var k: nat :| NamesOfOne(ps, w, k);
      assert Follows(ps[i], st.app) && (k != i ==> Spares(ps[k], ps[i]));
    } else {
      assert Kept(ps[i], w.phases[i], Held(w.stores.secret));
      HeldWhenWritten(w.stores.secret, ps[i].puts, []);
    }
  }

  lemma StepKeepsInv(st: Stores, ps: seq<Plan>, w: World, i: nat)
    requires NamesAreHeld(st) && AllFollow(ps, st.app) && Compatible(st, ps) && Inv(st, ps, w)
    ensures Inv(st, ps, Step(ps, w, i))
  {
    if i < |ps| {
      var w' := Step(ps, w, i);
      StepHolds(st, ps, w, i);
      forall j | 0 <= j < |ps| ensures Kept(ps[j], w'.phases[j], Held(w'.stores.secret)) {
        if j != i {
          OthersKeep(st, ps, w, i, j);
        }
      }
      if st.secret.None? && w'.stores.secret.Some? {
        forall j | 0 <= j < |ps| ensures Keys(ps[j].app.userSecrets) <= Held(w'.stores.secret) {
          CreatedHoldsAll(st, ps, w, i, j);
        }
      }
      StepKeepsNames(st, ps, w, i);
      StepKeepsCommitter(st, ps, w, i);
    }
  }

  lemma {:induction false} PlayKeepsInv(st: Stores, ps: seq<Plan>, schedule: seq<nat>)
    requires NamesAreHeld(st) && AllFollow(ps, st.app) && Compatible(st, ps)
    ensures Inv(st, ps, Play(st, ps, schedule))
  {
    if schedule == [] {
      assert forall i :: 0 <= i < |ps| ==> Follows(ps[i], st.app);
    } else {
      PlayKeepsInv(st, ps, Init(schedule));
      StepKeepsInv(st, ps, Play(st, ps, Init(schedule)), Last(schedule));
    }
  }

  // ---- Incompatible requests break it ----

  ghost predicate EveryPlayHolds(st: Stores, ps: seq<Plan>) {
    forall schedule :: NamesAreHeld(Play(st, ps, schedule).stores)
  }

  /** The first puts and commits, the second puts and commits, the first removes. */
  lemma RemovalBreaks(st: Stores, ps: seq<Plan>, i: nat, j: nat)
    requires NamesAreHeld(st) && AllFollow(ps, st.app) && i < |ps| && j < |ps| && i != j && !Spares(ps[j], ps[i])
    ensures !NamesAreHeld(Play(st, ps, [i, i, j, j, i]).stores)
  {
    assert Follows(ps[i], st.app) && Follows(ps[j], st.app);
    var k :| k in Keys(ps[i].remove) && k in Keys(ps[j].app.userSecrets);
    assert k in Held(st.secret) && ps[i].remove != [];
    PlayFive(st, ps, i, i, j, j, i);
    var w0 := Begin(st, |ps|);
    var w2 := Step(ps, Step(ps, w0, i), i);
    assert w2.phases[i] == Removing && w2.phases[j] == Patching && w2.stores.secret.Some?;
    var w4 := Step(ps, Step(ps, w2, j), j);
    assert w4.phases[i] == Removing && w4.stores.app.userSecrets == ps[j].app.userSecrets;
    assert w4.stores.secret.Some?;
    HeldWhenWritten(w4.stores.secret, map[], ps[i].remove);
  }

  lemma PlayFive(st: Stores, ps: seq<Plan>, a: nat, b: nat, c: nat, d: nat, e: nat)
    ensures Play(st, ps, [a, b, c, d, e]) == Step(ps, Step(ps, Step(ps, Step(ps, Step(ps, Begin(st, |ps|), a), b), c), d), e)
  {
    assert [] + [a] == [a] && [a] + [b] == [a, b] && [a, b] + [c] == [a, b, c];
    assert [a, b, c] + [d] == [a, b, c, d] && [a, b, c, d] + [e] == [a, b, c, d, e];
    PlaySnoc(st, ps, [], a);
    PlaySnoc(st, ps, [a], b);
    PlaySnoc(st, ps, [a, b], c);
    PlaySnoc(st, ps, [a, b, c], d);
    PlaySnoc(st, ps, [a, b, c, d], e);
  }

  /** Both patch and find no Secret, the first creates it, the second's create is lost, the second commits. */
  lemma LostCreateBreaks(st: Stores, ps: seq<Plan>, i: nat, j: nat)
    requires st.secret.None? && AllFollow(ps, st.app) && i < |ps| && j < |ps| && !Provides(ps[j], ps[i])
    ensures !NamesAreHeld(Play(st, ps, [i, j, i, j, j]).stores)
  {
    assert Follows(ps[j], st.app);
    var k :| k in ps[j].puts.Keys && k !in ps[i].puts.Keys;
    assert k in Keys(ps[j].app.userSecrets) && i != j;
    PlayFive(st, ps, i, j, i, j, j);
    var w2 := Step(ps, Step(ps, Begin(st, |ps|), i), j);
    assert w2.phases[i] == Creating && w2.phases[j] == Creating && w2.stores.secret.None?;
    var w4 := Step(ps, Step(ps, w2, i), j);
    assert w4.stores.secret == Some(ps[i].puts) && w4.phases[j] == Committing;
  }

  /**
   Requests planned from one commit keep git from naming a key the Secret lacks,
   at every moment of every interleaving, however many of them stop wherever they
   may, if and only if they are compatible.
   */
  lemma HoldsIffCompatible(st: Stores, ps: seq<Plan>)
    requires NamesAreHeld(st) && AllFollow(ps, st.app)
    ensures EveryPlayHolds(st, ps) <==> Compatible(st, ps)
  {
    if Compatible(st, ps) {
      forall schedule ensures NamesAreHeld(Play(st, ps, schedule).stores) {
        PlayKeepsInv(st, ps, schedule);
      }
    } else if !AllSpare(ps) {
      SomeRemovalBreaks(st, ps);
    } else {
      SomeLostCreateBreaks(st, ps);
    }
  }

  lemma SomeRemovalBreaks(st: Stores, ps: seq<Plan>)
    requires NamesAreHeld(st) && AllFollow(ps, st.app) && !AllSpare(ps)
    ensures !EveryPlayHolds(st, ps)
  {
    var i: nat, j: nat :| i < |ps| && j < |ps| && i != j && !Spares(ps[i], ps[j]);
    RemovalBreaks(st, ps, j, i);
  }

  lemma SomeLostCreateBreaks(st: Stores, ps: seq<Plan>)
    requires st.secret.None? && AllFollow(ps, st.app) && !AllProvide(ps)
    ensures !EveryPlayHolds(st, ps)
  {
    var i: nat, j: nat :| i < |ps| && j < |ps| && !Provides(ps[i], ps[j]);
    LostCreateBreaks(st, ps, j, i);
  }

  /** The same of the requests themselves. */
  lemma RequestsHoldIffCompatible(q: Quantities, st: Stores, reqs: seq<Request>, ps: seq<Plan>)
    requires NamesAreHeld(st) && |reqs| == |ps|
    requires forall i :: 0 <= i < |reqs| ==> Planned(q, reqs[i], st.app) == Ok(ps[i])
    ensures EveryPlayHolds(st, ps) <==> Compatible(st, ps)
  {
    forall i | 0 <= i < |ps| ensures Follows(ps[i], st.app) {
      assert Planned(q, reqs[i], st.app) == Ok(ps[i]);
      PlanFollows(q, reqs[i], st.app);
    }
    HoldsIffCompatible(st, ps);
  }

  /**
   Two PUTs planned from one commit, one leaving K out and one setting it anew:
   each meets the condition of a plan carried out whole on the stores it starts
   from, and yet the first one's removal comes after the second one's commit, and
   git names a key that is gone.
   */
  lemma RivalRemovalBreaks(q: Quantities, was: string, now: string)
    requires now != ""
    ensures var st := Stores(Shop([], ["K"]), Some(map["K" := was]));
            var omit := Planned(q, Asking([]), st.app);
            var renew := Planned(q, Asking([Row("K", Some(now), true, false, true, None)]), st.app);
            && omit.Ok? && renew.Ok?
            && Keys(omit.value.app.userSecrets) == {} && "K" in renew.value.puts
            && !NamesAreHeld(Play(st, [omit.value, renew.value], [0, 0, 1, 1, 0]).stores)
  {
    var st := Stores(Shop([], ["K"]), Some(map["K" := was]));
    var v := Row("K", Some(now), true, false, true, None);
    Text.TrimKeeps("K");
    OneRow(q, v, ["K"]);
    assert Dropped(["K"], {}) == ["K"] by {
      assert Init(["K"]) == [] && Last(["K"]) == "K";
    }
    var omit, renew := Planned(q, Asking([]), st.app).value, Planned(q, Asking([v]), st.app).value;
    assert omit == Plan(Shop([], []), map[], ["K"]);
    assert ["K"][0] in Keys(["K"]) && Keys([]) == {} && renew.app.userSecrets == ["K"];
    PlanFollows(q, Asking([]), st.app);
    PlanFollows(q, Asking([v]), st.app);
    var ps := [omit, renew];
    assert !Spares(ps[1], ps[0]) by {
      assert "K" in Keys(omit.remove) && "K" in Keys(renew.app.userSecrets);
    }
    RemovalBreaks(st, ps, 0, 1);
  }
}
