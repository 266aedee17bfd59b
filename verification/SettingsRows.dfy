/**
 Which settings PUTs may be sent at the same time, told by their own rows: the
 condition of SettingsReads without the commits, and for requests that are
 accepted anywhere a comparison of two requests at a time.
 */
module SettingsRows {
  import opened Common
  import opened Text
  import opened SettingsPlan
  import opened SettingsStores
  import SettingsInterleavings
  import opened SettingsReads

  // ---- What a request lists ----

  /** The variables a request speaks of. */
  function Listed(rows: seq<Row>): set<string> {
    if rows == [] then {} else Listed(Init(rows)) + {TrimSpace(Last(rows).key)}
  }

  /** Those it lists as secrets. */
  function Named(rows: seq<Row>): set<string> {
    if rows == [] then {} else Named(Init(rows)) + if Last(rows).secret then {TrimSpace(Last(rows).key)} else {}
  }

  /** The secrets it gives no value, because they have one. */
  function Unvalued(rows: seq<Row>): set<string> {
    if rows == [] then {}
    else Unvalued(Init(rows)) + if Last(rows).secret && Last(rows).value.None? then {TrimSpace(Last(rows).key)} else {}
  }

  /** The secrets it gives a value. */
  function Valued(rows: seq<Row>): set<string> {
    if rows == [] then {}
    else Valued(Init(rows)) + if Last(rows).secret && Last(rows).value.Some? then {TrimSpace(Last(rows).key)} else {}
  }

  /** Nothing is wrong with the rows themselves, and no variable is listed twice. */
  predicate WellListed(rows: seq<Row>) {
    rows == [] || (WellListed(Init(rows)) && RowFault(Last(rows)).None? && TrimSpace(Last(rows).key) !in Listed(Init(rows)))
  }

  /** Rows are accepted exactly when they are in order and every secret without a value is one set before. */
  lemma {:induction false} DraftedIff(rows: seq<Row>, was: seq<string>)
    ensures Drafted(rows, was).Ok? <==> WellListed(rows) && Unvalued(rows) <= Keys(was)
    ensures Drafted(rows, was).Ok? ==>
              var d := Drafted(rows, was).value;
              d.seen == Listed(rows) && Keys(d.userSecrets) == Named(rows) && d.puts.Keys == Valued(rows)
  {
    if rows != [] {
      DraftedIff(Init(rows), was);
      if Drafted(Init(rows), was).Ok? {
        RowDraftedIff(Drafted(Init(rows), was).value, Last(rows), was);
      }
    }
  }

  lemma RowDraftedIff(d: Draft, v: Row, was: seq<string>)
    ensures Refusal(v, d.seen, was).None?
       <==> RowFault(v).None? && TrimSpace(v.key) !in d.seen && (v.secret && v.value.None? ==> TrimSpace(v.key) in Keys(was))
    ensures Refusal(v, d.seen, was).None? ==>
              var d', k := Added(d, v), TrimSpace(v.key);
              && d'.seen == d.seen + {k}
              && Keys(d'.userSecrets) == Keys(d.userSecrets) + (if v.secret then {k} else {})
              && d'.puts.Keys == d.puts.Keys + if v.secret && v.value.Some? then {k} else {}
  {
    KeysSnoc(d.userSecrets, TrimSpace(v.key));
    assert TrimSpace(v.key) in was <==> TrimSpace(v.key) in Keys(was);
  }

  lemma {:induction false} NamedAreListed(rows: seq<Row>)
    ensures Named(rows) <= Listed(rows) && Named(rows) == Valued(rows) + Unvalued(rows)
  {
    if rows != [] {
      NamedAreListed(Init(rows));
    }
  }

  // ---- What a request asks of a commit ----

  /** All of a commit that decides whether a request is accepted there. */
  datatype Fields = Fields(names: set<string>, resources: Resources)

  function FieldsOf(app: App): Fields {
    Fields(Keys(app.userSecrets), app.resources)
  }

  /** What those fields are after a request, if it is accepted. */
  function Taken(q: Quantities, req: Request, f: Fields): Option<Fields> {
    if |req.env| > MAX_SETTINGS_ENV || !WellListed(req.env) || !(Unvalued(req.env) <= f.names) || PlannedHealth(req.health).Err? then None
    else
      match PlannedResources(q, req.resources, f.resources)
      case Err(_) => None
      case Ok(resources) => Some(Fields(Named(req.env), resources))
  }

  lemma AcceptedIffTaken(q: Quantities, reqs: seq<Request>, r: nat, app: App)
    requires r < |reqs| && app.image != ""
    ensures Accepted(q, reqs, r, app).Some? <==> Taken(q, reqs[r], FieldsOf(app)).Some?
    ensures Accepted(q, reqs, r, app).Some? ==>
              var p := Accepted(q, reqs, r, app).value;
              && Some(FieldsOf(p.app)) == Taken(q, reqs[r], FieldsOf(app)) && p.app.image == app.image
              && p.puts.Keys == Valued(reqs[r].env)
              && Keys(p.remove) == Keys(app.userSecrets) - Listed(reqs[r].env)
  {
    var req := reqs[r];
    DraftedIff(req.env, app.userSecrets);
    if Drafted(req.env, app.userSecrets).Ok? {
      DroppedKeys(app.userSecrets, Drafted(req.env, app.userSecrets).value.seen);
    }
  }

  /** The fields after some requests, each sent after the one before, if all are accepted. */
  function Sent(q: Quantities, reqs: seq<Request>, f: Fields, chain: seq<nat>): Option<Fields> {
    if chain == [] then Some(f)
    else
      var before := Sent(q, reqs, f, Init(chain));
      if before.None? || Last(chain) >= |reqs| then None else Taken(q, reqs[Last(chain)], before.value)
  }

  /** And no secret is named all the while. */
  predicate QuietlySent(q: Quantities, reqs: seq<Request>, f: Fields, chain: seq<nat>) {
    && Sent(q, reqs, f, chain).Some? && Sent(q, reqs, f, chain).value.names == {}
    && (chain != [] ==> QuietlySent(q, reqs, f, Init(chain)))
  }

  lemma {:induction false} ChainedIffSent(q: Quantities, reqs: seq<Request>, app: App, chain: seq<nat>)
    requires app.image != ""
    ensures Chained(q, reqs, app, chain).Some? <==> Sent(q, reqs, FieldsOf(app), chain).Some?
    ensures Chained(q, reqs, app, chain).Some? ==>
              && Chained(q, reqs, app, chain).value.image == app.image
              && Sent(q, reqs, FieldsOf(app), chain) == Some(FieldsOf(Chained(q, reqs, app, chain).value))
  {
    if chain != [] {
      ChainedIffSent(q, reqs, app, Init(chain));
      var before := Chained(q, reqs, app, Init(chain));
      if before.Some? && Last(chain) < |reqs| {
        AcceptedIffTaken(q, reqs, Last(chain), before.value);
      }
    }
  }

  lemma {:induction false} QuietIffSent(q: Quantities, reqs: seq<Request>, app: App, chain: seq<nat>)
    requires app.image != ""
    ensures Quiet(q, reqs, app, chain) <==> QuietlySent(q, reqs, FieldsOf(app), chain)
  {
    ChainedIffSent(q, reqs, app, chain);
    if Chained(q, reqs, app, chain).Some? {
      NoKeys(Chained(q, reqs, app, chain).value.userSecrets);
    }
    if chain != [] {
      QuietIffSent(q, reqs, app, Init(chain));
    }
  }

  // ---- The condition ----

  /** Some order of requests leaves these fields, the last of them this one. */
  ghost predicate Leaves(q: Quantities, reqs: seq<Request>, f: Fields, g: Fields) {
    exists chain :: chain != [] && Sent(q, reqs, f, chain) == Some(g)
  }

  ghost predicate IsTaken(q: Quantities, reqs: seq<Request>, f: Fields, r: nat) {
    r < |reqs| && Taken(q, reqs[r], f).Some?
  }

  predicate Lists(req: Request, names: set<string>) {
    names <= Listed(req.env)
  }

  /**
   A request that may follow another lists every secret that one names, and one that may
   come first lists those of the start that any of them names.
   */
  ghost predicate RowsSpare(q: Quantities, reqs: seq<Request>, f: Fields) {
    && (forall g, r: nat :: Leaves(q, reqs, f, g) && IsTaken(q, reqs, g, r) ==> Lists(reqs[r], g.names))
    && (forall g, r: nat :: Leaves(q, reqs, f, g) && IsTaken(q, reqs, f, r) ==> Lists(reqs[r], f.names * g.names))
  }

  /** A request that may be sent while no secret was named yet. */
  ghost predicate MayComeEarly(q: Quantities, reqs: seq<Request>, f: Fields, r: nat) {
    r < |reqs| && exists chain :: QuietlySent(q, reqs, f, chain) && IsTaken(q, reqs, Sent(q, reqs, f, chain).value, r)
  }

  ghost predicate NamesNoneOrAll(r: Request, s: Request) {
    Named(r.env) == {} || Named(s.env) <= Named(r.env)
  }

  /** Of those, all that name any secret name the same. */
  ghost predicate RowsProvide(q: Quantities, reqs: seq<Request>, f: Fields) {
    forall r: nat, s: nat :: MayComeEarly(q, reqs, f, r) && MayComeEarly(q, reqs, f, s) ==> NamesNoneOrAll(reqs[r], reqs[s])
  }

  ghost predicate RowsFit(q: Quantities, reqs: seq<Request>, st: Stores) {
    st.app.image != "" ==>
      RowsSpare(q, reqs, FieldsOf(st.app)) && (st.secret.None? ==> RowsProvide(q, reqs, FieldsOf(st.app)))
  }

  lemma CommittableIffLeaves(q: Quantities, reqs: seq<Request>, app: App, b: App)
    requires app.image != "" && Committable(q, reqs, app, b)
    ensures Leaves(q, reqs, FieldsOf(app), FieldsOf(b)) && b.image == app.image
  {
    var chain :| chain != [] && Chained(q, reqs, app, chain) == Some(b);
    ChainedIffSent(q, reqs, app, chain);
  }

  lemma LeftByACommit(q: Quantities, reqs: seq<Request>, app: App, g: Fields) returns (b: App)
    requires app.image != "" && Leaves(q, reqs, FieldsOf(app), g)
    ensures Committable(q, reqs, app, b) && Reachable(q, reqs, app, b) && FieldsOf(b) == g && b.image == app.image
  {
    var chain :| chain != [] && Sent(q, reqs, FieldsOf(app), chain) == Some(g);
    ChainedIffSent(q, reqs, app, chain);
    b := Chained(q, reqs, app, chain).value;
  }

  lemma SparingRowsSpare(q: Quantities, reqs: seq<Request>, app: App)
    requires app.image != "" && SparesAll(q, reqs, app)
    ensures RowsSpare(q, reqs, FieldsOf(app))
  {
    var f := FieldsOf(app);
    forall g, r: nat | Leaves(q, reqs, f, g) && IsTaken(q, reqs, g, r) ensures Lists(reqs[r], g.names) {
      var b := LeftByACommit(q, reqs, app, g);
      AcceptedIffTaken(q, reqs, r, b);
    }
    forall g, r: nat | Leaves(q, reqs, f, g) && IsTaken(q, reqs, f, r) ensures Lists(reqs[r], f.names * g.names) {
      var b := LeftByACommit(q, reqs, app, g);
      AcceptedIffTaken(q, reqs, r, app);
      var none: seq<nat> := [];
      assert Chained(q, reqs, app, none) == Some(app);
    }
  }

  lemma RowsSpareSpares(q: Quantities, reqs: seq<Request>, app: App)
    requires app.image != "" && RowsSpare(q, reqs, FieldsOf(app))
    ensures SparesAll(q, reqs, app)
  {
    forall a, b, r | Reachable(q, reqs, app, a) && Committable(q, reqs, app, b) && Accepted(q, reqs, r, a).Some?
      ensures Keys(Accepted(q, reqs, r, a).value.remove) !! Keys(b.userSecrets)
    {
      CommittableIffLeaves(q, reqs, app, b);
      var chain :| Chained(q, reqs, app, chain) == Some(a);
      if chain == [] {
        AcceptedIffTaken(q, reqs, r, app);
        assert IsTaken(q, reqs, FieldsOf(app), r);
      } else {
        assert Committable(q, reqs, app, a);
        CommittableIffLeaves(q, reqs, app, a);
        AcceptedIffTaken(q, reqs, r, a);
        assert IsTaken(q, reqs, FieldsOf(a), r);
      }
    }
  }

  /** The plans of requests sent early, by their rows. */
  lemma EarlyIffRows(q: Quantities, reqs: seq<Request>, app: App, p: Plan) returns (r: nat)
    requires app.image != "" && Early(q, reqs, app, p)
    ensures MayComeEarly(q, reqs, FieldsOf(app), r) && p.puts.Keys == Named(reqs[r].env)
  {
    var a;
    a, r :| QuietlyReachable(q, reqs, app, a) && Accepted(q, reqs, r, a) == Some(p);
    var chain :| Quiet(q, reqs, app, chain) && Chained(q, reqs, app, chain) == Some(a);
    QuietIffSent(q, reqs, app, chain);
    ChainedIffSent(q, reqs, app, chain);
    AcceptedIffTaken(q, reqs, r, a);
    NamedAreListed(reqs[r].env);
    NoKeys(a.userSecrets);
    assert IsTaken(q, reqs, Sent(q, reqs, FieldsOf(app), chain).value, r);
  }

  lemma EarlyPlan(q: Quantities, reqs: seq<Request>, app: App, r: nat) returns (p: Plan)
    requires app.image != "" && MayComeEarly(q, reqs, FieldsOf(app), r)
    ensures Early(q, reqs, app, p) && p.puts.Keys == Named(reqs[r].env)
  {
    var chain :| QuietlySent(q, reqs, FieldsOf(app), chain) && IsTaken(q, reqs, Sent(q, reqs, FieldsOf(app), chain).value, r);
    QuietIffSent(q, reqs, app, chain);
    ChainedIffSent(q, reqs, app, chain);
    var a := Chained(q, reqs, app, chain).value;
    AcceptedIffTaken(q, reqs, r, a);
    NamedAreListed(reqs[r].env);
    p := Accepted(q, reqs, r, a).value;
    assert QuietlyReachable(q, reqs, app, a);
  }

  lemma ProvidesIffRows(q: Quantities, reqs: seq<Request>, app: App)
    requires app.image != ""
    ensures ProvidesAll(q, reqs, app) <==> RowsProvide(q, reqs, FieldsOf(app))
  {
    if ProvidesAll(q, reqs, app) {
      forall r: nat, s: nat | MayComeEarly(q, reqs, FieldsOf(app), r) && MayComeEarly(q, reqs, FieldsOf(app), s)
        ensures NamesNoneOrAll(reqs[r], reqs[s])
      {
        var p := EarlyPlan(q, reqs, app, r);
        var p' := EarlyPlan(q, reqs, app, s);
        assert SettingsInterleavings.Provides(p', p);
      }
    }
    if RowsProvide(q, reqs, FieldsOf(app)) {
      forall p, p' | Early(q, reqs, app, p) && Early(q, reqs, app, p') ensures SettingsInterleavings.Provides(p, p') {
        var r := EarlyIffRows(q, reqs, app, p);
        var s := EarlyIffRows(q, reqs, app, p');
        assert NamesNoneOrAll(reqs[s], reqs[r]);
      }
    }
  }

  lemma NothingIsAccepted(q: Quantities, reqs: seq<Request>, app: App)
    requires app.image == ""
    ensures SparesAll(q, reqs, app) && ProvidesAll(q, reqs, app)
  {
    forall a | Reachable(q, reqs, app, a) ensures a == app {
      var chain :| Chained(q, reqs, app, chain) == Some(a);
      NoChain(q, reqs, app, chain);
    }
    forall a | QuietlyReachable(q, reqs, app, a) ensures a == app {
      var chain :| Quiet(q, reqs, app, chain) && Chained(q, reqs, app, chain) == Some(a);
      NoChain(q, reqs, app, chain);
    }
  }

  lemma {:induction false} NoChain(q: Quantities, reqs: seq<Request>, app: App, chain: seq<nat>)
    requires app.image == ""
    ensures chain != [] ==> Chained(q, reqs, app, chain).None?
    ensures Chained(q, reqs, app, chain).Some? ==> Chained(q, reqs, app, chain).value == app
  {
    if chain != [] {
      NoChain(q, reqs, app, Init(chain));
    }
  }

  /**
   Requests read at any moment, any number of times, keep git from naming a key the
   Secret lacks, if and only if their rows fit: whichever of them come first, one that
   may follow another lists, as a secret or not, all that one names as secrets; one
   accepted at the start lists what any of them names of the start's; and, with no
   Secret yet, those that name secrets from nothing name the same.
   */
  lemma HoldsIffRowsFit(q: Quantities, reqs: seq<Request>, st: Stores)
    requires NamesAreHeld(st)
    ensures AlwaysHeld(q, reqs, st) <==> RowsFit(q, reqs, st)
  {
    HoldsIffFit(q, reqs, st);
    if st.app.image == "" {
      NothingIsAccepted(q, reqs, st.app);
    } else {
      ProvidesIffRows(q, reqs, st.app);
      if SparesAll(q, reqs, st.app) {
        SparingRowsSpare(q, reqs, st.app);
      }
      if RowsSpare(q, reqs, FieldsOf(st.app)) {
        RowsSpareSpares(q, reqs, st.app);
      }
    }
  }

  // ---- Two requests at a time ----

  /** Every request lists every secret any of them names. */
  ghost predicate EachListsAll(reqs: seq<Request>) {
    forall r, s :: 0 <= r < |reqs| && 0 <= s < |reqs| ==> Lists(reqs[r], Named(reqs[s].env))
  }

  /** Of the requests that keep no secret, all that name any name the same. */
  ghost predicate SettersAgree(reqs: seq<Request>) {
    forall r, s :: 0 <= r < |reqs| && 0 <= s < |reqs| && Unvalued(reqs[r].env) == {} == Unvalued(reqs[s].env)
                   ==> NamesNoneOrAll(reqs[r], reqs[s])
  }

  lemma LastIsNamed(q: Quantities, reqs: seq<Request>, f: Fields, g: Fields) returns (s: nat)
    requires Leaves(q, reqs, f, g)
    ensures s < |reqs| && g.names == Named(reqs[s].env)
  {
    var chain :| chain != [] && Sent(q, reqs, f, chain) == Some(g);
    s := Last(chain);
  }

  lemma ListingSpares(q: Quantities, reqs: seq<Request>, f: Fields)
    requires EachListsAll(reqs)
    ensures RowsSpare(q, reqs, f)
  {
    forall g, r: nat | Leaves(q, reqs, f, g) && r < |reqs| ensures Lists(reqs[r], g.names) {
      LeftIsListed(q, reqs, f, g, r);
    }
    forall g, r: nat | Leaves(q, reqs, f, g) && r < |reqs| ensures Lists(reqs[r], f.names * g.names) {
      LeftIsListed(q, reqs, f, g, r);
    }
  }

  lemma LeftIsListed(q: Quantities, reqs: seq<Request>, f: Fields, g: Fields, r: nat)
    requires EachListsAll(reqs) && Leaves(q, reqs, f, g) && r < |reqs|
    ensures Lists(reqs[r], g.names) && Lists(reqs[r], f.names * g.names)
  {
    var s := LastIsNamed(q, reqs, f, g);
    assert Lists(reqs[r], Named(reqs[s].env));
  }

  /** Rows that agree are enough, whatever else the requests hold and wherever they are accepted. */
  lemma AgreeingRowsAreEnough(q: Quantities, reqs: seq<Request>, st: Stores)
    requires NamesAreHeld(st) && EachListsAll(reqs) && (st.secret.None? ==> SettersAgree(reqs))
    ensures AlwaysHeld(q, reqs, st)
  {
    HoldsIffRowsFit(q, reqs, st);
    ListingSpares(q, reqs, FieldsOf(st.app));
    if st.secret.None? {
      AgreeingProvides(q, reqs, FieldsOf(st.app));
    }
  }

  lemma AgreeingProvides(q: Quantities, reqs: seq<Request>, f: Fields)
    requires SettersAgree(reqs)
    ensures RowsProvide(q, reqs, f)
  {
    forall r: nat, s: nat | MayComeEarly(q, reqs, f, r) && MayComeEarly(q, reqs, f, s) ensures NamesNoneOrAll(reqs[r], reqs[s]) {
      EarlyKeepsNothing(q, reqs, f, r);
      EarlyKeepsNothing(q, reqs, f, s);
    }
  }

  lemma EarlyKeepsNothing(q: Quantities, reqs: seq<Request>, f: Fields, r: nat)
    requires MayComeEarly(q, reqs, f, r)
    ensures r < |reqs| && Unvalued(reqs[r].env) == {}
  {
    var chain :| QuietlySent(q, reqs, f, chain) && IsTaken(q, reqs, Sent(q, reqs, f, chain).value, r);
  }

  /** Accepted at every commit: the rows in order, a value for every secret, and quantities no commit's can spoil. */
  ghost predicate TakenAnywhere(q: Quantities, req: Request) {
    forall f :: Taken(q, req, f).Some?
  }

  lemma SentAlone(q: Quantities, reqs: seq<Request>, f: Fields, r: nat)
    requires r < |reqs| && TakenAnywhere(q, reqs[r])
    ensures Taken(q, reqs[r], f).Some? && Leaves(q, reqs, f, Taken(q, reqs[r], f).value)
  {
    var chain: seq<nat> := [r];
    assert Init(chain) == [] && Last(chain) == r;
    assert Sent(q, reqs, f, Init(chain)) == Some(f);
    assert Sent(q, reqs, f, chain) == Taken(q, reqs[r], f);
  }

  lemma SpareListsAll(q: Quantities, reqs: seq<Request>, f: Fields)
    requires RowsSpare(q, reqs, f) && forall i :: 0 <= i < |reqs| ==> TakenAnywhere(q, reqs[i])
    ensures EachListsAll(reqs)
  {
    forall r, s | 0 <= r < |reqs| && 0 <= s < |reqs| ensures Lists(reqs[r], Named(reqs[s].env)) {
      SentAlone(q, reqs, f, s);
      var g := Taken(q, reqs[s], f).value;
      assert TakenAnywhere(q, reqs[r]);
      assert IsTaken(q, reqs, g, r);
    }
  }

  lemma ProvideAgrees(q: Quantities, reqs: seq<Request>, f: Fields)
    requires RowsProvide(q, reqs, f) && f.names == {} && forall i :: 0 <= i < |reqs| ==> TakenAnywhere(q, reqs[i])
    ensures SettersAgree(reqs)
  {
    var none: seq<nat> := [];
    assert QuietlySent(q, reqs, f, none) && Sent(q, reqs, f, none) == Some(f);
    forall r: nat | r < |reqs| ensures MayComeEarly(q, reqs, f, r) {
      assert TakenAnywhere(q, reqs[r]);
      assert IsTaken(q, reqs, f, r);
    }
  }

  /**
   Requests that are accepted wherever they are read keep the promise if and only if
   each lists every secret any of them names, and, with no Secret yet, all that name
   secrets name the same: which can be seen before any is sent.
   */
  lemma HoldsIffRowsAgree(q: Quantities, reqs: seq<Request>, st: Stores)
    requires NamesAreHeld(st) && st.app.image != "" && forall i :: 0 <= i < |reqs| ==> TakenAnywhere(q, reqs[i])
    ensures AlwaysHeld(q, reqs, st) <==> EachListsAll(reqs) && (st.secret.None? ==> SettersAgree(reqs))
  {
    HoldsIffRowsFit(q, reqs, st);
    if AlwaysHeld(q, reqs, st) {
      SpareListsAll(q, reqs, FieldsOf(st.app));
      if st.secret.None? {
        ProvideAgrees(q, reqs, FieldsOf(st.app));
      }
    } else if EachListsAll(reqs) && (st.secret.None? ==> SettersAgree(reqs)) {
      AgreeingRowsAreEnough(q, reqs, st);
    }
  }

  /** Among them are the requests with their rows in order, a value for every secret and all quantities given. */
  lemma CompleteRequestsAreTaken(q: Quantities, req: Request)
    requires |req.env| <= MAX_SETTINGS_ENV && WellListed(req.env) && Unvalued(req.env) == {} && PlannedHealth(req.health).Ok?
    requires !Blank(req.resources.cpuRequest) && !Blank(req.resources.memoryRequest) && !Blank(req.resources.memoryLimit)
    requires PlannedResources(q, req.resources, Resources(0, 0, 0)).Ok?
    ensures TakenAnywhere(q, req)
  {}
}
