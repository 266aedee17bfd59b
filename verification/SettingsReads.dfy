/**
 Settings PUTs that come at any moment. A request is read, and planned from the
 commit it reads, at a moment of its own, and then takes the steps of
 SettingsInterleavings; any request may be sent any number of times, every step
 may come between any two of another's, and any client may stop anywhere.
 */
module SettingsReads {
  import opened Common
  import opened SettingsPlan
  import opened SettingsStores
  import opened SettingsInterleavings

  /** A request that was read and accepted, as far as it has got. */
  datatype Client = Client(plan: Plan, phase: Phase)
  datatype Office = Office(stores: Stores, clients: seq<Client>)

  datatype Move = Read(req: nat) | Go(client: nat)

  /** The plan of a request read at a commit, if it is accepted there. */
  function Accepted(q: Quantities, reqs: seq<Request>, r: nat, app: App): Option<Plan> {
    if r >= |reqs| || app.image == "" then None
    else match Planned(q, reqs[r], app) case Err(_) => None case Ok(p) => Some(p)
  }

  function Turn(q: Quantities, reqs: seq<Request>, w: Office, move: Move): Office {
    match move
    case Read(r) =>
      var p := Accepted(q, reqs, r, w.stores.app);
      if p.None? then w else w.(clients := w.clients + [Client(p.value, Patching)])
    case Go(c) =>
      if c >= |w.clients| then w
      else
        var (st, phase) := Advance(w.clients[c].plan, w.stores, w.clients[c].phase);
        Office(st, w.clients[c := w.clients[c].(phase := phase)])
  }

  function Played(q: Quantities, reqs: seq<Request>, st: Stores, moves: seq<Move>): Office {
    if moves == [] then Office(st, []) else Turn(q, reqs, Played(q, reqs, st, Init(moves)), Last(moves))
  }

  lemma PlayedSnoc(q: Quantities, reqs: seq<Request>, st: Stores, moves: seq<Move>, move: Move)
    ensures Played(q, reqs, st, moves + [move]) == Turn(q, reqs, Played(q, reqs, st, moves), move)
  {
    assert Init(moves + [move]) == moves;
  }

  // ---- Which commits there may be ----

  /** The commit some requests leave, each read and carried out before the next, if each is accepted. */
  function Chained(q: Quantities, reqs: seq<Request>, app: App, chain: seq<nat>): Option<App> {
    if chain == [] then Some(app)
    else
      var before := Chained(q, reqs, app, Init(chain));
      if before.None? then None
      else
        var p := Accepted(q, reqs, Last(chain), before.value);
        if p.None? then None else Some(p.value.app)
  }

  ghost predicate Reachable(q: Quantities, reqs: seq<Request>, app: App, a: App) {
    exists chain :: Chained(q, reqs, app, chain) == Some(a)
  }

  /** Reachable by a commit at least. */
  ghost predicate Committable(q: Quantities, reqs: seq<Request>, app: App, a: App) {
    exists chain :: chain != [] && Chained(q, reqs, app, chain) == Some(a)
  }

  /** A chain whose every commit names no secret. */
  predicate Quiet(q: Quantities, reqs: seq<Request>, app: App, chain: seq<nat>) {
    && Chained(q, reqs, app, chain).Some? && Chained(q, reqs, app, chain).value.userSecrets == []
    && (chain != [] ==> Quiet(q, reqs, app, Init(chain)))
  }

  ghost predicate QuietlyReachable(q: Quantities, reqs: seq<Request>, app: App, a: App) {
    exists chain :: Quiet(q, reqs, app, chain) && Chained(q, reqs, app, chain) == Some(a)
  }

  lemma ChainedSnoc(q: Quantities, reqs: seq<Request>, app: App, chain: seq<nat>, a: App, r: nat, p: Plan)
    requires Chained(q, reqs, app, chain) == Some(a) && Accepted(q, reqs, r, a) == Some(p)
    ensures Chained(q, reqs, app, chain + [r]) == Some(p.app)
    ensures Quiet(q, reqs, app, chain) && p.app.userSecrets == [] ==> Quiet(q, reqs, app, chain + [r])
  {
    assert Init(chain + [r]) == chain;
  }

  lemma {:induction false} ChainedFirst(q: Quantities, reqs: seq<Request>, app: App, r: nat, p: Plan, chain: seq<nat>)
    requires Accepted(q, reqs, r, app) == Some(p)
    ensures Chained(q, reqs, app, [r] + chain) == Chained(q, reqs, p.app, chain)
  {
    if chain == [] {
      assert [r] + chain == [r] && Init([r]) == [];
      assert Chained(q, reqs, app, []) == Some(app);
    } else {
      assert Init([r] + chain) == [r] + Init(chain) && Last([r] + chain) == Last(chain);
      ChainedFirst(q, reqs, app, r, p, Init(chain));
    }
  }

  // ---- The condition ----

  /** No request, read wherever, removes a key that a commit there may be names. */
  ghost predicate SparesAll(q: Quantities, reqs: seq<Request>, app: App) {
    forall a, b, r :: Reachable(q, reqs, app, a) && Committable(q, reqs, app, b) && Accepted(q, reqs, r, a).Some?
                      ==> Keys(Accepted(q, reqs, r, a).value.remove) !! Keys(b.userSecrets)
  }

  /** A plan some request has where no secret was named yet. */
  ghost predicate Early(q: Quantities, reqs: seq<Request>, app: App, p: Plan) {
    exists a, r :: QuietlyReachable(q, reqs, app, a) && Accepted(q, reqs, r, a) == Some(p)
  }

  /** Whoever creates the Secret, it holds all any of them sets. */
  ghost predicate ProvidesAll(q: Quantities, reqs: seq<Request>, app: App) {
    forall p, r :: Early(q, reqs, app, p) && Early(q, reqs, app, r) ==> Provides(p, r)
  }

  ghost predicate Fit(q: Quantities, reqs: seq<Request>, st: Stores) {
    SparesAll(q, reqs, st.app) && (st.secret.None? ==> ProvidesAll(q, reqs, st.app))
  }

  // ---- What every play keeps, whatever the requests ----

  /** The parts of a workload no settings request touches. */
  predicate Beside(a: App, b: App) {
    a.name == b.name && a.image == b.image && a.rest == b.rest
  }

  lemma CommitsItsPlan(now: App, want: App)
    requires Beside(now, want)
    ensures Committed(now, want) == want
  {}

  lemma AcceptedFollows(q: Quantities, reqs: seq<Request>, r: nat, app: App)
    requires Accepted(q, reqs, r, app).Some?
    ensures Follows(Accepted(q, reqs, r, app).value, app) && Beside(Accepted(q, reqs, r, app).value.app, app)
  {
    PlanFollows(q, reqs[r], app);
    PlansAreSettled(q, reqs[r], app);
  }

  lemma {:induction false} ChainStaysBeside(q: Quantities, reqs: seq<Request>, app: App, chain: seq<nat>)
    requires Chained(q, reqs, app, chain).Some?
    ensures Beside(Chained(q, reqs, app, chain).value, app)
  {
    if chain != [] {
      ChainStaysBeside(q, reqs, app, Init(chain));
      AcceptedFollows(q, reqs, Last(chain), Chained(q, reqs, app, Init(chain)).value);
    }
  }

  /** A plan some request has at a commit there may be. */
  ghost predicate ReadSomewhere(q: Quantities, reqs: seq<Request>, app: App, p: Plan) {
    exists a, r :: Reachable(q, reqs, app, a) && Accepted(q, reqs, r, a) == Some(p)
  }

  lemma ItsCommit(q: Quantities, reqs: seq<Request>, app: App, p: Plan)
    requires ReadSomewhere(q, reqs, app, p)
    ensures Committable(q, reqs, app, p.app) && Reachable(q, reqs, app, p.app) && Beside(p.app, app)
  {
    var a, r :| Reachable(q, reqs, app, a) && Accepted(q, reqs, r, a) == Some(p);
    var chain :| Chained(q, reqs, app, chain) == Some(a);
    ChainedSnoc(q, reqs, app, chain, a, r, p);
    ChainStaysBeside(q, reqs, app, chain + [r]);
    assert chain + [r] != [];
  }

  lemma EarlyIsSomewhere(q: Quantities, reqs: seq<Request>, app: App, p: Plan)
    requires Early(q, reqs, app, p)
    ensures ReadSomewhere(q, reqs, app, p)
    ensures Keys(p.app.userSecrets) == p.puts.Keys
  {
    var a, r :| QuietlyReachable(q, reqs, app, a) && Accepted(q, reqs, r, a) == Some(p);
    var chain :| Quiet(q, reqs, app, chain) && Chained(q, reqs, app, chain) == Some(a);
    assert Reachable(q, reqs, app, a);
    AcceptedFollows(q, reqs, r, a);
    assert Keys(a.userSecrets) == {};
  }

  lemma NoKeys(ks: seq<string>)
    ensures Keys(ks) == {} <==> ks == []
  {
    if ks != [] {
      assert ks[0] in Keys(ks);
    }
  }

  lemma EarlyCommitsQuietly(q: Quantities, reqs: seq<Request>, app: App, p: Plan)
    requires Early(q, reqs, app, p) && Keys(p.app.userSecrets) == {}
    ensures QuietlyReachable(q, reqs, app, p.app)
  {
    var a, r :| QuietlyReachable(q, reqs, app, a) && Accepted(q, reqs, r, a) == Some(p);
    var chain :| Quiet(q, reqs, app, chain) && Chained(q, reqs, app, chain) == Some(a);
    NoKeys(p.app.userSecrets);
    ChainedSnoc(q, reqs, app, chain, a, r, p);
  }

  // ---- Fit requests keep the promise ----

  /** Every client was accepted somewhere, and its names stay held, less what it has still to put. */
  ghost predicate ClientOk(q: Quantities, reqs: seq<Request>, st: Stores, w: Office, c: Client) {
    && ReadSomewhere(q, reqs, st.app, c.plan) && Kept(c.plan, c.phase, Held(w.stores.secret))
    && (c.phase.Creating? ==> st.secret.None? && Early(q, reqs, st.app, c.plan) && c.plan.puts != map[])
    && (w.stores.secret.None? ==> Early(q, reqs, st.app, c.plan))
    && (HasCommitted(c.phase) ==> Committable(q, reqs, st.app, w.stores.app))
  }

  ghost predicate ClientsOk(q: Quantities, reqs: seq<Request>, st: Stores, w: Office) {
    forall i :: 0 <= i < |w.clients| ==> ClientOk(q, reqs, st, w, w.clients[i])
  }

  /** Once there is a Secret, it holds every name planned before there was one. */
  ghost predicate HoldsTheEarly(q: Quantities, reqs: seq<Request>, app: App, held: set<string>) {
    forall p :: Early(q, reqs, app, p) ==> Keys(p.app.userSecrets) <= held
  }

  ghost predicate StoresOk(q: Quantities, reqs: seq<Request>, st: Stores, now: Stores) {
    && NamesAreHeld(now) && Reachable(q, reqs, st.app, now.app) && Beside(now.app, st.app)
    && (st.secret.Some? ==> now.secret.Some?)
    && (now.secret.None? ==> QuietlyReachable(q, reqs, st.app, now.app))
    && (st.secret.None? && now.secret.Some? ==> HoldsTheEarly(q, reqs, st.app, Held(now.secret)))
  }

  ghost predicate Sound(q: Quantities, reqs: seq<Request>, st: Stores, w: Office) {
    StoresOk(q, reqs, st, w.stores) && ClientsOk(q, reqs, st, w)
  }

  lemma StartIsSound(q: Quantities, reqs: seq<Request>, st: Stores)
    requires NamesAreHeld(st)
    ensures Sound(q, reqs, st, Office(st, []))
  {
    var none: seq<nat> := [];
    assert Chained(q, reqs, st.app, none) == Some(st.app);
    NoKeys(st.app.userSecrets);
    assert st.secret.None? ==> Quiet(q, reqs, st.app, none);
  }

  lemma NewClientIsOk(q: Quantities, reqs: seq<Request>, st: Stores, w: Office, r: nat, p: Plan)
    requires StoresOk(q, reqs, st, w.stores) && Accepted(q, reqs, r, w.stores.app) == Some(p)
    ensures ClientOk(q, reqs, st, w, Client(p, Patching))
  {
    AcceptedFollows(q, reqs, r, w.stores.app);
  }

  lemma ReadIsSound(q: Quantities, reqs: seq<Request>, st: Stores, w: Office, r: nat)
    requires Sound(q, reqs, st, w)
    ensures Sound(q, reqs, st, Turn(q, reqs, w, Read(r)))
  {
    var p := Accepted(q, reqs, r, w.stores.app);
    if p.Some? {
      NewClientIsOk(q, reqs, st, w, r, p.value);
      ClientsMore(q, reqs, st, w, Client(p.value, Patching));
    }
  }

  lemma ClientsMore(q: Quantities, reqs: seq<Request>, st: Stores, w: Office, c: Client)
    requires ClientsOk(q, reqs, st, w) && ClientOk(q, reqs, st, w, c)
    ensures ClientsOk(q, reqs, st, w.(clients := w.clients + [c]))
  {
    var w' := w.(clients := w.clients + [c]);
    forall i | 0 <= i < |w'.clients| ensures ClientOk(q, reqs, st, w', w'.clients[i]) {
      if i < |w.clients| {
        assert ClientOk(q, reqs, st, w, w.clients[i]);
      }
    }
  }

  /** Nothing is removed where there was no Secret to begin with. */
  lemma NothingToRemove(q: Quantities, reqs: seq<Request>, st: Stores, p: Plan)
    requires NamesAreHeld(st) && st.secret.None? && SparesAll(q, reqs, st.app) && ReadSomewhere(q, reqs, st.app, p)
    ensures p.remove == []
  {
    var a, r :| Reachable(q, reqs, st.app, a) && Accepted(q, reqs, r, a) == Some(p);
    AcceptedFollows(q, reqs, r, a);
    var chain :| Chained(q, reqs, st.app, chain) == Some(a);
    if chain == [] {
      assert a == st.app && Keys(a.userSecrets) == {};
    } else {
      assert Committable(q, reqs, st.app, a);
    }
    NoKeys(p.remove);
  }

  lemma RemovalSpares(q: Quantities, reqs: seq<Request>, app: App, p: Plan, b: App)
    requires SparesAll(q, reqs, app) && ReadSomewhere(q, reqs, app, p) && Committable(q, reqs, app, b)
    ensures Keys(p.remove) !! Keys(b.userSecrets)
  {
    var a, r :| Reachable(q, reqs, app, a) && Accepted(q, reqs, r, a) == Some(p);
  }

  /** What one step does to the Secret. */
  lemma AdvanceHolds(p: Plan, st: Stores, phase: Phase)
    ensures var (st', phase') := Advance(p, st, phase);
            && (st.secret.Some? ==> st'.secret.Some?)
            && (!phase.Removing? ==> Held(st.secret) <= Held(st'.secret))
            && (phase.Removing? ==> Held(st'.secret) == Held(st.secret) - Keys(p.remove) || st'.secret == st.secret)
            && (phase.Patching? && st.secret.Some? ==> p.puts.Keys <= Held(st'.secret))
            && (phase.Creating? && st.secret.None? ==> st'.secret == Some(p.puts))
            && (!phase.Committing? ==> st'.app == st.app)
            && (st.secret.None? && st'.secret.Some? ==> phase.Creating?)
  {
    HeldWhenWritten(st.secret, p.puts, []);
    HeldWhenWritten(st.secret, map[], p.remove);
  }

  /** A client is as well off where the Secret holds no less and the commit is the same. */
  lemma ClientStays(q: Quantities, reqs: seq<Request>, st: Stores, w: Office, w': Office, c: Client)
    requires ClientOk(q, reqs, st, w, c) && w'.stores.app == w.stores.app && Held(w.stores.secret) <= Held(w'.stores.secret)
    requires w'.stores.secret.None? ==> w.stores.secret.None?
    ensures ClientOk(q, reqs, st, w', c)
  {}

  /** The client that writes, afterwards. */
  lemma WriterIsOk(q: Quantities, reqs: seq<Request>, st: Stores, w: Office, w': Office, me: Client, phase: Phase)
    requires StoresOk(q, reqs, st, w.stores) && ClientOk(q, reqs, st, w, me) && (me.phase.Patching? || me.phase.Creating?)
    requires Advance(me.plan, w.stores, me.phase) == (w'.stores, phase)
    ensures ClientOk(q, reqs, st, w', Client(me.plan, phase))
  {
    AdvanceHolds(me.plan, w.stores, me.phase);
    if me.phase.Creating? {
      EarlyIsSomewhere(q, reqs, st.app, me.plan);
      assert w.stores.secret.Some? ==> Keys(me.plan.app.userSecrets) <= Held(w.stores.secret);
    }
    assert Kept(me.plan, phase, Held(w'.stores.secret));
  }

  lemma WrittenStoresOk(q: Quantities, reqs: seq<Request>, st: Stores, now: Stores, p: Plan, phase: Phase)
    requires NamesAreHeld(st) && Fit(q, reqs, st) && StoresOk(q, reqs, st, now) && (phase.Patching? || phase.Creating?)
    requires phase.Creating? ==> Early(q, reqs, st.app, p) && p.puts != map[]
    ensures StoresOk(q, reqs, st, Advance(p, now, phase).0)
  {
    AdvanceHolds(p, now, phase);
    if phase.Creating? && now.secret.None? {
      CreatorHolds(q, reqs, st, p);
    }
  }

  /** A step that adds to the Secret, or leaves it, and does not commit. */
  lemma WritingIsSound(q: Quantities, reqs: seq<Request>, st: Stores, w: Office, c: nat)
    requires NamesAreHeld(st) && Fit(q, reqs, st) && Sound(q, reqs, st, w) && c < |w.clients|
    requires w.clients[c].phase.Patching? || w.clients[c].phase.Creating?
    ensures Sound(q, reqs, st, Turn(q, reqs, w, Go(c)))
  {
    var me, w' := w.clients[c], Turn(q, reqs, w, Go(c));
    assert ClientOk(q, reqs, st, w, me);
    AdvanceHolds(me.plan, w.stores, me.phase);
    WrittenStoresOk(q, reqs, st, w.stores, me.plan, me.phase);
    WriterIsOk(q, reqs, st, w, w', me, Advance(me.plan, w.stores, me.phase).1);
    forall i | 0 <= i < |w'.clients| ensures ClientOk(q, reqs, st, w', w'.clients[i]) {
      if i != c {
        ClientStays(q, reqs, st, w, w', w.clients[i]);
      }
    }
  }

  lemma CreatorHolds(q: Quantities, reqs: seq<Request>, st: Stores, p: Plan)
    requires ProvidesAll(q, reqs, st.app) && Early(q, reqs, st.app, p) && p.puts != map[]
    ensures HoldsTheEarly(q, reqs, st.app, p.puts.Keys)
  {
    forall r | Early(q, reqs, st.app, r) ensures Keys(r.app.userSecrets) <= p.puts.Keys {
      EarlyIsSomewhere(q, reqs, st.app, r);
      assert Provides(r, p);
    }
  }

  lemma CommittingIsSound(q: Quantities, reqs: seq<Request>, st: Stores, w: Office, c: nat)
    requires Sound(q, reqs, st, w) && c < |w.clients| && w.clients[c].phase.Committing?
    ensures Sound(q, reqs, st, Turn(q, reqs, w, Go(c)))
  {
    var me, w' := w.clients[c], Turn(q, reqs, w, Go(c));
    assert ClientOk(q, reqs, st, w, me);
    ItsCommit(q, reqs, st.app, me.plan);
    CommitsItsPlan(w.stores.app, me.plan.app);
    if w.stores.secret.None? {
      EarlyCommitsQuietly(q, reqs, st.app, me.plan);
    }
    assert ClientOk(q, reqs, st, w', w'.clients[c]);
    forall i | 0 <= i < |w'.clients| && i != c ensures ClientOk(q, reqs, st, w', w'.clients[i]) {
      assert ClientOk(q, reqs, st, w, w.clients[i]);
    }
  }

  lemma ClientOutlivesRemoval(q: Quantities, reqs: seq<Request>, st: Stores, w: Office, w': Office, p: Plan, c: Client)
    requires SparesAll(q, reqs, st.app) && ReadSomewhere(q, reqs, st.app, p) && ClientOk(q, reqs, st, w, c)
    requires w'.stores.app == w.stores.app && Held(w.stores.secret) - Keys(p.remove) <= Held(w'.stores.secret)
    requires w'.stores.secret.None? ==> w.stores.secret.None?
    ensures ClientOk(q, reqs, st, w', c)
  {
    ItsCommit(q, reqs, st.app, c.plan);
    RemovalSpares(q, reqs, st.app, p, c.plan.app);
  }

  lemma RemovingIsSound(q: Quantities, reqs: seq<Request>, st: Stores, w: Office, c: nat)
    requires NamesAreHeld(st) && Fit(q, reqs, st) && Sound(q, reqs, st, w) && c < |w.clients| && w.clients[c].phase.Removing?
    ensures Sound(q, reqs, st, Turn(q, reqs, w, Go(c)))
  {
    var me, w' := w.clients[c], Turn(q, reqs, w, Go(c));
    assert ClientOk(q, reqs, st, w, me);
    AdvanceHolds(me.plan, w.stores, me.phase);
    RemovalSpares(q, reqs, st.app, me.plan, w.stores.app);
    if st.secret.None? {
      NothingToRemove(q, reqs, st, me.plan);
    }
    forall i | 0 <= i < |w'.clients| ensures ClientOk(q, reqs, st, w', w'.clients[i]) {
      ClientOutlivesRemoval(q, reqs, st, w, w', me.plan, w.clients[i]);
    }
  }

  lemma TurnIsSound(q: Quantities, reqs: seq<Request>, st: Stores, w: Office, move: Move)
    requires NamesAreHeld(st) && Fit(q, reqs, st) && Sound(q, reqs, st, w)
    ensures Sound(q, reqs, st, Turn(q, reqs, w, move))
  {
    match move
    case Read(r) => ReadIsSound(q, reqs, st, w, r);
    case Go(c) =>
      if c < |w.clients| {
        match w.clients[c].phase
        case Committing => CommittingIsSound(q, reqs, st, w, c);
        case Removing => RemovingIsSound(q, reqs, st, w, c);
        case Finished => assert w.clients[c := w.clients[c]] == w.clients;
        case _ => WritingIsSound(q, reqs, st, w, c);
      }
  }

  lemma {:induction false} PlayIsSound(q: Quantities, reqs: seq<Request>, st: Stores, moves: seq<Move>)
    requires NamesAreHeld(st) && Fit(q, reqs, st)
    ensures Sound(q, reqs, st, Played(q, reqs, st, moves))
  {
    if moves == [] {
      StartIsSound(q, reqs, st);
    } else {
      PlayIsSound(q, reqs, st, Init(moves));
      TurnIsSound(q, reqs, st, Played(q, reqs, st, Init(moves)), Last(moves));
    }
  }

  // ---- Unfit requests break it ----

  ghost predicate AlwaysHeld(q: Quantities, reqs: seq<Request>, st: Stores) {
    forall moves :: NamesAreHeld(Played(q, reqs, st, moves).stores)
  }

  ghost predicate AllBeside(w: Office, app: App) {
    Beside(w.stores.app, app) && forall i :: 0 <= i < |w.clients| ==> Beside(w.clients[i].plan.app, app)
  }

  lemma {:induction false} PlayIsBeside(q: Quantities, reqs: seq<Request>, st: Stores, moves: seq<Move>)
    ensures AllBeside(Played(q, reqs, st, moves), st.app)
  {
    if moves != [] {
      PlayIsBeside(q, reqs, st, Init(moves));
      var w := Played(q, reqs, st, Init(moves));
      match Last(moves)
      case Read(r) =>
        if Accepted(q, reqs, r, w.stores.app).Some? {
          AcceptedFollows(q, reqs, r, w.stores.app);
        }
      case Go(c) =>
    }
  }

  /** One more request is read. */
  lemma ReadOne(q: Quantities, reqs: seq<Request>, st: Stores, moves: seq<Move>, r: nat, p: Plan) returns (moves': seq<Move>)
    requires Accepted(q, reqs, r, Played(q, reqs, st, moves).stores.app) == Some(p)
    ensures var w := Played(q, reqs, st, moves);
            Played(q, reqs, st, moves') == Office(w.stores, w.clients + [Client(p, Patching)])
  {
    moves' := moves + [Read(r)];
    PlayedSnoc(q, reqs, st, moves, Read(r));
  }

  lemma GoOne(q: Quantities, reqs: seq<Request>, st: Stores, moves: seq<Move>, w: Office, c: nat) returns (moves': seq<Move>)
    requires w == Played(q, reqs, st, moves) && c < |w.clients|
    ensures var (stores, phase) := Advance(w.clients[c].plan, w.stores, w.clients[c].phase);
            Played(q, reqs, st, moves') == Office(stores, w.clients[c := Client(w.clients[c].plan, phase)])
  {
    moves' := moves + [Go(c)];
    PlayedSnoc(q, reqs, st, moves, Go(c));
  }

  /** A client that has only been read writes and commits, and no other moves. */
  lemma CommitOne(q: Quantities, reqs: seq<Request>, st: Stores, moves: seq<Move>, w: Office, c: nat) returns (moves': seq<Move>)
    requires w == Played(q, reqs, st, moves) && c < |w.clients| && w.clients[c].phase.Patching?
    ensures var w' := Played(q, reqs, st, moves');
            && w'.clients == w.clients[c := Client(w.clients[c].plan, Removing)] && w'.stores.app == w.clients[c].plan.app
            && (w.clients[c].plan.puts == map[] ==> w'.stores.secret == w.stores.secret)
  {
    var p := w.clients[c].plan;
    PlayIsBeside(q, reqs, st, moves);
    moves' := GoOne(q, reqs, st, moves, w, c);
    var w1 := Played(q, reqs, st, moves');
    if w1.clients[c].phase.Creating? {
      moves' := GoOne(q, reqs, st, moves', w1, c);
    }
    var w2 := Played(q, reqs, st, moves');
    assert w2.clients == w.clients[c := Client(p, Committing)] && w2.stores.app == w.stores.app;
    moves' := GoOne(q, reqs, st, moves', w2, c);
    CommitsItsPlan(w.stores.app, p.app);
  }

  /** Requests read and carried out one after another bring the commit where their chain does; no earlier client moves. */
  lemma {:induction false} DriveTo(q: Quantities, reqs: seq<Request>, st: Stores, moves: seq<Move>, w: Office, chain: seq<nat>)
    returns (moves': seq<Move>)
    requires w == Played(q, reqs, st, moves) && Chained(q, reqs, w.stores.app, chain).Some?
    ensures var w' := Played(q, reqs, st, moves');
            && w'.stores.app == Chained(q, reqs, w.stores.app, chain).value
            && w.clients <= w'.clients
            && (Quiet(q, reqs, w.stores.app, chain) ==> w'.stores.secret == w.stores.secret)
  {
    moves' := moves;
    if chain != [] {
      moves' := DriveTo(q, reqs, st, moves, w, Init(chain));
      moves' := DriveOne(q, reqs, st, moves', Played(q, reqs, st, moves'), Last(chain));
    }
  }

  lemma DriveOne(q: Quantities, reqs: seq<Request>, st: Stores, moves: seq<Move>, w: Office, r: nat) returns (moves': seq<Move>)
    requires w == Played(q, reqs, st, moves) && Accepted(q, reqs, r, w.stores.app).Some?
    ensures var w', p := Played(q, reqs, st, moves'), Accepted(q, reqs, r, w.stores.app).value;
            && w'.stores.app == p.app && w.clients <= w'.clients
            && (p.app.userSecrets == [] ==> w'.stores.secret == w.stores.secret)
  {
    var p := Accepted(q, reqs, r, w.stores.app).value;
    AcceptedFollows(q, reqs, r, w.stores.app);
    NoKeys(p.app.userSecrets);
    moves' := ReadOne(q, reqs, st, moves, r, p);
    moves' := CommitOne(q, reqs, st, moves', Played(q, reqs, st, moves'), |w.clients|);
    assert p.app.userSecrets == [] ==> p.puts.Keys == {};
  }

  /** One client commits, another commits a key the first is to remove, and the first removes it. */
  lemma LateRemoval(q: Quantities, reqs: seq<Request>, st: Stores, moves: seq<Move>, w: Office, c: nat, d: nat, k: string)
    returns (moves': seq<Move>)
    requires w == Played(q, reqs, st, moves) && c < |w.clients| && d < |w.clients| && c != d
    requires w.clients[c].phase.Patching? && w.clients[d].phase.Patching?
    requires k in Keys(w.clients[c].plan.remove) && k in Keys(w.clients[d].plan.app.userSecrets)
    ensures !NamesAreHeld(Played(q, reqs, st, moves').stores)
  {
    moves' := CommitOne(q, reqs, st, moves, w, c);
    moves' := CommitOne(q, reqs, st, moves', Played(q, reqs, st, moves'), d);
    moves' := RemovesItsKey(q, reqs, st, moves', Played(q, reqs, st, moves'), c, k);
  }

  /** What breaks when a request read at a commit removes a key that commit names. */
  lemma RemovedWhereNamed(q: Quantities, reqs: seq<Request>, st: Stores, chain: seq<nat>, a: App, r: nat, k: string)
    returns (moves: seq<Move>)
    requires chain != [] && Chained(q, reqs, st.app, chain) == Some(a) && Accepted(q, reqs, r, a).Some?
    requires k in Keys(Accepted(q, reqs, r, a).value.remove)
    ensures !NamesAreHeld(Played(q, reqs, st, moves).stores)
  {
    AcceptedFollows(q, reqs, r, a);
    var none: seq<Move> := [];
    moves := DriveTo(q, reqs, st, none, Office(st, []), Init(chain));
    var w := Played(q, reqs, st, moves);
    var m, n := Accepted(q, reqs, Last(chain), w.stores.app).value, |w.clients|;
    moves := ReadOne(q, reqs, st, moves, Last(chain), m);
    moves := ReadOne(q, reqs, st, moves, Last(chain), m);
    moves := CommitOne(q, reqs, st, moves, Played(q, reqs, st, moves), n);
    moves := ReadOne(q, reqs, st, moves, r, Accepted(q, reqs, r, a).value);
    moves := LateRemoval(q, reqs, st, moves, Played(q, reqs, st, moves), n + 2, n + 1, k);
  }

  /** What breaks when a request read at the start removes a key that some commit will name. */
  lemma RemovedBeforeNamed(q: Quantities, reqs: seq<Request>, st: Stores, chain: seq<nat>, b: App, r: nat, k: string)
    returns (moves: seq<Move>)
    requires chain != [] && Chained(q, reqs, st.app, chain) == Some(b) && Accepted(q, reqs, r, st.app).Some?
    requires k in Keys(Accepted(q, reqs, r, st.app).value.remove) && k in Keys(b.userSecrets)
    ensures !NamesAreHeld(Played(q, reqs, st, moves).stores)
  {
    var none: seq<Move> := [];
    moves := ReadOne(q, reqs, st, none, r, Accepted(q, reqs, r, st.app).value);
    moves := DriveTo(q, reqs, st, moves, Played(q, reqs, st, moves), Init(chain));
    var w := Played(q, reqs, st, moves);
    assert w.clients[0].phase.Patching?;
    moves := ReadOne(q, reqs, st, moves, Last(chain), Accepted(q, reqs, Last(chain), w.stores.app).value);
    moves := LateRemoval(q, reqs, st, moves, Played(q, reqs, st, moves), 0, |w.clients|, k);
  }

  lemma SomeRemovalIsLate(q: Quantities, reqs: seq<Request>, st: Stores) returns (moves: seq<Move>)
    requires !SparesAll(q, reqs, st.app)
    ensures !NamesAreHeld(Played(q, reqs, st, moves).stores)
  {
    var a, b, r :| Reachable(q, reqs, st.app, a) && Committable(q, reqs, st.app, b) && Accepted(q, reqs, r, a).Some?
                   && !(Keys(Accepted(q, reqs, r, a).value.remove) !! Keys(b.userSecrets));
    var k :| k in Keys(Accepted(q, reqs, r, a).value.remove) && k in Keys(b.userSecrets);
    var chain :| Chained(q, reqs, st.app, chain) == Some(a);
    if chain == [] {
      var chainB :| chainB != [] && Chained(q, reqs, st.app, chainB) == Some(b);
      moves := RemovedBeforeNamed(q, reqs, st, chainB, b, r, k);
    } else {
      moves := RemovedWhereNamed(q, reqs, st, chain, a, r, k);
    }
  }

  lemma {:induction false} QuietFirst(q: Quantities, reqs: seq<Request>, app: App, r: nat, p: Plan, chain: seq<nat>)
    requires Accepted(q, reqs, r, app) == Some(p) && Quiet(q, reqs, app, [r] + chain)
    ensures Quiet(q, reqs, p.app, chain) && p.app.userSecrets == []
    ensures Chained(q, reqs, app, [r] + chain) == Chained(q, reqs, p.app, chain)
  {
    ChainedFirst(q, reqs, app, r, p, chain);
    if chain == [] {
      assert Chained(q, reqs, p.app, []) == Some(p.app);
    } else {
      assert Init([r] + chain) == [r] + Init(chain);
      QuietFirst(q, reqs, app, r, p, Init(chain));
    }
  }

  lemma {:induction false} HeadIsAccepted(q: Quantities, reqs: seq<Request>, app: App, chain: seq<nat>)
    requires chain != [] && Chained(q, reqs, app, chain).Some?
    ensures Accepted(q, reqs, chain[0], app).Some?
  {
    if |chain| == 1 {
      assert Init(chain) == [] && Last(chain) == chain[0];
    } else {
      assert Init(chain)[0] == chain[0];
      HeadIsAccepted(q, reqs, app, Init(chain));
    }
  }

  /** A plan some request has at the end of a quiet chain. */
  ghost predicate EarlyAt(q: Quantities, reqs: seq<Request>, app: App, chain: seq<nat>, r: nat, p: Plan) {
    Quiet(q, reqs, app, chain) && Accepted(q, reqs, r, Chained(q, reqs, app, chain).value) == Some(p)
  }

  /** Two clients, both only read. */
  ghost predicate BothRead(w: Office, c: nat, p: Plan, d: nat, p': Plan) {
    c != d && c < |w.clients| && d < |w.clients| && w.clients[c] == Client(p, Patching) && w.clients[d] == Client(p', Patching)
  }

  lemma EarlyReadsNow(q: Quantities, reqs: seq<Request>, st: Stores, chain: seq<nat>, r: nat, p: Plan, r': nat, p': Plan)
    returns (moves: seq<Move>, c: nat, d: nat)
    requires EarlyAt(q, reqs, st.app, chain, r, p) && Accepted(q, reqs, r', st.app) == Some(p')
    ensures BothRead(Played(q, reqs, st, moves), c, p, d, p') && Played(q, reqs, st, moves).stores.secret == st.secret
  {
    var none: seq<Move> := [];
    moves := ReadOne(q, reqs, st, none, r', p');
    d := 0;
    moves := DriveTo(q, reqs, st, moves, Played(q, reqs, st, moves), chain);
    c := |Played(q, reqs, st, moves).clients|;
    moves := ReadOne(q, reqs, st, moves, r, p);
  }

  lemma EarlyReadsAfter(q: Quantities, reqs: seq<Request>, st: Stores, chain: seq<nat>, r: nat, p: Plan,
                        first: nat, rest: seq<nat>, r': nat, p': Plan)
    returns (moves: seq<Move>, c: nat, d: nat)
    requires EarlyAt(q, reqs, st.app, chain, r, p) && EarlyAt(q, reqs, st.app, [first] + rest, r', p')
    ensures BothRead(Played(q, reqs, st, moves), c, p, d, p') && Played(q, reqs, st, moves).stores.secret == st.secret
  {
    HeadIsAccepted(q, reqs, st.app, [first] + rest);
    var m := Accepted(q, reqs, first, st.app).value;
    QuietFirst(q, reqs, st.app, first, m, rest);
    AcceptedFollows(q, reqs, first, st.app);
    NoKeys(m.app.userSecrets);
    var none: seq<Move> := [];
    moves := ReadOne(q, reqs, st, none, first, m);
    moves := DriveTo(q, reqs, st, moves, Played(q, reqs, st, moves), chain);
    c := |Played(q, reqs, st, moves).clients|;
    moves := ReadOne(q, reqs, st, moves, r, p);
    moves := CommitOne(q, reqs, st, moves, Played(q, reqs, st, moves), 0);
    var w := Played(q, reqs, st, moves);
    assert m.puts.Keys == {} && w.clients[c] == Client(p, Patching);
    moves := DriveTo(q, reqs, st, moves, w, rest);
    assert Played(q, reqs, st, moves).clients[c] == w.clients[c];
    d := |Played(q, reqs, st, moves).clients|;
    moves := ReadOne(q, reqs, st, moves, r', p');
  }

  /** With no Secret yet, two clients can be read at any two commits that name none. */
  lemma TwoEarlyReads(q: Quantities, reqs: seq<Request>, st: Stores, p: Plan, p': Plan) returns (moves: seq<Move>, c: nat, d: nat)
    requires Early(q, reqs, st.app, p) && Early(q, reqs, st.app, p')
    ensures BothRead(Played(q, reqs, st, moves), c, p, d, p') && Played(q, reqs, st, moves).stores.secret == st.secret
  {
    var chain, r := EarlyWitness(q, reqs, st.app, p);
    var chain', r' := EarlyWitness(q, reqs, st.app, p');
    if chain' == [] {
      moves, c, d := EarlyReadsNow(q, reqs, st, chain, r, p, r', p');
    } else {
      var first, rest := EarlySplit(q, reqs, st.app, chain', r', p');
      moves, c, d := EarlyReadsAfter(q, reqs, st, chain, r, p, first, rest, r', p');
    }
  }

  lemma EarlySplit(q: Quantities, reqs: seq<Request>, app: App, chain: seq<nat>, r: nat, p: Plan) returns (first: nat, rest: seq<nat>)
    requires chain != [] && EarlyAt(q, reqs, app, chain, r, p)
    ensures EarlyAt(q, reqs, app, [first] + rest, r, p)
  {
    first, rest := chain[0], chain[1..];
    assert [first] + rest == chain;
  }

  lemma EarlyWitness(q: Quantities, reqs: seq<Request>, app: App, p: Plan) returns (chain: seq<nat>, r: nat)
    requires Early(q, reqs, app, p)
    ensures EarlyAt(q, reqs, app, chain, r, p)
  {
    var a, i :| QuietlyReachable(q, reqs, app, a) && Accepted(q, reqs, i, a) == Some(p);
    chain :| Quiet(q, reqs, app, chain) && Chained(q, reqs, app, chain) == Some(a);
    r := i;
  }

  /** Both patch and meet no Secret, one creates it, the other's create is lost, and the other commits. */
  lemma LostCreate(q: Quantities, reqs: seq<Request>, st: Stores, moves: seq<Move>, w: Office, c: nat, d: nat)
    returns (moves': seq<Move>)
    requires w == Played(q, reqs, st, moves) && c < |w.clients| && d < |w.clients| && c != d && w.stores.secret.None?
    requires w.clients[c].phase.Patching? && w.clients[d].phase.Patching? && !Provides(w.clients[d].plan, w.clients[c].plan)
    requires w.clients[d].plan.puts.Keys <= Keys(w.clients[d].plan.app.userSecrets)
    ensures !NamesAreHeld(Played(q, reqs, st, moves').stores)
  {
    var p, r := w.clients[c].plan, w.clients[d].plan;
    var k :| k in r.puts.Keys && k !in p.puts.Keys;
    PlayIsBeside(q, reqs, st, moves);
    moves' := GoOne(q, reqs, st, moves, w, c);
    moves' := GoOne(q, reqs, st, moves', Played(q, reqs, st, moves'), d);
    moves' := GoOne(q, reqs, st, moves', Played(q, reqs, st, moves'), c);
    moves' := GoOne(q, reqs, st, moves', Played(q, reqs, st, moves'), d);
    var w4 := Played(q, reqs, st, moves');
    assert w4.stores == Stores(w.stores.app, Some(p.puts)) && w4.clients[d] == Client(r, Committing);
    moves' := GoOne(q, reqs, st, moves', w4, d);
    CommitsItsPlan(w.stores.app, r.app);
  }

  lemma SomeCreateIsLost(q: Quantities, reqs: seq<Request>, st: Stores) returns (moves: seq<Move>)
    requires NamesAreHeld(st) && st.secret.None? && !ProvidesAll(q, reqs, st.app)
    ensures !NamesAreHeld(Played(q, reqs, st, moves).stores)
  {
    var p, r :| Early(q, reqs, st.app, p) && Early(q, reqs, st.app, r) && !Provides(p, r);
    var c, d;
    moves, c, d := TwoEarlyReads(q, reqs, st, r, p);
    EarlyIsSomewhere(q, reqs, st.app, p);
    moves := LostCreate(q, reqs, st, moves, Played(q, reqs, st, moves), c, d);
  }

  // ---- The exact condition ----

  /**
   Requests that may be read at any commit, any number of times, keep git from
   naming a key the Secret lacks, at every moment of every interleaving, if and
   only if they are fit: no request, wherever it is accepted, removes a key that
   some commit they can make names; and, while there is no Secret, all that set a
   value set the same keys.
   */
  lemma HoldsIffFit(q: Quantities, reqs: seq<Request>, st: Stores)
    requires NamesAreHeld(st)
    ensures AlwaysHeld(q, reqs, st) <==> Fit(q, reqs, st)
  {
    if Fit(q, reqs, st) {
      forall moves ensures NamesAreHeld(Played(q, reqs, st, moves).stores) {
        PlayIsSound(q, reqs, st, moves);
      }
    } else if !SparesAll(q, reqs, st.app) {
      var moves := SomeRemovalIsLate(q, reqs, st);
    } else {
      var moves := SomeCreateIsLost(q, reqs, st);
    }
  }

  /** So among fit requests nothing is removed but what the start named: read at any commit they make, each keeps all of it. */
  lemma FitRequestsKeepCommits(q: Quantities, reqs: seq<Request>, app: App, a: App, r: nat)
    requires SparesAll(q, reqs, app) && Committable(q, reqs, app, a) && Accepted(q, reqs, r, a).Some?
    ensures Accepted(q, reqs, r, a).value.remove == []
  {
    AcceptedFollows(q, reqs, r, a);
    NoKeys(Accepted(q, reqs, r, a).value.remove);
  }

  /**
   Two requests suffice: one commits without a key, the other reads that commit,
   sets the key anew and commits, and the removal of the first comes last.
   */
  lemma LateReaderBreaks(q: Quantities, reqs: seq<Request>, st: Stores, i: nat, p: Plan, j: nat, r: Plan, k: string)
    returns (moves: seq<Move>)
    requires Accepted(q, reqs, i, st.app) == Some(p) && Accepted(q, reqs, j, p.app) == Some(r)
    requires k in Keys(p.remove) && k in Keys(r.app.userSecrets)
    ensures !NamesAreHeld(Played(q, reqs, st, moves).stores)
  {
    var none: seq<Move> := [];
    moves := ReadOne(q, reqs, st, none, i, p);
    moves := CommitOne(q, reqs, st, moves, Played(q, reqs, st, moves), 0);
    moves := ReadOne(q, reqs, st, moves, j, r);
    moves := CommitOne(q, reqs, st, moves, Played(q, reqs, st, moves), 1);
    moves := RemovesItsKey(q, reqs, st, moves, Played(q, reqs, st, moves), 0, k);
  }

  lemma RemovesItsKey(q: Quantities, reqs: seq<Request>, st: Stores, moves: seq<Move>, w: Office, c: nat, k: string)
    returns (moves': seq<Move>)
    requires w == Played(q, reqs, st, moves) && c < |w.clients| && w.clients[c].phase.Removing?
    requires k in Keys(w.clients[c].plan.remove) && k in Keys(w.stores.app.userSecrets)
    ensures !NamesAreHeld(Played(q, reqs, st, moves').stores)
  {
    moves' := GoOne(q, reqs, st, moves, w, c);
    NoKeys(w.clients[c].plan.remove);
    HeldWhenWritten(w.stores.secret, map[], w.clients[c].plan.remove);
  }
}
