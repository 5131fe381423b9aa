/** The disconnection of a client: libwayland destroys its toplevels, its bindings and its role
    listeners one by one, in no promised order. Every complete order has the same outcome. */
module Teardown {
  import opened Foundation
  import opened StateMachine
  import opened StageFacts
  import opened StageInvariant
  import opened Protocol

  // ---- Role holders and bindings -----------------------------------------------------------

  /** A role's destroy listener is linked exactly to the client that holds the role; bindings are
      distinct. */
  ghost predicate TrustInv(trust: Trust) {
    && trust.shellListener == trust.shellClient
    && trust.overlayListener == trust.overlayClient
    && forall i, j | 0 <= i < j < |trust.bindings| :: trust.bindings[i].resource != trust.bindings[j].resource
  }

  lemma {:induction false} DropResourceMembers(bindings: seq<Binding>, resource: Resource)
    requires forall i, j | 0 <= i < j < |bindings| :: bindings[i].resource != bindings[j].resource
    ensures var r := DropResource(bindings, resource);
            && (forall b :: b in r <==> b in bindings && b.resource != resource)
            && forall i, j | 0 <= i < j < |r| :: r[i].resource != r[j].resource
  {
    if bindings == [] {
    } else {
      if bindings[0].resource == resource {
        assert forall b | b in bindings[1..] :: b.resource != resource;
      } else {
        DropResourceMembers(bindings[1..], resource);
        assert forall b | b in bindings[1..] :: b.resource != bindings[0].resource;
      }
    }
  }

  lemma StepKeepsTrust(s: State, e: Event)
    requires TrustInv(s.trust) && Possible(s, e)
    ensures TrustInv(Step(s, e).trust)
  {
    match e
    case DestroyResource(resource) => DropResourceMembers(s.trust.bindings, resource);
    case BindOverlay(client, resource) =>
      assert forall i | 0 <= i < |s.trust.bindings| :: s.trust.bindings[i].resource != resource;
    case _ =>
  }

  lemma {:induction false} RunKeepsTrust(es: seq<Event>)
    requires Legal(es)
    ensures TrustInv(After(es).trust)
  {
    if es == [] {
    } else {
      LastStep(es);
      RunKeepsTrust(es[..|es| - 1]);
      StepKeepsTrust(After(es[..|es| - 1]), es[|es| - 1]);
    }
  }

  function Holder(trust: Trust, shell: bool): Option<Client> {
    if shell then trust.shellClient else trust.overlayClient
  }

  /** The event is a claim of the role and is granted. */
  predicate Grants(s: State, e: Event, shell: bool) {
    && (if shell then e.RegisterShell? else e.RegisterOverlay?)
    && Holder(s.trust, shell).None?
  }

  predicate Releases(e: Event, shell: bool) {
    if shell then e.ShellGone? else e.OverlayGone?
  }

  /** Only a claim or the holder's disconnection changes who holds a role. */
  lemma HolderStep(s: State, e: Event, shell: bool)
    ensures Holder(Step(s, e).trust, shell) ==
            if Releases(e, shell) then None
            else if Grants(s, e, shell) then Some(e.client)
            else Holder(s.trust, shell)
  {
    match e
    case RegisterShell(client) =>
    case RegisterOverlay(client) =>
    case _ =>
  }

  /** Who holds the role after the first `n` events. */
  function HolderAt(es: seq<Event>, n: nat, shell: bool): Option<Client>
    requires n <= |es|
  {
    Holder(After(es[..n]).trust, shell)
  }

  /** Event `k` claims the role with success. */
  predicate Granted(es: seq<Event>, k: nat, shell: bool)
    requires k < |es|
  {
    Grants(After(es[..k]), es[k], shell)
  }

  /** The holder `client` disconnects at event `k`. */
  predicate Departs(es: seq<Event>, k: nat, client: Client, shell: bool)
    requires k < |es|
  {
    Releases(es[k], shell) && HolderAt(es, k, shell) == Some(client)
  }

  lemma HolderNext(es: seq<Event>, n: nat, shell: bool)
    requires n < |es|
    ensures HolderAt(es, n + 1, shell) ==
            if Releases(es[n], shell) then None
            else if Granted(es, n, shell) then Some(es[n].client)
            else HolderAt(es, n, shell)
    ensures Granted(es, n, shell) ==> HolderAt(es, n, shell).None?
  {
    assert es[..n + 1][..n] == es[..n];
    HolderStep(After(es[..n]), es[n], shell);
  }

  /** From a granted claim on, the holder keeps the role until its own disconnection. */
  lemma {:induction false} HolderStays(es: seq<Event>, a: nat, b: nat, shell: bool)
    requires a < b <= |es| && Granted(es, a, shell)
    ensures HolderAt(es, b, shell) == Some(es[a].client)
         || exists k :: a < k < b && Departs(es, k, es[a].client, shell)
  {
    HolderNext(es, b - 1, shell);
    if a < b - 1 {
      HolderStays(es, a, b - 1, shell);
      if k :| a < k < b - 1 && Departs(es, k, es[a].client, shell) {
        assert k < b;
      } else if Releases(es[b - 1], shell) {
        assert Departs(es, b - 1, es[a].client, shell);
      }
    }
  }

  /** Two granted claims of one role have the first holder's disconnection between them. */
  lemma ClaimsAreSeparated(es: seq<Event>, a: nat, b: nat, shell: bool)
    requires a < b < |es|
    requires Granted(es, a, shell) && Granted(es, b, shell)
    ensures exists k :: a < k < b && Departs(es, k, es[a].client, shell)
  {
    HolderStays(es, a, b, shell);
    HolderNext(es, b, shell);
  }

  // ---- One disconnection -------------------------------------------------------------------

  /** `e` destroys something `client` still owns. */
  ghost predicate Destroys(s: State, client: Client, e: Event) {
    match e
    case DestroyToplevel(tree) =>
      exists i :: 0 <= i < |s.stage.tracks| && s.stage.tracks[i].tree == tree && s.stage.tracks[i].client == client
    case DestroyResource(resource) =>
      exists i :: 0 <= i < |s.trust.bindings| && s.trust.bindings[i] == Binding(client, resource)
    case ShellGone => s.trust.shellListener == Some(client)
    case OverlayGone => s.trust.overlayListener == Some(client)
    case _ => false
  }

  ghost predicate Gone(s: State, client: Client) {
    && (forall i | 0 <= i < |s.stage.tracks| :: s.stage.tracks[i].client != client)
    && (forall i | 0 <= i < |s.trust.bindings| :: s.trust.bindings[i].client != client)
    && s.trust.shellClient != Some(client) && s.trust.overlayClient != Some(client)
  }

  function RunFrom(s: State, es: seq<Event>): State
    decreases |es|
  {
    if es == [] then s else RunFrom(Step(s, es[0]), es[1..])
  }

  /** `es` takes everything of the client down, in whatever order, until nothing is left. */
  ghost predicate FullTeardown(s: State, client: Client, es: seq<Event>)
    decreases |es|
  {
    if es == [] then Gone(s, client)
    else Destroys(s, client, es[0]) && FullTeardown(Step(s, es[0]), client, es[1..])
  }

  // ---- The outcome -------------------------------------------------------------------------

  function Survivors(tracks: seq<Track>, client: Client): seq<Track> {
    if tracks == [] then []
    else (if tracks[0].client == client then [] else [tracks[0]]) + Survivors(tracks[1..], client)
  }

  function OthersBindings(bindings: seq<Binding>, client: Client): seq<Binding> {
    if bindings == [] then []
    else (if bindings[0].client == client then [] else [bindings[0]]) + OthersBindings(bindings[1..], client)
  }

  function DeadTrees(tracks: seq<Track>, client: Client): set<Node> {
    set t | t in tracks && t.client == client :: t.tree
  }

  /** Some toplevel of the client has the stored role GAME. */
  predicate OwnsGame(tracks: seq<Track>, client: Client) {
    exists i :: 0 <= i < |tracks| && tracks[i].client == client && tracks[i].role == Game
  }

  function Spared(pointer: Option<Node>, dead: set<Node>): Option<Node> {
    if pointer.Some? && pointer.value in dead then None else pointer
  }

  function Released(holder: Option<Client>, client: Client): Option<Client> {
    if holder == Some(client) then None else holder
  }

  /** A disconnection ends the session iff the client owned a game; otherwise it changes nothing. */
  function TornSession(u: Session, game: bool): Session {
    if game then Session(ShellForeground, [], [], false, u.overlayVisible && u.fg == ShellForeground) else u
  }

  function TornStage(stage: Stage, client: Client, v: Session): Stage {
    var dead := DeadTrees(stage.tracks, client);
    RefreshedStage(Stage(Survivors(stage.tracks, client),
                         Spared(stage.shellTree, dead), Spared(stage.gameTree, dead), Spared(stage.overlayTree, dead),
                         Without(stage.scene, dead), stage.enabled - dead),
                   v)
  }

  function TornTrust(trust: Trust, client: Client): Trust {
    Trust(Released(trust.shellClient, client), Released(trust.overlayClient, client),
          Released(trust.shellListener, client), Released(trust.overlayListener, client),
          OthersBindings(trust.bindings, client),
          if trust.overlayResource.Some? && Binding(client, trust.overlayResource.value) in trust.bindings then None
          else trust.overlayResource)
  }

  /** What any complete teardown leaves: the client's toplevels, bindings and roles are gone, the
      rest stands as it was, and the session ends in the shell iff a game toplevel was among them.
      An overlay hidden on the way is told so at `target`. */
  function TornDown(s: State, client: Client, target: Option<Resource>): State {
    var v := TornSession(s.session, OwnsGame(s.stage.tracks, client));
    State(v, TornStage(s.stage, client, v), TornTrust(s.trust, client),
          s.sent + Announced(s.session, v), s.notices + Notified(s.session, v, target))
  }

  // ---- Each destruction brings the outcome no nearer and no further -------------------------

  lemma {:induction false} SurvivorsAll(tracks: seq<Track>, client: Client)
    requires forall i | 0 <= i < |tracks| :: tracks[i].client != client
    ensures Survivors(tracks, client) == tracks
  {
    if tracks == [] {
    } else {
      SurvivorsAll(tracks[1..], client);
    }
  }

  lemma {:induction false} OthersAll(bindings: seq<Binding>, client: Client)
    requires forall i | 0 <= i < |bindings| :: bindings[i].client != client
    ensures OthersBindings(bindings, client) == bindings
  {
    if bindings == [] {
    } else {
      OthersAll(bindings[1..], client);
    }
  }

  /** Nothing left to destroy: the outcome has been reached. */
  lemma NothingLeft(s: State, client: Client, target: Option<Resource>)
    requires StageInv(s) && TrustInv(s.trust) && Gone(s, client)
    ensures TornDown(s, client, target) == s
  {
    SurvivorsAll(s.stage.tracks, client);
    OthersAll(s.trust.bindings, client);
    assert DeadTrees(s.stage.tracks, client) == {};
    WithoutStrangers(s.stage.scene, {});
    assert s.stage.enabled - {} == s.stage.enabled;
    RefreshIdle(s.stage, s.session);
  }

  lemma {:induction false} SurvivorsAfterDrop(tracks: seq<Track>, i: nat, client: Client)
    requires i < |tracks| && tracks[i].client == client
    requires DistinctTrees(tracks)
    ensures Survivors(DropTree(tracks, tracks[i].tree), client) == Survivors(tracks, client)
  {
    if i == 0 {
    } else {
      assert tracks[0].tree != tracks[i].tree;
      SurvivorsAfterDrop(tracks[1..], i - 1, client);
    }
  }

  lemma {:induction false} OthersAfterDrop(bindings: seq<Binding>, resource: Resource, client: Client)
    requires Binding(client, resource) in bindings
    requires forall i, j | 0 <= i < j < |bindings| :: bindings[i].resource != bindings[j].resource
    ensures OthersBindings(DropResource(bindings, resource), client) == OthersBindings(bindings, client)
  {
    if bindings[0] != Binding(client, resource) {
      var i :| 0 < i < |bindings| && bindings[i] == Binding(client, resource);
      assert bindings[0].resource != bindings[i].resource;
      OthersAfterDrop(bindings[1..], resource, client);
    }
  }

  lemma OwnsGameMember(tracks: seq<Track>, client: Client)
    ensures OwnsGame(tracks, client) <==> exists t :: t in tracks && t.client == client && t.role == Game
  {
    if t :| t in tracks && t.client == client && t.role == Game {
      var k :| 0 <= k < |tracks| && tracks[k] == t;
    }
  }

  lemma TracksAfterDrop(stage: Stage, i: nat, client: Client)
    requires WellStaged(stage) && i < |stage.tracks| && stage.tracks[i].client == client
    ensures var t := stage.tracks[i];
            var rest := DropTree(stage.tracks, t.tree);
            && DeadTrees(stage.tracks, client) == {t.tree} + DeadTrees(rest, client)
            && (OwnsGame(stage.tracks, client) <==> t.role == Game || OwnsGame(rest, client))
  {
    var t := stage.tracks[i];
    var rest := DropTree(stage.tracks, t.tree);
    TreesAfterDrop(stage.tracks, t.tree);
    forall x | x in stage.tracks && x != t ensures x in rest {
      var j :| 0 <= j < |stage.tracks| && stage.tracks[j] == x;
      assert x.tree != t.tree;
    }
    OwnsGameMember(stage.tracks, client);
    OwnsGameMember(rest, client);
    assert t in stage.tracks;
  }

  /** A game's exit, seen on a stage that is already refreshed. */
  lemma ExitForm(d: State)
    requires FlagsFollow(d.stage, d.session)
    ensures var r := GameExited(d);
            && r.session == TornSession(d.session, true)
            && r.stage == RefreshedStage(d.stage, r.session)
            && r.trust == d.trust
  {
    if d.session.fg == ShellForeground { RefreshIdle(d.stage, d.session); }
  }

  /** The session after one toplevel is destroyed. */
  lemma RemovedSession(s: State, tree: Node)
    requires StageInv(s) && IsTracked(s.stage, tree)
    ensures var game := RoleOf(s.stage.tracks, tree) == Game;
            var r := ToplevelRemoved(s, tree);
            && r.session == TornSession(s.session, game)
            && r.stage == RefreshedStage(Detached(s.stage, tree), r.session)
            && r.trust == s.trust
            && r.sent == s.sent + Announced(s.session, r.session)
            && r.notices == s.notices + Notified(s.session, r.session, s.trust.overlayResource)
  {
    var d, r := Untracked(s, tree), ToplevelRemoved(s, tree);
    RemovedForm(s, tree);
    RemovedReports(s, tree);
    if RoleOf(s.stage.tracks, tree) == Game {
      assert r == GameExited(d);
      ExitForm(d);
    } else {
      assert r == Refreshed(d);
    }
  }

  lemma RemovedReports(s: State, tree: Node)
    ensures var r := ToplevelRemoved(s, tree);
            && r.sent == s.sent + Announced(s.session, r.session)
            && r.notices == s.notices + Notified(s.session, r.session, s.trust.overlayResource)
  {
    StepReports(s, DestroyToplevel(tree));
  }

  lemma TornTwice(u: Session, g1: bool, g2: bool, a: Option<Resource>, b: Option<Resource>)
    requires !g1 ==> a == b
    ensures var v := TornSession(u, g1);
            && TornSession(v, g2) == TornSession(u, g1 || g2)
            && Announced(u, v) + Announced(v, TornSession(v, g2)) == Announced(u, TornSession(u, g1 || g2))
            && Notified(u, v, a) + Notified(v, TornSession(v, g2), b) == Notified(u, TornSession(u, g1 || g2), a)
  {
  }

  /** Flags written before the last refresh only matter for trees that are no longer designated. */
  lemma FlagsSettle(enabled: set<Node>, a: Stage, u: Session, dead: set<Node>, b: Stage, v: Session)
    requires b.shellTree == Spared(a.shellTree, dead)
    requires b.gameTree == Spared(a.gameTree, dead)
    requires b.overlayTree == Spared(a.overlayTree, dead)
    ensures RefreshedStage(b.(enabled := RefreshedStage(a.(enabled := enabled), u).enabled - dead), v)
         == RefreshedStage(b.(enabled := enabled - dead), v)
  {
    var e1 := RefreshedStage(b.(enabled := RefreshedStage(a.(enabled := enabled), u).enabled - dead), v).enabled;
    var e2 := RefreshedStage(b.(enabled := enabled - dead), v).enabled;
    assert e1 == e2;
  }

  lemma StageAfterRemoval(s: State, i: nat, client: Client, v: Session)
    requires StageInv(s) && i < |s.stage.tracks| && s.stage.tracks[i].client == client
    ensures TornStage(ToplevelRemoved(s, s.stage.tracks[i].tree).stage, client, v) == TornStage(s.stage, client, v)
  {
    var t := s.stage.tracks[i];
    var d := Detached(s.stage, t.tree);
    var u := ToplevelRemoved(s, t.tree).session;
    var dead := DeadTrees(s.stage.tracks, client);
    var dead' := DeadTrees(d.tracks, client);
    RemovedSession(s, t.tree);
    SurvivorsAfterDrop(s.stage.tracks, i, client);
    TracksAfterDrop(s.stage, i, client);
    DetachedPointers(s.stage, t.tree);
    WithoutTwice(s.stage.scene, {t.tree}, dead');
    var b := Stage(Survivors(s.stage.tracks, client),
                   Spared(s.stage.shellTree, dead), Spared(s.stage.gameTree, dead), Spared(s.stage.overlayTree, dead),
                   Without(s.stage.scene, dead), {});
    FlagsSettle(s.stage.enabled - {t.tree}, d, u, dead', b, v);
    assert (s.stage.enabled - {t.tree}) - dead' == s.stage.enabled - dead;
    assert d.(enabled := s.stage.enabled - {t.tree}) == d;
  }

  lemma Regroup<T>(log: seq<T>, a: seq<T>, b: seq<T>, c: seq<T>)
    requires a + b == c
    ensures log + a + b == log + c
  {
    assert log + a + b == log + (a + b);
  }

  /** Where the overlay's last event goes once `e` has happened: a game's end sends it at once. */
  function TargetThrough(s: State, e: Event, later: Option<Resource>): Option<Resource> {
    if EndsGame(s, e) then s.trust.overlayResource else later
  }

  /** The resource promoted when the teardown reaches the first game toplevel. */
  function TargetOf(s: State, es: seq<Event>): Option<Resource>
    decreases |es|
  {
    if es == [] then None else TargetThrough(s, es[0], TargetOf(Step(s, es[0]), es[1..]))
  }

  lemma RemovedDown(s: State, client: Client, i: nat, target: Option<Resource>, first: Option<Resource>)
    requires StageInv(s) && i < |s.stage.tracks| && s.stage.tracks[i].client == client
    requires first == if s.stage.tracks[i].role == Game then s.trust.overlayResource else target
    ensures TornDown(ToplevelRemoved(s, s.stage.tracks[i].tree), client, target) == TornDown(s, client, first)
  {
    var t := s.stage.tracks[i];
    var r := ToplevelRemoved(s, t.tree);
    var v := TornSession(s.session, OwnsGame(s.stage.tracks, client));
    var more := OwnsGame(DropTree(s.stage.tracks, t.tree), client);
    RoleOfMeaning(s.stage.tracks, i);
    RemovedSession(s, t.tree);
    TracksAfterDrop(s.stage, i, client);
    assert TornSession(r.session, more) == v by { TornTwice(s.session, t.role == Game, more, first, target); }
    assert TornStage(r.stage, client, v) == TornStage(s.stage, client, v) by { StageAfterRemoval(s, i, client, v); }
    assert r.sent + Announced(r.session, v) == s.sent + Announced(s.session, v) by {
      TornTwice(s.session, t.role == Game, more, first, target);
      Regroup(s.sent, Announced(s.session, r.session), Announced(r.session, v), Announced(s.session, v));
    }
    assert r.notices + Notified(r.session, v, target) == s.notices + Notified(s.session, v, first) by {
      TornTwice(s.session, t.role == Game, more, first, target);
      Regroup(s.notices, Notified(s.session, r.session, first), Notified(r.session, v, target),
              Notified(s.session, v, first));
    }
  }

  lemma DestructionForm(s: State, tree: Node)
    ensures Step(s, DestroyToplevel(tree)) == ToplevelRemoved(s, tree)
    ensures EndsGame(s, DestroyToplevel(tree)) <==> RoleOf(s.stage.tracks, tree) == Game
  {
  }

  lemma ToplevelStep(s: State, client: Client, i: nat, target: Option<Resource>)
    requires StageInv(s) && i < |s.stage.tracks| && s.stage.tracks[i].client == client
    ensures var e := DestroyToplevel(s.stage.tracks[i].tree);
            TornDown(Step(s, e), client, target) == TornDown(s, client, TargetThrough(s, e, target))
  {
    var e := DestroyToplevel(s.stage.tracks[i].tree);
    var first := TargetThrough(s, e, target);
    RoleOfMeaning(s.stage.tracks, i);
    DestructionForm(s, e.tree);
    RemovedDown(s, client, i, target, first);
  }

  lemma ResourceStep(s: State, client: Client, resource: Resource, target: Option<Resource>)
    requires TrustInv(s.trust) && Destroys(s, client, DestroyResource(resource))
    ensures TornDown(ResourceRemoved(s, resource), client, target) == TornDown(s, client, target)
  {
    assert Binding(client, resource) in s.trust.bindings;
    OthersAfterDrop(s.trust.bindings, resource, client);
    DropResourceMembers(s.trust.bindings, resource);
  }

  lemma DestroyStep(s: State, client: Client, e: Event, target: Option<Resource>)
    requires StageInv(s) && TrustInv(s.trust) && Destroys(s, client, e)
    ensures Possible(s, e)
    ensures TornDown(Step(s, e), client, target) == TornDown(s, client, TargetThrough(s, e, target))
  {
    match e
    case DestroyToplevel(tree) =>
      var i: nat :| i < |s.stage.tracks| && s.stage.tracks[i].tree == tree && s.stage.tracks[i].client == client;
      ToplevelStep(s, client, i, target);
    case DestroyResource(resource) => ResourceStep(s, client, resource, target);
    case ShellGone =>
    case OverlayGone =>
  }

  /** Every complete teardown ends in the closed form; its order shows only in where the overlay's
      last event went. */
  lemma {:induction false} TeardownOutcome(s: State, client: Client, es: seq<Event>)
    requires StageInv(s) && TrustInv(s.trust) && FullTeardown(s, client, es)
    ensures RunFrom(s, es) == TornDown(s, client, TargetOf(s, es))
    ensures StageInv(RunFrom(s, es)) && TrustInv(RunFrom(s, es).trust)
    decreases |es|
  {
    if es == [] {
      NothingLeft(s, client, None);
    } else {
      DestroyStep(s, client, es[0], TargetOf(Step(s, es[0]), es[1..]));
      StepKeepsStage(s, es[0]);
      StepKeepsTrust(s, es[0]);
      TeardownOutcome(Step(s, es[0]), client, es[1..]);
    }
  }

  lemma TornDownMeaning(s: State, client: Client, target: Option<Resource>)
    ensures var t, game := TornDown(s, client, target), OwnsGame(s.stage.tracks, client);
            t.session == TornSession(s.session, game)
            && (!game ==> t.sent == s.sent && t.notices == s.notices)
  {
  }

  /** A disconnection ends the game iff the client owned a surface with the stored role GAME. Then,
      from any starting state, the shell is in front and the expectation is gone; otherwise the
      whole session, the overlay's visibility and both logs are untouched. */
  lemma DisconnectionEndsOnlyItsGame(s: State, client: Client, es: seq<Event>)
    requires StageInv(s) && TrustInv(s.trust) && FullTeardown(s, client, es)
    ensures var t := RunFrom(s, es);
            if OwnsGame(s.stage.tracks, client) then
              && t.session.fg == ShellForeground && t.session.token == [] && t.session.gameId == []
              && !t.session.ready
              && (s.session.fg != ShellForeground ==> !t.session.overlayVisible)
            else t.session == s.session && t.sent == s.sent && t.notices == s.notices
  {
    TeardownOutcome(s, client, es);
    TornDownMeaning(s, client, TargetOf(s, es));
  }

  /** Whatever a client owns, it can be torn down completely. */
  lemma {:induction false} TeardownExists(s: State, client: Client) returns (es: seq<Event>)
    requires StageInv(s) && TrustInv(s.trust)
    ensures FullTeardown(s, client, es)
    decreases |s.stage.tracks| + |s.trust.bindings|,
              if s.trust.shellClient.Some? then 1 else 0, if s.trust.overlayClient.Some? then 1 else 0
  {
    if Gone(s, client) { return []; }
    var e: Event;
    if i: nat :| i < |s.stage.tracks| && s.stage.tracks[i].client == client {
      e := DestroyToplevel(s.stage.tracks[i].tree);
      DropTreeForm(s.stage.tracks, i);
      RemovedSession(s, s.stage.tracks[i].tree);
    } else if i: nat :| i < |s.trust.bindings| && s.trust.bindings[i].client == client {
      e := DestroyResource(s.trust.bindings[i].resource);
      assert s.trust.bindings[i] == Binding(client, s.trust.bindings[i].resource);
      DropResourceShorter(s.trust.bindings, i);
    } else if s.trust.shellClient == Some(client) {
      e := ShellGone;
    } else {
      e := OverlayGone;
    }
    DestroyStep(s, client, e, None);
    StepKeepsStage(s, e);
    StepKeepsTrust(s, e);
    var rest := TeardownExists(Step(s, e), client);
    es := [e] + rest;
    assert es[1..] == rest;
  }

  lemma {:induction false} DropResourceShorter(bindings: seq<Binding>, i: nat)
    requires i < |bindings|
    ensures |DropResource(bindings, bindings[i].resource)| < |bindings|
  {
    if i > 0 && bindings[0].resource != bindings[i].resource { DropResourceShorter(bindings[1..], i - 1); }
  }

  // ---- Order -------------------------------------------------------------------------------

  /** The teardown hides a visible overlay whose promoted resource dies with the same client. */
  ghost predicate HidesDying(s: State, client: Client) {
    && OwnsGame(s.stage.tracks, client) && s.session.overlayVisible && s.session.fg != ShellForeground
    && s.trust.overlayResource.Some? && Binding(client, s.trust.overlayResource.value) in s.trust.bindings
  }

  ghost predicate SameButTargets(a: State, b: State) {
    && a.session == b.session && a.stage == b.stage && a.trust == b.trust && a.sent == b.sent
    && |a.notices| == |b.notices| && forall i | 0 <= i < |a.notices| :: a.notices[i].kind == b.notices[i].kind
  }

  /** While a promoted resource belongs to another client, a teardown leaves it promoted. */
  lemma {:induction false} TargetStands(s: State, client: Client, es: seq<Event>)
    requires StageInv(s) && TrustInv(s.trust) && FullTeardown(s, client, es)
    requires OwnsGame(s.stage.tracks, client)
    requires s.trust.overlayResource.Some? ==>
               Binding(client, s.trust.overlayResource.value) !in s.trust.bindings
    ensures TargetOf(s, es) == s.trust.overlayResource
    decreases |es|
  {
    var e := es[0];
    var t := Step(s, e);
    DestroyStep(s, client, e, None);
    StepKeepsStage(s, e);
    StepKeepsTrust(s, e);
    if !EndsGame(s, e) {
      OtherDestruction(s, client, e);
      TargetStands(t, client, es[1..]);
    }
  }

  /** Destroying anything but a game toplevel leaves the client's games, and the promoted resource
      unless it is the one destroyed. */
  lemma OtherDestruction(s: State, client: Client, e: Event)
    requires StageInv(s) && TrustInv(s.trust) && Destroys(s, client, e) && !EndsGame(s, e)
    ensures var t := Step(s, e);
            && (OwnsGame(t.stage.tracks, client) <==> OwnsGame(s.stage.tracks, client))
            && (forall b :: b in t.trust.bindings ==> b in s.trust.bindings)
            && t.trust.overlayResource ==
               (if e.DestroyResource? then Unpromoted(s.trust, e.resource) else s.trust.overlayResource)
  {
    match e
    case DestroyToplevel(tree) =>
      var i: nat :| i < |s.stage.tracks| && s.stage.tracks[i].tree == tree && s.stage.tracks[i].client == client;
      RoleOfMeaning(s.stage.tracks, i);
      RemovedSession(s, tree);
      TracksAfterDrop(s.stage, i, client);
    case DestroyResource(resource) => DropResourceMembers(s.trust.bindings, resource);
    case ShellGone =>
    case OverlayGone =>
  }

  function Unpromoted(trust: Trust, resource: Resource): Option<Resource> {
    if trust.overlayResource == Some(resource) then None else trust.overlayResource
  }

  /** Nothing is promoted during a teardown. */
  lemma {:induction false} NeverPromoted(s: State, client: Client, es: seq<Event>)
    requires StageInv(s) && TrustInv(s.trust) && FullTeardown(s, client, es) && s.trust.overlayResource == None
    ensures TargetOf(s, es) == None
    decreases |es|
  {
    if es == [] {
    } else {
      DestroyStep(s, client, es[0], None);
      StepKeepsStage(s, es[0]);
      StepKeepsTrust(s, es[0]);
      if !EndsGame(s, es[0]) {
        OtherDestruction(s, client, es[0]);
        NeverPromoted(Step(s, es[0]), client, es[1..]);
      }
    }
  }

  /** Two orders of taking the same client down agree on everything but the target of the event that
      hides the overlay, and on that too unless its resource dies with the client. */
  lemma TeardownOrderIrrelevant(s: State, client: Client, es: seq<Event>, fs: seq<Event>)
    requires StageInv(s) && TrustInv(s.trust)
    requires FullTeardown(s, client, es) && FullTeardown(s, client, fs)
    ensures SameButTargets(RunFrom(s, es), RunFrom(s, fs))
    ensures !HidesDying(s, client) ==> RunFrom(s, es) == RunFrom(s, fs)
  {
    TeardownOutcome(s, client, es);
    TeardownOutcome(s, client, fs);
    if !HidesDying(s, client) && OwnsGame(s.stage.tracks, client) && s.session.overlayVisible
       && s.session.fg != ShellForeground {
      TargetStands(s, client, es);
      TargetStands(s, client, fs);
    }
  }

  /** In that one case the order does show: two complete teardowns end in different logs. */
  lemma OrderShows(s: State, client: Client) returns (es: seq<Event>, fs: seq<Event>)
    requires StageInv(s) && TrustInv(s.trust) && HidesDying(s, client)
    ensures FullTeardown(s, client, es) && FullTeardown(s, client, fs)
    ensures RunFrom(s, es) != RunFrom(s, fs)
  {
    var i: nat :| i < |s.stage.tracks| && s.stage.tracks[i].client == client && s.stage.tracks[i].role == Game;
    var r := s.trust.overlayResource.value;
    var gameFirst, resourceFirst := DestroyToplevel(s.stage.tracks[i].tree), DestroyResource(r);
    RoleOfMeaning(s.stage.tracks, i);
    es := TeardownFrom(s, client, gameFirst);
    fs := TeardownFrom(s, client, resourceFirst);
    DestroyStep(s, client, resourceFirst, None);
    StepKeepsStage(s, resourceFirst);
    StepKeepsTrust(s, resourceFirst);
    NeverPromoted(Step(s, resourceFirst), client, fs[1..]);
    TeardownOutcome(s, client, es);
    TeardownOutcome(s, client, fs);
    assert RunFrom(s, es).notices[|s.notices|].target == Some(r);
    assert RunFrom(s, fs).notices[|s.notices|].target == None;
  }

  /** The order of a teardown shows exactly when it hides an overlay that dies with the client. */
  lemma OrderShowsIff(s: State, client: Client)
    requires StageInv(s) && TrustInv(s.trust)
    ensures HidesDying(s, client)
       <==> exists es, fs :: FullTeardown(s, client, es) && FullTeardown(s, client, fs)
                             && RunFrom(s, es) != RunFrom(s, fs)
  {
    if HidesDying(s, client) {
      var es, fs := OrderShows(s, client);
    } else {
      forall es, fs | FullTeardown(s, client, es) && FullTeardown(s, client, fs)
        ensures RunFrom(s, es) == RunFrom(s, fs)
      {
        TeardownOrderIrrelevant(s, client, es, fs);
      }
    }
  }

  /** A complete teardown that starts with the given destruction. */
  lemma TeardownFrom(s: State, client: Client, e: Event) returns (es: seq<Event>)
    requires StageInv(s) && TrustInv(s.trust) && Destroys(s, client, e)
    ensures FullTeardown(s, client, es) && es != [] && es[0] == e
  {
    DestroyStep(s, client, e, None);
    StepKeepsStage(s, e);
    StepKeepsTrust(s, e);
    var rest := TeardownExists(Step(s, e), client);
    es := [e] + rest;
    assert es[1..] == rest;
  }
}
