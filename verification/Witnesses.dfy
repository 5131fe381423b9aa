/** Inputs the code can receive on which it lacks a property one would like it to have. Each fails the
    condition that the property's own lemma gives. */
module Witnesses {
  import opened Foundation
  import opened StateMachine
  import opened StageInvariant
  import opened Sessions
  import opened Teardown
  import opened GamePresence
  import opened Roles
  import opened Launch
  import opened Buttons
  import opened Protocol
  import opened OverlayNotices

  lemma InitialIsReachable()
    ensures Reachable(INITIAL)
  {
    assert Legal([]) && After([]) == INITIAL;
  }

  /** The only toplevel of a client. */
  ghost predicate Alone(s: State, tree: Node, client: Client, role: Role) {
    s.stage.tracks == [Track(tree, client, role)] && s.stage.scene == [tree]
  }

  lemma FirstSurface(s: State, tree: Node, client: Client)
    requires s.stage.tracks == [] && s.stage.scene == []
    ensures var t := Step(s, NewToplevel(tree, client));
            && Alone(t, tree, client, RoleFor(s.session.fg, s.trust, client))
            && t.session == s.session && t.trust == s.trust
            && t.stage.gameTree == if RoleFor(s.session.fg, s.trust, client) == Game then Some(tree) else None
  {
    var a := Tracked(s, tree, client);
    var tracks := Reassigned(a);
    var role := RoleFor(s.session.fg, s.trust, client);
    assert tracks == [Track(tree, client, role)];
    assert a.stage.scene == [tree];
    assert Oldest(tracks[1..], Game) == Oldest(tracks[1..], Shell) == Oldest(tracks[1..], Overlay) == None;
    assert Without([tree], {tree}) == [];
  }

  // ---- A surface from before the launch -----------------------------------------------------

  /** A surface that a client without a role made before the game was expected covers the launched
      game: its tree is the one designated and on top. */
  lemma StaleSurfaceCovers(token: bytes, gameId: bytes)
    ensures var s := Step(INITIAL, NewToplevel(1, 7));
            var c := Step(Step(Step(s, SetExpectedGame(token, gameId)), NewToplevel(2, 9)), Commit(2, true));
            && Reachable(s) && Reachable(c) && c.session.fg == GameForeground
            && c.stage.gameTree == Some(1) && Topmost(c.stage, 1)
  {
    var s := Step(INITIAL, NewToplevel(1, 7));
    InitialIsReachable();
    ReachableStep(INITIAL, NewToplevel(1, 7));
    FirstSurface(INITIAL, 1, 7);
    LaunchSucceeds(s, token, gameId, 2, 9);
    assert OldestUnprivileged(s.stage.tracks, s.trust) == Some(1);
  }

  // ---- A game after termination -------------------------------------------------------------

  /** While a game is being terminated nothing is expected, yet a new surface is taken for the game. */
  lemma GameWhileTerminating()
    ensures var s := Step(INITIAL, ForceTerminateGame);
            var t := Step(s, NewToplevel(1, 7));
            && Reachable(t) && t.session.fg == TerminatingGame && t.session.token == [] && t.session.gameId == []
            && t.stage.gameTree == Some(1)
  {
    var s := Step(INITIAL, ForceTerminateGame);
    InitialIsReachable();
    ReachableStep(INITIAL, ForceTerminateGame);
    FirstSurface(s, 1, 7);
    ReachableStep(s, NewToplevel(1, 7));
  }

  // ---- A game in front without a tree -------------------------------------------------------

  lemma OnlyGameClaimsShell(c: State, client: Client)
    requires Alone(c, 1, client, Game) && c.session.fg == GameForeground && c.trust == INITIAL.trust
    ensures var d := Step(c, RegisterShell(client));
            d.stage.gameTree == None && d.session == c.session
  {
    var h := HeldByShell(c, client);
    assert Reassigned(h) == [Track(1, client, Shell)];
    assert Oldest(Reassigned(h)[1..], Game) == None;
  }

  lemma FrameMovesNothing(b: State, tree: Node)
    requires b.session.fg == GameStarting
    ensures var c := Step(b, Commit(tree, true));
            && c.stage.tracks == b.stage.tracks && c.stage.scene == b.stage.scene && c.trust == b.trust
            && c.session.overlayVisible == b.session.overlayVisible
  {
  }

  lemma FirstExpectation(token: bytes, gameId: bytes)
    ensures var a := Step(INITIAL, SetExpectedGame(token, gameId));
            && a.stage.tracks == [] && a.stage.scene == [] && a.trust == INITIAL.trust
            && a.session.fg == GameStarting && !a.session.overlayVisible
  {
  }

  lemma LaunchedAlone(token: bytes, gameId: bytes, client: Client)
    ensures var b := Step(Step(INITIAL, SetExpectedGame(token, gameId)), NewToplevel(1, client));
            var c := Step(b, Commit(1, true));
            && Reachable(c) && Alone(c, 1, client, Game) && c.trust == INITIAL.trust
            && c.session.fg == GameForeground && !c.session.overlayVisible
  {
    var a := Step(INITIAL, SetExpectedGame(token, gameId));
    var b := Step(a, NewToplevel(1, client));
    InitialIsReachable();
    LaunchSucceeds(INITIAL, token, gameId, 1, client);
    FirstExpectation(token, gameId);
    FirstSurface(a, 1, client);
    FrameMovesNothing(b, 1);
  }

  /** A client that is the game claims the shell role: GAME_FOREGROUND is left without a game tree, and
      two presses of the SYSTEM button do not lead back to it. */
  lemma RoundTripLost(token: bytes, gameId: bytes)
    ensures exists s ::
              && Reachable(s) && s.session.fg == GameForeground && !s.session.overlayVisible
              && s.stage.gameTree == None
              && KeyHandled(KeyHandled(s, BTN_MODE, true), BTN_MODE, true).session.fg == ShellForeground
  {
    var b := Step(Step(INITIAL, SetExpectedGame(token, gameId)), NewToplevel(1, 7));
    var c := Step(b, Commit(1, true));
    var d := Step(c, RegisterShell(7));
    LaunchedAlone(token, gameId, 7);
    OnlyGameClaimsShell(c, 7);
    ReachableStep(c, RegisterShell(7));
    ReachableStage(d);
    RoundTripNeedsGameTree(d, BTN_MODE, BTN_MODE);
  }

  // ---- A game surface that outlives the designated one ---------------------------------------

  lemma SecondTracks(b: State, n: Node, p: Client, m: Node, q: Client)
    requires b.stage.tracks == [Track(n, p, Game)] && b.session.fg == GameStarting
    requires Unprivileged(b.trust, p) && Unprivileged(b.trust, q)
    ensures Step(b, NewToplevel(m, q)).stage.tracks == [Track(n, p, Game), Track(m, q, Game)]
    ensures OldestUnprivileged(b.stage.tracks, b.trust) == Some(n)
  {
    var roles := Reassigned(Tracked(b, m, q));
    assert |roles| == 2 && roles[0] == Track(n, p, Game) && roles[1] == Track(m, q, Game);
    assert Step(b, NewToplevel(m, q)).stage.tracks == roles;
  }

  lemma SecondSurface(b: State, n: Node, p: Client, m: Node, q: Client)
    requires b.stage.tracks == [Track(n, p, Game)] && b.session.fg == GameStarting
    requires Unprivileged(b.trust, p) && Unprivileged(b.trust, q)
    ensures var c := Step(b, NewToplevel(m, q));
            && c.stage.tracks == [Track(n, p, Game), Track(m, q, Game)]
            && c.stage.gameTree == Some(n) && c.session == b.session
  {
    SecondTracks(b, n, p, m, q);
    OtherMoves(b, NewToplevel(m, q));
    ReclassifiedGame(Tracked(b, m, q));
    OldestAppend(b.stage.tracks, Track(m, q, Unclaimed), b.trust);
  }

  lemma DesignatedDies(c: State, n: Node, p: Client, m: Node, q: Client)
    requires Reachable(c) && c.stage.tracks == [Track(n, p, Game), Track(m, q, Game)]
    requires c.stage.gameTree == Some(n) && c.session.fg == GameStarting
    ensures var d := Step(c, DestroyToplevel(n));
            && Reachable(d) && d.stage.tracks == [Track(m, q, Game)] && d.stage.gameTree == None
            && d.session.fg == ShellForeground
  {
    ReachableStage(c);
    assert c.stage.tracks[0].tree == n;
    ReachableStep(c, DestroyToplevel(n));
    RemovedSession(c, n);
    assert DropTree(c.stage.tracks, n) == [Track(m, q, Game)];
  }

  lemma SurvivorCommits(d: State, token: bytes, gameId: bytes)
    requires Reachable(d) && d.stage.tracks == [Track(2, 8, Game)] && d.stage.gameTree == None
    requires d.session.fg == ShellForeground
    ensures var e := Step(d, SetExpectedGame(token, gameId));
            var f := Step(e, Commit(2, true));
            Reachable(f) && Loses(e, Commit(2, true)) && f.session.fg == GameForeground && f.stage.gameTree == None
  {
    var e := Step(d, SetExpectedGame(token, gameId));
    ReachableStep(d, SetExpectedGame(token, gameId));
    SetStep(d, token, gameId);
    ExpectingFrame(d, token, gameId);
    OthersKeepGameTree(d, SetExpectedGame(token, gameId));
    OthersKeepGameTree(e, Commit(2, true));
    SurfaceMoves(e, Commit(2, true));
    ReachableStep(e, Commit(2, true));
  }

  /** The second of two game surfaces outlives the first, and its next buffer starts another game that
      has no tree. */
  lemma SurvivorStarts(token: bytes, gameId: bytes)
    ensures exists s: State, e: Event ::
              && Reachable(s) && e.Commit? && Loses(s, e)
              && Step(s, e).session.fg == GameForeground && Step(s, e).stage.gameTree == None
  {
    var a := Step(INITIAL, SetExpectedGame(token, gameId));
    var b := Step(a, NewToplevel(1, 7));
    var c := Step(b, NewToplevel(2, 8));
    var d := Step(c, DestroyToplevel(1));
    InitialIsReachable();
    ReachableStep(INITIAL, SetExpectedGame(token, gameId));
    FirstExpectation(token, gameId);
    FirstSurface(a, 1, 7);
    ReachableStep(a, NewToplevel(1, 7));
    SecondSurface(b, 1, 7, 2, 8);
    ReachableStep(b, NewToplevel(2, 8));
    DesignatedDies(c, 1, 7, 2, 8);
    SurvivorCommits(d, token, gameId);
    ReachableStep(d, SetExpectedGame(token, gameId));
  }

  // ---- An order that shows -------------------------------------------------------------------

  lemma HolderGone()
    ensures var s := Step(Step(Step(INITIAL, BindOverlay(5, 9)), RegisterOverlay(5)), OverlayGone);
            && Reachable(s) && s.stage.tracks == [] && s.stage.scene == [] && s.session == INITIAL.session
            && s.trust == Trust(None, None, None, None, [Binding(5, 9)], Some(9))
  {
    var a := Step(INITIAL, BindOverlay(5, 9));
    var b := Step(a, RegisterOverlay(5));
    InitialIsReachable();
    ReachableStep(INITIAL, BindOverlay(5, 9));
    ReachableStep(a, RegisterOverlay(5));
    ReachableStep(b, OverlayGone);
    assert Newest(a.trust.bindings, 5) == Some(9);
    assert Reassigned(HeldByOverlay(a, 5)) == [];
  }

  /** Were an overlay's role to go well before its resource, the same client could become the game, and
      the order of its end would show. */
  lemma OrderCanShow(token: bytes, gameId: bytes)
    ensures exists s :: Reachable(s) && HidesDying(s, 5)
  {
    var s := Step(Step(Step(INITIAL, BindOverlay(5, 9)), RegisterOverlay(5)), OverlayGone);
    var a := Step(s, SetExpectedGame(token, gameId));
    var b := Step(a, NewToplevel(1, 5));
    var c := Step(b, Commit(1, true));
    HolderGone();
    LaunchSucceeds(s, token, gameId, 1, 5);
    ExpectingFrame(s, token, gameId);
    SetStep(s, token, gameId);
    FirstSurface(a, 1, 5);
    FrameMovesNothing(b, 1);
    ReachableStep(c, ShowOverlay);
    ShownGame(c);
  }

  lemma ShownGame(c: State)
    requires Alone(c, 1, 5, Game) && c.session.fg == GameForeground
    requires c.trust == Trust(None, None, None, None, [Binding(5, 9)], Some(9))
    ensures HidesDying(Step(c, ShowOverlay), 5)
  {
    var d := Step(c, ShowOverlay);
    assert d.trust == c.trust && d.stage.tracks == c.stage.tracks;
    assert d.stage.tracks[0] == Track(1, 5, Game);
    assert d.session.overlayVisible;
  }

  // ---- A stray show -------------------------------------------------------------------------

  /** A ShowOverlay in the shell leaves the overlay visible outside the UI state. */
  lemma StrayShow()
    ensures Legal([ShowOverlay]) && !AlwaysUi([ShowOverlay])
    ensures After([ShowOverlay]).session == INITIAL.session.(overlayVisible := true)
  {
    var es := [ShowOverlay];
    assert es[..0] == [] && es[..1] == es;
    assert !UiAt(es, 1);
  }

  /** An overlay that connects after such a show is never told of it. */
  lemma LateOverlay()
    ensures var s := Step(Step(Step(INITIAL, ShowOverlay), BindOverlay(5, 9)), RegisterOverlay(5));
            Reachable(s) && IsPromoted(s, 9) && s.session.overlayVisible && !Believed(s.notices, 9)
  {
    var a := Step(INITIAL, ShowOverlay);
    var b := Step(a, BindOverlay(5, 9));
    var s := Step(b, RegisterOverlay(5));
    InitialIsReachable();
    ReachableStep(INITIAL, ShowOverlay);
    ReachableStep(a, BindOverlay(5, 9));
    ReachableStep(b, RegisterOverlay(5));
    BeliefStep(INITIAL, ShowOverlay, 9);
    BeliefStep(a, BindOverlay(5, 9), 9);
    BeliefStep(b, RegisterOverlay(5), 9);
    OtherMoves(a, BindOverlay(5, 9));
    OtherMoves(b, RegisterOverlay(5));
    assert Newest(b.trust.bindings, 5) == Some(9);
  }
}
