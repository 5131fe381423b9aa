/** When a game in front has a tree: GAME_FOREGROUND and the UI speak of a game, and two kinds of event
    leave them without one. */
module GamePresence {
  import opened Foundation
  import opened StateMachine
  import opened StageFacts
  import opened StageInvariant
  import opened Sessions
  import opened Protocol
  import opened Roles
  import opened Launch
  import opened Teardown

  /** A state that shows a game has a game tree to show. */
  predicate HasGame(s: State) {
    GameShown(s.session) ==> s.stage.gameTree.Some?
  }

  /** No client without a role, other than the claimant, has a surface. */
  ghost predicate OnlyClaimant(s: State, client: Client) {
    forall t | t in s.stage.tracks :: t.client == client || !Unprivileged(s.trust, t.client)
  }

  ghost predicate ClaimsLastGame(s: State, e: Event) {
    && (e.RegisterShell? || e.RegisterOverlay?) && Holder(s.trust, e.RegisterShell?).None?
    && OnlyClaimant(s, e.client)
  }

  /** The game is lost: a frame of a surface that outlived the designated one starts a game, or the
      only client without a role claims one. */
  ghost predicate Loses(s: State, e: Event) {
    || (s.session.fg == GameStarting && IsGameFrame(s, e) && s.stage.gameTree.None?)
    || (GameShown(s.session) && ClaimsLastGame(s, e))
  }

  // ---- One step ----------------------------------------------------------------------------

  lemma ReclassifiedGame(s: State)
    requires s.session.fg != ShellForeground
    ensures Reclassified(s).stage.gameTree == OldestUnprivileged(s.stage.tracks, s.trust)
  {
    assert Reclassified(s).stage.gameTree == Oldest(Reassigned(s), Game);
    GameIsUnprivileged(s.stage.tracks, s.session.fg, s.trust);
  }

  lemma HeldGame(s: State, h: State, client: Client)
    requires s.session.fg != ShellForeground && h.session == s.session && h.stage == s.stage
    requires forall c :: Unprivileged(h.trust, c) <==> Unprivileged(s.trust, c) && c != client
    ensures Reclassified(h).stage.gameTree.None? <==> OnlyClaimant(s, client)
  {
    ReclassifiedGame(h);
    OldestUnprivilegedMeaning(s.stage.tracks, h.trust);
  }

  lemma ClaimKeepsGame(s: State, e: Event)
    requires HasGame(s) && (e.RegisterShell? || e.RegisterOverlay?)
    ensures HasGame(Step(s, e)) <==> !Loses(s, e)
  {
    OtherMoves(s, e);
    if GameShown(s.session) && Holder(s.trust, e.RegisterShell?).None? {
      if e.RegisterShell? {
        HeldGame(s, HeldByShell(s, e.client), e.client);
      } else {
        HeldGame(s, HeldByOverlay(s, e.client), e.client);
      }
    }
  }

  /** A designated game belongs to a client without a role. */
  lemma GameTrackExists(s: State)
    requires StageInv(s) && RolesFit(s) && s.stage.gameTree.Some?
    ensures exists t :: t in s.stage.tracks && Unprivileged(s.trust, t.client)
  {
    OldestMeaning(s.stage.tracks, Game);
    var i :| IsOldest(s.stage.tracks, Game, i) && s.stage.gameTree == Some(s.stage.tracks[i].tree);
    assert RoleFits(s.stage.tracks[i], s.trust);
    assert s.stage.tracks[i] in s.stage.tracks;
  }

  lemma NewSurfaceKeepsGame(s: State, tree: Node, client: Client)
    requires StageInv(s) && RolesFit(s) && HasGame(s)
    ensures HasGame(Step(s, NewToplevel(tree, client)))
  {
    OtherMoves(s, NewToplevel(tree, client));
    if GameShown(s.session) {
      GameTrackExists(s);
      StillSomeGame(s.stage.tracks, Track(tree, client, Unclaimed), s.trust);
      ReclassifiedGame(Tracked(s, tree, client));
    }
  }

  lemma StillSomeGame(tracks: seq<Track>, added: Track, trust: Trust)
    requires exists t :: t in tracks && Unprivileged(trust, t.client)
    ensures OldestUnprivileged(tracks + [added], trust).Some?
  {
    var t :| t in tracks && Unprivileged(trust, t.client);
    assert t in tracks + [added];
    OldestUnprivilegedMeaning(tracks + [added], trust);
  }

  lemma DestructionKeepsGame(s: State, tree: Node)
    requires StageInv(s) && HasGame(s) && IsTracked(s.stage, tree)
    ensures HasGame(Step(s, DestroyToplevel(tree)))
  {
    RemovedSession(s, tree);
    DetachedPointers(s.stage, tree);
    if s.stage.gameTree == Some(tree) { PointerRole(s.stage, s.stage.gameTree, Game, tree); }
  }

  /** Every other event leaves the designated game alone. */
  lemma OthersKeepGameTree(s: State, e: Event)
    requires !e.NewToplevel? && !e.RegisterShell? && !e.RegisterOverlay? && !e.DestroyToplevel?
    ensures Step(s, e).stage.gameTree == s.stage.gameTree
  {
  }

  lemma StepKeepsGame(s: State, e: Event)
    requires StageInv(s) && RolesFit(s) && HasGame(s) && Possible(s, e)
    requires s.session.fg == GameStarting ==> !s.session.ready
    ensures HasGame(Step(s, e)) <==> !Loses(s, e)
  {
    if e.RegisterShell? || e.RegisterOverlay? {
      ClaimKeepsGame(s, e);
    } else if e.NewToplevel? {
      NewSurfaceKeepsGame(s, e.tree, e.client);
    } else if e.DestroyToplevel? {
      DestructionKeepsGame(s, e.tree);
    } else {
      OthersKeepGameTree(s, e);
      TableStep(s, e);
    }
  }

  // ---- Runs --------------------------------------------------------------------------------

  ghost predicate HasGameAt(es: seq<Event>, n: nat)
    requires n <= |es|
  {
    HasGame(After(es[..n]))
  }

  ghost predicate KeepsAt(es: seq<Event>, k: nat)
    requires k < |es|
  {
    !Loses(After(es[..k]), es[k])
  }

  ghost predicate AlwaysHasGame(es: seq<Event>) {
    forall n | 0 <= n <= |es| :: HasGameAt(es, n)
  }

  ghost predicate AlwaysKeeps(es: seq<Event>) {
    forall k | 0 <= k < |es| :: KeepsAt(es, k)
  }

  lemma SamePrefix(es: seq<Event>, n: nat)
    requires n < |es|
    ensures var init := es[..|es| - 1];
            HasGameAt(init, n) == HasGameAt(es, n) && (n < |init| ==> KeepsAt(init, n) == KeepsAt(es, n))
  {
    assert es[..|es| - 1][..n] == es[..n];
  }

  lemma AlwaysHasGameLast(es: seq<Event>)
    requires es != []
    ensures AlwaysHasGame(es) <==> AlwaysHasGame(es[..|es| - 1]) && HasGameAt(es, |es|)
  {
    var init := es[..|es| - 1];
    if AlwaysHasGame(es) {
      forall n | 0 <= n <= |init| ensures HasGameAt(init, n) { SamePrefix(es, n); }
    } else {
      var n :| 0 <= n <= |es| && !HasGameAt(es, n);
      if n < |es| { SamePrefix(es, n); }
    }
  }

  lemma AlwaysKeepsLast(es: seq<Event>)
    requires es != []
    ensures AlwaysKeeps(es) <==> AlwaysKeeps(es[..|es| - 1]) && KeepsAt(es, |es| - 1)
  {
    var init := es[..|es| - 1];
    if AlwaysKeeps(es) {
      forall k | 0 <= k < |init| ensures KeepsAt(init, k) { SamePrefix(es, k); }
    } else {
      var k :| 0 <= k < |es| && !KeepsAt(es, k);
      if k < |init| { SamePrefix(es, k); }
    }
  }

  lemma ReachedStep(es: seq<Event>, e: Event)
    requires Legal(es) && HasGame(After(es)) && Possible(After(es), e)
    ensures HasGame(Step(After(es), e)) <==> !Loses(After(es), e)
  {
    RunKeepsStage(es);
    RunKeepsRoles(es);
    SessionHistory(es);
    StepKeepsGame(After(es), e);
  }

  /** A game in front has a tree throughout a run iff no event of the run loses it. */
  lemma {:induction false} GameIsPresent(es: seq<Event>)
    requires Legal(es)
    ensures AlwaysHasGame(es) <==> AlwaysKeeps(es)
  {
    if es == [] {
      assert forall n | 0 <= n <= |es| :: es[..n] == [];
    } else {
      var init := es[..|es| - 1];
      LastStep(es);
      GameIsPresent(init);
      AlwaysHasGameLast(es);
      AlwaysKeepsLast(es);
      assert es[..|es|] == es && init[..|init|] == init;
      if AlwaysHasGame(init) {
        assert HasGameAt(init, |init|);
        ReachedStep(init, es[|es| - 1]);
      }
    }
  }

  /** In such a run the game itself is what GAME_FOREGROUND shows. */
  lemma GameIsSeen(es: seq<Event>)
    requires Legal(es) && AlwaysKeeps(es) && After(es).session.fg == GameForeground
    ensures After(es).stage.gameTree.Some? && Topmost(After(es).stage, After(es).stage.gameTree.value)
  {
    GameIsPresent(es);
    assert es[..|es|] == es && HasGameAt(es, |es|);
    RunKeepsStage(es);
    ForegroundOnTop(After(es));
  }
}
