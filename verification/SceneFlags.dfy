/** Which nodes are enabled and where new ones appear: the designated trees by the foreground state, every
    background always, and any other node as it was when it was last designated or made. */
module SceneFlags {
  import opened Foundation
  import opened StateMachine
  import opened StageFacts
  import opened StageInvariant

  // ---- Designated trees --------------------------------------------------------------------

  /** The flags of the designated trees, state by state. */
  lemma FlagsByState(s: State)
    requires StageInv(s)
    ensures var stage, fg := s.stage, s.session.fg;
            && (stage.shellTree.Some? ==>
                  (stage.shellTree.value in stage.enabled <==> fg in {ShellForeground, GameStarting, TerminatingGame}))
            && (stage.gameTree.Some? ==>
                  (stage.gameTree.value in stage.enabled <==> fg in {GameForeground, PlayosUi}))
            && (stage.overlayTree.Some? ==> (stage.overlayTree.value in stage.enabled <==> fg == PlayosUi))
  {
  }

  // ---- All other nodes ---------------------------------------------------------------------

  /** A node of both scenes that is not designated afterwards has kept its flag. */
  ghost predicate FlagsKept(a: Stage, b: Stage) {
    forall n | n in a.scene && n in b.scene && n !in DesignatedSet(b) :: n in b.enabled <==> n in a.enabled
  }

  lemma RefreshKeepsFlags(stage: Stage, u: Session)
    ensures var r := RefreshedStage(stage, u);
            forall n | n !in DesignatedSet(stage) :: n in r.enabled <==> n in stage.enabled
    ensures DesignatedSet(RefreshedStage(stage, u)) == DesignatedSet(stage)
  {
    assert Designated(RefreshedStage(stage, u)) == Designated(stage);
    forall n | n !in DesignatedSet(stage) ensures n in RefreshedStage(stage, u).enabled <==> n in stage.enabled {
      PointersDesignated(stage, n);
    }
  }

  lemma PointersDesignated(stage: Stage, n: Node)
    ensures stage.shellTree == Some(n) || stage.gameTree == Some(n) || stage.overlayTree == Some(n)
            ==> n in Designated(stage)
  {
    assert Designated(stage) == Pointer(stage.shellTree) + Pointer(stage.gameTree) + Pointer(stage.overlayTree);
  }

  /** Reclassifying writes no flag but those of the trees then designated. */
  lemma ReclassifyKeepsFlags(s: State)
    ensures forall n | n !in DesignatedSet(Reclassified(s).stage) ::
              n in Reclassified(s).stage.enabled <==> n in s.stage.enabled
  {
    RefreshKeepsFlags(Raised(Repointed(s)).stage, s.session);
  }

  lemma MovedFlags(s: State, target: Foreground)
    ensures forall n | n !in DesignatedSet(s.stage) :: n in Moved(s, target).stage.enabled <==> n in s.stage.enabled
    ensures DesignatedSet(Moved(s, target).stage) == DesignatedSet(s.stage)
    ensures Moved(s, target).stage.scene == s.stage.scene && Moved(s, target).stage.tracks == s.stage.tracks
  {
    if s.session.fg != target {
      var m := InForeground(OverlayReset(s, target), target);
      RefreshKeepsFlags(m.stage, m.session);
      assert m.stage == s.stage;
    }
  }

  /** What an event may do to the scene without toplevels coming or going. */
  ghost predicate SceneKept(a: Stage, b: Stage) {
    && b.scene == a.scene && b.tracks == a.tracks
    && DesignatedSet(b) == DesignatedSet(a)
    && forall n | n !in DesignatedSet(a) :: n in b.enabled <==> n in a.enabled
  }

  lemma MovedKept(s: State, target: Foreground)
    ensures SceneKept(s.stage, Moved(s, target).stage)
  {
    MovedFlags(s, target);
  }

  lemma ShownKept(s: State)
    ensures SceneKept(s.stage, Shown(s).stage)
  {
    var v := Told(WithOverlay(s, true), AboutToShow);
    MovedKept(v, PlayosUi);
    RefreshKeepsFlags(v.stage, v.session);
  }

  lemma HiddenKept(s: State)
    ensures SceneKept(s.stage, Hidden(s).stage)
  {
    var v := Told(WithOverlay(s, false), AboutToHide);
    MovedKept(v, if s.stage.gameTree.Some? then GameForeground else ShellForeground);
    RefreshKeepsFlags(v.stage, v.session);
  }

  lemma CommandKept(s: State, e: Event)
    requires e.SetExpectedGame? || e.ClearExpectedGame? || e.ForceTerminateGame? || e.ShowOverlay? || e.HideOverlay?
    ensures SceneKept(s.stage, Step(s, e).stage)
  {
    match e
    case SetExpectedGame(token, gameId) => MovedKept(Awaiting(s, token, gameId), GameStarting);
    case ClearExpectedGame => MovedKept(Forgotten(s), ShellForeground);
    case ForceTerminateGame => MovedKept(s, TerminatingGame);
    case ShowOverlay => ShownKept(s);
    case HideOverlay => HiddenKept(s);
  }

  lemma CommitKept(s: State, tree: Node, hasBuffer: bool)
    ensures SceneKept(s.stage, Step(s, Commit(tree, hasBuffer)).stage)
  {
    MovedKept(Sent(s.(session := s.session.(ready := true)), GameSurfaceReady(s.session.token)), GameForeground);
  }

  /** The events that add or remove a node, or resolve roles again. */
  predicate Rearranges(e: Event) {
    e.NewToplevel? || e.DestroyToplevel? || e.RegisterShell? || e.RegisterOverlay? || e.NewOutput?
  }

  lemma QuietKept(s: State, e: Event)
    requires !Rearranges(e)
    ensures SceneKept(s.stage, Step(s, e).stage)
  {
    if e.SetExpectedGame? || e.ClearExpectedGame? || e.ForceTerminateGame? || e.ShowOverlay? || e.HideOverlay? {
      CommandKept(s, e);
    } else if e.Commit? {
      CommitKept(s, e.tree, e.hasBuffer);
    } else if e.RequestDismiss? || e.Key? {
      ShownKept(s);
      HiddenKept(s);
    }
  }

  // ---- Where nodes come and go -------------------------------------------------------------

  lemma NewTreeScene(s: State, tree: Node, client: Client)
    requires StageInv(s) && tree !in s.stage.scene
    ensures var t := Reclassified(Tracked(s, tree, client)).stage;
            t.scene == Without(s.stage.scene + [tree], DesignatedSet(t)) + Designated(t)
  {
    var r := Repointed(Tracked(s, tree, client)).stage;
    AddedStaged(s, tree, client);
    DesignatedDistinct(r);
    RestackForm(r);
    assert Designated(Reclassified(Tracked(s, tree, client)).stage) == Designated(r);
  }

  /** A new toplevel's tree is the topmost of the undesignated ones, and enabled unless designated. */
  lemma NewTreeOnTop(s: State, tree: Node, client: Client)
    requires StageInv(s) && tree !in s.stage.scene
    ensures var t := Step(s, NewToplevel(tree, client)).stage;
            var d := DesignatedSet(t);
            && t.scene == Without(s.stage.scene + [tree], d) + Designated(t)
            && (tree !in d ==> tree in t.enabled)
            && forall n | n !in d && n != tree :: n in t.enabled <==> n in s.stage.enabled
  {
    NewTreeScene(s, tree, client);
    ReclassifyKeepsFlags(Tracked(s, tree, client));
  }

  lemma TrackedTrees(tracks: seq<Track>, t: Track)
    ensures TreesOf(tracks + [t]) == TreesOf(tracks) + {t.tree}
  {
    assert (tracks + [t])[|tracks|] == t;
    assert forall x | x in tracks :: x in tracks + [t];
  }

  lemma AddedStaged(s: State, tree: Node, client: Client)
    requires StageInv(s) && tree !in s.stage.scene
    ensures var r := Repointed(Tracked(s, tree, client)).stage; WellStaged(r) && Canonical(r)
  {
    var a := Tracked(s, tree, client);
    TrackedTrees(s.stage.tracks, Track(tree, client, Unclaimed));
    SameTrees(a.stage.tracks, Reassigned(a));
  }

  /** A new background is the lowest node, is enabled, and moves no other. */
  lemma NewBackground(s: State, background: Node)
    requires background !in s.stage.scene
    ensures var t := Step(s, NewOutput(background)).stage;
            && |t.scene| == |s.stage.scene| + 1 && t.scene[0] == background && t.scene[1..] == s.stage.scene
            && background in t.enabled
            && forall n | n != background :: n in t.enabled <==> n in s.stage.enabled
  {
  }

  // ---- Backgrounds -------------------------------------------------------------------------

  predicate IsBackground(stage: Stage, n: Node) {
    n in stage.scene && n !in TreesOf(stage.tracks)
  }

  ghost predicate BackgroundsShown(s: State) {
    forall n | IsBackground(s.stage, n) :: n in s.stage.enabled
  }

  lemma ReclassifiedScene(s: State)
    requires WellStaged(s.stage) && UiShowsOverlay(s.session)
    ensures var r := Reclassified(s).stage;
            && (forall n :: n in r.scene <==> n in s.stage.scene)
            && TreesOf(r.tracks) == TreesOf(s.stage.tracks)
            && DesignatedSet(r) <= TreesOf(r.tracks)
  {
    SameTrees(s.stage.tracks, Reassigned(s));
    RestackKeeps(Repointed(s).stage);
    ReclassifiedKeeps(s);
    DesignatedDistinct(Reclassified(s).stage);
  }

  /** After a reclassification the backgrounds are the same, with the same flags. */
  lemma ReclassifiedBackground(s: State, n: Node)
    requires WellStaged(s.stage) && UiShowsOverlay(s.session)
    ensures IsBackground(Reclassified(s).stage, n) <==> IsBackground(s.stage, n)
    ensures IsBackground(s.stage, n) ==> (n in Reclassified(s).stage.enabled <==> n in s.stage.enabled)
  {
    ReclassifiedScene(s);
    ReclassifyKeepsFlags(s);
  }

  lemma NewTreeBackground(s: State, tree: Node, client: Client, n: Node)
    requires StageInv(s) && tree !in s.stage.scene
    ensures var t := Step(s, NewToplevel(tree, client)).stage;
            && (IsBackground(t, n) <==> IsBackground(s.stage, n))
            && (IsBackground(s.stage, n) ==> (n in t.enabled <==> n in s.stage.enabled))
  {
    var a := Tracked(s, tree, client);
    TrackedTrees(s.stage.tracks, Track(tree, client, Unclaimed));
    ReclassifiedBackground(a, n);
  }

  lemma ExitedKept(d: State)
    ensures SceneKept(d.stage, GameExited(d).stage)
    ensures SceneKept(d.stage, Refreshed(d).stage)
  {
    MovedKept(d, ShellForeground);
    RefreshKeepsFlags(d.stage, d.session);
  }

  lemma KeptBackground(a: Stage, b: Stage, n: Node)
    requires SceneKept(a, b) && DesignatedSet(a) <= TreesOf(a.tracks)
    ensures IsBackground(b, n) <==> IsBackground(a, n)
    ensures IsBackground(a, n) ==> (n in b.enabled <==> n in a.enabled)
  {
  }

  lemma DetachedBackground(stage: Stage, tree: Node, n: Node)
    requires WellStaged(stage) && IsTracked(stage, tree)
    ensures var d := Detached(stage, tree);
            && (IsBackground(d, n) <==> IsBackground(stage, n))
            && (IsBackground(stage, n) ==> (n in d.enabled <==> n in stage.enabled))
  {
    TreesAfterDrop(stage.tracks, tree);
    WithoutMembers(stage.scene, {tree});
    TrackedTree(stage, tree);
  }

  lemma RemovedIs(s: State, tree: Node)
    requires StageInv(s) && IsTracked(s.stage, tree)
    ensures var d := Untracked(s, tree);
            && WellStaged(d.stage) && Canonical(d.stage)
            && ToplevelRemoved(s, tree)
               == (if RoleOf(s.stage.tracks, tree) == Game then GameExited(d) else Refreshed(d))
  {
    RemovedForm(s, tree);
  }

  lemma DestructionIs(s: State, tree: Node)
    ensures Step(s, DestroyToplevel(tree)) == ToplevelRemoved(s, tree)
  {
  }

  lemma RemovedKept(s: State, tree: Node)
    requires StageInv(s) && IsTracked(s.stage, tree)
    ensures SceneKept(Detached(s.stage, tree), Step(s, DestroyToplevel(tree)).stage)
    ensures DesignatedSet(Detached(s.stage, tree)) <= TreesOf(Detached(s.stage, tree).tracks)
  {
    var d := Untracked(s, tree);
    RemovedIs(s, tree);
    DestructionIs(s, tree);
    DesignatedDistinct(d.stage);
    ExitedKept(d);
  }

  lemma RemovedBackground(s: State, tree: Node, n: Node)
    requires StageInv(s) && IsTracked(s.stage, tree)
    ensures var t := Step(s, DestroyToplevel(tree)).stage;
            && (IsBackground(t, n) <==> IsBackground(s.stage, n))
            && (IsBackground(s.stage, n) ==> (n in t.enabled <==> n in s.stage.enabled))
  {
    RemovedKept(s, tree);
    KeptBackground(Detached(s.stage, tree), Step(s, DestroyToplevel(tree)).stage, n);
    DetachedBackground(s.stage, tree, n);
  }

  lemma TrackedTree(stage: Stage, tree: Node)
    requires IsTracked(stage, tree)
    ensures tree in TreesOf(stage.tracks)
  {
    var i :| 0 <= i < |stage.tracks| && stage.tracks[i].tree == tree;
    assert stage.tracks[i] in stage.tracks;
  }

  lemma ClaimedBackground(s: State, e: Event, n: Node)
    requires StageInv(s) && (e.RegisterShell? || e.RegisterOverlay?)
    ensures var t := Step(s, e).stage;
            && (IsBackground(t, n) <==> IsBackground(s.stage, n))
            && (IsBackground(s.stage, n) ==> (n in t.enabled <==> n in s.stage.enabled))
  {
    if e.RegisterShell? {
      ReclassifiedBackground(HeldByShell(s, e.client), n);
    } else {
      ReclassifiedBackground(HeldByOverlay(s, e.client), n);
    }
  }

  /** A background stays one, and stays as enabled as it was; only a new output makes another. */
  lemma BackgroundStep(s: State, e: Event, n: Node)
    requires StageInv(s) && Possible(s, e)
    ensures var t := Step(s, e).stage;
            && (IsBackground(t, n) <==> IsBackground(s.stage, n) || e == NewOutput(n))
            && (IsBackground(t, n) ==> (n in t.enabled <==> n in s.stage.enabled || e == NewOutput(n)))
  {
    if e.NewToplevel? {
      NewTreeBackground(s, e.tree, e.client, n);
    } else if e.DestroyToplevel? {
      RemovedBackground(s, e.tree, n);
    } else if e.RegisterShell? || e.RegisterOverlay? {
      ClaimedBackground(s, e, n);
    } else if e.NewOutput? {
      NewBackground(s, e.background);
      TreesInScene(s.stage, e.background);
    } else {
      QuietKept(s, e);
      DesignatedDistinct(s.stage);
    }
  }

  lemma TreesInScene(stage: Stage, n: Node)
    requires WellStaged(stage)
    ensures n in TreesOf(stage.tracks) ==> n in stage.scene
  {
    if t :| t in stage.tracks && t.tree == n {
      var i :| 0 <= i < |stage.tracks| && stage.tracks[i] == t;
    }
  }

  /** Over every run the backgrounds are exactly those the outputs brought, and all are enabled. */
  lemma {:induction false} BackgroundsAlwaysShown(es: seq<Event>, n: Node)
    requires Legal(es)
    ensures IsBackground(After(es).stage, n) <==> NewOutput(n) in es
    ensures IsBackground(After(es).stage, n) ==> n in After(es).stage.enabled
  {
    if es == [] {
    } else {
      var init, last := es[..|es| - 1], es[|es| - 1];
      LastStep(es);
      RunKeepsStage(init);
      BackgroundsAlwaysShown(init, n);
      BackgroundStep(After(init), last, n);
      assert es == init + [last];
    }
  }
}
