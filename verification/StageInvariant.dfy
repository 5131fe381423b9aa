/** Every event keeps the stage invariant, and what the invariant shows on screen. */
module StageInvariant {
  import opened Foundation
  import opened StateMachine
  import opened StageFacts

  ghost predicate Staged(stage: Stage) {
    WellStaged(stage) && Canonical(stage) && OnTop(stage)
  }

  ghost predicate UiShowsOverlay(u: Session) {
    u.fg == PlayosUi ==> u.overlayVisible
  }

  lemma RefreshedKeeps(s: State)
    requires Staged(s.stage) && UiShowsOverlay(s.session)
    ensures StageInv(Refreshed(s))
  {
    DesignatedDistinct(s.stage);
    RefreshFlags(s.stage, s.session);
    assert Designated(Refreshed(s).stage) == Designated(s.stage);
  }

  lemma MovedAway(s: State, target: Foreground)
    requires Staged(s.stage) && s.session.fg != target
    requires target == PlayosUi ==> s.session.overlayVisible
    ensures StageInv(Moved(s, target))
  {
    RefreshedKeeps(InForeground(OverlayReset(s, target), target));
  }

  lemma MovedKeeps(s: State, target: Foreground)
    requires StageInv(s)
    requires target == PlayosUi ==> s.session.overlayVisible
    ensures StageInv(Moved(s, target))
  {
    if s.session.fg != target { MovedAway(s, target); }
  }

  lemma ReclassifiedKeeps(s: State)
    requires WellStaged(s.stage) && UiShowsOverlay(s.session)
    ensures StageInv(Reclassified(s))
  {
    SameTrees(s.stage.tracks, Reassigned(s));
    RestackKeeps(Repointed(s).stage);
    RefreshedKeeps(Raised(Repointed(s)));
  }

  lemma SameTrees(a: seq<Track>, b: seq<Track>)
    requires |a| == |b| && forall i | 0 <= i < |a| :: a[i].tree == b[i].tree
    ensures TreesOf(a) == TreesOf(b)
  {
    forall n ensures n in TreesOf(a) <==> n in TreesOf(b) {
      if n in TreesOf(a) { var i :| 0 <= i < |a| && a[i].tree == n; assert b[i] in b; }
      if n in TreesOf(b) { var i :| 0 <= i < |b| && b[i].tree == n; assert a[i] in a; }
    }
  }

  lemma AddedKeeps(s: State, tree: Node, client: Client)
    requires StageInv(s) && tree !in s.stage.scene
    ensures StageInv(ToplevelAdded(s, tree, client))
  {
    var stage := Tracked(s, tree, client).stage;
    assert TreesOf(stage.tracks) == TreesOf(s.stage.tracks) + {tree} by {
      assert stage.tracks[|s.stage.tracks|] == Track(tree, client, Unclaimed);
      assert forall x | x in s.stage.tracks :: x in stage.tracks;
    }
    ReclassifiedKeeps(Tracked(s, tree, client));
  }

  // ---- Removing a toplevel -----------------------------------------------------------------

  lemma {:induction false} RoleOfMeaning(tracks: seq<Track>, i: int)
    requires 0 <= i < |tracks|
    requires DistinctTrees(tracks)
    ensures RoleOf(tracks, tracks[i].tree) == tracks[i].role
  {
    if i == 0 {
    } else {
      assert tracks[0].tree != tracks[i].tree;
      RoleOfMeaning(tracks[1..], i - 1);
    }
  }

  lemma {:induction false} DropTreeForm(tracks: seq<Track>, i: int)
    requires 0 <= i < |tracks|
    requires DistinctTrees(tracks)
    ensures DropTree(tracks, tracks[i].tree) == tracks[..i] + tracks[i + 1..]
  {
    if i == 0 {
    } else {
      assert tracks[0].tree != tracks[i].tree;
      DropTreeForm(tracks[1..], i - 1);
      assert tracks[1..][..i - 1] + tracks[1..][i..] == tracks[1..i] + tracks[i + 1..];
    }
  }

  /** Dropping a track other than the oldest one of a role leaves that one the oldest. */
  lemma {:induction false} OldestAfterDrop(tracks: seq<Track>, tree: Node, role: Role)
    requires Oldest(tracks, role).Some? && Oldest(tracks, role) != Some(tree)
    ensures Oldest(DropTree(tracks, tree), role) == Oldest(tracks, role)
  {
    if tracks[0].role != role && tracks[0].tree != tree {
      OldestAfterDrop(tracks[1..], tree, role);
    }
  }

  /** `i` taken out of `tracks`: the others remain, and their trees remain distinct. */
  lemma CutOutMembers(tracks: seq<Track>, i: int)
    requires 0 <= i < |tracks| && DistinctTrees(tracks)
    ensures var r := tracks[..i] + tracks[i + 1..];
            && DistinctTrees(r)
            && forall t :: t in r <==> t in tracks && t.tree != tracks[i].tree
  {
    var r := tracks[..i] + tracks[i + 1..];
    assert forall j | 0 <= j < |r| :: r[j] == tracks[if j < i then j else j + 1];
    forall t ensures t in r <==> t in tracks && t.tree != tracks[i].tree {
      if t in r { var j :| 0 <= j < |r| && r[j] == t; }
      if t in tracks && t.tree != tracks[i].tree {
        var j :| 0 <= j < |tracks| && tracks[j] == t;
        assert r[if j < i then j else j - 1] == t;
      }
    }
  }

  lemma TreesAfterDrop(tracks: seq<Track>, tree: Node)
    requires exists i :: 0 <= i < |tracks| && tracks[i].tree == tree
    requires DistinctTrees(tracks)
    ensures var r := DropTree(tracks, tree);
            && DistinctTrees(r)
            && (forall t :: t in r <==> t in tracks && t.tree != tree)
            && TreesOf(r) == TreesOf(tracks) - {tree}
  {
    var i :| 0 <= i < |tracks| && tracks[i].tree == tree;
    DropTreeForm(tracks, i);
    CutOutMembers(tracks, i);
    var r := DropTree(tracks, tree);
    assert forall t :: t in r <==> t in tracks && t.tree != tree;
  }

  /** A designated pointer to a tree means that tree's track has the designated role. */
  lemma PointerRole(stage: Stage, pointer: Option<Node>, role: Role, tree: Node)
    requires WellStaged(stage)
    requires pointer.Some? ==> pointer == Oldest(stage.tracks, role)
    requires pointer == Some(tree)
    ensures RoleOf(stage.tracks, tree) == role
  {
    OldestMeaning(stage.tracks, role);
    var i :| IsOldest(stage.tracks, role, i) && pointer == Some(stage.tracks[i].tree);
    RoleOfMeaning(stage.tracks, i);
  }

  /** The pointers after a toplevel has gone: whichever named its tree is null, the rest stand. */
  lemma DetachedPointers(stage: Stage, tree: Node)
    requires WellStaged(stage) && Canonical(stage)
    ensures var d := Detached(stage, tree);
            && d.shellTree == Unpoint(stage.shellTree, tree)
            && d.gameTree == Unpoint(stage.gameTree, tree)
            && d.overlayTree == Unpoint(stage.overlayTree, tree)
  {
    if stage.shellTree == Some(tree) { PointerRole(stage, stage.shellTree, Shell, tree); }
    if stage.gameTree == Some(tree) { PointerRole(stage, stage.gameTree, Game, tree); }
    if stage.overlayTree == Some(tree) { PointerRole(stage, stage.overlayTree, Overlay, tree); }
  }

  lemma DetachedCanonical(stage: Stage, tree: Node)
    requires WellStaged(stage) && Canonical(stage)
    ensures Canonical(Detached(stage, tree))
  {
    DetachedPointers(stage, tree);
    var d := Detached(stage, tree);
    if d.shellTree.Some? { OldestAfterDrop(stage.tracks, tree, Shell); }
    if d.gameTree.Some? { OldestAfterDrop(stage.tracks, tree, Game); }
    if d.overlayTree.Some? { OldestAfterDrop(stage.tracks, tree, Overlay); }
  }

  lemma DetachedWellStaged(stage: Stage, tree: Node)
    requires WellStaged(stage) && IsTracked(stage, tree)
    ensures WellStaged(Detached(stage, tree))
  {
    var d := Detached(stage, tree);
    TreesAfterDrop(stage.tracks, tree);
    WithoutMembers(stage.scene, {tree});
    WithoutDistinct(stage.scene, {tree});
    WithoutTreesAbove(stage.scene, {tree}, TreesOf(stage.tracks));
    forall i | 0 <= i < |d.tracks| ensures d.tracks[i].tree in d.scene {
      assert d.tracks[i] in d.tracks;
    }
    assert tree !in d.scene;
  }

  lemma WithoutPointer(tree: Option<Node>, n: Node)
    ensures Without(Pointer(tree), {n}) == Pointer(Unpoint(tree, n))
  {
  }

  lemma DetachedOnTop(stage: Stage, tree: Node)
    requires WellStaged(stage) && Canonical(stage) && OnTop(stage)
    ensures OnTop(Detached(stage, tree))
  {
    var d := Designated(stage);
    var below := stage.scene[..|stage.scene| - |d|];
    DetachedPointers(stage, tree);
    assert stage.scene == below + d;
    WithoutAppend(below, d, {tree});
    WithoutAppend(Pointer(stage.shellTree) + Pointer(stage.gameTree), Pointer(stage.overlayTree), {tree});
    WithoutAppend(Pointer(stage.shellTree), Pointer(stage.gameTree), {tree});
    WithoutPointer(stage.shellTree, tree);
    WithoutPointer(stage.gameTree, tree);
    WithoutPointer(stage.overlayTree, tree);
    assert Without(d, {tree}) == Designated(Detached(stage, tree));
  }

  /** Detaching also keeps the remaining flags. */
  lemma DetachedFlags(s: State, tree: Node)
    requires StageInv(s)
    ensures FlagsFollow(Detached(s.stage, tree), s.session)
  {
    DetachedPointers(s.stage, tree);
  }

  lemma ExitedKeeps(s: State)
    requires Staged(s.stage) && FlagsFollow(s.stage, s.session)
    ensures StageInv(GameExited(s))
  {
    if s.session.fg != ShellForeground { MovedAway(s, ShellForeground); }
  }

  /** Once a toplevel is detached the designated trees are still on top, so the final restack of
      the destroy handler finds nothing to do. */
  lemma RemovedForm(s: State, tree: Node)
    requires StageInv(s) && IsTracked(s.stage, tree)
    ensures var d := Untracked(s, tree);
            && Staged(d.stage)
            && FlagsFollow(d.stage, d.session)
            && ToplevelRemoved(s, tree)
               == (if RoleOf(s.stage.tracks, tree) == Game then GameExited(d) else Refreshed(d))
    ensures StageInv(ToplevelRemoved(s, tree))
  {
    var d := Untracked(s, tree);
    assert Staged(d.stage) && FlagsFollow(d.stage, d.session) by {
      DetachedWellStaged(s.stage, tree);
      DetachedCanonical(s.stage, tree);
      DetachedOnTop(s.stage, tree);
      DetachedFlags(s, tree);
    }
    var r := if RoleOf(s.stage.tracks, tree) == Game then GameExited(d) else Refreshed(d);
    assert StageInv(r) by {
      ExitedKeeps(d);
      RefreshedKeeps(d);
    }
    RestackIdle(r.stage);
    assert ToplevelRemoved(s, tree) == Raised(r) == r;
  }

  // ---- Every event -------------------------------------------------------------------------

  lemma ShownKeeps(s: State)
    requires StageInv(s)
    ensures StageInv(Shown(s))
  {
    if !s.session.overlayVisible {
      var v := Told(WithOverlay(s, true), AboutToShow);
      if s.session.fg == GameForeground { MovedAway(v, PlayosUi); } else { RefreshedKeeps(v); }
    }
  }

  lemma HiddenKeeps(s: State)
    requires StageInv(s)
    ensures StageInv(Hidden(s))
  {
    if s.session.overlayVisible {
      var v := Told(WithOverlay(s, false), AboutToHide);
      if s.session.fg == PlayosUi {
        MovedAway(v, if s.stage.gameTree.Some? then GameForeground else ShellForeground);
      } else {
        RefreshedKeeps(v);
      }
    }
  }

  lemma BackgroundBelow(stage: Stage, background: Node)
    requires Staged(stage) && background !in stage.scene
    ensures Staged(stage.(scene := [background] + stage.scene))
  {
    var r := stage.(scene := [background] + stage.scene);
    assert WellStaged(r) by {
      assert forall t | t in stage.tracks :: t.tree in stage.scene;
      assert background !in TreesOf(stage.tracks);
    }
    var n := |stage.scene| - |Designated(stage)|;
    assert r.scene[n + 1..] == stage.scene[n..];
  }

  lemma PointerInScene(stage: Stage, pointer: Option<Node>, role: Role)
    requires WellStaged(stage)
    requires pointer.Some? ==> pointer == Oldest(stage.tracks, role)
    ensures pointer.Some? ==> pointer.value in stage.scene
  {
    OldestMeaning(stage.tracks, role);
  }

  lemma NewOutputKeeps(s: State, background: Node)
    requires StageInv(s) && background !in s.stage.scene
    ensures StageInv(Step(s, NewOutput(background)))
  {
    BackgroundBelow(s.stage, background);
    PointerInScene(s.stage, s.stage.shellTree, Shell);
    PointerInScene(s.stage, s.stage.gameTree, Game);
    PointerInScene(s.stage, s.stage.overlayTree, Overlay);
    var r := s.stage.(scene := [background] + s.stage.scene);
    var r' := r.(enabled := s.stage.enabled + {background});
    assert WellStaged(r') && Canonical(r') && Designated(r') == Designated(r);
  }

  lemma StepKeepsStage(s: State, e: Event)
    requires StageInv(s) && Possible(s, e)
    ensures StageInv(Step(s, e))
  {
    match e
    case SetExpectedGame(token, gameId) =>
      MovedKeeps(Awaiting(s, token, gameId), GameStarting);
    case ClearExpectedGame => if InGame(s.session.fg) { MovedKeeps(Forgotten(s), ShellForeground); }
    case ForceTerminateGame => MovedKeeps(s, TerminatingGame);
    case ShowOverlay => ShownKeeps(s);
    case HideOverlay => HiddenKeeps(s);
    case NewToplevel(tree, client) => AddedKeeps(s, tree, client);
    case Commit(tree, hasBuffer) =>
      if s.session.fg == GameStarting {
        MovedKeeps(Sent(s.(session := s.session.(ready := true)), GameSurfaceReady(s.session.token)), GameForeground);
      }
    case DestroyToplevel(tree) => RemovedForm(s, tree);
    case RegisterShell(client) =>
      ReclassifiedKeeps(HeldByShell(s, client));
    case RegisterOverlay(client) =>
      ReclassifiedKeeps(HeldByOverlay(s, client));
    case ShellGone =>
    case OverlayGone =>
    case BindOverlay(client, resource) =>
    case DestroyResource(resource) =>
    case RequestDismiss(client) => HiddenKeeps(s);
    case Key(code, pressed) => ShownKeeps(s); HiddenKeeps(s);
    case NewOutput(background) => NewOutputKeeps(s, background);
  }

  lemma {:induction false} RunKeepsStage(es: seq<Event>)
    requires Legal(es)
    ensures StageInv(After(es))
  {
    if es == [] {
    } else {
      LastStep(es);
      RunKeepsStage(es[..|es| - 1]);
      StepKeepsStage(After(es[..|es| - 1]), es[|es| - 1]);
    }
  }

  lemma ReachableStage(s: State)
    requires Reachable(s)
    ensures StageInv(s)
  {
    var es :| Legal(es) && After(es) == s;
    RunKeepsStage(es);
  }

  /** Reclassifying twice in a row is the same as once: roles, pointers, order and flags. */
  lemma ReclassifyIdempotent(s: State)
    requires WellStaged(s.stage) && UiShowsOverlay(s.session)
    ensures Reclassified(Reclassified(s)) == Reclassified(s)
  {
    var r := Reclassified(s);
    ReclassifiedKeeps(s);
    assert Reassigned(r) == r.stage.tracks;
    RestackIdle(r.stage);
    RefreshIdle(r.stage, r.session);
  }

  // ---- What is on screen -------------------------------------------------------------------

  /** The tree the foreground state names, if that surface exists. */
  function ForegroundTree(s: State): Option<Node> {
    match s.session.fg
    case GameForeground => s.stage.gameTree
    case PlayosUi => s.stage.overlayTree
    case _ => s.stage.shellTree
  }

  /** `n` is enabled and no enabled toplevel tree lies above it. */
  ghost predicate Topmost(stage: Stage, n: Node) {
    && n in stage.scene && n in stage.enabled
    && forall i, j | 0 <= i < j < |stage.scene| ::
         stage.scene[i] == n && stage.scene[j] in TreesOf(stage.tracks) ==> stage.scene[j] !in stage.enabled
  }

  lemma ForegroundOnTop(s: State)
    requires StageInv(s) && ForegroundTree(s).Some?
    ensures Topmost(s.stage, ForegroundTree(s).value)
  {
    var n := ForegroundTree(s).value;
    var d := Designated(s.stage);
    var k := |s.stage.scene| - |d|;
    DesignatedDistinct(s.stage);
    assert n in d;
    var p :| 0 <= p < |d| && d[p] == n;
    assert s.stage.scene[k + p] == n;
    forall i, j | 0 <= i < j < |s.stage.scene| && s.stage.scene[i] == n
      ensures s.stage.scene[j] !in s.stage.enabled
    {
      assert i == k + p;
      assert s.stage.scene[j] == d[j - k];
    }
  }

  lemma {:induction false} SplitBelow(below: seq<Node>, trees: set<Node>)
    returns (backgrounds: seq<Node>, others: seq<Node>)
    requires TreesAbove(below, trees)
    ensures below == backgrounds + others
    ensures forall n | n in backgrounds :: n !in trees
    ensures forall n | n in others :: n in trees
  {
    if below == [] || below[0] in trees {
      return [], below;
    }
    backgrounds, others := SplitBelow(below[1..], trees);
    backgrounds := [below[0]] + backgrounds;
  }

  /** From bottom to top: background rectangles, undesignated toplevels, then exactly the designated
      trees in the order shell, game, overlay. */
  lemma ZOrder(s: State) returns (backgrounds: seq<Node>, others: seq<Node>)
    requires StageInv(s)
    ensures s.stage.scene == backgrounds + others + Designated(s.stage)
    ensures forall n | n in backgrounds :: n !in TreesOf(s.stage.tracks)
    ensures forall n | n in others :: n in TreesOf(s.stage.tracks) && n !in DesignatedSet(s.stage)
  {
    var d := Designated(s.stage);
    var below := s.stage.scene[..|s.stage.scene| - |d|];
    assert s.stage.scene == below + d;
    backgrounds, others := SplitBelow(below, TreesOf(s.stage.tracks));
    forall n | n in others ensures n !in DesignatedSet(s.stage) {
      var i :| 0 <= i < |others| && others[i] == n;
      assert s.stage.scene[|backgrounds| + i] == n;
    }
  }
}
