/** Facts about the scene list, the designated trees and the enabled flags: the invariant every
    event keeps and what it means for what is on screen. */
module StageFacts {
  import opened Foundation
  import opened StateMachine

  // ---- Taking nodes out of the scene -------------------------------------------------------

  lemma {:induction false} WithoutMembers(scene: seq<Node>, dead: set<Node>)
    ensures forall n :: n in Without(scene, dead) <==> n in scene && n !in dead
  {
    if scene == [] {
    } else {
      WithoutMembers(scene[1..], dead);
    }
  }

  lemma {:induction false} WithoutDistinct(scene: seq<Node>, dead: set<Node>)
    requires Distinct(scene)
    ensures Distinct(Without(scene, dead))
  {
    if scene == [] {
    } else {
      WithoutDistinct(scene[1..], dead);
      WithoutMembers(scene[1..], dead);
    }
  }

  /** Nodes of `trees` stay above everything else. */
  ghost predicate TreesAbove(scene: seq<Node>, trees: set<Node>) {
    forall i, j | 0 <= i < j < |scene| :: scene[i] in trees ==> scene[j] in trees
  }

  lemma {:induction false} WithoutTreesAbove(scene: seq<Node>, dead: set<Node>, trees: set<Node>)
    requires TreesAbove(scene, trees)
    ensures TreesAbove(Without(scene, dead), trees)
  {
    if scene == [] {
    } else {
      WithoutTreesAbove(scene[1..], dead, trees);
      WithoutMembers(scene[1..], dead);
      assert scene[0] in trees ==> forall n | n in scene[1..] :: n in trees;
      assert scene[0] in trees ==> forall n | n in Without(scene[1..], dead) :: n in trees;
    }
  }

  lemma {:induction false} WithoutStrangers(scene: seq<Node>, dead: set<Node>)
    requires forall n | n in dead :: n !in scene
    ensures Without(scene, dead) == scene
  {
    if scene == [] {
    } else {
      WithoutStrangers(scene[1..], dead);
    }
  }

  lemma {:induction false} WithoutAppend(a: seq<Node>, b: seq<Node>, dead: set<Node>)
    ensures Without(a + b, dead) == Without(a, dead) + Without(b, dead)
  {
    if a == [] {
      assert a + b == b;
    } else {
      assert (a + b)[1..] == a[1..] + b;
      WithoutAppend(a[1..], b, dead);
    }
  }

  lemma {:induction false} WithoutTwice(scene: seq<Node>, d1: set<Node>, d2: set<Node>)
    ensures Without(Without(scene, d1), d2) == Without(scene, d1 + d2)
  {
    if scene == [] {
    } else {
      WithoutTwice(scene[1..], d1, d2);
      WithoutAppend(if scene[0] in d1 then [] else [scene[0]], Without(scene[1..], d1), d2);
    }
  }

  // ---- The invariant -----------------------------------------------------------------------

  function Pointer(tree: Option<Node>): seq<Node> {
    match tree case None => [] case Some(n) => [n]
  }

  /** The designated trees in the order the compositor raises them. */
  function Designated(stage: Stage): seq<Node> {
    Pointer(stage.shellTree) + Pointer(stage.gameTree) + Pointer(stage.overlayTree)
  }

  function Members(nodes: seq<Node>): set<Node> {
    set n | n in nodes
  }

  function DesignatedSet(stage: Stage): set<Node> {
    Members(Designated(stage))
  }

  function TreesOf(tracks: seq<Track>): set<Node> {
    set t | t in tracks :: t.tree
  }

  ghost predicate DistinctTrees(tracks: seq<Track>) {
    forall i, j | 0 <= i < j < |tracks| :: tracks[i].tree != tracks[j].tree
  }

  /** Every tracked tree is in the scene once, above all background rectangles. */
  ghost predicate WellStaged(stage: Stage) {
    && DistinctTrees(stage.tracks)
    && (forall i | 0 <= i < |stage.tracks| :: stage.tracks[i].tree in stage.scene)
    && Distinct(stage.scene)
    && TreesAbove(stage.scene, TreesOf(stage.tracks))
  }

  /** A designated pointer never dangles: it is null or the oldest live track of its stored role. */
  ghost predicate Canonical(stage: Stage) {
    && (stage.shellTree.Some? ==> stage.shellTree == Oldest(stage.tracks, Shell))
    && (stage.gameTree.Some? ==> stage.gameTree == Oldest(stage.tracks, Game))
    && (stage.overlayTree.Some? ==> stage.overlayTree == Oldest(stage.tracks, Overlay))
  }

  /** The designated trees are exactly the top of the scene, shell below game below overlay. */
  ghost predicate OnTop(stage: Stage) {
    var d := Designated(stage);
    |d| <= |stage.scene| && stage.scene[|stage.scene| - |d|..] == d
  }

  ghost predicate Flagged(enabled: set<Node>, tree: Option<Node>, on: bool) {
    tree.Some? ==> (tree.value in enabled <==> on)
  }

  /** The enabled flags of the designated trees are those the foreground state asks for. */
  ghost predicate FlagsFollow(stage: Stage, u: Session) {
    && Flagged(stage.enabled, stage.shellTree, ShellShown(u))
    && Flagged(stage.enabled, stage.gameTree, GameShown(u))
    && Flagged(stage.enabled, stage.overlayTree, OverlayShown(u))
  }

  ghost predicate StageInv(s: State) {
    && WellStaged(s.stage)
    && Canonical(s.stage)
    && OnTop(s.stage)
    && FlagsFollow(s.stage, s.session)
    && (s.session.fg == PlayosUi ==> s.session.overlayVisible)
  }

  // ---- Oldest tracks -----------------------------------------------------------------------

  /** `i` is the index of the oldest track with stored role `role`. */
  ghost predicate IsOldest(tracks: seq<Track>, role: Role, i: int) {
    && 0 <= i < |tracks| && tracks[i].role == role
    && forall j | 0 <= j < i :: tracks[j].role != role
  }

  lemma {:induction false} OldestMeaning(tracks: seq<Track>, role: Role)
    ensures Oldest(tracks, role).Some? ==>
              exists i :: IsOldest(tracks, role, i) && Oldest(tracks, role) == Some(tracks[i].tree)
    ensures Oldest(tracks, role).None? <==> forall i | 0 <= i < |tracks| :: tracks[i].role != role
  {
    if tracks == [] {
    } else {
      if tracks[0].role == role {
        assert IsOldest(tracks, role, 0);
      } else {
        OldestMeaning(tracks[1..], role);
        if Oldest(tracks[1..], role).Some? {
          var i :| IsOldest(tracks[1..], role, i) && Oldest(tracks[1..], role) == Some(tracks[1..][i].tree);
          assert IsOldest(tracks, role, i + 1);
        } else {
          assert forall i | 0 < i < |tracks| :: tracks[i] == tracks[1..][i - 1];
        }
      }
    }
  }

  lemma OldestIsTracked(tracks: seq<Track>, pointer: Option<Node>, role: Role)
    requires pointer.Some? ==> pointer == Oldest(tracks, role)
    ensures pointer.Some? ==> exists i :: 0 <= i < |tracks| && tracks[i].role == role && pointer.value == tracks[i].tree
  {
    OldestMeaning(tracks, role);
  }

  /** Trees of different stored roles are different trees. */
  lemma RolesApart(stage: Stage, a: Option<Node>, ra: Role, b: Option<Node>, rb: Role)
    requires WellStaged(stage) && ra != rb
    requires a.Some? ==> a == Oldest(stage.tracks, ra)
    requires b.Some? ==> b == Oldest(stage.tracks, rb)
    ensures a.Some? && b.Some? ==> a != b
    ensures a.Some? ==> a.value in TreesOf(stage.tracks)
  {
    OldestIsTracked(stage.tracks, a, ra);
    OldestIsTracked(stage.tracks, b, rb);
  }

  /** The designated trees are live and pairwise distinct, because their roles differ. */
  lemma DesignatedDistinct(stage: Stage)
    requires WellStaged(stage) && Canonical(stage)
    ensures Distinct(Designated(stage))
    ensures DesignatedSet(stage) <= TreesOf(stage.tracks)
  {
    RolesApart(stage, stage.shellTree, Shell, stage.gameTree, Game);
    RolesApart(stage, stage.gameTree, Game, stage.overlayTree, Overlay);
    RolesApart(stage, stage.overlayTree, Overlay, stage.shellTree, Shell);
    assert Distinct(Designated(stage));
  }

  // ---- Restacking --------------------------------------------------------------------------

  /** Raising the designated trees one after the other is one stable partition of the scene. */
  lemma RestackForm(stage: Stage)
    requires Distinct(Designated(stage))
    ensures Restacked(stage).scene == Without(stage.scene, DesignatedSet(stage)) + Designated(stage)
  {
    var d1 := Pointer(stage.shellTree);
    var d2 := Pointer(stage.gameTree);
    var d3 := Pointer(stage.overlayTree);
    DistinctParts(d1, d2, d3);
    RaiseForm(stage.scene, [], {}, stage.shellTree);
    RaiseForm(stage.scene, d1, Members(d1), stage.gameTree);
    RaiseForm(stage.scene, d1 + d2, Members(d1 + d2), stage.overlayTree);
    WithoutStrangers(stage.scene, {});
    assert {} + Members(d1) == Members(d1);
    assert [] + d1 == d1 && stage.scene + [] == stage.scene;
    assert Members(d1) + Members(d2) == Members(d1 + d2);
    assert Members(d1 + d2) + Members(d3) == DesignatedSet(stage);
  }

  lemma DistinctParts(a: seq<Node>, b: seq<Node>, c: seq<Node>)
    requires Distinct(a + b + c)
    ensures forall n | n in b :: n !in a
    ensures forall n | n in c :: n !in a + b
  {
    var s := a + b + c;
    forall i, j | 0 <= i < |a| && 0 <= j < |b| ensures a[i] != b[j] {
      assert s[i] == a[i] && s[|a| + j] == b[j];
    }
    forall i, j | 0 <= i < |a + b| && 0 <= j < |c| ensures (a + b)[i] != c[j] {
      assert s[i] == (a + b)[i] && s[|a + b| + j] == c[j];
    }
  }

  lemma RaiseForm(scene: seq<Node>, top: seq<Node>, up: set<Node>, tree: Option<Node>)
    requires tree.Some? ==> tree.value !in top
    ensures RaiseToTop(Without(scene, up) + top, tree)
         == Without(scene, up + Members(Pointer(tree))) + (top + Pointer(tree))
  {
    match tree
    case None =>
      assert up + Members(Pointer(tree)) == up;
      assert top + [] == top;
    case Some(n) =>
      assert Members(Pointer(tree)) == {n};
      WithoutAppend(Without(scene, up), top, {n});
      WithoutStrangers(top, {n});
      WithoutTwice(scene, up, {n});
  }

  lemma DistinctConcat(a: seq<Node>, b: seq<Node>)
    requires Distinct(a) && Distinct(b) && forall n | n in b :: n !in a
    ensures Distinct(a + b)
  {
    var s := a + b;
    forall i, j | 0 <= i < j < |s| ensures s[i] != s[j] {
      if j >= |a| { assert s[j] == b[j - |a|] && s[j] in b; }
    }
  }

  lemma TreesAboveConcat(a: seq<Node>, b: seq<Node>, trees: set<Node>)
    requires TreesAbove(a, trees) && forall n | n in b :: n in trees
    ensures TreesAbove(a + b, trees)
  {
  }

  /** The scene with the tree nodes `top` moved above everything else. */
  function Lifted(scene: seq<Node>, top: seq<Node>): seq<Node> {
    Without(scene, Members(top)) + top
  }

  lemma LiftedMembers(scene: seq<Node>, top: seq<Node>)
    requires forall n | n in top :: n in scene
    ensures forall n :: n in Lifted(scene, top) <==> n in scene
  {
    WithoutMembers(scene, Members(top));
  }

  lemma LiftedOrder(scene: seq<Node>, top: seq<Node>, trees: set<Node>)
    requires Distinct(scene) && Distinct(top) && TreesAbove(scene, trees)
    requires forall n | n in top :: n in trees
    ensures Distinct(Lifted(scene, top)) && TreesAbove(Lifted(scene, top), trees)
  {
    var rest := Without(scene, Members(top));
    WithoutMembers(scene, Members(top));
    WithoutDistinct(scene, Members(top));
    WithoutTreesAbove(scene, Members(top), trees);
    DistinctConcat(rest, top);
    TreesAboveConcat(rest, top, trees);
  }

  lemma LiftedRest(scene: seq<Node>, top: seq<Node>)
    ensures Without(Lifted(scene, top), Members(top)) == Without(scene, Members(top))
  {
    var rest := Without(scene, Members(top));
    WithoutMembers(scene, Members(top));
    WithoutAppend(rest, top, Members(top));
    WithoutStrangers(rest, Members(top));
    WithoutAll(top, Members(top));
  }

  lemma TracksStaged(stage: Stage, scene: seq<Node>)
    requires WellStaged(stage)
    requires Distinct(scene) && TreesAbove(scene, TreesOf(stage.tracks))
    requires forall n :: n in scene <==> n in stage.scene
    ensures WellStaged(stage.(scene := scene))
  {
  }

  lemma RestackLifts(stage: Stage)
    requires WellStaged(stage) && Canonical(stage)
    ensures Restacked(stage) == stage.(scene := Lifted(stage.scene, Designated(stage)))
  {
    DesignatedDistinct(stage);
    RestackForm(stage);
  }

  lemma LiftedStaged(stage: Stage)
    requires WellStaged(stage) && Canonical(stage)
    ensures WellStaged(stage.(scene := Lifted(stage.scene, Designated(stage))))
  {
    var d := Designated(stage);
    DesignatedDistinct(stage);
    DesignatedLive(stage);
    LiftedMembers(stage.scene, d);
    LiftedOrder(stage.scene, d, TreesOf(stage.tracks));
    TracksStaged(stage, Lifted(stage.scene, d));
  }

  /** Restacking keeps every node, keeps the order of all undesignated ones, and leaves the
      designated trees on top. */
  lemma RestackKeeps(stage: Stage)
    requires WellStaged(stage) && Canonical(stage)
    ensures WellStaged(Restacked(stage)) && Canonical(Restacked(stage)) && OnTop(Restacked(stage))
    ensures forall n :: n in Restacked(stage).scene <==> n in stage.scene
    ensures Without(Restacked(stage).scene, DesignatedSet(stage)) == Without(stage.scene, DesignatedSet(stage))
  {
    var d := Designated(stage);
    var r := Lifted(stage.scene, d);
    RestackLifts(stage);
    LiftedStaged(stage);
    DesignatedLive(stage);
    LiftedMembers(stage.scene, d);
    LiftedRest(stage.scene, d);
    assert r[|r| - |d|..] == d;
  }

  lemma DesignatedLive(stage: Stage)
    requires WellStaged(stage) && Canonical(stage)
    ensures forall n | n in Designated(stage) :: n in stage.scene && n in TreesOf(stage.tracks)
  {
    DesignatedDistinct(stage);
    forall n | n in Designated(stage) ensures n in stage.scene && n in TreesOf(stage.tracks) {
      assert n in DesignatedSet(stage);
      var i :| 0 <= i < |stage.tracks| && stage.tracks[i].tree == n;
    }
  }

  lemma {:induction false} WithoutAll(scene: seq<Node>, dead: set<Node>)
    requires forall n | n in scene :: n in dead
    ensures Without(scene, dead) == []
  {
    if scene == [] {
    } else {
      WithoutAll(scene[1..], dead);
    }
  }

  lemma TopNotBelow(below: seq<Node>, top: seq<Node>)
    requires Distinct(below + top)
    ensures forall n | n in Members(top) :: n !in below
  {
    forall n | n in Members(top) ensures n !in below {
      var j :| 0 <= j < |top| && top[j] == n;
      assert (below + top)[|below| + j] == n;
      assert forall i | 0 <= i < |below| :: below[i] == (below + top)[i];
    }
  }

  lemma LiftedIdle(scene: seq<Node>, top: seq<Node>)
    requires Distinct(scene)
    requires |top| <= |scene| && scene[|scene| - |top|..] == top
    ensures Lifted(scene, top) == scene
  {
    var below := scene[..|scene| - |top|];
    assert scene == below + top;
    TopNotBelow(below, top);
    WithoutAppend(below, top, Members(top));
    WithoutStrangers(below, Members(top));
    WithoutAll(top, Members(top));
  }

  /** Restacking a scene whose designated trees are already on top changes nothing. */
  lemma RestackIdle(stage: Stage)
    requires WellStaged(stage) && Canonical(stage) && OnTop(stage)
    ensures Restacked(stage) == stage
  {
    DesignatedDistinct(stage);
    RestackForm(stage);
    LiftedIdle(stage.scene, Designated(stage));
  }

  // ---- Refreshing --------------------------------------------------------------------------

  lemma RefreshFlags(stage: Stage, u: Session)
    requires Distinct(Designated(stage))
    ensures FlagsFollow(RefreshedStage(stage, u), u)
    ensures RefreshedStage(stage, u).enabled - DesignatedSet(stage) == stage.enabled - DesignatedSet(stage)
  {
    var d := Designated(stage);
    if stage.shellTree.Some? { assert d[0] == stage.shellTree.value; }
    if stage.overlayTree.Some? { assert d[|d| - 1] == stage.overlayTree.value; }
    if stage.gameTree.Some? { assert d[|Pointer(stage.shellTree)|] == stage.gameTree.value; }
  }

  lemma RefreshIdle(stage: Stage, u: Session)
    requires FlagsFollow(stage, u)
    ensures RefreshedStage(stage, u) == stage
  {
    var e1 := SetEnabled(stage.enabled, stage.shellTree, ShellShown(u));
    assert e1 == stage.enabled;
    var e2 := SetEnabled(e1, stage.gameTree, GameShown(u));
    assert e2 == stage.enabled;
    assert SetEnabled(e2, stage.overlayTree, OverlayShown(u)) == stage.enabled;
  }
}
