/** The compositor object: the listeners and handlers that change the shared state in place. `View()`
    is the value of its fields, and every event handler is proved to perform its case of `Step`, for
    runs of which the other modules prove what holds. */
module CompositorModel {
  import opened Foundation
  import opened StateMachine
  import opened StageFacts
  import opened StageInvariant

  /** struct playos_toplevel_track */
  class Toplevel {
    const tree: Node
    const client: Client
    var role: Role

    constructor (tree: Node, client: Client)
      ensures this.tree == tree && this.client == client && role == Unclaimed
    {
      this.tree := tree;
      this.client := client;
      role := Unclaimed;
    }

    function Value(): Track
      reads this
    {
      Track(tree, client, role)
    }
  }

  /** Every tracked toplevel has a tree of its own in the scene. */
  ghost predicate SceneHolds(tracks: seq<Track>, scene: seq<Node>) {
    && DistinctTrees(tracks)
    && forall i | 0 <= i < |tracks| :: tracks[i].tree in scene
  }

  lemma RaisedHolds(tracks: seq<Track>, scene: seq<Node>, tree: Option<Node>)
    requires SceneHolds(tracks, scene)
    ensures SceneHolds(tracks, RaiseToTop(scene, tree))
  {
    if tree.Some? { WithoutMembers(scene, {tree.value}); }
  }

  lemma RestackedHolds(stage: Stage)
    requires SceneHolds(stage.tracks, stage.scene)
    ensures SceneHolds(stage.tracks, Restacked(stage).scene)
  {
    var r1 := RaiseToTop(stage.scene, stage.shellTree);
    RaisedHolds(stage.tracks, stage.scene, stage.shellTree);
    RaisedHolds(stage.tracks, r1, stage.gameTree);
    RaisedHolds(stage.tracks, RaiseToTop(r1, stage.gameTree), stage.overlayTree);
  }

  lemma DetachedHolds(stage: Stage, tree: Node)
    requires SceneHolds(stage.tracks, stage.scene) && IsTracked(stage, tree)
    ensures SceneHolds(Detached(stage, tree).tracks, Detached(stage, tree).scene)
  {
    var d := Detached(stage, tree);
    TreesAfterDrop(stage.tracks, tree);
    WithoutMembers(stage.scene, {tree});
    forall i | 0 <= i < |d.tracks| ensures d.tracks[i].tree in d.scene {
      assert d.tracks[i] in d.tracks;
    }
  }

  lemma MovedScene(s: State, target: Foreground)
    ensures Moved(s, target).stage.(enabled := {}) == s.stage.(enabled := {})
  {
  }

  lemma ExitedScene(s: State)
    ensures GameExited(s).stage.(enabled := {}) == s.stage.(enabled := {})
  {
    MovedScene(s, ShellForeground);
  }

  /** Neither tracks nor scene depend on how the game ended. */
  lemma RemovedScene(s: State, tree: Node)
    ensures var r := ToplevelRemoved(s, tree).stage;
            r.tracks == Detached(s.stage, tree).tracks && r.scene == Restacked(Detached(s.stage, tree)).scene
  {
    var d := Untracked(s, tree);
    var r := if RoleOf(s.stage.tracks, tree) == Game then GameExited(d) else Refreshed(d);
    ExitedScene(d);
    assert r.stage.(enabled := {}) == d.stage.(enabled := {});
    assert ToplevelRemoved(s, tree) == Raised(r);
  }

  lemma RemovedHolds(s: State, tree: Node)
    requires SceneHolds(s.stage.tracks, s.stage.scene) && IsTracked(s.stage, tree)
    ensures SceneHolds(ToplevelRemoved(s, tree).stage.tracks, ToplevelRemoved(s, tree).stage.scene)
  {
    DetachedHolds(s.stage, tree);
    RestackedHolds(Detached(s.stage, tree));
    RemovedScene(s, tree);
  }

  lemma ReclassifiedHolds(s: State)
    requires SceneHolds(s.stage.tracks, s.stage.scene)
    ensures SceneHolds(Reclassified(s).stage.tracks, Reclassified(s).stage.scene)
  {
    RestackedHolds(Repointed(s).stage);
  }

  /** The list with `track` unlinked. */
  function Remove(ts: seq<Toplevel>, track: Toplevel): seq<Toplevel> {
    if ts == [] then []
    else if ts[0] == track then ts[1..]
    else [ts[0]] + Remove(ts[1..], track)
  }

  lemma {:induction false} RemoveForm(ts: seq<Toplevel>, i: int)
    requires 0 <= i < |ts| && Distinct(ts)
    ensures Remove(ts, ts[i]) == ts[..i] + ts[i + 1..]
  {
    if i == 0 {
    } else {
      assert ts[0] != ts[i];
      RemoveForm(ts[1..], i - 1);
      assert ts[1..][..i - 1] + ts[1..][i..] == ts[1..i] + ts[i + 1..];
    }
  }

  datatype Pointers = Pointers(shell: Option<Node>, game: Option<Node>, overlay: Option<Node>)

  function PointNext(p: Pointers, tree: Node, role: Role): Pointers {
    Pointers(FirstOf(p.shell, Shell, tree, role), FirstOf(p.game, Game, tree, role),
             FirstOf(p.overlay, Overlay, tree, role))
  }

  function FirstOf(found: Option<Node>, wanted: Role, tree: Node, role: Role): Option<Node> {
    if found.None? && role == wanted then Some(tree) else found
  }

  /** The pointers after the loop has seen the first `n` tracks. */
  function PointersBelow(tracks: seq<Track>, n: nat): Pointers
    requires n <= |tracks|
  {
    if n == 0 then Pointers(None, None, None)
    else PointNext(PointersBelow(tracks, n - 1), tracks[n - 1].tree, tracks[n - 1].role)
  }

  function OrOldest(found: Option<Node>, tracks: seq<Track>, role: Role): Option<Node> {
    if found.Some? then found else Oldest(tracks, role)
  }

  lemma {:induction false} PointersFrom(tracks: seq<Track>, n: nat)
    requires n <= |tracks|
    ensures var p, rest := PointersBelow(tracks, n), tracks[n..];
            PointersBelow(tracks, |tracks|)
            == Pointers(OrOldest(p.shell, rest, Shell), OrOldest(p.game, rest, Game),
                        OrOldest(p.overlay, rest, Overlay))
    decreases |tracks| - n
  {
    if n == |tracks| {
    } else {
      PointersFrom(tracks, n + 1);
      assert tracks[n..][1..] == tracks[n + 1..];
    }
  }

  datatype Pass = Pass(tracks: seq<Track>, pointers: Pointers)

  function Visit(p: Pass, i: nat, fg: Foreground, trust: Trust): Pass
    requires i < |p.tracks|
  {
    var t := p.tracks[i].(role := RoleFor(fg, trust, p.tracks[i].client));
    Pass(p.tracks[i := t], PointNext(p.pointers, t.tree, t.role))
  }

  /** Tracks and pointers after the loop has visited the first `n` tracks. */
  function Visited(tracks: seq<Track>, n: nat, fg: Foreground, trust: Trust): (p: Pass)
    requires n <= |tracks|
    ensures |p.tracks| == |tracks|
  {
    if n == 0 then Pass(tracks, Pointers(None, None, None))
    else Visit(Visited(tracks, n - 1, fg, trust), n - 1, fg, trust)
  }

  lemma {:induction false} VisitedMeaning(tracks: seq<Track>, n: nat, fg: Foreground, trust: Trust)
    requires n <= |tracks|
    ensures var p, want := Visited(tracks, n, fg, trust), ResolvedRoles(tracks, fg, trust);
            && (forall j | 0 <= j < n :: p.tracks[j] == want[j])
            && (forall j | n <= j < |tracks| :: p.tracks[j] == tracks[j])
            && p.pointers == PointersBelow(want, n)
  {
    if n == 0 {
    } else {
      VisitedMeaning(tracks, n - 1, fg, trust);
    }
  }

  /** The loop resolves every role and points at the oldest track of each. */
  lemma AllVisited(tracks: seq<Track>, fg: Foreground, trust: Trust)
    ensures var want := ResolvedRoles(tracks, fg, trust);
            Visited(tracks, |tracks|, fg, trust)
            == Pass(want, Pointers(Oldest(want, Shell), Oldest(want, Game), Oldest(want, Overlay)))
  {
    var want := ResolvedRoles(tracks, fg, trust);
    VisitedMeaning(tracks, |tracks|, fg, trust);
    PointersFrom(want, 0);
    assert want[0..] == want;
    assert Visited(tracks, |tracks|, fg, trust).tracks == want;
  }

  /** struct playos_compositor, without its foreign objects and without the connection of `Link`. */
  class Compositor {
    var fg: Foreground
    var expectedToken: bytes
    var expectedGameId: bytes
    var gameSurfaceReady: bool
    var overlayVisible: bool

    var toplevels: seq<Toplevel>
    var shellTree: Option<Node>
    var gameTree: Option<Node>
    var overlayTree: Option<Node>
    var scene: seq<Node>
    var enabled: set<Node>

    var shellClient: Option<Client>
    var overlayClient: Option<Client>
    var shellListener: Option<Client>
    var overlayListener: Option<Client>
    var overlayResources: seq<Binding>
    var overlayResource: Option<Resource>

    ghost var tracks: seq<Track>      // the values of `toplevels`
    ghost var sent: seq<Message>      // attempted sends on compositor.sock
    ghost var notices: seq<Notice>    // visibility events and who they went to

    ghost function View(): State
      reads this
    {
      State.State(SessionView(), StageView(), TrustView(), sent, notices)
    }

    ghost function SessionView(): Session
      reads `fg, `expectedToken, `expectedGameId, `gameSurfaceReady, `overlayVisible
    {
      Session(fg, expectedToken, expectedGameId, gameSurfaceReady, overlayVisible)
    }

    ghost function StageView(): Stage
      reads `tracks, `shellTree, `gameTree, `overlayTree, `scene, `enabled
    {
      Stage(tracks, shellTree, gameTree, overlayTree, scene, enabled)
    }

    ghost function TrustView(): Trust
      reads `shellClient, `overlayClient, `shellListener, `overlayListener, `overlayResources, `overlayResource
    {
      Trust(shellClient, overlayClient, shellListener, overlayListener, overlayResources, overlayResource)
    }

    ghost function Pointed(): Pointers
      reads `shellTree, `gameTree, `overlayTree
    {
      Pointers(shellTree, gameTree, overlayTree)
    }

    /** Handlers that modify none of what it reads keep it by their frame alone. */
    ghost predicate Valid()
      reads `toplevels, `tracks, `scene, toplevels
    {
      Linked() && SceneHolds(tracks, scene)
    }

    ghost predicate Linked()
      reads `toplevels, `tracks, toplevels
    {
      && Distinct(toplevels)
      && |tracks| == |toplevels|
      && forall i | 0 <= i < |tracks| :: tracks[i] == toplevels[i].Value()
    }

    constructor ()
      ensures Valid() && View() == INITIAL && fresh(toplevels)
    {
      fg, expectedToken, expectedGameId := ShellForeground, [], [];
      gameSurfaceReady, overlayVisible := false, false;
      toplevels, shellTree, gameTree, overlayTree, scene, enabled := [], None, None, None, [], {};
      shellClient, overlayClient, shellListener, overlayListener := None, None, None, None;
      overlayResources, overlayResource := [], None;
      tracks, sent, notices := [], [], [];
    }

    // ---- compositor.c: scene order and classification --------------------------------------

    method Restack()
      modifies `scene
      ensures View() == Raised(old(View()))
    {
      scene := RaiseToTop(scene, shellTree);
      scene := RaiseToTop(scene, gameTree);
      scene := RaiseToTop(scene, overlayTree);
    }

    method RoleForClient(client: Client) returns (role: Role)
      ensures role == RoleFor(fg, TrustView(), client)
    {
      if shellClient == Some(client) { return Shell; }
      if overlayClient == Some(client) { return Overlay; }
      match fg
      case GameStarting => return Game;
      case GameForeground => return Game;
      case PlayosUi => return Game;
      case TerminatingGame => return Game;
      case ShellForeground => return Unclaimed;
    }

    /** The first track of a role gives the designated tree of that role. */
    method Designate(tree: Node, role: Role)
      modifies `shellTree, `gameTree, `overlayTree
      ensures Pointed() == PointNext(old(Pointed()), tree, role)
    {
      if role == Shell && shellTree.None? {
        shellTree := Some(tree);
      } else if role == Game && gameTree.None? {
        gameTree := Some(tree);
      } else if role == Overlay && overlayTree.None? {
        overlayTree := Some(tree);
      }
    }

    /** The loop's body: one track's role resolved again. */
    method Classify(i: nat)
      requires Linked() && i < |toplevels|
      modifies `shellTree, `gameTree, `overlayTree, `tracks, toplevels[i]
      ensures Linked() && Pass(tracks, Pointed()) == Visit(old(Pass(tracks, Pointed())), i, fg, TrustView())
    {
      var track := toplevels[i];
      var role := RoleForClient(track.client);
      track.role := role;
      tracks := tracks[i := track.Value()];
      Designate(track.tree, role);
    }

    /** The loop of playos_compositor_reclassify_toplevels. */
    method ResolveRoles()
      requires Linked()
      modifies `shellTree, `gameTree, `overlayTree, `tracks, toplevels
      ensures Linked()
      ensures tracks == ResolvedRoles(old(tracks), fg, TrustView())
      ensures Pointed() == Pointers(Oldest(tracks, Shell), Oldest(tracks, Game), Oldest(tracks, Overlay))
    {
      ghost var was := tracks;
      shellTree, gameTree, overlayTree := None, None, None;
      for i := 0 to |toplevels|
        invariant Linked() && |tracks| == |was|
        invariant Pass(tracks, Pointed()) == Visited(was, i, fg, TrustView())
      {
        Classify(i);
      }
      AllVisited(was, fg, TrustView());
    }

    method ReclassifyToplevels()
      requires Valid()
      modifies `shellTree, `gameTree, `overlayTree, `scene, `enabled, `tracks, toplevels
      ensures Valid()
      ensures View() == Reclassified(old(View()))
    {
      ghost var was := View();
      ResolveRoles();
      assert View() == Repointed(was);
      Restack();
      Refresh();
      assert SceneHolds(tracks, scene) by { ReclassifiedHolds(was); }
    }

    // ---- state_machine.c -------------------------------------------------------------------

    method SetTreeEnabled(tree: Option<Node>, on: bool)
      modifies `enabled
      ensures enabled == SetEnabled(old(enabled), tree, on)
    {
      if tree.None? { return; }
      enabled := if on then enabled + {tree.value} else enabled - {tree.value};
    }

    method Refresh()
      modifies `enabled
      ensures View() == Refreshed(old(View()))
    {
      var shellVisible := fg == ShellForeground || fg == GameStarting || fg == TerminatingGame;
      var gameVisible := fg == GameForeground || fg == PlayosUi;
      var overlayShown := overlayVisible && fg == PlayosUi;
      SetTreeEnabled(shellTree, shellVisible);
      SetTreeEnabled(gameTree, gameVisible);
      SetTreeEnabled(overlayTree, overlayShown);
    }

    method Transition(target: Foreground)
      modifies `fg, `overlayVisible, `notices, `enabled, `sent
      ensures View() == Moved(old(View()), target)
    {
      if fg == target { return; }
      if target == ShellForeground || target == TerminatingGame {
        if overlayVisible { SendAboutToHide(); }
        overlayVisible := false;
      }
      assert View() == OverlayReset(old(View()), target);
      fg := target;
      assert View() == InForeground(OverlayReset(old(View()), target), target);
      Refresh();
      IpcSend(StateChanged(target));
    }

    method HandleSetExpectedGame(token: bytes, gameId: bytes)
      modifies `fg, `overlayVisible, `notices, `enabled, `sent, `expectedToken, `expectedGameId, `gameSurfaceReady
      ensures View() == Expecting(old(View()), token, gameId)
    {
      expectedToken := Cut(token, 63);
      expectedGameId := Cut(gameId, 255);
      gameSurfaceReady := false;
      assert View() == Awaiting(old(View()), token, gameId);
      Transition(GameStarting);
    }

    method ForgetExpected()
      modifies `expectedToken, `expectedGameId, `gameSurfaceReady
      ensures View() == Forgotten(old(View()))
    {
      expectedToken, expectedGameId := [], [];
      gameSurfaceReady := false;
    }

    method HandleClearExpected()
      modifies `fg, `overlayVisible, `notices, `enabled, `sent, `expectedToken, `expectedGameId, `gameSurfaceReady
      ensures View() == Cleared(old(View()))
    {
      ForgetExpected();
      if fg == GameStarting || fg == GameForeground || fg == PlayosUi {
        Transition(ShellForeground);
      }
    }

    method HandleForceTerminate()
      modifies `fg, `overlayVisible, `notices, `enabled, `sent, `expectedToken, `expectedGameId, `gameSurfaceReady
      ensures View() == ForceTerminated(old(View()))
    {
      Transition(TerminatingGame);
      ForgetExpected();
    }

    method GameSurfaceIsReady()
      modifies `fg, `overlayVisible, `notices, `enabled, `sent, `gameSurfaceReady
      ensures View() == SurfaceReady(old(View()))
    {
      if gameSurfaceReady { return; }
      if fg != GameStarting { return; }
      gameSurfaceReady := true;
      IpcSend(GameSurfaceReady(expectedToken));
      Transition(GameForeground);
    }

    method GameHasExited()
      modifies `fg, `overlayVisible, `notices, `enabled, `sent, `expectedToken, `expectedGameId, `gameSurfaceReady
      ensures View() == GameExited(old(View()))
    {
      if fg == GameStarting || fg == GameForeground || fg == PlayosUi || fg == TerminatingGame {
        Transition(ShellForeground);
      }
      ForgetExpected();
    }

    // ---- overlay_manager.c -----------------------------------------------------------------

    method Show()
      modifies `fg, `overlayVisible, `notices, `enabled, `sent
      ensures View() == Shown(old(View()))
    {
      if overlayVisible { return; }
      overlayVisible := true;
      assert View() == WithOverlay(old(View()), true);
      SendAboutToShow();
      if fg == GameForeground {
        Transition(PlayosUi);
      } else {
        Refresh();
      }
    }

    method Hide()
      modifies `fg, `overlayVisible, `notices, `enabled, `sent
      ensures View() == Hidden(old(View()))
    {
      if !overlayVisible { return; }
      overlayVisible := false;
      assert View() == WithOverlay(old(View()), false);
      SendAboutToHide();
      if fg == PlayosUi {
        var next := if gameTree.Some? then GameForeground else ShellForeground;
        Transition(next);
      } else {
        Refresh();
      }
    }

    // ---- compositor.c: toplevel and output listeners ---------------------------------------

    method HandleNewToplevel(tree: Node, client: Client) returns (track: Toplevel)
      requires Valid() && tree !in scene
      modifies this, toplevels
      ensures Valid() && fresh(track) && toplevels == old(toplevels) + [track]
      ensures View() == ToplevelAdded(old(View()), tree, client)
    {
      track := new Toplevel(tree, client);
      Append(track);
      ReclassifyToplevels();
    }

    /** The new tree is the scene's topmost child; the track is the youngest. */
    method Append(track: Toplevel)
      requires Valid() && track.tree !in scene && track !in toplevels && track.role == Unclaimed
      modifies `toplevels, `tracks, `scene, `enabled
      ensures Valid() && toplevels == old(toplevels) + [track]
      ensures View() == Tracked(old(View()), track.tree, track.client)
    {
      scene := scene + [track.tree];
      enabled := enabled + {track.tree};
      toplevels := toplevels + [track];
      tracks := tracks + [track.Value()];
    }

    method HandleToplevelCommit(track: Toplevel, hasBuffer: bool)
      requires Valid() && track in toplevels
      modifies `fg, `overlayVisible, `notices, `enabled, `sent, `gameSurfaceReady
      ensures View() == Committed(old(View()), track.tree, hasBuffer)
    {
      ghost var i := IndexOf(track);
      if track.role == Game && hasBuffer {
        GameSurfaceIsReady();
      }
    }

    method HandleToplevelDestroy(track: Toplevel)
      requires Valid() && track in toplevels
      modifies this
      ensures Valid() && toplevels == Remove(old(toplevels), track)
      ensures View() == ToplevelRemoved(old(View()), track.tree)
    {
      ghost var was := View();
      RemovedHolds(was, track.tree);
      var role := track.role;
      Leave(track);
      Settle(role);
      assert View() == ToplevelRemoved(was, track.tree);
      assert StageView() == ToplevelRemoved(was, track.tree).stage;
    }

    /** The second half of the destroy listener. */
    method Settle(role: Role)
      modifies `fg, `overlayVisible, `notices, `enabled, `sent, `expectedToken, `expectedGameId, `gameSurfaceReady
      modifies `scene
      ensures View() == Raised(if role == Game then GameExited(old(View())) else Refreshed(old(View())))
    {
      if role == Game {
        GameHasExited();
      } else {
        Refresh();
      }
      Restack();
    }

    method Leave(track: Toplevel)
      requires Valid() && track in toplevels
      modifies `toplevels, `tracks, `shellTree, `gameTree, `overlayTree, `scene, `enabled
      ensures Linked() && toplevels == Remove(old(toplevels), track)
      ensures RoleOf(old(tracks), track.tree) == track.role
      ensures View() == Untracked(old(View()), track.tree)
    {
      ghost var i := IndexOf(track);
      Detach(track, i);
    }

    /** The first half of the destroy listener. wlroots takes the destroyed tree out of the scene
        before the listener runs. */
    method Detach(track: Toplevel, ghost i: nat)
      requires Linked() && i < |toplevels| && toplevels[i] == track
      requires RoleOf(tracks, track.tree) == track.role
      requires DistinctTrees(tracks)
      modifies `toplevels, `tracks, `shellTree, `gameTree, `overlayTree, `scene, `enabled
      ensures Linked() && toplevels == Remove(old(toplevels), track)
      ensures StageView() == Detached(old(StageView()), track.tree)
    {
      scene := Without(scene, {track.tree});
      enabled := enabled - {track.tree};
      ForgetTree(track.tree, track.role);
      Unlink(track, i);
    }

    method ForgetTree(tree: Node, role: Role)
      modifies `shellTree, `gameTree, `overlayTree
      ensures shellTree == if role == Shell then Unpoint(old(shellTree), tree) else old(shellTree)
      ensures gameTree == if role == Game then Unpoint(old(gameTree), tree) else old(gameTree)
      ensures overlayTree == if role == Overlay then Unpoint(old(overlayTree), tree) else old(overlayTree)
    {
      if role == Shell && shellTree == Some(tree) {
        shellTree := None;
      } else if role == Game && gameTree == Some(tree) {
        gameTree := None;
      } else if role == Overlay && overlayTree == Some(tree) {
        overlayTree := None;
      }
    }

    /** The stored role read from the track is the one `RoleOf` finds by tree. */
    ghost method IndexOf(track: Toplevel) returns (i: nat)
      requires Valid() && track in toplevels
      ensures i < |toplevels| && toplevels[i] == track
      ensures RoleOf(tracks, track.tree) == track.role
    {
      i :| 0 <= i < |toplevels| && toplevels[i] == track;
      RoleOfMeaning(tracks, i);
    }

    method Unlink(track: Toplevel, ghost i: nat)
      requires Linked() && i < |toplevels| && toplevels[i] == track
      requires DistinctTrees(tracks)
      modifies `toplevels, `tracks
      ensures Linked() && toplevels == Remove(old(toplevels), track)
      ensures tracks == DropTree(old(tracks), track.tree)
    {
      DropTreeForm(tracks, i);
      RemoveForm(toplevels, i);
      toplevels := Remove(toplevels, track);
      tracks := DropTree(tracks, track.tree);
    }

    method HandleNewOutput(background: Node)
      requires Valid() && background !in scene
      modifies `scene, `enabled
      ensures Valid()
      ensures View() == OutputAdded(old(View()), background)
    {
      ghost var was := scene;
      scene := scene + [background];
      enabled := enabled + {background};
      WithoutAppend(was, [background], {background});
      WithoutStrangers(was, {background});
      scene := [background] + Without(scene, {background});
    }

    // ---- trusted_client.c ------------------------------------------------------------------

    method Claim(client: Client, role: Role) returns (ok: bool)
      requires Valid()
      requires role == Shell || role == Overlay
      modifies `shellClient, `overlayClient, `shellListener, `overlayListener
      modifies `shellTree, `gameTree, `overlayTree, `scene, `enabled, `tracks, toplevels
      ensures Valid()
      ensures ok == !IsHeld(old(TrustView()), role == Shell)
      ensures View() == Claimed(old(View()), client, role == Shell)
    {
      if role == Shell && shellClient.Some? { return false; }
      if role == Overlay && overlayClient.Some? { return false; }
      if role == Shell {
        shellClient, shellListener := Some(client), Some(client);
      } else {
        overlayClient, overlayListener := Some(client), Some(client);
      }
      assert View() == if role == Shell then HeldByShell(old(View()), client) else HeldByOverlay(old(View()), client);
      ReclassifyToplevels();
      return true;
    }

    method ShellClientGone()
      requires shellListener.Some?
      modifies `shellClient, `shellListener
      ensures View() == ShellReleased(old(View()))
    {
      shellClient := None;
      shellListener := None;
    }

    method OverlayClientGone()
      requires overlayListener.Some?
      modifies `overlayClient, `overlayListener
      ensures View() == OverlayReleased(old(View()))
    {
      overlayClient := None;
      overlayListener := None;
    }

    // ---- playos_manager.c ------------------------------------------------------------------

    method HandleRegisterShell(client: Client) returns (ok: bool)
      requires Valid()
      modifies this, toplevels
      ensures Valid() && toplevels == old(toplevels)
      ensures ok == old(shellClient).None?
      ensures View() == Claimed(old(View()), client, true)
    {
      ok := Claim(client, Shell);
    }

    method HandleRegisterOverlay(client: Client) returns (ok: bool)
      requires Valid()
      modifies this, toplevels
      ensures Valid() && toplevels == old(toplevels)
      ensures ok == old(overlayClient).None?
      ensures View() == OverlayClaimed(old(View()), client)
    {
      ok := Claim(client, Overlay);
      if !ok { return; }
      ResolveResource(client);
    }

    method ResolveResource(client: Client)
      modifies `overlayResource
      ensures View() == Resolved(old(View()), client)
    {
      for i := 0 to |overlayResources|
        invariant Newest(overlayResources, client) == Newest(overlayResources[i..], client)
        invariant overlayResource == old(overlayResource)
      {
        if overlayResources[i].client == client {
          overlayResource := Some(overlayResources[i].resource);
          return;
        }
      }
    }

    method HandleOverlayBind(client: Client, resource: Resource)
      requires !IsBound(TrustView(), resource)
      modifies `overlayResources, `overlayResource
      ensures View() == OverlayBound(old(View()), client, resource)
    {
      overlayResources := [Binding(client, resource)] + overlayResources;
      if overlayClient == Some(client) { ResolveResource(client); }
    }

    method HandleResourceDestroy(resource: Resource)
      requires IsBound(TrustView(), resource)
      modifies `overlayResources, `overlayResource
      ensures View() == ResourceRemoved(old(View()), resource)
    {
      if overlayResource == Some(resource) { overlayResource := None; }
      overlayResources := DropResource(overlayResources, resource);
    }

    method HandleRequestDismiss(client: Client)
      modifies `fg, `overlayVisible, `notices, `enabled, `sent
      ensures View() == Dismissed(old(View()), client)
    {
      if overlayClient != Some(client) { return; }
      Hide();
    }

    method SendAboutToShow()
      modifies `notices
      ensures View() == Told(old(View()), AboutToShow)
    {
      notices := notices + [Notice(AboutToShow, overlayResource)];
    }

    method SendAboutToHide()
      modifies `notices
      ensures View() == Told(old(View()), AboutToHide)
    {
      notices := notices + [Notice(AboutToHide, overlayResource)];
    }

    method IpcSend(message: Message)
      modifies `sent
      ensures View() == Sent(old(View()), message)
    {
      sent := sent + [message];
    }

    // ---- system_button.c -------------------------------------------------------------------

    method HandleKey(code: nat, pressed: bool)
      modifies `fg, `overlayVisible, `notices, `enabled, `sent
      ensures View() == KeyHandled(old(View()), code, pressed)
    {
      if IsReserved(code) && pressed {
        if code == BTN_MODE || code == KEY_PROG1 || code == BTN_TRIGGER_HAPPY1 || code == KEY_F17 {
          if fg == GameForeground {
            Show();
          } else if fg == PlayosUi {
            Hide();
          }
        }
        return;
      }
    }
  }
}
