/** Progress: from every reachable state, an expected game whose client creates a surface and commits
    a buffer brings a game tree to the front, and its token is sent back. The tree in front is the
    oldest surface of any client without a role, which need not be the launched game's. */
module Launch {
  import opened Foundation
  import opened StateMachine
  import opened StageFacts
  import opened StageInvariant
  import opened Sessions
  import opened Protocol
  import opened Roles

  lemma ExpectingFrame(s: State, token: bytes, gameId: bytes)
    ensures var a := Step(s, SetExpectedGame(token, gameId));
            && a.stage.tracks == s.stage.tracks && a.stage.scene == s.stage.scene && a.trust == s.trust
  {
  }

  /** The tree of the oldest toplevel whose client holds no role. */
  function OldestUnprivileged(tracks: seq<Track>, trust: Trust): Option<Node> {
    if tracks == [] then None
    else if Unprivileged(trust, tracks[0].client) then Some(tracks[0].tree)
    else OldestUnprivileged(tracks[1..], trust)
  }

  /** When roles are resolved outside the shell, the first GAME is the oldest surface of any client
      without a role. */
  lemma {:induction false} GameIsUnprivileged(tracks: seq<Track>, fg: Foreground, trust: Trust)
    requires fg != ShellForeground
    ensures Oldest(ResolvedRoles(tracks, fg, trust), Game) == OldestUnprivileged(tracks, trust)
  {
    if tracks == [] {
    } else {
      assert ResolvedRoles(tracks, fg, trust)[1..] == ResolvedRoles(tracks[1..], fg, trust);
      GameIsUnprivileged(tracks[1..], fg, trust);
    }
  }

  lemma {:induction false} OldestAppend(tracks: seq<Track>, t: Track, trust: Trust)
    requires Unprivileged(trust, t.client)
    ensures OldestUnprivileged(tracks + [t], trust) ==
            if OldestUnprivileged(tracks, trust).Some? then OldestUnprivileged(tracks, trust) else Some(t.tree)
  {
    if tracks == [] {
    } else {
      assert (tracks + [t])[1..] == tracks[1..] + [t];
      OldestAppend(tracks[1..], t, trust);
    }
  }

  lemma {:induction false} OldestUnprivilegedMeaning(tracks: seq<Track>, trust: Trust)
    ensures OldestUnprivileged(tracks, trust).None? <==> forall t | t in tracks :: !Unprivileged(trust, t.client)
    ensures OldestUnprivileged(tracks, trust).Some? ==>
              exists t :: t in tracks && OldestUnprivileged(tracks, trust) == Some(t.tree)
  {
    if tracks == [] {
    } else {
      assert tracks == [tracks[0]] + tracks[1..];
      OldestUnprivilegedMeaning(tracks[1..], trust);
    }
  }

  /** The tree designated as the game once a surface `tree` has joined the others. */
  function GameAmong(s: State, tree: Node): Node {
    match OldestUnprivileged(s.stage.tracks, s.trust)
    case None => tree
    case Some(n) => n
  }

  /** The launched surface is the game iff no other surface of a client without a role is around. */
  lemma GameAmongMeaning(s: State, tree: Node)
    requires StageInv(s) && tree !in s.stage.scene
    ensures GameAmong(s, tree) == tree <==> forall t | t in s.stage.tracks :: !Unprivileged(s.trust, t.client)
  {
    OldestUnprivilegedMeaning(s.stage.tracks, s.trust);
    if t :| t in s.stage.tracks && OldestUnprivileged(s.stage.tracks, s.trust) == Some(t.tree) {
      var i :| 0 <= i < |s.stage.tracks| && s.stage.tracks[i] == t;
    }
  }

  /** While a game is expected, a surface of an unprivileged client is stored as GAME, and the oldest
      such surface is designated. */
  lemma SurfaceIsGame(a: State, tree: Node, client: Client)
    requires StageInv(a) && a.session.fg == GameStarting
    requires tree !in a.stage.scene && Unprivileged(a.trust, client)
    ensures var b := Step(a, NewToplevel(tree, client));
            && StageInv(b) && b.session == a.session
            && IsTracked(b.stage, tree) && RoleOf(b.stage.tracks, tree) == Game
            && b.stage.gameTree == Some(GameAmong(a, tree))
  {
    var b := Step(a, NewToplevel(tree, client));
    var i := |a.stage.tracks|;
    StepKeepsStage(a, NewToplevel(tree, client));
    OtherMoves(a, NewToplevel(tree, client));
    assert b.stage.tracks == Reassigned(Tracked(a, tree, client));
    assert b.stage.tracks[i] == Track(tree, client, Game);
    RoleOfMeaning(b.stage.tracks, i);
    assert b.stage.gameTree == Oldest(b.stage.tracks, Game);
    GameIsUnprivileged(Tracked(a, tree, client).stage.tracks, GameStarting, a.trust);
    OldestAppend(a.stage.tracks, Track(tree, client, Unclaimed), a.trust);
  }

  /** Its first buffer is the game's: the token goes out and a game tree is in front. */
  lemma FrameStartsGame(b: State, tree: Node)
    requires StageInv(b) && b.session.fg == GameStarting && !b.session.ready
    requires IsTracked(b.stage, tree) && RoleOf(b.stage.tracks, tree) == Game && b.stage.gameTree.Some?
    ensures var c := Step(b, Commit(tree, true));
            && c.session.fg == GameForeground && c.session.token == b.session.token
            && c.sent == b.sent + [GameSurfaceReady(b.session.token), StateChanged(GameForeground)]
            && c.stage.gameTree == b.stage.gameTree && Topmost(c.stage, c.stage.gameTree.value)
  {
    var c := Step(b, Commit(tree, true));
    SurfaceMoves(b, Commit(tree, true));
    StepReports(b, Commit(tree, true));
    QuietStep(b, Commit(tree, true));
    StepKeepsStage(b, Commit(tree, true));
    assert c.stage.gameTree == b.stage.gameTree;
    ForegroundOnTop(c);
  }

  /** From every reachable state a launch is possible and ends with a game tree in front, the token
      sent back just before the change is announced. That tree is the launched surface iff no client
      without a role had a surface before. */
  lemma LaunchSucceeds(s: State, token: bytes, gameId: bytes, tree: Node, client: Client)
    requires Reachable(s) && tree !in s.stage.scene && Unprivileged(s.trust, client)
    ensures var a := Step(s, SetExpectedGame(token, gameId));
            var b := Step(a, NewToplevel(tree, client));
            var c := Step(b, Commit(tree, true));
            && Reachable(c) && c.session.fg == GameForeground && c.session.token == Cut(token, 63)
            && c.sent == b.sent + [GameSurfaceReady(Cut(token, 63)), StateChanged(GameForeground)]
            && c.stage.gameTree == Some(GameAmong(s, tree)) && Topmost(c.stage, GameAmong(s, tree))
            && (c.stage.gameTree == Some(tree) <==>
                forall t | t in s.stage.tracks :: !Unprivileged(s.trust, t.client))
  {
    var a := Step(s, SetExpectedGame(token, gameId));
    var b := Step(a, NewToplevel(tree, client));
    ReachableStep(s, SetExpectedGame(token, gameId));
    ReachableStage(a);
    SetStep(s, token, gameId);
    ExpectingFrame(s, token, gameId);
    SurfaceIsGame(a, tree, client);
    ReachableStep(a, NewToplevel(tree, client));
    FrameStartsGame(b, tree);
    ReachableStep(b, Commit(tree, true));
    ReachableStage(s);
    GameAmongMeaning(s, tree);
  }
}
