/** Who owns the surfaces that are designated: over every run, trusted trees belong to role holders
    and the game tree to a client that holds no role. */
module Roles {
  import opened Foundation
  import opened StateMachine
  import opened StageFacts
  import opened StageInvariant
  import opened Teardown

  /** A stored role agrees with the role holders: the shell holder's toplevels are all SHELL, the
      overlay holder's never GAME or unclaimed, and SHELL or OVERLAY is stored for another client
      only while that role is vacant. */
  ghost predicate RoleFits(t: Track, trust: Trust) {
    && (trust.shellClient == Some(t.client) ==> t.role == Shell)
    && (trust.overlayClient == Some(t.client) ==> t.role == Overlay || t.role == Shell)
    && (t.role == Shell ==> trust.shellClient.None? || trust.shellClient == Some(t.client))
    && (t.role == Overlay ==> trust.overlayClient.None? || trust.overlayClient == Some(t.client))
  }

  ghost predicate RolesFit(s: State) {
    forall t | t in s.stage.tracks :: RoleFits(t, s.trust)
  }

  lemma ReclassifiedRoles(s: State)
    ensures RolesFit(Reclassified(s))
  {
    forall t | t in Reclassified(s).stage.tracks ensures RoleFits(t, s.trust) {
      var i :| 0 <= i < |s.stage.tracks| && Reassigned(s)[i] == t;
      assert t.role == RoleFor(s.session.fg, s.trust, t.client);
    }
  }

  lemma RemovedRoles(s: State, tree: Node)
    requires RolesFit(s) && WellStaged(s.stage) && IsTracked(s.stage, tree)
    ensures RolesFit(ToplevelRemoved(s, tree))
  {
    TreesAfterDrop(s.stage.tracks, tree);
    RemovedTracks(s, tree);
  }

  lemma RemovedTracks(s: State, tree: Node)
    ensures ToplevelRemoved(s, tree).stage.tracks == DropTree(s.stage.tracks, tree)
    ensures ToplevelRemoved(s, tree).trust == s.trust
  {
  }

  lemma StepKeepsRoles(s: State, e: Event)
    requires RolesFit(s) && WellStaged(s.stage) && Possible(s, e)
    ensures RolesFit(Step(s, e))
  {
    match e
    case NewToplevel(tree, client) => ReclassifiedRoles(Tracked(s, tree, client));
    case RegisterShell(client) => ReclassifiedRoles(HeldByShell(s, client));
    case RegisterOverlay(client) => ReclassifiedRoles(HeldByOverlay(s, client));
    case DestroyToplevel(tree) => RemovedRoles(s, tree);
    case _ => OtherStep(s, e);
  }

  /** Every other event leaves tracks alone and at most vacates a role. */
  lemma OtherStep(s: State, e: Event)
    requires !e.NewToplevel? && !e.RegisterShell? && !e.RegisterOverlay? && !e.DestroyToplevel?
    ensures var t := Step(s, e);
            && t.stage.tracks == s.stage.tracks
            && (t.trust.shellClient == s.trust.shellClient || t.trust.shellClient.None?)
            && (t.trust.overlayClient == s.trust.overlayClient || t.trust.overlayClient.None?)
  {
  }

  lemma {:induction false} RunKeepsRoles(es: seq<Event>)
    requires Legal(es)
    ensures RolesFit(After(es))
  {
    if es == [] {
    } else {
      LastStep(es);
      RunKeepsRoles(es[..|es| - 1]);
      RunKeepsStage(es[..|es| - 1]);
      StepKeepsRoles(After(es[..|es| - 1]), es[|es| - 1]);
    }
  }

  /** The track designated by a pointer. */
  ghost predicate Designates(stage: Stage, pointer: Option<Node>, t: Track) {
    t in stage.tracks && pointer == Some(t.tree)
  }

  /** In every reachable state the shell tree belongs to the shell holder, or the role is vacant;
      likewise the overlay tree; and the game tree belongs to a client without a role. */
  lemma TreeOwners(es: seq<Event>, t: Track)
    requires Legal(es)
    ensures var s := After(es);
            && (Designates(s.stage, s.stage.shellTree, t) ==>
                  s.trust.shellClient.None? || s.trust.shellClient == Some(t.client))
            && (Designates(s.stage, s.stage.overlayTree, t) ==>
                  s.trust.overlayClient.None? || s.trust.overlayClient == Some(t.client))
            && (Designates(s.stage, s.stage.gameTree, t) ==>
                  s.trust.shellClient != Some(t.client) && s.trust.overlayClient != Some(t.client))
  {
    var stage := After(es).stage;
    RunKeepsRoles(es);
    RunKeepsStage(es);
    if t in stage.tracks {
      var i :| 0 <= i < |stage.tracks| && stage.tracks[i] == t;
      RoleOfMeaning(stage.tracks, i);
      if stage.shellTree == Some(t.tree) { PointerRole(stage, stage.shellTree, Shell, t.tree); }
      if stage.overlayTree == Some(t.tree) { PointerRole(stage, stage.overlayTree, Overlay, t.tree); }
      if stage.gameTree == Some(t.tree) { PointerRole(stage, stage.gameTree, Game, t.tree); }
    }
  }

  /** The tree of the client's oldest toplevel. */
  function OldestOf(tracks: seq<Track>, client: Client): Option<Node> {
    if tracks == [] then None
    else if tracks[0].client == client then Some(tracks[0].tree)
    else OldestOf(tracks[1..], client)
  }

  lemma {:induction false} OldestByRole(tracks: seq<Track>, client: Client, role: Role)
    requires forall t | t in tracks :: t.role == role <==> t.client == client
    ensures Oldest(tracks, role) == OldestOf(tracks, client)
  {
    if tracks == [] {
    } else {
      OldestByRole(tracks[1..], client, role);
    }
  }

  lemma {:induction false} SameOwners(a: seq<Track>, b: seq<Track>, client: Client)
    requires |a| == |b| && forall i | 0 <= i < |a| :: a[i].tree == b[i].tree && a[i].client == b[i].client
    ensures OldestOf(a, client) == OldestOf(b, client)
  {
    if a == [] {
    } else {
      SameOwners(a[1..], b[1..], client);
    }
  }

  lemma HolderDesignated(s: State, client: Client, role: Role)
    requires forall c :: RoleFor(s.session.fg, s.trust, c) == role <==> c == client
    ensures Oldest(Reassigned(s), role) == OldestOf(s.stage.tracks, client)
  {
    var a := Reassigned(s);
    SameOwners(a, s.stage.tracks, client);
    OldestByRole(a, client, role);
  }

  lemma ReclassifiedPointers(s: State)
    ensures Reclassified(s).stage.shellTree == Oldest(Reassigned(s), Shell)
    ensures Reclassified(s).stage.overlayTree == Oldest(Reassigned(s), Overlay)
  {
  }

  lemma {:induction false} NoneOfRole(tracks: seq<Track>, role: Role)
    requires forall t | t in tracks :: t.role != role
    ensures Oldest(tracks, role) == None
  {
    if tracks == [] {
    } else {
      NoneOfRole(tracks[1..], role);
    }
  }

  /** A granted shell claim puts the claimant's oldest toplevel in the shell's place, even one that
      had been taken for the game. An overlay claim does likewise, but designates nothing when the
      claimant is the shell. */
  lemma ClaimDesignates(s: State, client: Client)
    ensures s.trust.shellClient.None? ==>
              Claimed(s, client, true).stage.shellTree == OldestOf(s.stage.tracks, client)
    ensures s.trust.overlayClient.None? && s.trust.shellClient != Some(client) ==>
              OverlayClaimed(s, client).stage.overlayTree == OldestOf(s.stage.tracks, client)
    ensures s.trust.overlayClient.None? && s.trust.shellClient == Some(client) ==>
              OverlayClaimed(s, client).stage.overlayTree == None
  {
    if s.trust.shellClient.None? {
      HolderDesignated(HeldByShell(s, client), client, Shell);
      ReclassifiedPointers(HeldByShell(s, client));
    }
    if s.trust.overlayClient.None? && s.trust.shellClient != Some(client) {
      HolderDesignated(HeldByOverlay(s, client), client, Overlay);
      ReclassifiedPointers(HeldByOverlay(s, client));
    }
    if s.trust.overlayClient.None? && s.trust.shellClient == Some(client) {
      NoneOfRole(Reassigned(HeldByOverlay(s, client)), Overlay);
      ReclassifiedPointers(HeldByOverlay(s, client));
    }
  }

  /** While the shell is in front, a surface that appears leaves no game designated. */
  lemma NoGameInShell(s: State, tree: Node, client: Client)
    requires s.session.fg == ShellForeground
    ensures Step(s, NewToplevel(tree, client)).stage.gameTree == None
  {
    NoneOfRole(Reassigned(Tracked(s, tree, client)), Game);
  }

  /** The client holds neither trusted role. */
  predicate Unprivileged(trust: Trust, client: Client) {
    trust.shellClient != Some(client) && trust.overlayClient != Some(client)
  }

  /** A new surface is taken for the game iff its client has no role and the shell is not in front,
      whether or not a game is still expected. */
  lemma NewSurfaceIsGame(s: State, tree: Node, client: Client)
    requires StageInv(s) && tree !in s.stage.scene
    ensures RoleOf(Step(s, NewToplevel(tree, client)).stage.tracks, tree) == Game
       <==> s.session.fg != ShellForeground && Unprivileged(s.trust, client)
  {
    var t := Step(s, NewToplevel(tree, client));
    StepKeepsStage(s, NewToplevel(tree, client));
    assert t.stage.tracks == Reassigned(Tracked(s, tree, client));
    RoleOfMeaning(t.stage.tracks, |s.stage.tracks|);
  }

  // ---- Who is given which role -------------------------------------------------------------

  /** Every reclassification stores exactly these roles. */
  lemma RolesResolved(s: State, t: Track)
    requires t in Reclassified(s).stage.tracks
    ensures t.role == Shell <==> s.trust.shellClient == Some(t.client)
    ensures t.role == Overlay <==> s.trust.overlayClient == Some(t.client) && s.trust.shellClient != Some(t.client)
    ensures t.role == Game <==>
              s.trust.shellClient != Some(t.client) && s.trust.overlayClient != Some(t.client)
              && s.session.fg in {GameStarting, GameForeground, PlayosUi, TerminatingGame}
  {
    var i :| 0 <= i < |s.stage.tracks| && Reassigned(s)[i] == t;
    assert t.role == RoleFor(s.session.fg, s.trust, t.client);
  }

  /** Resolving roles changes nothing else about a track, and keeps them all in order. */
  lemma OnlyRolesChange(s: State)
    ensures var a, b := s.stage.tracks, Reclassified(s).stage.tracks;
            |b| == |a| && forall i | 0 <= i < |a| :: b[i].tree == a[i].tree && b[i].client == a[i].client
  {
  }

  /** The client was granted the role by one of the events. */
  ghost predicate WasGranted(es: seq<Event>, client: Client, shell: bool) {
    exists k :: 0 <= k < |es| && GrantedTo(es, k, client, shell)
  }

  ghost predicate GrantedTo(es: seq<Event>, k: nat, client: Client, shell: bool)
    requires k < |es|
  {
    && (if shell then es[k] == RegisterShell(client) else es[k] == RegisterOverlay(client))
    && HolderAt(es, k, shell) == None
  }

  lemma GrantedEarlier(es: seq<Event>, client: Client, shell: bool)
    requires es != [] && WasGranted(es[..|es| - 1], client, shell)
    ensures WasGranted(es, client, shell)
  {
    var init := es[..|es| - 1];
    var k :| 0 <= k < |init| && GrantedTo(init, k, client, shell);
    assert init[..k] == es[..k];
    assert GrantedTo(es, k, client, shell);
  }

  lemma {:induction false} HolderWasGranted(es: seq<Event>, client: Client, shell: bool)
    requires Holder(After(es).trust, shell) == Some(client)
    ensures WasGranted(es, client, shell)
  {
    if es == [] {
    } else {
      var init, last := es[..|es| - 1], es[|es| - 1];
      HolderStep(After(init), last, shell);
      if Grants(After(init), last, shell) {
        assert es[..|es| - 1] == init;
        assert GrantedTo(es, |es| - 1, client, shell);
      } else {
        HolderWasGranted(init, client, shell);
        GrantedEarlier(es, client, shell);
      }
    }
  }

  /** A stored role was there before the event, or the event made its client the role's holder or found
      it to be. */
  lemma StoredRoleStep(s: State, e: Event, t: Track, shell: bool)
    requires WellStaged(s.stage) && Possible(s, e)
    requires t in Step(s, e).stage.tracks && t.role == (if shell then Shell else Overlay)
    ensures t in s.stage.tracks || Holder(Step(s, e).trust, shell) == Some(t.client)
  {
    match e
    case NewToplevel(tree, client) => RolesResolved(Tracked(s, tree, client), t);
    case RegisterShell(client) =>
      if s.trust.shellClient.None? { RolesResolved(HeldByShell(s, client), t); }
    case RegisterOverlay(client) =>
      if s.trust.overlayClient.None? { RolesResolved(HeldByOverlay(s, client), t); }
    case DestroyToplevel(tree) =>
      TreesAfterDrop(s.stage.tracks, tree);
      RemovedTracks(s, tree);
    case _ => OtherStep(s, e);
  }

  /** Over every run a toplevel is stored SHELL or OVERLAY only if its client was granted that role. */
  lemma {:induction false} TrustedWasGranted(es: seq<Event>, t: Track, shell: bool)
    requires Legal(es) && t in After(es).stage.tracks && t.role == (if shell then Shell else Overlay)
    ensures WasGranted(es, t.client, shell)
  {
    if es == [] {
    } else {
      var init := es[..|es| - 1];
      LastStep(es);
      RunKeepsStage(init);
      StoredRoleStep(After(init), es[|es| - 1], t, shell);
      if t in After(init).stage.tracks {
        TrustedWasGranted(init, t, shell);
        GrantedEarlier(es, t.client, shell);
      } else {
        HolderWasGranted(es, t.client, shell);
      }
    }
  }
}
