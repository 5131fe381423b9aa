/** The event loop: whatever the listeners deliver, the compositor object performs `Step`, so every
    property of reachable states and of runs holds of the object. */
module EventLoop {
  import opened StateMachine
  import opened StageFacts
  import opened StageInvariant
  import opened CompositorModel

  /** The track whose listeners were registered for `tree`. */
  method TrackOf(c: Compositor, tree: Node) returns (track: Toplevel)
    requires c.Valid() && IsTracked(c.StageView(), tree)
    ensures track in c.toplevels && track.tree == tree
  {
    var i :| 0 <= i < |c.toplevels| && c.toplevels[i].tree == tree;
    track := c.toplevels[i];
  }

  /** One event reaches its handler. */
  method Deliver(c: Compositor, e: Event)
    requires c.Valid() && Possible(c.View(), e)
    modifies c, c.toplevels
    ensures c.Valid() && c.View() == Step(old(c.View()), e)
    ensures forall i | 0 <= i < |c.toplevels| :: c.toplevels[i] in old(c.toplevels) || fresh(c.toplevels[i])
  {
    if e.NewToplevel? || e.Commit? || e.DestroyToplevel? {
      DeliverToplevel(c, e);
    } else if e.RegisterShell? || e.RegisterOverlay? || e.NewOutput? {
      DeliverReordering(c, e);
    } else {
      DeliverRequest(c, e);
    }
  }

  method DeliverReordering(c: Compositor, e: Event)
    requires c.Valid() && Possible(c.View(), e)
    requires e.RegisterShell? || e.RegisterOverlay? || e.NewOutput?
    modifies c, c.toplevels
    ensures c.Valid() && c.View() == Step(old(c.View()), e)
    ensures c.toplevels == old(c.toplevels)
  {
    match e
    case RegisterShell(client) => var ok := c.HandleRegisterShell(client);
    case RegisterOverlay(client) => var ok := c.HandleRegisterOverlay(client);
    case NewOutput(background) => c.HandleNewOutput(background);
  }

  method DeliverToplevel(c: Compositor, e: Event)
    requires c.Valid() && Possible(c.View(), e)
    requires e.NewToplevel? || e.Commit? || e.DestroyToplevel?
    modifies c, c.toplevels
    ensures c.Valid() && c.View() == Step(old(c.View()), e)
    ensures forall i | 0 <= i < |c.toplevels| :: c.toplevels[i] in old(c.toplevels) || fresh(c.toplevels[i])
  {
    match e
    case NewToplevel(tree, client) => var track := c.HandleNewToplevel(tree, client);
    case Commit(tree, hasBuffer) =>
      var track := TrackOf(c, tree);
      c.HandleToplevelCommit(track, hasBuffer);
    case DestroyToplevel(tree) =>
      var track := TrackOf(c, tree);
      RemoveSubset(c.toplevels, track);
      c.HandleToplevelDestroy(track);
  }

  /** Commands, keys and the overlay's bindings reach neither the track list nor the scene order. */
  method DeliverRequest(c: Compositor, e: Event)
    requires Possible(c.View(), e)
    requires !e.NewToplevel? && !e.Commit? && !e.DestroyToplevel?
    requires !e.RegisterShell? && !e.RegisterOverlay? && !e.NewOutput?
    modifies c`fg, c`expectedToken, c`expectedGameId, c`gameSurfaceReady, c`overlayVisible
    modifies c`enabled, c`sent, c`notices
    modifies c`shellClient, c`overlayClient, c`shellListener, c`overlayListener, c`overlayResources, c`overlayResource
    ensures c.View() == Step(old(c.View()), e)
  {
    match e
    case SetExpectedGame(token, gameId) => c.HandleSetExpectedGame(token, gameId);
    case ClearExpectedGame => c.HandleClearExpected();
    case ForceTerminateGame => c.HandleForceTerminate();
    case ShowOverlay => c.Show();
    case HideOverlay => c.Hide();
    case ShellGone => c.ShellClientGone();
    case OverlayGone => c.OverlayClientGone();
    case BindOverlay(client, resource) => c.HandleOverlayBind(client, resource);
    case DestroyResource(resource) => c.HandleResourceDestroy(resource);
    case RequestDismiss(client) => c.HandleRequestDismiss(client);
    case Key(code, pressed) => c.HandleKey(code, pressed);
  }

  lemma {:induction false} RemoveSubset(ts: seq<Toplevel>, track: Toplevel)
    ensures forall t | t in Remove(ts, track) :: t in ts
  {
    if ts != [] && ts[0] != track { RemoveSubset(ts[1..], track); }
  }

  /** From start-up through any legal run, the object is in the state `After` describes. */
  method Run(es: seq<Event>) returns (c: Compositor)
    requires Legal(es)
    ensures fresh(c) && c.Valid()
    ensures c.View() == After(es) && Reachable(c.View()) && StageInv(c.View())
  {
    c := new Compositor();
    for i := 0 to |es|
      invariant fresh(c) && fresh(c.toplevels) && c.Valid()
      invariant c.View() == After(es[..i])
    {
      assert es[..i + 1][..i] == es[..i];
      Deliver(c, es[i]);
    }
    assert es[..|es|] == es;
    RunKeepsStage(es);
  }
}
