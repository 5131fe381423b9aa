/** Runs in which a disconnection is one delivery, as it is for the event loop: the promoted overlay
    resource then always belongs to the client holding the overlay role. */
module Ownership {
  import opened Foundation
  import opened StateMachine
  import opened StageFacts
  import opened StageInvariant
  import opened Teardown
  import opened Roles

  datatype Delivery = Single(event: Event) | Disconnect(client: Client, teardown: seq<Event>)

  function Applied(s: State, d: Delivery): State {
    match d
    case Single(e) => Step(s, e)
    case Disconnect(_, es) => RunFrom(s, es)
  }

  /** Role listeners fire only as part of their client's disconnection, which is always completed. */
  ghost predicate Allowed(s: State, d: Delivery) {
    match d
    case Single(e) => Possible(s, e) && !e.ShellGone? && !e.OverlayGone?
    case Disconnect(client, es) => FullTeardown(s, client, es)
  }

  function Delivered(ds: seq<Delivery>): State {
    if ds == [] then INITIAL else Applied(Delivered(ds[..|ds| - 1]), ds[|ds| - 1])
  }

  ghost predicate Orderly(ds: seq<Delivery>) {
    forall k | 0 <= k < |ds| :: Allowed(Delivered(ds[..k]), ds[k])
  }

  /** The overlay resource is null or the newest binding of the current overlay client. */
  ghost predicate ResourceOwned(trust: Trust) {
    trust.overlayResource.Some? ==>
      && trust.overlayClient.Some?
      && trust.overlayResource == Newest(trust.bindings, trust.overlayClient.value)
  }

  lemma {:induction false} NewestIsBound(bindings: seq<Binding>, client: Client)
    requires Newest(bindings, client).Some?
    ensures Binding(client, Newest(bindings, client).value) in bindings
  {
    if bindings[0].client != client {
      NewestIsBound(bindings[1..], client);
    } else {
      assert bindings[0] == Binding(client, bindings[0].resource);
    }
  }

  lemma {:induction false} NewestAfterDrop(bindings: seq<Binding>, resource: Resource, client: Client)
    requires Newest(bindings, client) != Some(resource) && Newest(bindings, client).Some?
    ensures Newest(DropResource(bindings, resource), client) == Newest(bindings, client)
  {
    if bindings[0].client != client && bindings[0].resource != resource {
      NewestAfterDrop(bindings[1..], resource, client);
    }
  }

  lemma {:induction false} NewestAmongOthers(bindings: seq<Binding>, gone: Client, client: Client)
    requires gone != client
    ensures Newest(OthersBindings(bindings, gone), client) == Newest(bindings, client)
  {
    if bindings == [] {
    } else {
      NewestAmongOthers(bindings[1..], gone, client);
      var rest := OthersBindings(bindings[1..], gone);
      assert OthersBindings(bindings, gone) == if bindings[0].client == gone then rest else [bindings[0]] + rest;
    }
  }

  lemma SingleKeepsOwned(s: State, e: Event)
    requires ResourceOwned(s.trust) && Allowed(s, Single(e))
    ensures ResourceOwned(Step(s, e).trust)
  {
    match e
    case DestroyResource(resource) =>
      if s.trust.overlayResource.Some? && s.trust.overlayResource != Some(resource) {
        NewestAfterDrop(s.trust.bindings, resource, s.trust.overlayClient.value);
      }
    case RegisterOverlay(client) =>
    case BindOverlay(client, resource) =>
    case _ =>
  }

  lemma DisconnectKeepsOwned(s: State, client: Client, es: seq<Event>)
    requires StageInv(s) && TrustInv(s.trust) && ResourceOwned(s.trust)
    requires FullTeardown(s, client, es)
    ensures ResourceOwned(RunFrom(s, es).trust)
  {
    TeardownOutcome(s, client, es);
    if s.trust.overlayResource.Some? {
      var holder := s.trust.overlayClient.value;
      NewestIsBound(s.trust.bindings, holder);
      if holder != client { NewestAmongOthers(s.trust.bindings, client, holder); }
    }
  }

  /** A granted overlay claim promotes the claimant's newest binding, and a holder's fresh binding is
      promoted at once. */
  lemma NewestIsPromoted(s: State, client: Client, resource: Resource)
    requires ResourceOwned(s.trust)
    ensures s.trust.overlayClient.None? ==>
              Step(s, RegisterOverlay(client)).trust.overlayResource == Newest(s.trust.bindings, client)
    ensures s.trust.overlayClient == Some(client) ==>
              Step(s, BindOverlay(client, resource)).trust.overlayResource == Some(resource)
  {
  }

  /** An orderly run split at its last delivery. */
  lemma LastDelivery(ds: seq<Delivery>)
    requires Orderly(ds) && ds != []
    ensures var init := ds[..|ds| - 1];
            && Orderly(init) && Allowed(Delivered(init), ds[|ds| - 1])
            && Delivered(ds) == Applied(Delivered(init), ds[|ds| - 1])
  {
    var init := ds[..|ds| - 1];
    forall k | 0 <= k < |init| ensures Allowed(Delivered(init[..k]), init[k]) {
      assert init[..k] == ds[..k];
    }
  }

  lemma {:induction false} OverlayResourceOwned(ds: seq<Delivery>)
    requires Orderly(ds)
    ensures StageInv(Delivered(ds)) && TrustInv(Delivered(ds).trust)
    ensures ResourceOwned(Delivered(ds).trust)
  {
    if ds == [] {
    } else {
      var init, last := ds[..|ds| - 1], ds[|ds| - 1];
      var s := Delivered(init);
      LastDelivery(ds);
      OverlayResourceOwned(init);
      match last
      case Single(e) =>
        StepKeepsStage(s, e);
        StepKeepsTrust(s, e);
        SingleKeepsOwned(s, e);
      case Disconnect(client, es) =>
        TeardownOutcome(s, client, es);
        DisconnectKeepsOwned(s, client, es);
    }
  }

  /** Deliveries are runs of events, so everything proved of runs holds between deliveries. */
  lemma {:induction false} DeliveredReachable(ds: seq<Delivery>)
    requires Orderly(ds)
    ensures Reachable(Delivered(ds))
  {
    if ds == [] {
      assert Legal([]) && After([]) == INITIAL;
    } else {
      var init, last := ds[..|ds| - 1], ds[|ds| - 1];
      LastDelivery(ds);
      DeliveredReachable(init);
      OverlayResourceOwned(init);
      match last
      case Single(e) => ReachableStep(Delivered(init), e);
      case Disconnect(client, es) => TeardownReachable(Delivered(init), client, es);
    }
  }

  lemma {:induction false} TeardownReachable(s: State, client: Client, es: seq<Event>)
    requires Reachable(s) && StageInv(s) && TrustInv(s.trust) && FullTeardown(s, client, es)
    ensures Reachable(RunFrom(s, es))
    decreases |es|
  {
    if es == [] {
    } else {
      DestroyStep(s, client, es[0], None);
      ReachableStep(s, es[0]);
      StepKeepsStage(s, es[0]);
      StepKeepsTrust(s, es[0]);
      TeardownReachable(Step(s, es[0]), client, es[1..]);
    }
  }

  // ---- Trusted clients and their resources at a disconnection -------------------------------

  lemma ReachableFits(s: State)
    requires Reachable(s)
    ensures StageInv(s) && TrustInv(s.trust) && RolesFit(s)
  {
    var es :| Legal(es) && After(es) == s;
    RunKeepsStage(es);
    RunKeepsTrust(es);
    RunKeepsRoles(es);
  }

  /** The holder of a trusted role owns no game. */
  lemma HolderOwnsNoGame(s: State, client: Client, shell: bool)
    requires RolesFit(s) && Holder(s.trust, shell) == Some(client)
    ensures !OwnsGame(s.stage.tracks, client)
  {
    forall i | 0 <= i < |s.stage.tracks| && s.stage.tracks[i].client == client
      ensures s.stage.tracks[i].role != Game
    {
      assert RoleFits(s.stage.tracks[i], s.trust);
    }
  }

  /** A shell or overlay crash never ends a game: from every reachable state, the disconnection of a
      role's holder leaves the session, the overlay's visibility and both logs as they were. */
  lemma TrustedCrash(s: State, client: Client, shell: bool, es: seq<Event>)
    requires Reachable(s) && Holder(s.trust, shell) == Some(client) && FullTeardown(s, client, es)
    ensures var t := RunFrom(s, es); t.session == s.session && t.sent == s.sent && t.notices == s.notices
  {
    ReachableFits(s);
    HolderOwnsNoGame(s, client, shell);
    DisconnectionEndsOnlyItsGame(s, client, es);
  }

  /** The promoted resource belongs to the overlay's holder alone. */
  lemma PromotedHolder(trust: Trust, client: Client)
    requires TrustInv(trust) && ResourceOwned(trust) && trust.overlayResource.Some?
    requires Binding(client, trust.overlayResource.value) in trust.bindings
    ensures trust.overlayClient == Some(client)
  {
    var holder := trust.overlayClient.value;
    NewestIsBound(trust.bindings, holder);
    var i :| 0 <= i < |trust.bindings| && trust.bindings[i] == Binding(client, trust.overlayResource.value);
    var j :| 0 <= j < |trust.bindings| && trust.bindings[j] == Binding(holder, trust.overlayResource.value);
    assert i == j;
  }

  /** Between deliveries no client owns both a game and the promoted resource. */
  lemma NeverHidesDying(ds: seq<Delivery>, client: Client)
    requires Orderly(ds)
    ensures !HidesDying(Delivered(ds), client)
  {
    var s := Delivered(ds);
    OverlayResourceOwned(ds);
    DeliveredReachable(ds);
    ReachableFits(s);
    if HidesDying(s, client) {
      PromotedHolder(s.trust, client);
      HolderOwnsNoGame(s, client, false);
      assert false;
    }
  }

  /** Between deliveries the order of any client's teardown cannot be told afterwards, not even by
      where the overlay's events went. */
  lemma OrderNeverShows(ds: seq<Delivery>, client: Client, es: seq<Event>, fs: seq<Event>)
    requires Orderly(ds)
    requires FullTeardown(Delivered(ds), client, es) && FullTeardown(Delivered(ds), client, fs)
    ensures RunFrom(Delivered(ds), es) == RunFrom(Delivered(ds), fs)
  {
    OverlayResourceOwned(ds);
    NeverHidesDying(ds, client);
    TeardownOrderIrrelevant(Delivered(ds), client, es, fs);
  }


  /** Bindings are kept newest first, so the newest one of a client is the first in the list. */
  lemma {:induction false} NewestMeaning(bindings: seq<Binding>, client: Client)
    ensures Newest(bindings, client).None? <==> forall i | 0 <= i < |bindings| :: bindings[i].client != client
    ensures Newest(bindings, client).Some? ==>
              exists i :: IsNewest(bindings, client, i) && Newest(bindings, client) == Some(bindings[i].resource)
  {
    if bindings == [] {
    } else if bindings[0].client == client {
      assert IsNewest(bindings, client, 0);
    } else {
      var rest := bindings[1..];
      NewestMeaning(rest, client);
      assert forall i | 0 < i < |bindings| :: bindings[i] == rest[i - 1];
      if Newest(rest, client).Some? {
        var i :| IsNewest(rest, client, i) && Newest(rest, client) == Some(rest[i].resource);
        assert IsNewest(bindings, client, i + 1);
      }
    }
  }

  ghost predicate IsNewest(bindings: seq<Binding>, client: Client, i: int) {
    && 0 <= i < |bindings| && bindings[i].client == client
    && forall j | 0 <= j < i :: bindings[j].client != client
  }
}
