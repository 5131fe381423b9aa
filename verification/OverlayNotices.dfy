/** What the overlay client has been told: visibility events reach only the resource promoted at that
    moment, and nothing is told to one that is promoted later. */
module OverlayNotices {
  import opened Foundation
  import opened StateMachine
  import opened StageFacts
  import opened Protocol
  import opened Teardown
  import opened Ownership

  /** Whether the holder of resource `r` takes itself to be visible: the last event sent to it. */
  function Believed(notices: seq<Notice>, r: Resource): bool {
    if notices == [] then false
    else
      var last := notices[|notices| - 1];
      if last.target == Some(r) then last.kind == AboutToShow else Believed(notices[..|notices| - 1], r)
  }

  predicate InStep(s: State, r: Resource) {
    Believed(s.notices, r) == s.session.overlayVisible
  }

  predicate IsPromoted(s: State, r: Resource) {
    s.trust.overlayResource == Some(r)
  }

  lemma BelievedAppend(notices: seq<Notice>, n: Notice, r: Resource)
    ensures Believed(notices + [n], r) == if n.target == Some(r) then n.kind == AboutToShow else Believed(notices, r)
  {
    assert (notices + [n])[..|notices|] == notices;
  }

  /** Each change of visibility reaches the promoted resource and no other. */
  lemma BeliefStep(s: State, e: Event, r: Resource)
    ensures var t := Step(s, e);
            Believed(t.notices, r) ==
            if IsPromoted(s, r) && t.session.overlayVisible != s.session.overlayVisible
            then t.session.overlayVisible else Believed(s.notices, r)
  {
    var t := Step(s, e);
    StepReports(s, e);
    if t.session.overlayVisible == s.session.overlayVisible {
      assert t.notices == s.notices;
    } else {
      BelievedAppend(s.notices, Notified(s.session, t.session, s.trust.overlayResource)[0], r);
    }
  }

  /** A resource that was never promoted has been told nothing: its first promotion is in step iff the
      overlay is hidden at that moment. */
  lemma {:induction false} FirstPromotion(es: seq<Event>, r: Resource)
    requires forall n | 0 <= n < |es| :: !IsPromoted(After(es[..n]), r)
    ensures InStep(After(es), r) <==> !After(es).session.overlayVisible
    ensures !Believed(After(es).notices, r)
  {
    if es == [] {
    } else {
      var init := es[..|es| - 1];
      assert forall n | 0 <= n < |init| :: init[..n] == es[..n];
      FirstPromotion(init, r);
      BeliefStep(After(init), es[|es| - 1], r);
    }
  }

  // ---- Deliveries --------------------------------------------------------------------------

  /** A delivery tells the promoted resource, and no other, of a change of visibility. */
  lemma DeliveryReports(ds: seq<Delivery>, d: Delivery)
    requires Orderly(ds) && Allowed(Delivered(ds), d)
    ensures var s, t := Delivered(ds), Applied(Delivered(ds), d);
            t.notices == s.notices + Notified(s.session, t.session, s.trust.overlayResource)
  {
    var s := Delivered(ds);
    match d
    case Single(e) => StepReports(s, e);
    case Disconnect(client, es) =>
      OverlayResourceOwned(ds);
      NeverHidesDying(ds, client);
      TeardownOutcome(s, client, es);
      if OwnsGame(s.stage.tracks, client) && s.session.overlayVisible && s.session.fg != ShellForeground {
        TargetStands(s, client, es);
      }
  }

  predicate Binds(d: Delivery, r: Resource) {
    d.Single? && d.event.BindOverlay? && d.event.resource == r
  }

  /** The length of the log when `r` was last bound; an identifier may be bound again after its
      resource is destroyed. */
  function Since(ds: seq<Delivery>, r: Resource): nat {
    if ds == [] then 0
    else if Binds(ds[|ds| - 1], r) then |Delivered(ds).notices|
    else Since(ds[..|ds| - 1], r)
  }

  /** Whether the client that bound `r` takes itself to be visible: the last event sent to that
      binding. */
  predicate Knows(ds: seq<Delivery>, r: Resource) {
    Since(ds, r) <= |Delivered(ds).notices| && Believed(Delivered(ds).notices[Since(ds, r)..], r)
  }

  lemma {:induction false} SinceInLog(ds: seq<Delivery>, r: Resource)
    requires Orderly(ds)
    ensures Since(ds, r) <= |Delivered(ds).notices|
  {
    if ds == [] {
    } else {
      LastDelivery(ds);
      SinceInLog(ds[..|ds| - 1], r);
      DeliveryReports(ds[..|ds| - 1], ds[|ds| - 1]);
    }
  }

  lemma BelievedGrows(log: seq<Notice>, from: nat, u: Session, v: Session, target: Option<Resource>, r: Resource)
    requires from <= |log|
    ensures Believed((log + Notified(u, v, target))[from..], r) ==
            if target == Some(r) && u.overlayVisible != v.overlayVisible then v.overlayVisible
            else Believed(log[from..], r)
  {
    var added := Notified(u, v, target);
    if added == [] {
      assert log + added == log;
    } else {
      assert (log + added)[from..] == log[from..] + [added[0]];
      BelievedAppend(log[from..], added[0], r);
    }
  }

  lemma KnowsStep(ds: seq<Delivery>, r: Resource)
    requires Orderly(ds) && ds != []
    ensures var init, last := ds[..|ds| - 1], ds[|ds| - 1];
            var s, t := Delivered(init), Delivered(ds);
            Knows(ds, r) ==
            if Binds(last, r) then false
            else if IsPromoted(s, r) && t.session.overlayVisible != s.session.overlayVisible
            then t.session.overlayVisible
            else Knows(init, r)
  {
    var init, last := ds[..|ds| - 1], ds[|ds| - 1];
    var s, t := Delivered(init), Delivered(ds);
    LastDelivery(ds);
    DeliveryReports(init, last);
    SinceInLog(init, r);
    if !Binds(last, r) {
      BelievedGrows(s.notices, Since(init, r), s.session, t.session, s.trust.overlayResource, r);
    }
  }

  // ---- Promotions --------------------------------------------------------------------------

  predicate Promotes(s: State, d: Delivery, r: Resource) {
    !IsPromoted(s, r) && IsPromoted(Applied(s, d), r)
  }

  /** `r` has been promoted since it was last bound. */
  function Spent(ds: seq<Delivery>, r: Resource): bool {
    if ds == [] then false
    else IsPromoted(Delivered(ds), r) || (!Binds(ds[|ds| - 1], r) && Spent(ds[..|ds| - 1], r))
  }

  /** `r` is not bound, or bound by the overlay's holder. */
  ghost predicate GoneOrHeld(trust: Trust, r: Resource) {
    IsBound(trust, r) ==> trust.overlayClient.Some? && Binding(trust.overlayClient.value, r) in trust.bindings
  }

  lemma PromotedIsHeld(trust: Trust, r: Resource)
    requires ResourceOwned(trust) && trust.overlayResource == Some(r)
    ensures GoneOrHeld(trust, r) && IsBound(trust, r)
  {
    NewestIsBound(trust.bindings, trust.overlayClient.value);
    var i :| 0 <= i < |trust.bindings| && trust.bindings[i] == Binding(trust.overlayClient.value, r);
  }

  lemma SingleKeepsHeld(s: State, e: Event, r: Resource)
    requires TrustInv(s.trust) && Allowed(s, Single(e)) && GoneOrHeld(s.trust, r) && !Binds(Single(e), r)
    ensures GoneOrHeld(Step(s, e).trust, r)
  {
    if e.DestroyResource? {
      DestroyKeepsHeld(s.trust, e.resource, r);
    } else if e.BindOverlay? {
      BindKeepsHeld(s.trust, Binding(e.client, e.resource), r);
    } else {
      OthersKeepBindings(s, e);
    }
  }

  lemma DestroyKeepsHeld(trust: Trust, dead: Resource, r: Resource)
    requires TrustInv(trust) && GoneOrHeld(trust, r)
    ensures GoneOrHeld(trust.(bindings := DropResource(trust.bindings, dead)), r)
  {
    var rest := DropResource(trust.bindings, dead);
    DropResourceMembers(trust.bindings, dead);
    if i :| 0 <= i < |rest| && rest[i].resource == r {
      assert rest[i] in rest;
      var j :| 0 <= j < |trust.bindings| && trust.bindings[j] == rest[i];
    }
  }

  lemma BindKeepsHeld(trust: Trust, b: Binding, r: Resource)
    requires GoneOrHeld(trust, r) && b.resource != r
    ensures GoneOrHeld(trust.(bindings := [b] + trust.bindings), r)
  {
    var all := [b] + trust.bindings;
    if i :| 0 <= i < |all| && all[i].resource == r {
      assert trust.bindings[i - 1].resource == r;
    }
  }

  lemma OthersKeepBindings(s: State, e: Event)
    requires !e.DestroyResource? && !e.BindOverlay? && !e.OverlayGone?
    ensures var t := Step(s, e).trust;
            && t.bindings == s.trust.bindings
            && (s.trust.overlayClient.Some? ==> t.overlayClient == s.trust.overlayClient)
  {
  }

  lemma {:induction false} OthersBindingsMembers(bindings: seq<Binding>, client: Client)
    ensures forall b :: b in OthersBindings(bindings, client) <==> b in bindings && b.client != client
  {
    if bindings == [] {
    } else {
      OthersBindingsMembers(bindings[1..], client);
      assert bindings == [bindings[0]] + bindings[1..];
    }
  }

  lemma DisconnectKeepsHeld(s: State, client: Client, es: seq<Event>, r: Resource)
    requires StageInv(s) && TrustInv(s.trust) && FullTeardown(s, client, es) && GoneOrHeld(s.trust, r)
    ensures GoneOrHeld(RunFrom(s, es).trust, r)
  {
    var rest := OthersBindings(s.trust.bindings, client);
    TeardownOutcome(s, client, es);
    OthersBindingsMembers(s.trust.bindings, client);
    if i :| 0 <= i < |rest| && rest[i].resource == r {
      assert rest[i] in rest;
      var j :| 0 <= j < |s.trust.bindings| && s.trust.bindings[j] == rest[i];
      var k :| 0 <= k < |s.trust.bindings| && s.trust.bindings[k] == Binding(s.trust.overlayClient.value, r);
      assert j == k;
    }
  }

  /** A binding once promoted stays with the overlay's holder until it goes, and one never promoted has
      been told nothing. */
  lemma {:induction false} SpentIsHeld(ds: seq<Delivery>, r: Resource)
    requires Orderly(ds)
    ensures Spent(ds, r) ==> GoneOrHeld(Delivered(ds).trust, r)
    ensures !Spent(ds, r) ==> !Knows(ds, r)
  {
    if ds == [] {
    } else {
      var init, last := ds[..|ds| - 1], ds[|ds| - 1];
      var s := Delivered(init);
      LastDelivery(ds);
      SpentIsHeld(init, r);
      KnowsStep(ds, r);
      OverlayResourceOwned(init);
      OverlayResourceOwned(ds);
      if IsPromoted(s, r) { PromotedIsHeld(s.trust, r); }
      if IsPromoted(Delivered(ds), r) {
        PromotedIsHeld(Delivered(ds).trust, r);
      } else if Spent(ds, r) {
        match last
        case Single(e) => SingleKeepsHeld(s, e, r);
        case Disconnect(client, es) => DisconnectKeepsHeld(s, client, es, r);
      }
    }
  }

  /** Only a bind or a granted claim promotes, and neither touches the session. */
  lemma PromotionForm(s: State, d: Delivery, r: Resource)
    requires StageInv(s) && TrustInv(s.trust) && Allowed(s, d) && Promotes(s, d, r)
    ensures Applied(s, d).session == s.session
    ensures !Binds(d, r) ==> s.trust.overlayClient.None? && IsBound(s.trust, r)
  {
    match d
    case Single(e) =>
      if e.RegisterOverlay? {
        OtherMoves(s, e);
        NewestIsBound(s.trust.bindings, e.client);
      } else if e.BindOverlay? {
        OtherMoves(s, e);
      } else {
        OthersPromoteNothing(s, e);
        assert false;
      }
    case Disconnect(client, es) =>
      TeardownOutcome(s, client, es);
      assert false;
  }

  lemma OthersPromoteNothing(s: State, e: Event)
    requires !e.RegisterOverlay? && !e.BindOverlay?
    ensures Step(s, e).trust.overlayResource in {s.trust.overlayResource, None}
  {
  }

  predicate InTouch(ds: seq<Delivery>, r: Resource) {
    Knows(ds, r) == Delivered(ds).session.overlayVisible
  }

  /** A promoted client has been told nothing yet: it knows the visibility iff the overlay is hidden. */
  lemma PromotedUntold(ds: seq<Delivery>, r: Resource)
    requires Orderly(ds) && ds != []
    requires Promotes(Delivered(ds[..|ds| - 1]), ds[|ds| - 1], r)
    ensures !Knows(ds, r)
    ensures InTouch(ds, r) <==> !Delivered(ds[..|ds| - 1]).session.overlayVisible
  {
    var init, last := ds[..|ds| - 1], ds[|ds| - 1];
    LastDelivery(ds);
    OverlayResourceOwned(init);
    PromotionForm(Delivered(init), last, r);
    KnowsStep(ds, r);
    SpentIsHeld(init, r);
  }

  /** While it stays promoted a client in touch stays in touch. */
  lemma PromotedStaysInTouch(ds: seq<Delivery>, r: Resource)
    requires Orderly(ds) && ds != []
    requires IsPromoted(Delivered(ds[..|ds| - 1]), r) && InTouch(ds[..|ds| - 1], r)
    ensures InTouch(ds, r)
  {
    var init := ds[..|ds| - 1];
    LastDelivery(ds);
    OverlayResourceOwned(init);
    PromotedIsHeld(Delivered(init).trust, r);
    KnowsStep(ds, r);
  }

  // ---- Throughout a run --------------------------------------------------------------------

  ghost predicate InTouchAt(ds: seq<Delivery>, n: nat, r: Resource)
    requires n <= |ds|
  {
    IsPromoted(Delivered(ds[..n]), r) ==> InTouch(ds[..n], r)
  }

  /** If delivery `k` promotes `r`, the overlay is hidden just before it. */
  ghost predicate HiddenAt(ds: seq<Delivery>, k: nat, r: Resource)
    requires k < |ds|
  {
    Promotes(Delivered(ds[..k]), ds[k], r) ==> !Delivered(ds[..k]).session.overlayVisible
  }

  ghost predicate AlwaysInTouch(ds: seq<Delivery>, r: Resource) {
    forall n | 0 <= n <= |ds| :: InTouchAt(ds, n, r)
  }

  ghost predicate AlwaysHidden(ds: seq<Delivery>, r: Resource) {
    forall k | 0 <= k < |ds| :: HiddenAt(ds, k, r)
  }

  lemma SamePrefix(ds: seq<Delivery>, n: nat, r: Resource)
    requires n < |ds|
    ensures var init := ds[..|ds| - 1];
            InTouchAt(init, n, r) == InTouchAt(ds, n, r) && (n < |init| ==> HiddenAt(init, n, r) == HiddenAt(ds, n, r))
  {
    assert ds[..|ds| - 1][..n] == ds[..n];
  }

  lemma AlwaysInTouchLast(ds: seq<Delivery>, r: Resource)
    requires ds != []
    ensures AlwaysInTouch(ds, r) <==> AlwaysInTouch(ds[..|ds| - 1], r) && InTouchAt(ds, |ds|, r)
  {
    var init := ds[..|ds| - 1];
    if AlwaysInTouch(ds, r) {
      forall n | 0 <= n <= |init| ensures InTouchAt(init, n, r) { SamePrefix(ds, n, r); }
    } else {
      var n :| 0 <= n <= |ds| && !InTouchAt(ds, n, r);
      if n < |ds| { SamePrefix(ds, n, r); }
    }
  }

  lemma HiddenInPrefix(ds: seq<Delivery>, r: Resource)
    requires ds != [] && AlwaysHidden(ds, r)
    ensures AlwaysHidden(ds[..|ds| - 1], r) && HiddenAt(ds, |ds| - 1, r)
  {
    var init := ds[..|ds| - 1];
    forall k | 0 <= k < |init| ensures HiddenAt(init, k, r) { SamePrefix(ds, k, r); }
  }

  lemma HiddenExtends(ds: seq<Delivery>, r: Resource)
    requires ds != [] && AlwaysHidden(ds[..|ds| - 1], r) && HiddenAt(ds, |ds| - 1, r)
    ensures AlwaysHidden(ds, r)
  {
    forall k | 0 <= k < |ds| ensures HiddenAt(ds, k, r) {
      if k < |ds| - 1 { SamePrefix(ds, k, r); }
    }
  }

  /** The client holding the promoted resource knows the overlay's visibility throughout a run iff the
      overlay is hidden whenever its resource is promoted. */
  lemma {:induction false} OverlayKnows(ds: seq<Delivery>, r: Resource)
    requires Orderly(ds)
    ensures AlwaysInTouch(ds, r) <==> AlwaysHidden(ds, r)
  {
    if ds == [] {
      assert forall n | 0 <= n <= |ds| :: ds[..n] == [];
    } else {
      var init := ds[..|ds| - 1];
      LastDelivery(ds);
      OverlayKnows(init, r);
      AlwaysInTouchLast(ds, r);
      if AlwaysHidden(ds, r) { HiddenInPrefix(ds, r); }
      if AlwaysHidden(init, r) && HiddenAt(ds, |ds| - 1, r) { HiddenExtends(ds, r); }
      assert ds[..|ds|] == ds && init[..|init|] == init;
      if AlwaysInTouch(init, r) && IsPromoted(Delivered(ds), r) {
        assert InTouchAt(init, |init|, r);
        if IsPromoted(Delivered(init), r) {
          PromotedStaysInTouch(ds, r);
        } else {
          PromotedUntold(ds, r);
        }
      }
    }
  }
}
