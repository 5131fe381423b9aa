/** What a peer on compositor.sock and the overlay client see of a run: the sequence of attempted
    sends is a faithful, well-ordered account of the foreground state, and the overlay's visibility
    events alternate. */
module Protocol {
  import opened Foundation
  import opened StateMachine
  import opened StageInvariant
  import opened Sessions

  // ---- One step ----------------------------------------------------------------------------

  /** The state graph. GAME_FOREGROUND is entered only from GAME_STARTING or the PlayOS UI, the UI
      only from GAME_FOREGROUND; every other state from any other. */
  predicate Edge(a: Foreground, b: Foreground) {
    && a != b
    && (b == GameForeground ==> a == GameStarting || a == PlayosUi)
    && (b == PlayosUi ==> a == GameForeground)
  }

  /** The messages that report a change of session from `u` to `v`. */
  function Announced(u: Session, v: Session): seq<Message> {
    if u.fg == v.fg then []
    else if u.fg == GameStarting && v.fg == GameForeground
    then [GameSurfaceReady(u.token), StateChanged(GameForeground)]
    else [StateChanged(v.fg)]
  }

  /** The visibility events of such a change, sent to `target`. */
  function Notified(u: Session, v: Session, target: Option<Resource>): seq<Notice> {
    if u.overlayVisible == v.overlayVisible then []
    else [Notice(if v.overlayVisible then AboutToShow else AboutToHide, target)]
  }

  /** `t` follows `s` along the state graph and every change has been announced, once. */
  ghost predicate Reported(s: State, t: State) {
    && t.sent == s.sent + Announced(s.session, t.session)
    && t.notices == s.notices + Notified(s.session, t.session, s.trust.overlayResource)
    && (s.session.fg == t.session.fg || Edge(s.session.fg, t.session.fg))
  }

  /** A plain transition reports itself. */
  lemma MovedReports(s: State, target: Foreground)
    requires s.session.fg == target || Edge(s.session.fg, target)
    requires !(s.session.fg == GameStarting && target == GameForeground)
    ensures Reported(s, Moved(s, target))
    ensures var v := Moved(s, target).session;
            v.overlayVisible == (s.session.overlayVisible
                                 && (v.fg == s.session.fg || !(target == ShellForeground || target == TerminatingGame)))
  {
  }

  lemma ReadyReports(s: State)
    ensures Reported(s, SurfaceReady(s))
  {
    if s.session.fg == GameStarting && !s.session.ready {
      var r := Sent(s.(session := s.session.(ready := true)), GameSurfaceReady(s.session.token));
      assert Moved(r, GameForeground).sent == r.sent + [StateChanged(GameForeground)];
    }
  }

  lemma ShownReports(s: State)
    ensures Reported(s, Shown(s))
  {
    var v := Told(WithOverlay(s, true), AboutToShow);
    if !s.session.overlayVisible && s.session.fg == GameForeground { MovedReports(v, PlayosUi); }
  }

  lemma HiddenReports(s: State)
    ensures Reported(s, Hidden(s))
  {
    var v := Told(WithOverlay(s, false), AboutToHide);
    if s.session.overlayVisible && s.session.fg == PlayosUi {
      MovedReports(v, if s.stage.gameTree.Some? then GameForeground else ShellForeground);
    }
  }

  /** The five commands of compositor.sock. */
  lemma CommandReports(s: State, e: Event)
    requires e.SetExpectedGame? || e.ClearExpectedGame? || e.ForceTerminateGame? || e.ShowOverlay? || e.HideOverlay?
    ensures Reported(s, Step(s, e))
  {
    match e
    case SetExpectedGame(token, gameId) => MovedReports(Awaiting(s, token, gameId), GameStarting);
    case ClearExpectedGame => MovedReports(Forgotten(s), ShellForeground);
    case ForceTerminateGame => MovedReports(s, TerminatingGame);
    case ShowOverlay => ShownReports(s);
    case HideOverlay => HiddenReports(s);
  }

  lemma QuietReports(s: State, e: Event)
    requires e.NewToplevel? || e.RegisterShell? || e.RegisterOverlay? || e.ShellGone? || e.OverlayGone?
          || e.BindOverlay? || e.DestroyResource? || e.NewOutput?
    ensures Reported(s, Step(s, e))
  {
  }

  lemma StepReports(s: State, e: Event)
    ensures Reported(s, Step(s, e))
  {
    if e.SetExpectedGame? || e.ClearExpectedGame? || e.ForceTerminateGame? || e.ShowOverlay? || e.HideOverlay? {
      CommandReports(s, e);
    } else if e.Commit? {
      ReadyReports(s);
    } else if e.DestroyToplevel? {
      MovedReports(Untracked(s, e.tree), ShellForeground);
    } else if e.RequestDismiss? {
      HiddenReports(s);
    } else if e.Key? {
      ShownReports(s);
      HiddenReports(s);
    } else {
      QuietReports(s, e);
    }
  }

  // ---- The message log of a run ------------------------------------------------------------

  /** The state a peer believes in: SHELL_FOREGROUND until told otherwise. */
  function Peer(log: seq<Message>): Foreground {
    if log == [] then ShellForeground
    else if log[|log| - 1].StateChanged? then log[|log| - 1].state
    else Peer(log[..|log| - 1])
  }

  /** Every state change follows an edge; GameSurfaceReady appears exactly between a change to
      GAME_STARTING and the change to GAME_FOREGROUND it brings; the log ends with a change. */
  ghost predicate WellOrdered(log: seq<Message>) {
    && (forall i: nat | i < |log| :: OrderedAt(log, i))
    && (log != [] ==> log[|log| - 1].StateChanged?)
  }

  ghost predicate OrderedAt(log: seq<Message>, i: nat)
    requires i < |log|
  {
    match log[i]
    case StateChanged(to) =>
      && Edge(Peer(log[..i]), to)
      && (to == GameForeground && Peer(log[..i]) == GameStarting ==> 0 < i && log[i - 1].GameSurfaceReady?)
    case GameSurfaceReady(_) =>
      && 0 < i < |log| - 1
      && log[i - 1] == StateChanged(GameStarting) && log[i + 1] == StateChanged(GameForeground)
  }

  lemma OrderedAfterChange(log: seq<Message>, to: Foreground)
    requires WellOrdered(log) && Edge(Peer(log), to)
    requires !(Peer(log) == GameStarting && to == GameForeground)
    ensures WellOrdered(log + [StateChanged(to)]) && Peer(log + [StateChanged(to)]) == to
  {
    var r := log + [StateChanged(to)];
    assert r[..|log|] == log;
    forall i: nat | i < |r| ensures OrderedAt(r, i) {
      if i < |log| {
        assert OrderedAt(log, i);
        assert r[..i] == log[..i];
      }
    }
  }

  lemma OrderedAfterReady(log: seq<Message>, token: bytes)
    requires WellOrdered(log) && Peer(log) == GameStarting
    ensures var r := log + [GameSurfaceReady(token), StateChanged(GameForeground)];
            WellOrdered(r) && Peer(r) == GameForeground
  {
    var r := log + [GameSurfaceReady(token), StateChanged(GameForeground)];
    assert log[|log| - 1] == StateChanged(GameStarting);
    forall i: nat | i < |r| ensures OrderedAt(r, i) {
      if i < |log| {
        assert OrderedAt(log, i);
        assert r[..i] == log[..i];
      } else if i == |log| + 1 {
        var m := r[..i];
        assert m[..|m| - 1] == log;
      }
    }
  }

  /** In every run the peer's belief is the foreground state and the log is well ordered. */
  lemma {:induction false} PeerMirrors(es: seq<Event>)
    ensures Peer(After(es).sent) == After(es).session.fg
    ensures WellOrdered(After(es).sent)
  {
    if es == [] {
    } else {
      PeerMirrors(es[..|es| - 1]);
      StepReports(After(es[..|es| - 1]), es[|es| - 1]);
      MirrorStep(After(es[..|es| - 1]), After(es));
    }
  }

  lemma MirrorStep(s: State, t: State)
    requires Peer(s.sent) == s.session.fg && WellOrdered(s.sent) && Reported(s, t)
    ensures Peer(t.sent) == t.session.fg && WellOrdered(t.sent)
  {
    if s.session.fg == t.session.fg {
      assert t.sent == s.sent;
    } else if s.session.fg == GameStarting && t.session.fg == GameForeground {
      OrderedAfterReady(s.sent, s.session.token);
    } else {
      OrderedAfterChange(s.sent, t.session.fg);
    }
  }

  /** TERMINATING_GAME is left exactly by the destruction of a game toplevel or a SetExpectedGame. */
  lemma LeavingTermination(s: State, e: Event)
    requires s.session.fg == TerminatingGame
    ensures Step(s, e).session.fg != TerminatingGame
       <==> e.SetExpectedGame? || (e.DestroyToplevel? && RoleOf(s.stage.tracks, e.tree) == Game)
  {
    if e.SetExpectedGame? {
      SetStep(s, e.token, e.gameId);
    } else if !EndsSession(s, e) {
      QuietStep(s, e);
    } else {
      MovedSession(Untracked(s, if e.DestroyToplevel? then e.tree else 0), ShellForeground);
    }
  }

  // ---- The transition table ----------------------------------------------------------------

  /** A request to show the overlay: over IPC, or the SYSTEM button over the game. */
  predicate AsksToShow(s: State, e: Event) {
    e.ShowOverlay? || (e.Key? && e.pressed && IsSystem(e.code) && s.session.fg == GameForeground)
  }

  /** A request to hide it: over IPC, by the overlay client itself, or the SYSTEM button in the UI. */
  predicate AsksToHide(s: State, e: Event) {
    || e.HideOverlay?
    || (e.RequestDismiss? && s.trust.overlayClient == Some(e.client))
    || (e.Key? && e.pressed && IsSystem(e.code) && s.session.fg == PlayosUi)
  }

  /** A buffer committed on a surface whose stored role is GAME. */
  predicate IsGameFrame(s: State, e: Event) {
    e.Commit? && e.hasBuffer && RoleOf(s.stage.tracks, e.tree) == Game
  }

  predicate EndsGame(s: State, e: Event) {
    e.DestroyToplevel? && RoleOf(s.stage.tracks, e.tree) == Game
  }

  /** The machine as a table of causes. */
  function NextForeground(s: State, e: Event): Foreground {
    var fg := s.session.fg;
    if e.SetExpectedGame? then GameStarting
    else if e.ForceTerminateGame? then TerminatingGame
    else if EndsGame(s, e) || (e.ClearExpectedGame? && fg != TerminatingGame) then ShellForeground
    else if fg == GameStarting && IsGameFrame(s, e) then GameForeground
    else if fg == GameForeground && AsksToShow(s, e) && !s.session.overlayVisible then PlayosUi
    else if fg == PlayosUi && AsksToHide(s, e) then
      if s.stage.gameTree.Some? then GameForeground else ShellForeground
    else fg
  }

  lemma ShownMoves(s: State)
    ensures Shown(s).session.fg ==
            if s.session.fg == GameForeground && !s.session.overlayVisible then PlayosUi else s.session.fg
  {
  }

  lemma HiddenMoves(s: State)
    requires UiShowsOverlay(s.session)
    ensures Hidden(s).session.fg ==
            if s.session.fg != PlayosUi then s.session.fg
            else if s.stage.gameTree.Some? then GameForeground else ShellForeground
  {
  }

  lemma ReadyMoves(s: State)
    requires s.session.fg == GameStarting ==> !s.session.ready
    ensures SurfaceReady(s).session.fg == if s.session.fg == GameStarting then GameForeground else s.session.fg
  {
  }

  lemma KeyMoves(s: State, code: nat, pressed: bool)
    requires UiShowsOverlay(s.session)
    ensures KeyHandled(s, code, pressed).session.fg == NextForeground(s, Key(code, pressed))
  {
    ShownMoves(s);
    HiddenMoves(s);
  }

  lemma OtherMoves(s: State, e: Event)
    requires e.NewToplevel? || e.RegisterShell? || e.RegisterOverlay? || e.ShellGone? || e.OverlayGone?
          || e.BindOverlay? || e.DestroyResource? || e.NewOutput?
    ensures Step(s, e).session == s.session
  {
  }

  /** The five commands of compositor.sock. */
  lemma CommandMoves(s: State, e: Event)
    requires UiShowsOverlay(s.session)
    requires e.SetExpectedGame? || e.ClearExpectedGame? || e.ForceTerminateGame? || e.ShowOverlay? || e.HideOverlay?
    ensures Step(s, e).session.fg == NextForeground(s, e)
  {
    match e
    case SetExpectedGame(token, gameId) => SetStep(s, token, gameId);
    case ClearExpectedGame => MovedSession(Forgotten(s), ShellForeground);
    case ForceTerminateGame => MovedSession(s, TerminatingGame);
    case ShowOverlay => ShownMoves(s);
    case HideOverlay => HiddenMoves(s);
  }

  lemma SurfaceMoves(s: State, e: Event)
    requires s.session.fg == GameStarting ==> !s.session.ready
    requires e.Commit? || e.DestroyToplevel?
    ensures Step(s, e).session.fg == NextForeground(s, e)
  {
    if e.Commit? {
      ReadyMoves(s);
    } else {
      MovedSession(Untracked(s, e.tree), ShellForeground);
    }
  }

  lemma TableStep(s: State, e: Event)
    requires UiShowsOverlay(s.session) && (s.session.fg == GameStarting ==> !s.session.ready)
    ensures Step(s, e).session.fg == NextForeground(s, e)
  {
    if e.SetExpectedGame? || e.ClearExpectedGame? || e.ForceTerminateGame? || e.ShowOverlay? || e.HideOverlay? {
      CommandMoves(s, e);
    } else if e.Commit? || e.DestroyToplevel? {
      SurfaceMoves(s, e);
    } else if e.Key? {
      KeyMoves(s, e.code, e.pressed);
    } else if e.RequestDismiss? {
      HiddenMoves(s);
    } else {
      OtherMoves(s, e);
    }
  }

  /** In every run each event moves the foreground exactly as the table says. */
  lemma ForegroundFollowsTable(es: seq<Event>, e: Event)
    requires Legal(es)
    ensures Step(After(es), e).session.fg == NextForeground(After(es), e)
  {
    SessionHistory(es);
    RunKeepsStage(es);
    TableStep(After(es), e);
  }

  // ---- GameSurfaceReady over events --------------------------------------------------------

  /** The entries `later` has beyond `log`. */
  function Added(log: seq<Message>, later: seq<Message>): seq<Message> {
    if |log| <= |later| then later[|log|..] else []
  }

  /** Event `m` of the run makes the compositor send GameSurfaceReady with `token`. */
  ghost predicate SendsReady(es: seq<Event>, m: int, token: bytes) {
    0 <= m < |es| && GameSurfaceReady(token) in Added(After(es[..m]).sent, After(es[..m + 1]).sent)
  }

  lemma ReadyMeansStarting(es: seq<Event>, m: int, token: bytes)
    requires 0 <= m < |es|
    ensures SendsReady(es, m, token) ==>
              && After(es[..m]).session.fg == GameStarting
              && After(es[..m]).session.token == token
              && After(es[..m + 1]).session.fg == GameForeground
  {
    assert es[..m + 1][..m] == es[..m];
    StepReports(After(es[..m]), es[m]);
  }

  /** GameSurfaceReady is sent exactly for a game's first buffer while GAME_STARTING. */
  lemma ReadyNeedsFirstFrame(es: seq<Event>, m: nat)
    requires Legal(es) && m < |es|
    ensures SendsReady(es, m, After(es[..m]).session.token)
       <==> After(es[..m]).session.fg == GameStarting && IsGameFrame(After(es[..m]), es[m])
  {
    var s := After(es[..m]);
    assert es[..m + 1][..m] == es[..m];
    assert Legal(es[..m]) by { assert forall k | 0 <= k < m :: es[..m][..k] == es[..k]; }
    ForegroundFollowsTable(es[..m], es[m]);
    ReadyMeansStarting(es, m, s.session.token);
    StepReports(s, es[m]);
    assert Announced(s.session, Step(s, es[m]).session) == Added(s.sent, Step(s, es[m]).sent);
  }

  /** Every GameSurfaceReady carries the token of the SetExpectedGame that is current. */
  lemma ReadyCarriesToken(es: seq<Event>, m: int, token: bytes)
    requires SendsReady(es, m, token)
    ensures exists k :: IsCurrent(es[..m], k) && token == Cut(es[k].token, 63)
  {
    ReadyMeansStarting(es, m, token);
    SessionHistory(es[..m]);
    GameNeedsExpectation(es[..m]);
  }

  lemma StartingStep(s: State, e: Event)
    requires s.session.fg != GameStarting && !e.SetExpectedGame?
    ensures Step(s, e).session.fg != GameStarting
  {
    if EndsSession(s, e) { EndStep(s, e); } else { QuietStep(s, e); }
  }

  predicate StartingAt(es: seq<Event>, n: nat)
    requires n <= |es|
  {
    After(es[..n]).session.fg == GameStarting
  }

  lemma StartingNext(es: seq<Event>, n: nat)
    requires n < |es| && !StartingAt(es, n) && !es[n].SetExpectedGame?
    ensures !StartingAt(es, n + 1)
  {
    assert es[..n + 1][..n] == es[..n];
    StartingStep(After(es[..n]), es[n]);
  }

  lemma {:induction false} StartingNeedsSet(es: seq<Event>, a: nat, b: nat)
    requires a <= b <= |es| && !StartingAt(es, a)
    requires forall k | a <= k < b :: !es[k].SetExpectedGame?
    ensures !StartingAt(es, b)
    decreases b
  {
    if a == b {
    } else {
      StartingNeedsSet(es, a, b - 1);
      StartingNext(es, b - 1);
    }
  }

  /** Two GameSurfaceReady sends always have a SetExpectedGame between them. */
  lemma ReadyOncePerExpectation(es: seq<Event>, m1: int, m2: int, token1: bytes, token2: bytes)
    requires SendsReady(es, m1, token1) && SendsReady(es, m2, token2) && m1 < m2
    ensures exists k :: m1 < k < m2 && es[k].SetExpectedGame?
  {
    ReadyMeansStarting(es, m1, token1);
    ReadyMeansStarting(es, m2, token2);
    if forall k | m1 < k < m2 :: !es[k].SetExpectedGame? {
      StartingNeedsSet(es, m1 + 1, m2);
      assert false;
    }
  }

  // ---- Overlay visibility ------------------------------------------------------------------

  ghost predicate Alternating(notices: seq<Notice>) {
    forall i | 0 <= i < |notices| :: notices[i].kind == if i % 2 == 0 then AboutToShow else AboutToHide
  }

  /** Show and hide events alternate, starting with a show, and the last one is the truth. */
  lemma {:induction false} NoticesAlternate(es: seq<Event>)
    ensures Alternating(After(es).notices)
    ensures After(es).session.overlayVisible <==> |After(es).notices| % 2 == 1
  {
    if es == [] {
    } else {
      NoticesAlternate(es[..|es| - 1]);
      StepReports(After(es[..|es| - 1]), es[|es| - 1]);
      NoticeStep(After(es[..|es| - 1]), After(es));
    }
  }

  lemma NoticeStep(s: State, t: State)
    requires Alternating(s.notices) && (s.session.overlayVisible <==> |s.notices| % 2 == 1) && Reported(s, t)
    ensures Alternating(t.notices) && (t.session.overlayVisible <==> |t.notices| % 2 == 1)
  {
    if s.session.overlayVisible == t.session.overlayVisible { assert t.notices == s.notices; }
  }

  ghost predicate OverlayMeansUi(u: Session) {
    u.overlayVisible <==> u.fg == PlayosUi
  }

  /** The two ways visibility and the UI state come apart: a show request accepted outside
      GAME_FOREGROUND, and a SetExpectedGame arriving in the UI state. */
  ghost predicate Strays(s: State, e: Event) {
    || (e.ShowOverlay? && !s.session.overlayVisible && s.session.fg != GameForeground)
    || (e.SetExpectedGame? && s.session.fg == PlayosUi)
  }

  lemma ShownVisibility(s: State)
    requires OverlayMeansUi(s.session)
    ensures OverlayMeansUi(Shown(s).session) <==> s.session.overlayVisible || s.session.fg == GameForeground
  {
    MovedSession(Told(WithOverlay(s, true), AboutToShow), PlayosUi);
    if !s.session.overlayVisible && s.session.fg == GameForeground {
      MovedReports(Told(WithOverlay(s, true), AboutToShow), PlayosUi);
    }
  }

  lemma HiddenVisibility(s: State)
    requires OverlayMeansUi(s.session)
    ensures OverlayMeansUi(Hidden(s).session)
  {
    if s.session.overlayVisible {
      MovedReports(Told(WithOverlay(s, false), AboutToHide),
                   if s.stage.gameTree.Some? then GameForeground else ShellForeground);
    }
  }

  lemma VisibilityStep(s: State, e: Event)
    requires OverlayMeansUi(s.session)
    ensures OverlayMeansUi(Step(s, e).session) <==> !Strays(s, e)
  {
    match e
    case SetExpectedGame(token, gameId) => MovedReports(Awaiting(s, token, gameId), GameStarting);
    case ClearExpectedGame => MovedReports(Forgotten(s), ShellForeground);
    case ForceTerminateGame => MovedReports(s, TerminatingGame);
    case ShowOverlay => ShownVisibility(s);
    case HideOverlay => HiddenVisibility(s);
    case Commit(tree, hasBuffer) =>
    case DestroyToplevel(tree) => MovedReports(Untracked(s, tree), ShellForeground);
    case RequestDismiss(client) => HiddenVisibility(s);
    case Key(code, pressed) => ShownVisibility(s); HiddenVisibility(s);
    case NewToplevel(tree, client) =>
    case RegisterShell(client) =>
    case RegisterOverlay(client) =>
    case ShellGone =>
    case OverlayGone =>
    case BindOverlay(client, resource) =>
    case DestroyResource(resource) =>
    case NewOutput(background) =>
  }

  ghost predicate AlwaysUi(es: seq<Event>) {
    forall n | 0 <= n <= |es| :: UiAt(es, n)
  }

  ghost predicate UiAt(es: seq<Event>, n: nat)
    requires n <= |es|
  {
    OverlayMeansUi(After(es[..n]).session)
  }

  ghost predicate NeverStrays(es: seq<Event>) {
    forall k | 0 <= k < |es| :: !StraysAt(es, k)
  }

  ghost predicate StraysAt(es: seq<Event>, k: nat)
    requires k < |es|
  {
    Strays(After(es[..k]), es[k])
  }

  lemma RunPrefix(es: seq<Event>, n: nat)
    requires n < |es|
    ensures var init := es[..|es| - 1];
            UiAt(init, n) == UiAt(es, n) && (n < |init| ==> StraysAt(init, n) == StraysAt(es, n))
  {
    assert es[..|es| - 1][..n] == es[..n];
  }

  lemma AlwaysUiLast(es: seq<Event>)
    requires es != []
    ensures AlwaysUi(es) <==> AlwaysUi(es[..|es| - 1]) && UiAt(es, |es|)
  {
    var init := es[..|es| - 1];
    if AlwaysUi(es) {
      forall n | 0 <= n <= |init| ensures UiAt(init, n) { RunPrefix(es, n); }
    } else {
      var n :| 0 <= n <= |es| && !UiAt(es, n);
      if n < |es| { RunPrefix(es, n); }
    }
  }

  lemma NeverStraysLast(es: seq<Event>)
    requires es != []
    ensures NeverStrays(es) <==> NeverStrays(es[..|es| - 1]) && !StraysAt(es, |es| - 1)
  {
    var init := es[..|es| - 1];
    if NeverStrays(es) {
      forall k | 0 <= k < |init| ensures !StraysAt(init, k) { RunPrefix(es, k); }
    } else {
      var k :| 0 <= k < |es| && StraysAt(es, k);
      if k < |init| { RunPrefix(es, k); }
    }
  }

  /** The overlay is visible exactly in the UI state throughout a run if and only if the run has no
      stray event. */
  lemma {:induction false} VisibilityIsUi(es: seq<Event>)
    ensures AlwaysUi(es) <==> NeverStrays(es)
  {
    if es == [] {
      assert forall n | 0 <= n <= |es| :: es[..n] == [];
    } else {
      var init, last := es[..|es| - 1], es[|es| - 1];
      VisibilityIsUi(init);
      AlwaysUiLast(es);
      NeverStraysLast(es);
      assert es[..|es|] == es && init[..|init|] == init;
      if AlwaysUi(init) {
        assert UiAt(init, |init|);
        VisibilityStep(After(init), last);
      }
    }
  }

  /** Taking the shell or terminating leaves the overlay hidden. */
  lemma EntryHidesOverlay(s: State, e: Event)
    requires Step(s, e).session.fg != s.session.fg
    requires Step(s, e).session.fg == ShellForeground || Step(s, e).session.fg == TerminatingGame
    ensures !Step(s, e).session.overlayVisible
  {
    match e
    case SetExpectedGame(token, gameId) => MovedSession(Awaiting(s, token, gameId), GameStarting);
    case ClearExpectedGame => MovedReports(Forgotten(s), ShellForeground);
    case ForceTerminateGame => MovedReports(s, TerminatingGame);
    case DestroyToplevel(tree) => MovedReports(Untracked(s, tree), ShellForeground);
    case _ => QuietStep(s, e);
  }
}
