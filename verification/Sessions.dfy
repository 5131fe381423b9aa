/** What the stored expectation and the foreground state say about the events received so far. */
module Sessions {
  import opened Foundation
  import opened StateMachine

  /** The events after which no game is expected any more. */
  ghost predicate EndsSession(s: State, e: Event) {
    || e.ClearExpectedGame?
    || e.ForceTerminateGame?
    || (e.DestroyToplevel? && RoleOf(s.stage.tracks, e.tree) == Game)
  }

  /** The session moves a run can make without a SetExpectedGame and without ending the session. */
  ghost predicate QuietMove(u: Session, v: Session) {
    && v.token == u.token && v.gameId == u.gameId
    && (|| (v.fg == u.fg && v.ready == u.ready)
        || (u.fg == GameStarting && !u.ready && v.fg == GameForeground && v.ready)
        || (u.fg == GameForeground && v.fg == PlayosUi && v.ready == u.ready)
        || (u.fg == PlayosUi && (v.fg == GameForeground || v.fg == ShellForeground) && v.ready == u.ready))
  }

  lemma MovedSession(s: State, target: Foreground)
    ensures var v := Moved(s, target).session;
            v.fg == target && v.token == s.session.token && v.gameId == s.session.gameId && v.ready == s.session.ready
  {
  }

  lemma SetStep(s: State, token: bytes, gameId: bytes)
    ensures var v := Step(s, SetExpectedGame(token, gameId)).session;
            v.token == Cut(token, 63) && v.gameId == Cut(gameId, 255) && !v.ready && v.fg == GameStarting
  {
    MovedSession(Awaiting(s, token, gameId), GameStarting);
  }

  lemma EndStep(s: State, e: Event)
    requires EndsSession(s, e)
    ensures var v := Step(s, e).session; v.token == [] && v.gameId == [] && !v.ready && !InGame(v.fg)
  {
    match e
    case ClearExpectedGame => MovedSession(Forgotten(s), ShellForeground);
    case ForceTerminateGame => MovedSession(s, TerminatingGame);
    case DestroyToplevel(tree) => MovedSession(Untracked(s, tree), ShellForeground);
  }

  lemma ShownSession(s: State)
    ensures QuietMove(s.session, Shown(s).session)
  {
    MovedSession(Told(WithOverlay(s, true), AboutToShow), PlayosUi);
  }

  lemma HiddenSession(s: State)
    ensures QuietMove(s.session, Hidden(s).session)
  {
    MovedSession(Told(WithOverlay(s, false), AboutToHide), GameForeground);
    MovedSession(Told(WithOverlay(s, false), AboutToHide), ShellForeground);
  }

  lemma QuietStep(s: State, e: Event)
    requires !e.SetExpectedGame? && !EndsSession(s, e)
    ensures QuietMove(s.session, Step(s, e).session)
  {
    match e
    case ShowOverlay => ShownSession(s);
    case HideOverlay => HiddenSession(s);
    case Commit(tree, hasBuffer) =>
      MovedSession(Sent(s.(session := s.session.(ready := true)), GameSurfaceReady(s.session.token)), GameForeground);
    case RequestDismiss(client) => HiddenSession(s);
    case Key(code, pressed) => ShownSession(s); HiddenSession(s);
    case NewToplevel(tree, client) =>
    case DestroyToplevel(tree) =>
    case RegisterShell(client) =>
    case RegisterOverlay(client) =>
    case ShellGone =>
    case OverlayGone =>
    case BindOverlay(client, resource) =>
    case DestroyResource(resource) =>
    case NewOutput(background) =>
  }

  /** `es[k]` is the SetExpectedGame whose session is still the current one. */
  ghost predicate IsCurrent(es: seq<Event>, k: int) {
    && 0 <= k < |es| && es[k].SetExpectedGame?
    && forall j | k < j < |es| :: Continues(es, j)
  }

  /** Event `j` neither replaces nor ends the session. */
  ghost predicate Continues(es: seq<Event>, j: nat)
    requires j < |es|
  {
    !es[j].SetExpectedGame? && !EndsSession(After(es[..j]), es[j])
  }

  ghost predicate HistoryHolds(es: seq<Event>) {
    var u := After(es).session;
    && (forall k | IsCurrent(es, k) ::
          u.token == Cut(es[k].token, 63) && u.gameId == Cut(es[k].gameId, 255) && u.fg != TerminatingGame)
    && ((forall k :: !IsCurrent(es, k)) ==> u.token == [] && u.gameId == [] && !u.ready && !InGame(u.fg))
    && (u.fg != ShellForeground ==> (u.ready <==> u.fg == GameForeground || u.fg == PlayosUi))
  }

  lemma ContinuesPrefix(es: seq<Event>, j: nat)
    requires j < |es| - 1
    ensures Continues(es[..|es| - 1], j) == Continues(es, j)
  {
    assert es[..|es| - 1][..j] == es[..j];
  }

  lemma CurrentInPrefix(es: seq<Event>, k: int)
    requires es != [] && k < |es| - 1 && IsCurrent(es, k)
    ensures IsCurrent(es[..|es| - 1], k) && Continues(es, |es| - 1)
  {
    var init := es[..|es| - 1];
    forall j | k < j < |init| ensures Continues(init, j) { ContinuesPrefix(es, j); }
  }

  lemma CurrentExtends(es: seq<Event>, k: int)
    requires es != [] && IsCurrent(es[..|es| - 1], k) && Continues(es, |es| - 1)
    ensures IsCurrent(es, k)
  {
    forall j | k < j < |es| ensures Continues(es, j) {
      if j < |es| - 1 { ContinuesPrefix(es, j); }
    }
  }

  /** The stored token and id are those of the current SetExpectedGame, cut to the buffers; without
      one nothing is stored and no game is in the foreground. */
  lemma {:induction false} SessionHistory(es: seq<Event>)
    ensures HistoryHolds(es)
  {
    if es == [] {
    } else {
      var init, last := es[..|es| - 1], es[|es| - 1];
      SessionHistory(init);
      if last.SetExpectedGame? {
        SetStep(After(init), last.token, last.gameId);
      } else if EndsSession(After(init), last) {
        EndStep(After(init), last);
      } else {
        QuietStep(After(init), last);
      }
      forall k | k < |es| - 1 ensures IsCurrent(es, k) <==> IsCurrent(init, k) && Continues(es, |es| - 1) {
        if IsCurrent(es, k) { CurrentInPrefix(es, k); }
        if IsCurrent(init, k) && Continues(es, |es| - 1) { CurrentExtends(es, k); }
      }
      if last.SetExpectedGame? {
        assert IsCurrent(es, |es| - 1);
      }
    }
  }

  lemma GameNeedsExpectation(es: seq<Event>)
    requires InGame(After(es).session.fg)
    ensures exists k :: IsCurrent(es, k)
  {
    SessionHistory(es);
  }
}
