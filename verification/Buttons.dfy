/** The SYSTEM button over a running game: presses toggle the overlay, and every other key is inert. */
module Buttons {
  import opened Foundation
  import opened StateMachine
  import opened StageFacts

  datatype KeyEvent = KeyEvent(code: nat, pressed: bool)

  /** The state after a sequence of keyboard events. */
  function AfterKeys(s: State, keys: seq<KeyEvent>): State {
    if keys == [] then s
    else KeyHandled(AfterKeys(s, keys[..|keys| - 1]), keys[|keys| - 1].code, keys[|keys| - 1].pressed)
  }

  /** How many of them are presses of a SYSTEM alias. */
  function SystemPresses(keys: seq<KeyEvent>): nat {
    if keys == [] then 0
    else SystemPresses(keys[..|keys| - 1])
         + if keys[|keys| - 1].pressed && IsSystem(keys[|keys| - 1].code) then 1 else 0
  }

  /** A game in front with its surface alive and the overlay hidden. */
  ghost predicate Playing(s: State) {
    && StageInv(s) && s.session.fg == GameForeground
    && s.stage.gameTree.Some? && !s.session.overlayVisible
  }

  /** The same game with the PlayOS UI over it. */
  function Overlaid(s: State): State {
    var u := s.session.(fg := PlayosUi, overlayVisible := true);
    s.(session := u, stage := RefreshedStage(s.stage, u))
  }

  /** Equal except for what has been logged. */
  ghost predicate SameButLogs(s: State, t: State) {
    s.session == t.session && s.stage == t.stage && s.trust == t.trust
  }

  lemma PressShows(s: State, t: State)
    requires Playing(s) && SameButLogs(t, s)
    ensures SameButLogs(Shown(t), Overlaid(s))
    ensures Shown(t).sent == t.sent + [StateChanged(PlayosUi)]
    ensures Shown(t).notices == t.notices + [Notice(AboutToShow, t.trust.overlayResource)]
  {
  }

  /** Flags written by a refresh are overwritten by the next one. */
  lemma RefreshTwice(stage: Stage, u: Session, v: Session)
    ensures RefreshedStage(RefreshedStage(stage, u), v) == RefreshedStage(stage, v)
  {
    assert RefreshedStage(RefreshedStage(stage, u), v).enabled == RefreshedStage(stage, v).enabled;
  }

  lemma PressHides(s: State, t: State)
    requires Playing(s) && SameButLogs(t, Overlaid(s))
    ensures SameButLogs(Hidden(t), s)
    ensures Hidden(t).sent == t.sent + [StateChanged(GameForeground)]
    ensures Hidden(t).notices == t.notices + [Notice(AboutToHide, t.trust.overlayResource)]
  {
    RefreshTwice(s.stage, Overlaid(s).session, s.session);
    RefreshIdle(s.stage, s.session);
  }

  /** What n presses announce: the UI, the game, the UI, and so on. */
  function PressMessages(n: nat): seq<Message> {
    if n == 0 then [] else PressMessages(n - 1) + [StateChanged(if n % 2 == 1 then PlayosUi else GameForeground)]
  }

  function PressNotices(n: nat, target: Option<Resource>): seq<Notice> {
    if n == 0 then []
    else PressNotices(n - 1, target) + [Notice(if n % 2 == 1 then AboutToShow else AboutToHide, target)]
  }

  /** The logs have grown by exactly what n presses announce. */
  ghost predicate PressesLogged(s: State, t: State, n: nat) {
    t.sent == s.sent + PressMessages(n) && t.notices == s.notices + PressNotices(n, s.trust.overlayResource)
  }

  lemma PressLogged(s: State, t: State, n: nat, t': State)
    requires PressesLogged(s, t, n) && t.trust == s.trust
    requires t'.sent == t.sent + [StateChanged(if n % 2 == 0 then PlayosUi else GameForeground)]
    requires t'.notices == t.notices
                           + [Notice(if n % 2 == 0 then AboutToShow else AboutToHide, t.trust.overlayResource)]
    ensures PressesLogged(s, t', n + 1)
  {
    assert PressMessages(n + 1) == PressMessages(n) + [StateChanged(if n % 2 == 0 then PlayosUi else GameForeground)];
  }

  /** The state n presses lead to, and what has been logged by then. */
  ghost predicate Toggled(s: State, t: State, n: nat) {
    SameButLogs(t, if n % 2 == 0 then s else Overlaid(s)) && PressesLogged(s, t, n)
  }

  lemma KeyToggles(s: State, t: State, n: nat, key: KeyEvent)
    requires Playing(s) && Toggled(s, t, n)
    ensures Toggled(s, KeyHandled(t, key.code, key.pressed), if key.pressed && IsSystem(key.code) then n + 1 else n)
  {
    var t' := KeyHandled(t, key.code, key.pressed);
    if key.pressed && IsSystem(key.code) {
      if n % 2 == 0 {
        PressShows(s, t);
        assert t' == Shown(t);
      } else {
        PressHides(s, t);
        assert t' == Hidden(t);
      }
      PressLogged(s, t, n, t');
    }
  }

  /** n SYSTEM presses, with any other keys in between, leave the game in front for even n, with
      the z-order and every enabled flag as before, and the UI over it for odd n. Each press is
      announced once to the peer and once to the overlay, alternately as a show and a hide. */
  lemma {:induction false} ButtonParity(s: State, keys: seq<KeyEvent>)
    requires Playing(s)
    ensures Toggled(s, AfterKeys(s, keys), SystemPresses(keys))
  {
    if keys == [] {
    } else {
      ButtonParity(s, keys[..|keys| - 1]);
      KeyToggles(s, AfterKeys(s, keys[..|keys| - 1]), SystemPresses(keys[..|keys| - 1]), keys[|keys| - 1]);
    }
  }

  /** The round trip needs the game's tree: without it the second press falls back to the shell. */
  lemma RoundTripNeedsGameTree(s: State, first: nat, second: nat)
    requires StageInv(s) && s.session.fg == GameForeground && !s.session.overlayVisible
    requires IsSystem(first) && IsSystem(second)
    ensures var t := KeyHandled(KeyHandled(s, first, true), second, true);
            && (SameButLogs(t, s) <==> s.stage.gameTree.Some?)
            && (s.stage.gameTree.None? ==> t.session == s.session.(fg := ShellForeground))
  {
    if s.stage.gameTree.Some? {
      PressShows(s, s);
      PressHides(s, Shown(s));
    }
  }


  /** The key codes of linux/input-event-codes.h that toggle the overlay: BTN_MODE, KEY_PROG1,
      BTN_TRIGGER_HAPPY1 and KEY_F17. A press of one of them acts in the two states that show a game;
      every other press, every release and every other state leaves everything as it was. */
  lemma KeyEffect(s: State, code: nat, pressed: bool)
    requires StageInv(s)
    ensures var t := KeyHandled(s, code, pressed);
            var toggles := pressed && code in {316, 148, 704, 187};
            && (!toggles ==> t == s)
            && (s.session.fg !in {GameForeground, PlayosUi} ==> t == s)
            && (toggles && s.session.fg == GameForeground && !s.session.overlayVisible ==>
                  t.session.fg == PlayosUi && t.session.overlayVisible)
            && (s.session.fg == GameForeground && s.session.overlayVisible ==> t == s)
            && (toggles && s.session.fg == PlayosUi ==>
                  && !t.session.overlayVisible
                  && t.session.fg == if s.stage.gameTree.Some? then GameForeground else ShellForeground)
  {
    KeyCodes(code);
    if s.session.fg == PlayosUi {
      assert s.session.overlayVisible;
    }
  }

  lemma KeyCodes(code: nat)
    ensures IsSystem(code) <==> code in {316, 148, 704, 187}
    ensures IsReserved(code) <==> code in {316, 148, 704, 187, 149, 705, 186}
  {
  }
}
