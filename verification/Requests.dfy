/** Requests for a game as a peer prints them: what the compositor reads, and what comes back. */
module Requests {
  import opened Foundation
  import opened StateMachine
  import opened Sessions
  import opened Protocol
  import opened Launch
  import opened Json
  import opened JsonMeaning
  import opened JsonBodies
  import opened Framing
  import opened Ipc
  import opened Echo

  const SET_EXPECTED_GAME: bytes := "SetExpectedGame"

  lemma RequestLetters()
    ensures QuoteFree(SET_EXPECTED_GAME) && '\\' !in SET_EXPECTED_GAME
    ensures NUL !in SET_EXPECTED_GAME && |SET_EXPECTED_GAME| == 15
  {
  }

  lemma RequestIsPlain()
    ensures QuoteFree(SET_EXPECTED_GAME) && WellPaired(SET_EXPECTED_GAME)
    ensures NUL !in SET_EXPECTED_GAME && |SET_EXPECTED_GAME| == 15
  {
    RequestLetters();
    PlainIsWellPaired(SET_EXPECTED_GAME);
  }

  lemma KeysPlain()
    ensures QuoteFree(LAUNCH_TOKEN) && QuoteFree(GAME_ID)
    ensures LAUNCH_TOKEN[0] == 'l' && GAME_ID[0] == 'g' && |LAUNCH_TOKEN| == 12 && |GAME_ID| == 7
  {
  }

  /** The two names are no part of what is printed before the members. */
  lemma NamesAreNew(key: bytes)
    requires key == LAUNCH_TOKEN || key == GAME_ID
    ensures QuoteFree(key)
    ensures key != TYPE && key != VERSION && key != ONE && key != SET_EXPECTED_GAME && key != ":" && key != ","
  {
    RequestIsPlain();
    KeysPlain();
    assert |TYPE| == 4 && |VERSION| == 1 && |ONE| == 3;
  }

  /** A request holds under the two names what its members hold. */
  lemma RequestMeaning(fields: seq<Field>, key: bytes)
    requires Readable(fields) && (key == LAUNCH_TOKEN || key == GAME_ID)
    ensures Scan(Body(SET_EXPECTED_GAME, Members(fields)), key) == Lookup(fields, key)
  {
    RequestIsPlain();
    NamesAreNew(key);
    BodyMeaning(SET_EXPECTED_GAME, fields, key);
  }

  // ---- What a request determines -----------------------------------------------------------

  lemma RequestIsRead(extra: bytes)
    ensures KindOf(Body(SET_EXPECTED_GAME, extra)) == Some(SET_EXPECTED_GAME)
  {
    RequestIsPlain();
    TypeRoundTrip(SET_EXPECTED_GAME, extra);
  }

  /** The first member that shows the key has it as its name, or else leaks a value for it. */
  ghost predicate Provides(fields: seq<Field>, key: bytes) {
    (exists j: nat :: FirstShown(fields, key, j)) || (exists j: nat :: FirstLeaks(fields, key, j))
  }

  lemma LookupProvides(fields: seq<Field>, key: bytes)
    ensures Lookup(fields, key).Some? <==> Provides(fields, key)
  {
    match Lookup(fields, key)
    case Some(v) => LookupMeaning(fields, key, v);
    case None =>
      if j: nat :| FirstShown(fields, key, j) { LookupMeaning(fields, key, fields[j].value); }
      if j: nat :| FirstLeaks(fields, key, j) { LookupMeaning(fields, key, ","); }
  }

  /** A printed request determines its event iff its members provide both strings; having them is not
      enough. */
  lemma RequestIsDetermined(fields: seq<Field>)
    requires Readable(fields)
    ensures var body := Body(SET_EXPECTED_GAME, Members(fields));
            (forall t: bytes, i: bytes, t': bytes, i': bytes :: Interpreted(body, t, i) == Interpreted(body, t', i'))
            <==> Provides(fields, LAUNCH_TOKEN) && Provides(fields, GAME_ID)
  {
    EventIsDetermined(Body(SET_EXPECTED_GAME, Members(fields)));
    RequestIsRead(Members(fields));
    RequestMeaning(fields, LAUNCH_TOKEN);
    RequestMeaning(fields, GAME_ID);
    LookupProvides(fields, LAUNCH_TOKEN);
    LookupProvides(fields, GAME_ID);
  }

  // ---- A token out and back ----------------------------------------------------------------

  function RequestFields(raw: bytes, gameId: bytes): seq<Field> {
    [Field(LAUNCH_TOKEN, raw), Field(GAME_ID, gameId)]
  }

  /** The request for a game, as a peer prints it. */
  function Request(raw: bytes, gameId: bytes): Option<bytes> {
    Encoded(SET_EXPECTED_GAME, Members(RequestFields(raw, gameId)))
  }

  lemma TokenIsHeld(raw: bytes, gameId: bytes)
    requires WellPaired(raw) && WellPaired(gameId)
    ensures Scan(Body(SET_EXPECTED_GAME, Members(RequestFields(raw, gameId))), LAUNCH_TOKEN) == Some(raw)
  {
    KeysPlain();
    assert Readable(RequestFields(raw, gameId));
    RequestMeaning(RequestFields(raw, gameId), LAUNCH_TOKEN);
  }

  /** The request is accepted as a SetExpectedGame that holds `raw`. */
  lemma RequestAsks(raw: bytes, gameId: bytes) returns (e: Event)
    requires WellPaired(raw) && WellPaired(gameId)
    requires Request(raw, gameId).Some?
    ensures AsksFor(Request(raw, gameId).value, raw, e)
  {
    var extra := Members(RequestFields(raw, gameId));
    var body := Body(SET_EXPECTED_GAME, extra);
    RequestIsPlain();
    TokenIsHeld(raw, gameId);
    FrameRoundTrip(SET_EXPECTED_GAME, extra);
    PrintedIsInterpreted(SET_EXPECTED_GAME, extra, [], []);
    e := SetExpectedGame(Extracted(body, LAUNCH_TOKEN, 63, []), Extracted(body, GAME_ID, 255, []));
    assert Interpreted(body, [], []) == Some(e);
  }

  lemma RunOfThree(a: Event, b: Event, c: Event)
    ensures var es := [a, b, c];
            && es[..2] == [a, b] && After(es[..0]) == INITIAL
            && After(es[..2]) == Step(Step(INITIAL, a), b) && After(es[..3]) == Step(Step(Step(INITIAL, a), b), c)
  {
    var es := [a, b, c];
    assert es[..3][..2] == es[..2] && es[..2][..1] == es[..1] && es[..1][..0] == [];
    assert es[..1] == [a] && es[..2] == [a, b] && es[..3] == es;
  }

  /** The launch of an expected game from start-up sends its token back. */
  lemma LaunchAnswers(e: Event)
    requires e.SetExpectedGame?
    ensures var es := [e, NewToplevel(1, 7), Commit(1, true)];
            IsCurrent(es[..2], 0) && SendsReady(es, 2, Cut(e.token, 63))
  {
    var es := [e, NewToplevel(1, 7), Commit(1, true)];
    RunOfThree(e, NewToplevel(1, 7), Commit(1, true));
    assert Legal([]) && After([]) == INITIAL;
    LaunchSucceeds(INITIAL, e.token, e.gameId, 1, 7);
    var b, c := After(es[..2]), After(es[..3]);
    assert c.sent[|b.sent|..] == [GameSurfaceReady(Cut(e.token, 63)), StateChanged(GameForeground)];
    assert Continues(es[..2], 1);
  }

  /** Any token a peer can print comes back, up to what the buffers keep. */
  lemma TokenCanBeAsked(raw: bytes, gameId: bytes) returns (es: seq<Event>, sent: bytes)
    requires WellPaired(raw) && WellPaired(gameId)
    requires Request(raw, gameId).Some?
    ensures |es| == 3 && IsCurrent(es[..2], 0) && SendsReady(es, 2, sent)
    ensures AsksFor(Request(raw, gameId).value, raw, es[0])
    ensures Wire(GameSurfaceReady(sent)).Some?
    ensures Read(Wire(GameSurfaceReady(sent)).value) == Some(GameSurfaceReady(raw)) <==> |raw| <= 63 && NUL !in raw
  {
    var e := RequestAsks(raw, gameId);
    es := [e, NewToplevel(1, 7), Commit(1, true)];
    sent := Cut(e.token, 63);
    LaunchAnswers(e);
    TokenEcho(es, 0, 2, Request(raw, gameId).value, raw, sent);
  }
}
