/** Packets and connections on which the wire lacks a property one would like it to have. */
module WireWitnesses {
  import opened Foundation
  import opened StateMachine
  import opened Sessions
  import opened Protocol
  import opened Json
  import opened JsonMeaning
  import opened JsonBodies
  import opened Ipc
  import opened Echo
  import opened Requests
  import opened LinkModel
  import opened Transport

  // ---- Tokens that do not come back --------------------------------------------------------

  /** A token of 64 bytes that a peer can send and does not get back. */
  lemma LongTokenIsCut() returns (raw: bytes, es: seq<Event>, sent: bytes)
    ensures |raw| == 64 && Request(raw, []).Some? && |es| == 3
    ensures IsCurrent(es[..2], 0) && SendsReady(es, 2, sent) && AsksFor(Request(raw, []).value, raw, es[0])
    ensures Wire(GameSurfaceReady(sent)).Some?
    ensures Read(Wire(GameSurfaceReady(sent)).value) != Some(GameSurfaceReady(raw))
  {
    raw := seq(64, _ => 'a');
    PlainIsWellPaired(raw);
    RequestFits(raw);
    es, sent := TokenCanBeAsked(raw, []);
  }

  lemma RequestFits(raw: bytes)
    requires |raw| == 64
    ensures Request(raw, []).Some?
  {
    var token, id := Field(LAUNCH_TOKEN, raw), Field(GAME_ID, []);
    RequestIsPlain();
    KeysPlain();
    assert [token, id][1..] == [id];
    assert |Members([token, id])| <= 200;
  }

  lemma {:induction false} PairedAppend(a: bytes, b: bytes)
    requires WellPaired(a) && WellPaired(b)
    ensures WellPaired(a + b)
    decreases |a|
  {
    if a == [] {
      assert a + b == b;
    } else {
      var skip := if a[0] == '\\' then 2 else 1;
      assert (a + b)[skip..] == a[skip..] + b;
      PairedAppend(a[skip..], b);
    }
  }

  lemma {:induction false} LoneBackslash(a: bytes)
    requires '\\' !in a
    ensures !WellPaired(a + ['\\'])
  {
    if a == [] {
      assert a + ['\\'] == ['\\'];
    } else {
      assert (a + ['\\'])[1..] == a[1..] + ['\\'];
      LoneBackslash(a[1..]);
    }
  }

  /** Two backslashes at the buffer's end: the token is well paired, what is kept of it is not. */
  lemma EscapeIsHalved(plain: bytes)
    requires |plain| == 62 && WellPaired(plain) && '\\' !in plain && NUL !in plain
    ensures var raw := plain + ['\\', '\\'];
            WellPaired(raw) && CString(Cut(raw, 63)) == plain + ['\\'] && !WellPaired(plain + ['\\'])
  {
    var raw := plain + ['\\', '\\'];
    PairedAppend(plain, ['\\', '\\']);
    assert raw[..63] == plain + ['\\'];
    LoneBackslash(plain);
  }

  /** A token that the buffer cuts in the middle of an escape: what is sent back cannot be read as it
      was sent. */
  lemma HalfEscape() returns (raw: bytes, es: seq<Event>, sent: bytes)
    ensures |raw| == 64 && Request(raw, []).Some? && |es| == 3
    ensures IsCurrent(es[..2], 0) && SendsReady(es, 2, sent) && AsksFor(Request(raw, []).value, raw, es[0])
    ensures Wire(GameSurfaceReady(sent)).Some?
    ensures Read(Wire(GameSurfaceReady(sent)).value) != Some(GameSurfaceReady(sent))
  {
    var plain := seq(62, _ => 'a');
    raw := plain + ['\\', '\\'];
    PlainIsWellPaired(plain);
    EscapeIsHalved(plain);
    RequestFits(raw);
    es, sent := TokenCanBeAsked(raw, []);
    AskedToken(Request(raw, []).value, raw, es[0]);
    ReadyToken(es, 0, 2, sent);
    MessageRoundTrip(GameSurfaceReady(sent));
  }

  // ---- Requests that leave their event open ------------------------------------------------

  /** A SetExpectedGame without members leaves the token to what the buffer held before. */
  lemma BareRequestIsUndetermined()
    ensures var body := Body(SET_EXPECTED_GAME, []);
            Interpreted(body, ['a'], []) != Interpreted(body, [], [])
  {
    var body := Body(SET_EXPECTED_GAME, []);
    assert Members([]) == [];
    RequestMeaning([], LAUNCH_TOKEN);
    RequestIsPlain();
    PrintedIsInterpreted(SET_EXPECTED_GAME, [], ['a'], []);
    PrintedIsInterpreted(SET_EXPECTED_GAME, [], [], []);
    assert Extracted(body, LAUNCH_TOKEN, 63, ['a']) == ['a'];
  }

  /** A request that carries both strings after a member whose value is the token's name: the token is
      not found, and the event is left to what the buffer held before. */
  lemma ShadowedName(token: bytes)
    requires WellPaired(token)
    ensures var body := Body(SET_EXPECTED_GAME, Members([Field(GAME_ID, LAUNCH_TOKEN), Field(LAUNCH_TOKEN, token)]));
            && Scan(body, LAUNCH_TOKEN) == None
            && exists t: bytes, t': bytes :: Interpreted(body, t, []) != Interpreted(body, t', [])
  {
    var fields := [Field(GAME_ID, LAUNCH_TOKEN), Field(LAUNCH_TOKEN, token)];
    var body := Body(SET_EXPECTED_GAME, Members(fields));
    KeysPlain();
    TokenNameIsPlain();
    assert Readable(fields);
    RequestMeaning(fields, LAUNCH_TOKEN);
    RequestIsPlain();
    PrintedIsInterpreted(SET_EXPECTED_GAME, Members(fields), ['a'], []);
    PrintedIsInterpreted(SET_EXPECTED_GAME, Members(fields), [], []);
    assert Extracted(body, LAUNCH_TOKEN, 63, ['a']) == ['a'];
    assert Interpreted(body, ['a'], []) != Interpreted(body, [], []);
  }

  lemma OnePart(v: bytes, key: bytes)
    requires QuoteFree(v)
    ensures Parts(v) == [v] && !Leaks(v, key)
  {
    assert NextQuote(v, 0) == |v|;
  }

  lemma TokenNameIsPlain()
    ensures WellPaired(LAUNCH_TOKEN) && Parts(LAUNCH_TOKEN) == [LAUNCH_TOKEN] && !Leaks(LAUNCH_TOKEN, LAUNCH_TOKEN)
  {
    KeysPlain();
    TokenNameLetters();
    PlainIsWellPaired(LAUNCH_TOKEN);
    OnePart(LAUNCH_TOKEN, LAUNCH_TOKEN);
  }

  lemma TokenNameLetters()
    ensures '\\' !in LAUNCH_TOKEN
  {
  }

  // ---- A change nobody saw -----------------------------------------------------------------

  /** The connection is lost, a game is expected and the connection returns: the peer is connected and
      still takes the shell to be in front. */
  lemma MissedChange(token: bytes, gameId: bytes)
    ensures var lost := JointStep(JointAfter(3, []), Connection(Loss));
            var changed := JointStep(lost, Machine(SetExpectedGame(token, gameId)));
            var back := JointStep(changed, Connection(Retry(4)));
            && CanHappen(JointAfter(3, []).link, Loss) && CanHappen(changed.link, Retry(4))
            && IsUp(back) && back.state.session.fg == GameStarting && Peer(back.delivered) == ShellForeground
  {
    SetStep(INITIAL, token, gameId);
  }
}
