/** compositor.sock in literal bytes: the header, the messages sent and the commands understood, none of
    them stated through the functions that print or parse them. */
module WireFormat {
  import opened Foundation
  import opened StateMachine
  import opened CompositorModel
  import opened Json
  import opened JsonMeaning
  import opened JsonSpaces
  import opened Framing
  import opened Ipc
  import opened Echo

  // ---- The header --------------------------------------------------------------------------

  /** The length in the header, least significant byte first. */
  function LengthAt4(packet: bytes): nat
    requires |packet| >= 8
  {
    packet[4] as int + 0x100 * packet[5] as int + 0x1_0000 * packet[6] as int + 0x100_0000 * packet[7] as int
  }

  lemma MagicBytes()
    ensures Le32(MAGIC) == "SOLP"
  {
    assert MAGIC % 256 == 0x53 && MAGIC / 256 % 256 == 0x4F;
    assert MAGIC / 65536 % 256 == 0x4C && MAGIC / 16777216 % 256 == 0x50;
    assert 0x53 as char == 'S' && 0x4F as char == 'O' && 0x4C as char == 'L' && 0x50 as char == 'P';
  }

  /** A frame is the four letters of the magic from the lowest byte up, the length, the body. */
  lemma FrameBytes(body: bytes)
    requires |body| <= 65536
    ensures var f := Frame(body);
            f[..4] == "SOLP" && LengthAt4(f) == |body| && f[8..] == body
  {
    var f := Frame(body);
    var size := Le32(|body|);
    MagicBytes();
    LoadStored(|body|);
    assert f[..4] == Le32(MAGIC);
    assert f[4] == size[0] && f[5] == size[1] && f[6] == size[2] && f[7] == size[3];
  }

  /** What is sent is a frame, unless the body has 65536 bytes or more. */
  lemma SentBytes(kind: bytes, extra: bytes)
    ensures Encoded(kind, extra) == if |Body(kind, extra)| >= 65536 then None else Some(Frame(Body(kind, extra)))
  {
  }

  /** What is accepted: eight header bytes at least, the magic, a length of at most 65536 and as many
      bytes behind it. */
  lemma AcceptedBytes(packet: bytes)
    ensures Decoded(packet).Some? <==>
            |packet| >= 8 && packet[..4] == "SOLP" && LengthAt4(packet) <= 65536 && |packet| >= 8 + LengthAt4(packet)
    ensures Decoded(packet).Some? ==> Decoded(packet).value == packet[8..8 + LengthAt4(packet)]
  {
    if |packet| >= 8 {
      MagicBytes();
      LoadStored(MAGIC);
      StoreLoaded(packet[..4]);
      assert Load32(packet) == Load32(packet[..4]);
    }
  }

  // ---- Messages sent -----------------------------------------------------------------------

  /** The words of the foreground states on the wire. */
  lemma StateWords()
    ensures StateName(ShellForeground) == "SHELL_FOREGROUND"
    ensures StateName(GameStarting) == "GAME_STARTING"
    ensures StateName(GameForeground) == "GAME_FOREGROUND"
    ensures StateName(PlayosUi) == "PLAYOS_UI_FOREGROUND_WITH_GAME_BACKGROUND"
    ensures StateName(TerminatingGame) == "TERMINATING_GAME"
  {
  }

  lemma StateText(fg: Foreground)
    ensures Body(Kind(StateChanged(fg)), Member(Payload(StateChanged(fg)))) ==
            "{\"v\":1,\"type\":\"CompositorStateChanged\",\"state\":\"" + StateName(fg) + "\"}"
  {
    var v := StateName(fg);
    StateHead();
    BodyPrinted("CompositorStateChanged", STATE, v);
  }

  lemma StateHead()
    ensures "{\"v\":1,\"type\":\"" + "CompositorStateChanged" + "\"," + "\"" + STATE + "\":\""
         == "{\"v\":1,\"type\":\"CompositorStateChanged\",\"state\":\""
  {
  }

  lemma ReadyHead()
    ensures "{\"v\":1,\"type\":\"" + "GameSurfaceReady" + "\"," + "\"" + LAUNCH_TOKEN + "\":\""
         == "{\"v\":1,\"type\":\"GameSurfaceReady\",\"launch_token\":\""
  {
  }

  lemma BodyPrinted(kind: bytes, name: bytes, v: bytes)
    ensures Body(kind, Member(Field(name, v))) ==
            "{\"v\":1,\"type\":\"" + kind + "\"," + "\"" + name + "\":\"" + v + "\"}"
  {
    var head := "{\"v\":1,\"type\":\"" + kind + "\",";
    assert Member(Field(name, v)) == "\"" + name + "\":\"" + v + "\"";
    assert "\"" + "}" == "\"}";
    assert Body(kind, Member(Field(name, v))) == head + ("\"" + name + "\":\"" + v + "\"") + "}";
    assert head + ("\"" + name + "\":\"" + v + "\"") + "}" == head + "\"" + name + "\":\"" + v + ("\"" + "}");
  }

  /** The body of CompositorStateChanged, for each of the five states. */
  lemma StateBodies(fg: Foreground)
    ensures var word :=
              match fg
              case ShellForeground => "SHELL_FOREGROUND"
              case GameStarting => "GAME_STARTING"
              case GameForeground => "GAME_FOREGROUND"
              case PlayosUi => "PLAYOS_UI_FOREGROUND_WITH_GAME_BACKGROUND"
              case TerminatingGame => "TERMINATING_GAME";
            && Wire(StateChanged(fg)).Some?
            && Decoded(Wire(StateChanged(fg)).value)
               == Some("{\"v\":1,\"type\":\"CompositorStateChanged\",\"state\":\"" + word + "\"}")
  {
    WireForm(StateChanged(fg));
    StateText(fg);
    StateWords();
  }

  /** The body of GameSurfaceReady. */
  lemma ReadyBody(token: bytes)
    requires |token| <= 63
    ensures Wire(GameSurfaceReady(token)).Some?
    ensures Decoded(Wire(GameSurfaceReady(token)).value)
         == Some("{\"v\":1,\"type\":\"GameSurfaceReady\",\"launch_token\":\"" + token + "\"}")
  {
    WireForm(GameSurfaceReady(token));
    ReadyHead();
    BodyPrinted("GameSurfaceReady", LAUNCH_TOKEN, token);
  }

  // ---- Commands understood -----------------------------------------------------------------

  ghost predicate Letters(kind: bytes) {
    '"' !in kind && '\\' !in kind && NUL !in kind && |kind| < 128
  }

  lemma LettersPaired(kind: bytes)
    requires Letters(kind)
    ensures WellPaired(kind)
  {
    PlainIsWellPaired(kind);
  }

  /** The string a request leaves in a buffer for `key`, with room for `room` bytes. */
  ghost predicate Leaves(body: bytes, key: bytes, room: nat, stale: bytes, s: bytes) {
    match Scan(body, key)
    case Some(v) => s == CString(if |v| <= room then v else v[..room])
    case None => s == CString(stale)
  }

  /** A body means what its type says: one of five commands, or nothing. */
  lemma CommandMeaning(body: bytes, staleToken: bytes, staleId: bytes)
    ensures var e := Interpreted(body, staleToken, staleId);
            match KindOf(body)
            case None => e == None
            case Some(kind) =>
              && (kind == "ClearExpectedGame" <==> e == Some(ClearExpectedGame))
              && (kind == "ForceTerminateGame" <==> e == Some(ForceTerminateGame))
              && (kind == "ShowOverlay" <==> e == Some(ShowOverlay))
              && (kind == "HideOverlay" <==> e == Some(HideOverlay))
              && (kind == "SetExpectedGame" <==> e.Some? && e.value.SetExpectedGame?)
              && (kind !in {"SetExpectedGame", "ClearExpectedGame", "ForceTerminateGame", "ShowOverlay", "HideOverlay"}
                  <==> e == None)
  {
    if KindOf(body).Some? {
      CommandTable(KindOf(body).value, Extracted(body, LAUNCH_TOKEN, 63, staleToken),
                   Extracted(body, GAME_ID, 255, staleId));
    }
  }

  lemma CommandTable(kind: bytes, token: bytes, gameId: bytes)
    ensures var e := Command(kind, token, gameId);
            && (kind == "SetExpectedGame" <==> e == Some(SetExpectedGame(token, gameId)))
            && (kind == "ClearExpectedGame" <==> e == Some(ClearExpectedGame))
            && (kind == "ForceTerminateGame" <==> e == Some(ForceTerminateGame))
            && (kind == "ShowOverlay" <==> e == Some(ShowOverlay))
            && (kind == "HideOverlay" <==> e == Some(HideOverlay))
            && (kind == "SetExpectedGame" <==> e.Some? && e.value.SetExpectedGame?)
            && (kind !in {"SetExpectedGame", "ClearExpectedGame", "ForceTerminateGame", "ShowOverlay", "HideOverlay"}
                <==> e == None)
  {
    WordsApart();
  }

  lemma WordsApart()
    ensures |"SetExpectedGame"| == 15 && |"ClearExpectedGame"| == 17 && |"ForceTerminateGame"| == 18
    ensures |"ShowOverlay"| == 11 && |"HideOverlay"| == 11 && "ShowOverlay"[0] == 'S' && "HideOverlay"[0] == 'H'
  {
  }

  /** A request stores at most 63 and 255 bytes of its two strings. */
  lemma RequestStrings(body: bytes, staleToken: bytes, staleId: bytes)
    requires KindOf(body) == Some("SetExpectedGame")
    ensures var e := Interpreted(body, staleToken, staleId);
            && e.Some? && e.value.SetExpectedGame?
            && Leaves(body, "launch_token", 63, staleToken, e.value.token)
            && Leaves(body, "game_id", 255, staleId, e.value.gameId)
  {
    KeyWords();
    CommandTable("SetExpectedGame", Extracted(body, LAUNCH_TOKEN, 63, staleToken),
                 Extracted(body, GAME_ID, 255, staleId));
  }

  lemma KeyWords()
    ensures TYPE == "type" && LAUNCH_TOKEN == "launch_token" && GAME_ID == "game_id" && STATE == "state"
  {
  }

  /** A printed body of the given type, whatever follows the type. */
  lemma PrintedKind(kind: bytes, extra: bytes)
    requires Letters(kind)
    ensures KindOf(Body(kind, extra)) == Some(kind)
  {
    LettersPaired(kind);
    TypeRoundTrip(kind, extra);
  }

  lemma ShowLetters()
    ensures Letters("ShowOverlay")
  {
  }

  /** A printed body does what its type says, whatever follows the type and whatever the buffers held. */
  lemma PrintedCommand(kind: bytes, extra: bytes, a: bytes, b: bytes)
    requires Letters(kind)
    ensures var e := Interpreted(Body(kind, extra), a, b);
            && (kind == "ClearExpectedGame" ==> e == Some(ClearExpectedGame))
            && (kind == "ForceTerminateGame" ==> e == Some(ForceTerminateGame))
            && (kind == "ShowOverlay" ==> e == Some(ShowOverlay))
            && (kind == "HideOverlay" ==> e == Some(HideOverlay))
            && (kind == "SetExpectedGame" ==> e.Some? && e.value.SetExpectedGame?)
            && (kind !in {"SetExpectedGame", "ClearExpectedGame", "ForceTerminateGame", "ShowOverlay", "HideOverlay"}
                ==> e == None)
  {
    PrintedKind(kind, extra);
    CommandMeaning(Body(kind, extra), a, b);
  }

  /** White space around the colon is no obstacle to a command. */
  lemma SpacedKind(kind: bytes, w1: bytes, w2: bytes)
    requires Letters(kind) && Blank(w1) && Blank(w2)
    ensures var value := ['"'] + (kind + ("\"" + "}"));
            KindOf("{" + ("\"" + (TYPE + ("\"" + (w1 + ([':'] + (w2 + value))))))) == Some(kind)
  {
    var inner := "\"" + (TYPE + ("\"" + (w1 + ([':'] + (w2 + (['"'] + (kind + ("\"" + "}"))))))));
    TypeLetters();
    LettersPaired(kind);
    SpacedMember(TYPE, w1, w2, kind, "}", ':');
    ScanSkipsText("{", inner, TYPE);
  }

  lemma TypeLetters()
    ensures QuoteFree(TYPE)
  {
  }

  // ---- Effects -----------------------------------------------------------------------------

  /** What a packet with a printed body does to the compositor. */
  method Receive(c: Compositor, packet: bytes, ghost kind: bytes, ghost extra: bytes)
    requires c.Valid() && Letters(kind) && Decoded(packet) == Some(Body(kind, extra))
    modifies c
    ensures c.Valid()
    ensures kind == "ClearExpectedGame" ==> c.View() == Cleared(old(c.View()))
    ensures kind == "ForceTerminateGame" ==> c.View() == ForceTerminated(old(c.View()))
    ensures kind == "ShowOverlay" ==> c.View() == Shown(old(c.View()))
    ensures kind == "HideOverlay" ==> c.View() == Hidden(old(c.View()))
    ensures kind == "SetExpectedGame" ==>
              exists token: bytes, gameId: bytes :: c.View() == Expecting(old(c.View()), token, gameId)
    ensures kind !in {"SetExpectedGame", "ClearExpectedGame", "ForceTerminateGame", "ShowOverlay", "HideOverlay"} ==>
              c.View() == old(c.View())
  {
    ghost var event := HandlePacket(c, packet);
    ghost var t: bytes, i: bytes :| event == Interpreted(Body(kind, extra), t, i);
    PrintedCommand(kind, extra, t, i);
    PerformedCommand(old(c.View()), event);
  }

  lemma PerformedCommand(s: State, e: Option<Event>)
    ensures e == None ==> Performed(s, e) == s
    ensures e == Some(ClearExpectedGame) ==> Performed(s, e) == Cleared(s)
    ensures e == Some(ForceTerminateGame) ==> Performed(s, e) == ForceTerminated(s)
    ensures e == Some(ShowOverlay) ==> Performed(s, e) == Shown(s)
    ensures e == Some(HideOverlay) ==> Performed(s, e) == Hidden(s)
    ensures e.Some? && e.value.SetExpectedGame? ==> Performed(s, e) == Expecting(s, e.value.token, e.value.gameId)
  {
  }

  /** A ShowOverlay packet over a foreground game brings the UI up. */
  method ShowPacket(c: Compositor, packet: bytes, ghost extra: bytes)
    requires c.Valid() && c.fg == GameForeground && !c.overlayVisible
    requires Decoded(packet) == Some(Body("ShowOverlay", extra))
    modifies c
    ensures c.Valid() && c.fg == PlayosUi && c.overlayVisible
  {
    ShowLetters();
    Receive(c, packet, "ShowOverlay", extra);
    assert c.SessionView() == c.View().session;
  }
}
