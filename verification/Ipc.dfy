/** The compositor.sock endpoint: what a received packet makes the compositor do, and what the
    messages it sends look like on the wire. */
module Ipc {
  import opened Foundation
  import opened StateMachine
  import opened CompositorModel
  import opened Json
  import opened JsonMeaning
  import opened Framing

  // ---- Receiving ---------------------------------------------------------------------------

  /** The C string left in a buffer by extracting `key`; a failed extraction leaves it as it was. */
  function Extracted(body: bytes, key: bytes, room: nat, stale: bytes): bytes {
    match Scan(body, key)
    case None => CString(stale)
    case Some(v) => CString(Cut(v, room))
  }

  /** The message type as the dispatcher compares it. */
  function KindOf(body: bytes): Option<bytes> {
    match Scan(body, TYPE)
    case None => None
    case Some(kind) => Some(CString(Cut(kind, 127)))
  }

  /** The event a message body stands for, given what its two stack buffers held before. */
  function Interpreted(body: bytes, staleToken: bytes, staleId: bytes): Option<Event> {
    match KindOf(body)
    case None => None
    case Some(kind) =>
      Command(kind, Extracted(body, LAUNCH_TOKEN, 63, staleToken), Extracted(body, GAME_ID, 255, staleId))
  }

  /** The event named by a message type; the two strings belong to SetExpectedGame. */
  function Command(kind: bytes, token: bytes, gameId: bytes): Option<Event> {
    if kind == "SetExpectedGame" then Some(SetExpectedGame(token, gameId))
    else if kind == "ClearExpectedGame" then Some(ClearExpectedGame)
    else if kind == "ForceTerminateGame" then Some(ForceTerminateGame)
    else if kind == "ShowOverlay" then Some(ShowOverlay)
    else if kind == "HideOverlay" then Some(HideOverlay)
    else None
  }

  /** A body determines its event, whatever the two buffers held before, iff it is not a
      SetExpectedGame that lacks one of its strings. */
  lemma EventIsDetermined(body: bytes)
    ensures (forall t: bytes, i: bytes, t': bytes, i': bytes :: Interpreted(body, t, i) == Interpreted(body, t', i'))
       <==> (KindOf(body) == Some("SetExpectedGame") ==>
               Scan(body, LAUNCH_TOKEN).Some? && Scan(body, GAME_ID).Some?)
  {
    if KindOf(body) == Some("SetExpectedGame") {
      assert Extracted(body, LAUNCH_TOKEN, 63, ['a']) == Extracted(body, LAUNCH_TOKEN, 63, [])
        <==> Scan(body, LAUNCH_TOKEN).Some?;
      assert Extracted(body, GAME_ID, 255, ['a']) == Extracted(body, GAME_ID, 255, []) <==> Scan(body, GAME_ID).Some?;
      assert Interpreted(body, ['a'], ['a']) == Interpreted(body, [], []) ==>
               Scan(body, LAUNCH_TOKEN).Some? && Scan(body, GAME_ID).Some?;
    }
  }

  function Performed(s: State, e: Option<Event>): State {
    match e case None => s case Some(event) => Step(s, event)
  }

  lemma {:induction false} CStringStops(v: bytes, rest: bytes)
    ensures CString(v + [NUL] + rest) == CString(v)
  {
    if v == [] {
      assert ([] + [NUL] + rest)[0] == NUL;
    } else {
      assert (v + [NUL] + rest)[1..] == v[1..] + [NUL] + rest;
      CStringStops(v[1..], rest);
    }
  }

  /** Extraction into a fresh stack buffer, read back as a C string. */
  method Extract(body: bytes, key: bytes, size: nat) returns (found: bool, text: bytes, ghost stale: bytes)
    requires size > 0
    ensures found == Scan(body, key).Some?
    ensures text == Extracted(body, key, size - 1, stale)
  {
    var out := new byte[size];
    stale := out[..];
    var rc := GetString(body, key, out);
    found := rc == 0;
    if found {
      var v := Cut(Scan(body, key).value, size - 1);
      CStringStops(v, stale[|v| + 1..]);
    }
    text := CString(out[..]);
  }

  /** ipc_dispatch */
  method Dispatch(c: Compositor, body: bytes) returns (ghost staleToken: bytes, ghost staleId: bytes)
    requires c.Valid()
    modifies c
    ensures c.Valid()
    ensures c.View() == Performed(old(c.View()), Interpreted(body, staleToken, staleId))
  {
    staleToken, staleId := [], [];
    ghost var stale;
    var found, kind;
    found, kind, stale := Extract(body, TYPE, 128);
    if !found { return; }
    assert KindOf(body) == Some(kind);
    staleToken, staleId := DispatchKind(c, body, kind);
  }

  method DispatchKind(c: Compositor, body: bytes, kind: bytes) returns (ghost staleToken: bytes, ghost staleId: bytes)
    requires c.Valid()
    modifies c
    ensures c.Valid()
    ensures c.View() == Performed(old(c.View()), Command(kind, Extracted(body, LAUNCH_TOKEN, 63, staleToken),
                                                         Extracted(body, GAME_ID, 255, staleId)))
  {
    staleToken, staleId := [], [];
    ghost var was := c.View();
    if kind == "SetExpectedGame" {
      staleToken, staleId := DispatchExpected(c, body);
    } else if kind == "ClearExpectedGame" {
      c.HandleClearExpected();
      assert c.View() == Performed(was, Some(ClearExpectedGame));
    } else if kind == "ForceTerminateGame" {
      c.HandleForceTerminate();
      assert c.View() == Performed(was, Some(ForceTerminateGame));
    } else if kind == "ShowOverlay" {
      c.Show();
      assert c.View() == Performed(was, Some(ShowOverlay));
    } else if kind == "HideOverlay" {
      c.Hide();
      assert c.View() == Performed(was, Some(HideOverlay));
    }
  }

  method DispatchExpected(c: Compositor, body: bytes) returns (ghost staleToken: bytes, ghost staleId: bytes)
    requires c.Valid()
    modifies c
    ensures c.Valid()
    ensures c.View() == Expecting(old(c.View()), Extracted(body, LAUNCH_TOKEN, 63, staleToken),
                                  Extracted(body, GAME_ID, 255, staleId))
  {
    var found, launchToken, gameId;
    found, launchToken, staleToken := Extract(body, LAUNCH_TOKEN, 64);
    found, gameId, staleId := Extract(body, GAME_ID, 256);
    c.HandleSetExpectedGame(launchToken, gameId);
  }

  /** The readable branch of ipc_fd_handler for a packet of at least one byte: a short packet, a
      wrong magic, an overstated length or an unrecognised type changes nothing. */
  method HandlePacket(c: Compositor, packet: bytes) returns (ghost event: Option<Event>)
    requires c.Valid()
    modifies c
    ensures c.Valid() && c.View() == Performed(old(c.View()), event)
    ensures Decoded(packet).None? ==> event == None
    ensures Decoded(packet).Some? ==> exists t, i :: event == Interpreted(Decoded(packet).value, t, i)
  {
    event := None;
    if |packet| < 8 { return; }
    var magic := Load32(packet);
    var length := Load32(packet[4..]);
    if magic != MAGIC || length > MAX_BODY || |packet| < 8 + length { return; }
    var body := packet[8..8 + length];
    assert Decoded(packet) == Some(body);
    ghost var staleToken, staleId := Dispatch(c, body);
    event := Interpreted(body, staleToken, staleId);
  }

  /** A printed body is understood as the message it names, whatever members it carries. */
  lemma PrintedIsInterpreted(kind: bytes, extra: bytes, staleToken: bytes, staleId: bytes)
    requires WellPaired(kind) && NUL !in kind && |kind| < 128
    ensures var body := Body(kind, extra);
            Interpreted(body, staleToken, staleId) ==
            Command(kind, Extracted(body, LAUNCH_TOKEN, 63, staleToken), Extracted(body, GAME_ID, 255, staleId))
  {
    TypeRoundTrip(kind, extra);
  }

  // ---- Sending -----------------------------------------------------------------------------

  function StateName(fg: Foreground): bytes {
    match fg
    case ShellForeground => "SHELL_FOREGROUND"
    case GameStarting => "GAME_STARTING"
    case GameForeground => "GAME_FOREGROUND"
    case PlayosUi => "PLAYOS_UI_FOREGROUND_WITH_GAME_BACKGROUND"
    case TerminatingGame => "TERMINATING_GAME"
  }

  function Kind(m: Message): bytes {
    match m
    case StateChanged(_) => "CompositorStateChanged"
    case GameSurfaceReady(_) => "GameSurfaceReady"
  }

  /** The one member each message carries. */
  function Payload(m: Message): Field {
    match m
    case StateChanged(fg) => Field(STATE, StateName(fg))
    case GameSurfaceReady(token) => Field(LAUNCH_TOKEN, token)
  }

  /** The buffer the member is printed into, less its NUL. */
  function Room(m: Message): nat {
    match m case StateChanged(_) => 159 case GameSurfaceReady(_) => 191
  }

  function Wire(m: Message): Option<bytes> {
    Encoded(Kind(m), Cut(Member(Payload(m)), Room(m)))
  }

  /** playos_compositor_ipc_send: nothing goes out without a descriptor. */
  method Send(fd: int, m: Message) returns (frame: Option<bytes>)
    ensures frame == if fd < 0 then None else Wire(m)
  {
    if fd < 0 { return None; }
    frame := FrameSend(Kind(m), Cut(Member(Payload(m)), Room(m)));
  }

  /** A peer's reading of a packet, with the same header check and extractor. */
  function Read(packet: bytes): Option<Message> {
    if Decoded(packet).None? then None
    else
      var body := Decoded(packet).value;
      if Scan(body, TYPE) == Some("CompositorStateChanged") then
        if Scan(body, STATE).None? then None else StateNamed(Scan(body, STATE).value)
      else if Scan(body, TYPE) == Some("GameSurfaceReady") then
        if Scan(body, LAUNCH_TOKEN).None? then None
        else Some(GameSurfaceReady(Scan(body, LAUNCH_TOKEN).value))
      else None
  }

  function StateNamed(name: bytes): Option<Message> {
    if name == StateName(ShellForeground) then Some(StateChanged(ShellForeground))
    else if name == StateName(GameStarting) then Some(StateChanged(GameStarting))
    else if name == StateName(GameForeground) then Some(StateChanged(GameForeground))
    else if name == StateName(PlayosUi) then Some(StateChanged(PlayosUi))
    else if name == StateName(TerminatingGame) then Some(StateChanged(TerminatingGame))
    else None
  }
}
