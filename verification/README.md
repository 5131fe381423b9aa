# PlayOS compositor: verified model

The PlayOS compositor shows one of three client surfaces on a console: the shell, the running game, or
the PlayOS overlay over the game. Which one is in front follows from commands that playos-init sends
over `compositor.sock`, from what Wayland clients do (create, commit and destroy surfaces, claim
trusted roles, disconnect), from the SYSTEM button and from new outputs, in any order. This project
models that machine and proves what holds in every run of it.

The machine, from the inside out:

- `StateMachine` has the whole shared state as one value, one function per event, `Step` over all
  events, and the runs (`Legal`, `After`, `Reachable`). Two logs in the state record every attempted
  send on `compositor.sock` and every visibility event with the overlay resource it went to, if any.
- `CompositorModel` is the object with its mutable fields, track list and loops. Each handler is proved
  to perform its case of `Step` on the value of the fields. `EventLoop` puts the handlers together:
  any legal run, delivered event by event to the object, leaves it in the state `After` gives.
- `StageFacts` and `StageInvariant` prove which tree is on top, `Roles` who owns it, `Sessions` what is
  stored of the current game session, `Protocol` what the two peers are told, `Teardown` and
  `Ownership` what a disconnection does, `Buttons` what the SYSTEM button does. `Launch` proves
  progress: from every reachable state an expected game brings a game tree to the front, and says
  whose it is.
- `Json`, `JsonMeaning`, `Framing` and `Ipc` are the `compositor.sock` codec: the in-place scanning
  loops, the meaning of what they find, the frames, and the dispatch of a received packet to the
  object. `Echo` joins the codec to the machine: a launch token and the foreground state, byte for
  byte over the wire. `LinkModel` is the reconnecting connection.
- `Transport` runs the machine over that connection and `OverlayNotices` follows the events to the
  promoted overlay resource: what the two peers know when not everything reaches them.
- `GamePresence` proves when a game in front has a tree. `Requests` follows a printed request for a
  game through the codec, and `JsonBodies` gives what the extractor finds in any printed body.
- `SceneFlags` says which nodes are enabled and where new ones appear. `WireFormat` gives the protocol in
  literal bytes, and `JsonSpaces` the white space its parser allows.
- `Witnesses` and `WireWitnesses` hold inputs on which the code lacks a property listed below.
- `OutputModes` and `GpuScore` are the two selection loops.

Where the code and its documentation differ the model follows the code. README.md:34 says the
compositor does not use `compositor.sock`; src/compositor_ipc.c:291-311 connects to it. README.md:45
says `playos_overlay_v1` is not implemented; src/playos_manager.c:128-338 implements it.
src/output_modes.c:16 promises eDP > LVDS > DSI > other; the weighted sum keeps that order only
within bounds.

Properties one would like that the code does not have are proved with the condition under which it
has them:

- The launched game's own surface is in front iff no client without a role had a surface before
  (`Launch.LaunchSucceeds`); an older surface covers it otherwise (`Witnesses.StaleSurfaceCovers`).
- A state that shows a game has a game tree throughout a run iff no event loses it: a frame of a game
  surface that outlived the designated one, or a granted claim by the only client without a role that
  has a surface (`GamePresence.GameIsPresent`, `Witnesses.SurvivorStarts`, `Witnesses.RoundTripLost`).
- A new surface is taken for the game iff its client has no role and the shell is not in front
  (`Roles.NewSurfaceIsGame`), so also while a game is being terminated and none is expected
  (`Witnesses.GameWhileTerminating`).
- A launch token comes back byte for byte iff it has at most 63 bytes and no NUL (`Echo.TokenEcho`,
  `WireWitnesses.LongTokenIsCut`), and a printed token can be read back iff its backslashes are paired
  and no quote is bare (`Echo.MessageRoundTrip`); a token cut at 63 bytes may end in half an escape
  (`WireWitnesses.HalfEscape`).
- A message body determines its event iff it is not a SetExpectedGame in which one of the strings is not
  found (`Ipc.EventIsDetermined`, `WireWitnesses.BareRequestIsUndetermined`); for a printed request, iff
  each name first shows up as a name, or in a value that leaks one (`Requests.RequestIsDetermined`).
- A printed member reads back iff the first thing between two quotes that equals its name gives its
  value (`JsonBodies.FieldReadsBack`); a name used as an earlier value hides it
  (`WireWitnesses.ShadowedName`).
- The overlay is marked visible exactly in the UI state throughout a run iff the run has no accepted
  show request outside GAME_FOREGROUND and no SetExpectedGame in the UI state
  (`Protocol.VisibilityIsUi`, `Witnesses.StrayShow`).
- The overlay client knows whether it is visible throughout a run of whole deliveries iff the overlay is
  hidden whenever its resource is promoted (`OverlayNotices.OverlayKnows`); one that connects after a
  stray show does not (`Witnesses.LateOverlay`).
- The delivered messages tell the foreground state throughout a run iff it never changes while the
  connection is down (`Transport.DeliveredMirror`, `WireWitnesses.MissedChange`).
- The order in which a client's objects are destroyed never shows between whole disconnections
  (`Ownership.OrderNeverShows`). In the bare machine, whose runs may take a role's
  listener apart from the rest of its client as libwayland never does, it shows in where the last hide
  event goes, iff the client owns a game and the promoted resource while the overlay is visible outside
  the shell (`Teardown.OrderShowsIff`, `Witnesses.OrderCanShow`).
- Two SYSTEM presses over a game restore what was there iff the game's tree is designated
  (`Buttons.RoundTripNeedsGameTree`, `Witnesses.RoundTripLost`).
- A connector yields to every better kind listed after it iff its largest area is below the bound of
  its kind (`OutputModes.BoundIsExact`), and to one listed before it iff it is below a slightly larger
  bound (`OutputModes.BoundAfterIsExact`).

## Model

| member | source | states |
|---|---|---|
| CompositorModel.Compositor.constructor | src/state_machine.c:62-73 | start-up is the state every run begins in |
| CompositorModel.Compositor.Restack | src/compositor.c:53-62 | three raises in the order shell, game, overlay; nothing but the scene order changes |
| CompositorModel.Compositor.RoleForClient | src/compositor.c:69-87 | the holders of the trusted roles first; anyone else is the game unless the shell is in front |
| CompositorModel.Compositor.ResolveRoles | src/compositor.c:96-109 | the in-place loop stores every track's role and makes each pointer the first track of its role |
| CompositorModel.Compositor.ReclassifyToplevels | src/compositor.c:91-113 | the object performs exactly the recomputation that `ReclassifyIdempotent` is about, and keeps its list and scene consistent |
| CompositorModel.Compositor.Refresh | src/state_machine.c:41-60 | the three flags become those of the foreground state; nothing else changes |
| CompositorModel.Compositor.Transition | src/state_machine.c:75-109 | the transition every run lemma speaks of: overlay reset, flags, one announcement, nothing when the state stays |
| CompositorModel.Compositor.HandleSetExpectedGame | src/state_machine.c:111-126 | performs its event: both buffers cut, ready cleared, then the transition |
| CompositorModel.Compositor.HandleClearExpected | src/state_machine.c:128-140 | performs its event: forgets the expectation in every state, leaves only the three game states |
| CompositorModel.Compositor.HandleForceTerminate | src/state_machine.c:142-151 | performs its event: transition first, then forgets the expectation |
| CompositorModel.Compositor.GameSurfaceIsReady | src/state_machine.c:153-170 | performs its event: once, only in GAME_STARTING, with the stored token |
| CompositorModel.Compositor.GameHasExited | src/state_machine.c:172-189 | performs its event: back to the shell from the four other states, expectation forgotten in all |
| CompositorModel.Compositor.Show | src/overlay_manager.c:13-33 | performs its event: a no-op while marked visible, the UI only over a foreground game |
| CompositorModel.Compositor.Hide | src/overlay_manager.c:35-54 | performs its event: from the UI back to the game, or to the shell when no game tree is left |
| CompositorModel.Compositor.HandleNewToplevel | src/compositor.c:665-716 | performs its event: youngest track, topmost enabled tree, everything reclassified |
| CompositorModel.Compositor.HandleToplevelCommit | src/compositor.c:718-761 | performs its event: only a buffer on a surface stored as GAME matters |
| CompositorModel.Compositor.HandleToplevelDestroy | src/compositor.c:763-792 | performs its event: exactly this track leaves the list, its own pointer is cleared, a game's end is handled before the restack |
| CompositorModel.Compositor.HandleNewOutput | src/compositor.c:638-645 | performs its event: a new node lowered under all others |
| CompositorModel.Compositor.Claim | src/trusted_client.c:52-95 | granted iff the role is free; a grant links the listener and reclassifies, a refusal changes nothing |
| CompositorModel.Compositor.ShellClientGone | src/trusted_client.c:28-38 | performs its event: role free, listener unlinked, nothing else |
| CompositorModel.Compositor.OverlayClientGone | src/trusted_client.c:40-50 | performs its event: role free, listener unlinked, nothing else |
| CompositorModel.Compositor.HandleRegisterShell | src/playos_manager.c:62-77 | performs its event and reports whether the role was free |
| CompositorModel.Compositor.HandleRegisterOverlay | src/playos_manager.c:81-101 | performs its event: a granted claim promotes an earlier binding, a refused one does not |
| CompositorModel.Compositor.ResolveResource | src/playos_manager.c:155-170 | the list walk finds the client's newest binding, or leaves the resource as it was |
| CompositorModel.Compositor.HandleOverlayBind | src/playos_manager.c:204-239 | performs its event: every binding is remembered, the holder's is promoted |
| CompositorModel.Compositor.HandleResourceDestroy | src/playos_manager.c:190-202 | performs its event: the binding leaves the list and is promoted no longer |
| CompositorModel.Compositor.HandleRequestDismiss | src/playos_manager.c:273-286 | performs its event: heeded only from the overlay's holder |
| CompositorModel.Compositor.SendAboutToShow | src/playos_manager.c:290-295 | the event is logged with the promoted resource it goes to, or with none when there is none to send to |
| CompositorModel.Compositor.SendAboutToHide | src/playos_manager.c:297-302 | the event is logged with the promoted resource it goes to, or with none when there is none to send to |
| CompositorModel.Compositor.HandleKey | src/system_button.c:63-103 | performs its event: only presses of the four SYSTEM aliases act, by the foreground state |
| EventLoop.Deliver | src/compositor.c:697-705 | whatever a listener receives, the object performs `Step` and stays consistent |
| EventLoop.Run | src/compositor.c:666-792 | the object fed any legal run ends in the state the run lemmas describe, with the stage invariant |
| StageFacts.OldestMeaning | src/compositor.c:100-109 | a designated pointer is the first track of its role, and null iff there is none |
| StageFacts.DesignatedDistinct | src/compositor.c:96-109 | designated trees are live and pairwise distinct |
| StageFacts.RestackForm | src/compositor.c:53-62 | three raises are one stable partition: everything else in its order, then shell, game, overlay |
| StageFacts.RestackKeeps | src/compositor.c:51-62 | restacking loses and invents no node, keeps the order of undesignated ones, puts the designated on top |
| StageFacts.RestackIdle | src/compositor.c:791 | with the designated trees on top already, restacking changes nothing |
| StageFacts.RefreshFlags | src/state_machine.c:41-60 | flags of designated trees are those the state asks for; no other flag is touched |
| StageFacts.RefreshIdle | src/state_machine.c:41-60 | refreshing settled flags changes nothing |
| StageInvariant.DetachedPointers | src/compositor.c:769-778 | testing the stored role is enough: whichever pointer named the destroyed tree is cleared |
| StageInvariant.RemovedForm | src/compositor.c:763-792 | destruction keeps the stage invariant, and its final restack finds nothing to do |
| StageInvariant.StepKeepsStage | src/compositor.c:53-113 | every event keeps the stage invariant: trees in the scene once and above backgrounds, canonical pointers, designated trees on top, flags as the state asks, UI implies overlay visible |
| StageInvariant.ReachableStage | src/compositor.c:763-792 | that invariant holds in every reachable state |
| StageInvariant.ReclassifyIdempotent | src/compositor.c:91-113 | reclassifying twice is reclassifying once: roles, pointers, order, flags |
| StageInvariant.ForegroundOnTop | src/state_machine.c:41-60 | the tree the foreground state names, when there is one, is enabled with no enabled toplevel above it |
| StageInvariant.ZOrder | src/compositor.c:51-62 | bottom to top: backgrounds, undesignated toplevels, then exactly shell, game, overlay |
| SceneFlags.FlagsByState | src/state_machine.c:44-59 | the flags of the three designated trees, written out state by state |
| SceneFlags.NewTreeOnTop | src/compositor.c:677-707 | a new tree is the topmost of the undesignated ones and enabled unless designated; no other undesignated flag changes |
| SceneFlags.NewBackground | src/compositor.c:638-645 | a new background is the lowest node and enabled; nothing else moves or changes its flag |
| SceneFlags.BackgroundStep | src/compositor.c:638-645 | no event but a new output makes a background, and none removes or disables one |
| SceneFlags.BackgroundsAlwaysShown | src/compositor.c:638 | over every run the nodes that are no toplevels are exactly those the outputs brought, and all are enabled |
| Roles.RunKeepsRoles | src/compositor.c:89-113 | in every run the stored roles agree with the role holders |
| Roles.TreeOwners | src/compositor.c:64-87 | the shell and overlay trees belong to the holder or the role is vacant; the game tree to a client without a role |
| Roles.ClaimDesignates | src/trusted_client.c:89-92 | a granted claim designates the claimant's oldest toplevel, even one already taken for the game; an overlay claim granted to the shell's holder designates nothing |
| Roles.NoGameInShell | src/compositor.c:64-68 | while the shell is in front, a new surface leaves no game designated |
| Roles.NewSurfaceIsGame | src/compositor.c:73-86 | a new surface is stored as GAME iff its client has no role and the shell is not in front, expected or not |
| Roles.RolesResolved | src/compositor.c:69-101 | every reclassification stores SHELL for the shell's holder alone, OVERLAY for the overlay's holder unless it is the shell, GAME for a client with neither role outside SHELL_FOREGROUND, and nothing otherwise |
| Roles.OnlyRolesChange | src/compositor.c:100-109 | resolving roles keeps every track, its tree, its client and its place |
| Roles.TrustedWasGranted | src/compositor.c:64-87 | over every run a toplevel is stored SHELL or OVERLAY only if its client was granted that role earlier in the run |
| Sessions.EndStep | src/state_machine.c:128-151 | clearing, terminating and a game toplevel's end forget the expectation and leave every game state |
| Sessions.QuietStep | src/state_machine.c:153-170 | all other events but SetExpectedGame keep token and id and make only the four quiet moves |
| Sessions.SessionHistory | src/state_machine.c:111-189 | over every run: the stored token and id are the cut ones of the SetExpectedGame still current; without one they are empty and no game is in front; outside the shell ready means GAME_FOREGROUND or UI |
| Sessions.GameNeedsExpectation | src/state_machine.c:111-140 | a game state means some SetExpectedGame is still current |
| Protocol.StepReports | src/state_machine.c:75-109 | each event moves along the state graph at most once and announces exactly that change to both peers |
| Protocol.PeerMirrors | src/state_machine.c:97-108 | over every run a peer that applies each state message holds the foreground state; messages follow edges, consecutive states differ, GameSurfaceReady stands only between the two it belongs to |
| Protocol.LeavingTermination | src/state_machine.c:128-151 | TERMINATING_GAME is left iff a game toplevel is destroyed or SetExpectedGame arrives |
| Protocol.ForegroundFollowsTable | src/state_machine.c:75-189 | in every run each event moves the foreground as one table of causes says, independent of the handlers' structure |
| Protocol.ReadyNeedsFirstFrame | src/compositor.c:755-760 | GameSurfaceReady is sent iff a buffer is committed on a GAME surface in GAME_STARTING |
| Protocol.ReadyCarriesToken | src/state_machine.c:153-167 | every GameSurfaceReady carries the token of the current SetExpectedGame |
| Protocol.ReadyOncePerExpectation | src/state_machine.c:156-161 | between two GameSurfaceReady sends there is a SetExpectedGame |
| Protocol.NoticesAlternate | src/overlay_manager.c:13-54 | over every run show and hide events alternate from a show on, and the last one tells whether the overlay is visible |
| Protocol.VisibilityIsUi | src/overlay_manager.c:27-32 | visible exactly in the UI state throughout a run iff the run has no stray event |
| Protocol.EntryHidesOverlay | src/state_machine.c:82-95 | a move into the shell or termination leaves the overlay hidden |
| Launch.SurfaceIsGame | src/compositor.c:64-109 | with a game expected, a surface of a client without a role is stored as GAME and the oldest such surface is designated |
| Launch.GameIsUnprivileged | src/compositor.c:73-108 | whenever roles are resolved outside the shell, the designated game is the oldest surface of any client without a role |
| Launch.LaunchSucceeds | src/compositor.c:755-760 | from every reachable state, SetExpectedGame, a surface of an unprivileged client and its first buffer end with the oldest such surface on top and the token sent back just before the announcement; it is the launched surface iff there was no other |
| GamePresence.StepKeepsGame | src/compositor.c:91-113 | one step leaves a state that shows a game without a game tree exactly when it is one of the two losing kinds |
| GamePresence.GameIsPresent | src/state_machine.c:153-170 | over every run: a state that shows a game always has a game tree iff no event of the run loses it |
| GamePresence.GameIsSeen | src/state_machine.c:49-58 | in such a run GAME_FOREGROUND has the game's tree on top |
| Witnesses.SurvivorStarts | src/compositor.c:755-760 | a second game surface outlives the designated one and its next buffer starts a game without a tree |
| Witnesses.OrderCanShow | src/trusted_client.c:40-50 | a reachable state of the bare machine in which the order of a teardown shows |
| Witnesses.StaleSurfaceCovers | src/compositor.c:100-109 | a surface made before the launch by another client without a role covers the launched game |
| Witnesses.GameWhileTerminating | src/compositor.c:78-83 | with the expectation forgotten in TERMINATING_GAME a new surface is designated as the game |
| Witnesses.RoundTripLost | src/trusted_client.c:89-92 | the game's client claims the shell role: GAME_FOREGROUND is reachable without a game tree, and two presses end in the shell |
| Witnesses.StrayShow | src/overlay_manager.c:30-32 | a ShowOverlay in the shell leaves the overlay visible outside the UI |
| Witnesses.LateOverlay | src/playos_manager.c:155-170 | an overlay that registers after such a show is promoted and not told |
| Teardown.RunKeepsTrust | src/trusted_client.c:76-87 | over every run a role's destroy listener is linked to exactly the client that holds the role, and bindings are distinct |
| Teardown.HolderStep | src/trusted_client.c:28-95 | a holder changes only by a granted claim or its own disconnection |
| Teardown.HolderStays | src/trusted_client.c:57-74 | a granted claim lasts until that holder's disconnection |
| Teardown.ClaimsAreSeparated | src/trusted_client.c:24-74 | between two granted claims of one role the first holder disconnects |
| Teardown.DestroyStep | src/compositor.c:763-792 | destroying any one thing of a client brings the outcome of its teardown neither nearer nor further |
| Teardown.TeardownOutcome | src/trusted_client.c:24-50 | every complete teardown of a client, in any order, ends in one state given in closed form but for where the overlay's last event went, and keeps the invariants |
| Teardown.TeardownOrderIrrelevant | src/trusted_client.c:24-50 | two orders of teardown agree on everything but that event's target, and on that too unless a visible overlay's resource dies with a game's client |
| Teardown.OrderShowsIff | src/playos_manager.c:297-302 | in exactly that case some two orders leave different logs |
| Teardown.DisconnectionEndsOnlyItsGame | src/state_machine.c:172-189 | a disconnection resets the session iff the client owned a GAME surface; otherwise session, visibility and both logs stand |
| Teardown.TeardownExists | src/compositor.c:763-792 | whatever a client owns can be torn down completely by possible events |
| Ownership.NewestIsPromoted | src/playos_manager.c:88-98 | a granted overlay claim promotes the claimant's newest binding, the holder's new binding is promoted at once |
| Ownership.NewestMeaning | src/playos_manager.c:161-168 | the newest binding of a client is the first of its bindings in the list, and absent iff there is none |
| Ownership.OverlayResourceOwned | src/playos_manager.c:190-239 | with disconnections as whole deliveries, the overlay resource is null or the newest binding of the current holder |
| Ownership.DeliveredReachable | src/playos_manager.c:142-153 | states between deliveries are reachable ones, so every run property holds of them |
| Ownership.TrustedCrash | src/trusted_client.c:24-50 | from every reachable state the disconnection of a role's holder leaves session, visibility and both logs as they were |
| Ownership.OrderNeverShows | src/playos_manager.c:190-239 | after whole deliveries no two orders of a client's teardown can be told apart, targets included |
| OverlayNotices.BeliefStep | src/playos_manager.c:290-302 | each change of visibility is told to the promoted resource and to no other |
| OverlayNotices.DeliveryReports | src/playos_manager.c:290-302 | each whole delivery tells the resource promoted before it of a change of visibility, disconnections included |
| OverlayNotices.PromotedUntold | src/playos_manager.c:155-170 | a resource is promoted at most once per binding: at its promotion nothing has been told it, so its client knows the visibility iff the overlay is hidden |
| OverlayNotices.OverlayKnows | src/state_machine.c:87-95 | over every run of deliveries: the holder of the promoted resource always knows the overlay's visibility iff the overlay is hidden just before each promotion of it |
| OverlayNotices.FirstPromotion | src/playos_manager.c:204-239 | a resource promoted for the first time is in step iff the overlay is hidden at that moment |
| Buttons.ButtonParity | src/system_button.c:63-98 | n SYSTEM presses among any other keys: game in front with order and flags restored for even n, UI for odd n; the logs grow by exactly n alternating announcements and n alternating show and hide events |
| Buttons.RoundTripNeedsGameTree | src/overlay_manager.c:46-50 | two presses restore everything iff the game tree is designated; without it they end in the shell with the expectation kept |
| Buttons.KeyEffect | src/system_button.c:46-98 | by code: presses of 316, 148, 704 and 187 toggle the overlay over a game, everything else leaves the state as it was |
| Json.FindClose | src/compositor_ipc.c:81-88 | the pointer loop stops at the closing quote the recursive reading gives, or at the end, never beyond |
| Json.GetString | src/compositor_ipc.c:50-100 | 0 iff the scan finds a value; then the buffer holds it cut, a NUL, and its old rest; else it is untouched; all accesses in bounds |
| JsonMeaning.CloseMeaning | src/compositor_ipc.c:82-88 | the closing quote found is the only one after a slice with paired backslashes and no bare quote |
| JsonMeaning.ScanMeaning | src/compositor_ipc.c:61-95 | a value is found iff at the key's first quoted occurrence optional space, colon, optional space and a terminated string with that value follow |
| JsonMeaning.ExtractedIsWellPaired | src/compositor_ipc.c:81-95 | an extracted value can be printed between quotes again as it is |
| JsonSpaces.SpacedMember | src/compositor_ipc.c:69-80 | blank, tab, carriage return and line feed around the colon are skipped; any other byte there makes the extraction fail |
| JsonMeaning.ScanSegments | src/compositor_ipc.c:61-98 | the scan decides on the first text between quotes that equals the key, be it a name, a value or punctuation |
| JsonMeaning.FieldRoundTrip | src/compositor_ipc.c:111-116 | any printed member list: a member reads back if its name has not stood between quotes before |
| JsonBodies.ScanValue | src/compositor_ipc.c:61-98 | the scan passes a value with escaped quotes unless the key is one of its pieces, and then finds nothing, or what follows if the last piece is a bare colon |
| JsonBodies.BodyMeaning | src/compositor_ipc.c:61-99 | for every key the scan of a printed body yields exactly what the body holds under it, header, punctuation and pieces of earlier values included |
| JsonBodies.FieldReadsBack | src/compositor_ipc.c:61-99 | whatever a printed member is named, it reads back iff the first thing between two quotes that equals its name gives its value |
| JsonMeaning.MissingField | src/compositor_ipc.c:61-99 | a key that stands nowhere between quotes of a printed body is not found |
| JsonMeaning.TypeRoundTrip | src/compositor_ipc.c:111-116 | the type of a printed body reads back whatever follows it |
| Framing.Le32Store | src/compositor_ipc.c:39-46 | exactly four bytes are overwritten, with the little-endian digits |
| Framing.LoadStored | src/compositor_ipc.c:30-46 | loading undoes storing on all 32-bit values |
| Framing.StoreLoaded | src/compositor_ipc.c:30-46 | storing undoes loading on all four-byte strings |
| Framing.FrameSend | src/compositor_ipc.c:104-124 | the bytes handed to the socket are magic, length and body, or nothing when the body is too long |
| Framing.DecodedMeaning | src/compositor_ipc.c:271-285 | a packet is accepted with a body iff that body's frame is a prefix of it |
| Framing.FrameRoundTrip | src/compositor_ipc.c:104-124 | every frame that is sent is accepted and yields the printed body |
| WireFormat.FrameBytes | src/compositor_ipc.c:121-122 | a frame begins with the letters SOLP and the length from its lowest byte up, and ends with the body |
| WireFormat.SentBytes | src/compositor_ipc.c:111-124 | that frame is what is sent, unless the body has 65536 bytes or more |
| WireFormat.AcceptedBytes | src/compositor_ipc.c:271-285 | acceptance and body of a received packet in terms of its bytes |
| WireFormat.StateBodies | src/state_machine.c:15-31 | the body sent for each of the five states, word by word |
| WireFormat.ReadyBody | src/state_machine.c:163-167 | the body sent for GameSurfaceReady, word by word |
| WireFormat.CommandMeaning | src/compositor_ipc.c:144-166 | a body means the command whose word its type is, and nothing for any other type or none |
| WireFormat.RequestStrings | src/compositor_ipc.c:149-155 | a SetExpectedGame takes at most 63 bytes of launch_token and 255 of game_id, and the stale buffer for one it does not find |
| WireFormat.PrintedCommand | src/compositor_ipc.c:144-166 | a printed body does what its type says, whatever follows the type |
| WireFormat.SpacedKind | src/compositor_ipc.c:70-76 | white space around the colon is no obstacle to a command |
| WireFormat.Receive | src/compositor_ipc.c:149-166 | what a packet with a printed body does to the object, command by command |
| WireFormat.ShowPacket | src/compositor_ipc.c:160-161 | a ShowOverlay packet over a foreground game brings the UI up |
| Ipc.Extract | src/compositor_ipc.c:152-154 | the C string left in a fresh buffer: the cut value, or what was there before when extraction fails |
| Ipc.Dispatch | src/compositor_ipc.c:139-167 | the object performs the event the body stands for, and nothing when the type is missing or unknown |
| Ipc.HandlePacket | src/compositor_ipc.c:271-286 | a short, foreign or overlong packet changes nothing; any other has the effect of its body |
| Ipc.PrintedIsInterpreted | src/compositor_ipc.c:144-166 | a printed body is dispatched by the type it was printed with |
| Ipc.EventIsDetermined | src/compositor_ipc.c:149-155 | a body determines its event whatever the stack held iff it is not a SetExpectedGame in which one of its strings is not found |
| Requests.RequestIsDetermined | src/compositor_ipc.c:149-155 | a printed request determines its event iff its members provide both names, first shown as names or leaked by a value |
| Ipc.Send | src/compositor_ipc.c:323-330 | nothing goes out without a descriptor, otherwise the message's frame |
| Echo.MessageRoundTrip | src/state_machine.c:106-108 | a peer reads a state message back always, and GameSurfaceReady iff the token is well paired |
| Echo.TokenEcho | src/state_machine.c:153-167 | the raw token of an accepted SetExpectedGame packet returns in its session's GameSurfaceReady packet iff it has at most 63 bytes and no NUL |
| Echo.TokensFit | src/state_machine.c:116-117 | over every run the stored and sent tokens fit their buffers |
| Echo.WireMirrors | src/state_machine.c:97-108 | over every run a peer that decodes the bytes of every attempted send holds the foreground state |
| Requests.TokenCanBeAsked | src/compositor_ipc.c:149-155 | for any token a peer can print, escapes included, there is a packet and a run that ask for it, and it comes back iff it fits |
| WireWitnesses.LongTokenIsCut | src/state_machine.c:116-117 | a token of 64 bytes that is accepted and does not come back |
| WireWitnesses.HalfEscape | src/state_machine.c:163-165 | a token cut between two backslashes is sent back in a form that does not read as it was sent |
| WireWitnesses.ShadowedName | src/compositor_ipc.c:66-73 | a request that carries both strings and whose token is not found, because its name is an earlier value |
| WireWitnesses.BareRequestIsUndetermined | src/compositor_ipc.c:150-155 | a SetExpectedGame without members is read differently from different stacks |
| WireWitnesses.MissedChange | src/compositor_ipc.c:208-224 | after a loss, a change and a reconnect a connected peer holds the wrong state |
| Transport.PeerHoldsLastSeen | src/compositor_ipc.c:323-330 | a peer that sees only delivered messages holds the state after the last change made while connected |
| Transport.DeliveredBytes | src/compositor_ipc.c:104-135 | a peer that decodes the bytes of every packet handed to a live socket holds that state |
| Transport.DeliveredMirror | src/compositor_ipc.c:208-224 | the delivered mirror is right throughout a run iff no change is made while the connection is down |
| LinkModel.Link.constructor | src/compositor_ipc.c:291-311 | connected with its source, or one timer armed for the first delay |
| LinkModel.Link.Disconnect | src/compositor_ipc.c:195-206 | no source and no descriptor; timer and delay stay |
| LinkModel.Link.ScheduleReconnect | src/compositor_ipc.c:236-249 | an existing timer is left alone, otherwise one is armed for the current delay |
| LinkModel.Link.HandleReconnect | src/compositor_ipc.c:208-234 | success resets the delay and removes the timer, failure doubles up to the cap and re-arms |
| LinkModel.Link.HandleFd | src/compositor_ipc.c:251-270 | a hangup or an empty read loses the connection; only a non-empty read is decoded |
| LinkModel.Link.Stop | src/compositor_ipc.c:313-321 | neither descriptor, source nor timer is left |
| LinkModel.LinkFollows | src/compositor_ipc.c:195-249 | after every run exactly one of a live socket without timer, at the first delay, or one timer armed for min(100·2^k, 5000) after k failures |
| LinkModel.LiveDescriptor | src/compositor_ipc.c:214-218 | over every run a live descriptor is the one the last successful connection gave |
| LinkModel.Run | src/compositor_ipc.c:208-321 | the object fed any legal run of losses, retries and traffic is in the state its status asks for |
| LinkModel.RetrySchedule | src/compositor_ipc.c:225-231 | from any point of an outage the retries fire 100(2^n - 1) ms after its start up to the sixth, then every 5 s |
| LinkModel.OutageBegins | src/compositor_ipc.c:291-310 | an outage begins with a loss or with a failed connection at start-up |
| OutputModes.BestMode | src/output_modes.c:82-93 | the first mode of the largest area |
| OutputModes.BestConnector | src/output_modes.c:55-103 | the first usable connector of the highest score with its first largest mode; -1 iff none is usable |
| OutputModes.Select | src/output_modes.c:43-139 | the configuration of that choice, its name and valid flag included; failure, with a cleared configuration, iff none is usable or the second reading has lost the mode |
| OutputModes.ConfigMeaning | src/output_modes.c:119-127 | each field of the configuration in terms of the chosen mode and connector, the name as word, dash and decimal number |
| OutputModes.DecimalCounts | src/output_modes.c:125-127 | the number in the name has the identifier's value and no leading zero |
| OutputModes.OrderHolds | src/output_modes.c:72-94 | with areas within the bounds the chosen connector is of the best kind present |
| OutputModes.BoundIsExact | src/output_modes.c:14-16 | a connector yields to every better kind listed after it iff it keeps its bound |
| OutputModes.BoundAfterIsExact | src/output_modes.c:96-100 | to every better kind listed before it iff it keeps a bound larger by one step of the bonus |
| GpuScore.ScoreIsLexicographic | src/gpu_score.c:3-23 | the sum orders candidates as (output, vendor) pairs, equal sums only for equal ranks |
| GpuScore.Preferences | src/gpu_score.c:8-20 | eDP before connected before none, then vendor 0x1002 before 0x8086 before the rest |
| GpuScore.SelectIndex | src/gpu_score.c:25-42 | the first candidate that no other beats; -1 iff there is none |

## Left out

- wlroots, libwayland, DRM, EGL and GBM calls, backend start-up and fallback: foreign calls without a contract here.
- Diagnostics, logging, the readiness file, frame and presentation counters, signals, the main program, the sample client and the generated protocol code: I/O, or easy members.
- Failing allocations and failing creation of scene nodes, tracks, globals or event sources: those branches return before any modelled state changes.
- The socket itself: the state logs sends as attempts, `Transport` drops them while there is no descriptor, failing and short sends on a live one are not modelled, and the result of connecting or reading is a parameter.
- The output_info events sent beside the overlay's visibility events.
- A tree's enabled flag is the value this code last wrote; wlroots' own writes when a surface maps or unmaps are not modelled, and a new tree starts enabled.
- The scene tree of a destroyed toplevel is taken out before the compositor's listener runs; wlroots and the compositor listen to the same signal.
- `set_surface`, `surface_ready` and the configure size sent on the first commit change none of the modelled state.
- Failed extractions of the token or the id are ignored, as in the code: the buffer then holds arbitrary bytes, and a missing NUL is not followed beyond the buffer.
- Shifts and masks of the little-endian helpers are written as division and remainder.
- The handlers of the compositor object require only that list and scene are consistent; the run invariants are proved of reachable states and reach the object through `EventLoop.Run`.
- An int overflow of `vrefresh * 1000`. `OutputModes.Select` asks that areas fit an int, which the code's own products need.
