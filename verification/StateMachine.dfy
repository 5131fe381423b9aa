/** The foreground and surface machine as one value and one step function: what every event handler
    of compositor.c, state_machine.c, overlay_manager.c, trusted_client.c, playos_manager.c and
    system_button.c does to the shared compositor state. `Compositor` implements it in place. */
module StateMachine {
  import opened Foundation

  type Node = nat      // a scene node (a toplevel's tree or a background rectangle)
  type Client = nat    // a connected Wayland client
  type Resource = nat  // a bound playos_overlay_v1 resource

  datatype Foreground = ShellForeground | GameStarting | GameForeground | PlayosUi | TerminatingGame

  datatype Role = Unclaimed | Shell | Overlay | Game

  datatype Track = Track(tree: Node, client: Client, role: Role)

  datatype Binding = Binding(client: Client, resource: Resource)

  /** An attempted send on compositor.sock. */
  datatype Message = StateChanged(state: Foreground) | GameSurfaceReady(token: bytes)

  datatype Visibility = AboutToShow | AboutToHide

  /** A visibility event and the overlay resource promoted at that moment; without one nothing is
      sent. */
  datatype Notice = Notice(kind: Visibility, target: Option<Resource>)

  datatype Session = Session(fg: Foreground, token: bytes, gameId: bytes, ready: bool, overlayVisible: bool)

  /** Tracked toplevels in creation order, the three designated trees, and the scene's children from
      bottom to top with their enabled flags. */
  datatype Stage = Stage(tracks: seq<Track>,
                         shellTree: Option<Node>, gameTree: Option<Node>, overlayTree: Option<Node>,
                         scene: seq<Node>, enabled: set<Node>)

  /** Role holders, the clients their destroy listeners are linked to, and overlay bindings, newest
      first. */
  datatype Trust = Trust(shellClient: Option<Client>, overlayClient: Option<Client>,
                         shellListener: Option<Client>, overlayListener: Option<Client>,
                         bindings: seq<Binding>, overlayResource: Option<Resource>)

  datatype State = State(session: Session, stage: Stage, trust: Trust,
                         sent: seq<Message>, notices: seq<Notice>)

  const INITIAL := State(Session(ShellForeground, [], [], false, false),
                         Stage([], None, None, None, [], {}),
                         Trust(None, None, None, None, [], None), [], [])

  // ---- Scene -------------------------------------------------------------------------------

  /** The scene children that remain, in order, when `dead` is taken out. */
  function Without(scene: seq<Node>, dead: set<Node>): seq<Node> {
    if scene == [] then []
    else (if scene[0] in dead then [] else [scene[0]]) + Without(scene[1..], dead)
  }

  function RaiseToTop(scene: seq<Node>, tree: Option<Node>): seq<Node> {
    match tree
    case None => scene
    case Some(n) => Without(scene, {n}) + [n]
  }

  function Restacked(stage: Stage): Stage {
    stage.(scene := RaiseToTop(RaiseToTop(RaiseToTop(stage.scene, stage.shellTree), stage.gameTree),
                               stage.overlayTree))
  }

  function SetEnabled(enabled: set<Node>, tree: Option<Node>, on: bool): set<Node> {
    match tree
    case None => enabled
    case Some(n) => if on then enabled + {n} else enabled - {n}
  }

  predicate ShellShown(u: Session) {
    u.fg == ShellForeground || u.fg == GameStarting || u.fg == TerminatingGame
  }

  predicate GameShown(u: Session) {
    u.fg == GameForeground || u.fg == PlayosUi
  }

  predicate OverlayShown(u: Session) {
    u.overlayVisible && u.fg == PlayosUi
  }

  function RefreshedStage(stage: Stage, u: Session): Stage {
    var e1 := SetEnabled(stage.enabled, stage.shellTree, ShellShown(u));
    var e2 := SetEnabled(e1, stage.gameTree, GameShown(u));
    stage.(enabled := SetEnabled(e2, stage.overlayTree, OverlayShown(u)))
  }

  function Refreshed(s: State): State {
    s.(stage := RefreshedStage(s.stage, s.session))
  }

  // ---- Foreground state --------------------------------------------------------------------

  /** A game session is under way: GAME_STARTING, GAME_FOREGROUND or the PlayOS UI over a game. */
  predicate InGame(fg: Foreground) {
    fg == GameStarting || fg == GameForeground || fg == PlayosUi
  }

  function Sent(s: State, message: Message): State {
    s.(sent := s.sent + [message])
  }

  function Told(s: State, kind: Visibility): State {
    s.(notices := s.notices + [Notice(kind, s.trust.overlayResource)])
  }

  function WithOverlay(s: State, visible: bool): State {
    s.(session := s.session.(overlayVisible := visible))
  }

  /** The overlay as a transition to `target` leaves it: taking the shell or terminating hides it. */
  function OverlayReset(s: State, target: Foreground): State {
    if target == ShellForeground || target == TerminatingGame then
      WithOverlay(if s.session.overlayVisible then Told(s, AboutToHide) else s, false)
    else s
  }

  function InForeground(s: State, target: Foreground): State {
    s.(session := s.session.(fg := target))
  }

  function Moved(s: State, target: Foreground): State {
    if s.session.fg == target then s
    else Sent(Refreshed(InForeground(OverlayReset(s, target), target)), StateChanged(target))
  }

  function Forgotten(s: State): State {
    s.(session := s.session.(token := [], gameId := [], ready := false))
  }

  function Awaiting(s: State, token: bytes, gameId: bytes): State {
    s.(session := s.session.(token := Cut(token, 63), gameId := Cut(gameId, 255), ready := false))
  }

  function Expecting(s: State, token: bytes, gameId: bytes): State {
    Moved(Awaiting(s, token, gameId), GameStarting)
  }

  function Cleared(s: State): State {
    if InGame(s.session.fg) then Moved(Forgotten(s), ShellForeground) else Forgotten(s)
  }

  function ForceTerminated(s: State): State {
    Forgotten(Moved(s, TerminatingGame))
  }

  function SurfaceReady(s: State): State {
    if s.session.ready || s.session.fg != GameStarting then s
    else
      Moved(Sent(s.(session := s.session.(ready := true)), GameSurfaceReady(s.session.token)), GameForeground)
  }

  function GameExited(s: State): State {
    Forgotten(if InGame(s.session.fg) || s.session.fg == TerminatingGame then Moved(s, ShellForeground) else s)
  }

  // ---- Overlay visibility ------------------------------------------------------------------

  function Shown(s: State): State {
    if s.session.overlayVisible then s
    else
      var v := Told(WithOverlay(s, true), AboutToShow);
      if s.session.fg == GameForeground then Moved(v, PlayosUi) else Refreshed(v)
  }

  function Hidden(s: State): State {
    if !s.session.overlayVisible then s
    else
      var v := Told(WithOverlay(s, false), AboutToHide);
      if s.session.fg == PlayosUi
      then Moved(v, if s.stage.gameTree.Some? then GameForeground else ShellForeground)
      else Refreshed(v)
  }

  // ---- Toplevels and roles -----------------------------------------------------------------

  function RoleFor(fg: Foreground, trust: Trust, client: Client): Role {
    if trust.shellClient == Some(client) then Shell
    else if trust.overlayClient == Some(client) then Overlay
    else if fg == ShellForeground then Unclaimed
    else Game
  }

  /** The tree of the oldest track whose stored role is `role`. */
  function Oldest(tracks: seq<Track>, role: Role): Option<Node> {
    if tracks == [] then None
    else if tracks[0].role == role then Some(tracks[0].tree)
    else Oldest(tracks[1..], role)
  }

  function ResolvedRoles(tracks: seq<Track>, fg: Foreground, trust: Trust): (r: seq<Track>)
    ensures |r| == |tracks|
    ensures forall i | 0 <= i < |r| :: r[i] == tracks[i].(role := RoleFor(fg, trust, tracks[i].client))
  {
    seq(|tracks|, i requires 0 <= i < |tracks| => tracks[i].(role := RoleFor(fg, trust, tracks[i].client)))
  }

  function Reassigned(s: State): seq<Track> {
    ResolvedRoles(s.stage.tracks, s.session.fg, s.trust)
  }

  /** Roles resolved again, and each designated pointer the oldest track of its role. */
  function Repointed(s: State): State {
    var tracks := Reassigned(s);
    s.(stage := s.stage.(tracks := tracks, shellTree := Oldest(tracks, Shell),
                         gameTree := Oldest(tracks, Game), overlayTree := Oldest(tracks, Overlay)))
  }

  function Raised(s: State): State {
    s.(stage := Restacked(s.stage))
  }

  function Reclassified(s: State): State {
    Refreshed(Raised(Repointed(s)))
  }

  /** The stored role of the toplevel owning `tree`. */
  function RoleOf(tracks: seq<Track>, tree: Node): Role {
    if tracks == [] then Unclaimed
    else if tracks[0].tree == tree then tracks[0].role
    else RoleOf(tracks[1..], tree)
  }

  function DropTree(tracks: seq<Track>, tree: Node): seq<Track> {
    if tracks == [] then []
    else if tracks[0].tree == tree then tracks[1..]
    else [tracks[0]] + DropTree(tracks[1..], tree)
  }

  /** A new scene tree appears on top, enabled, and is tracked. */
  function Tracked(s: State, tree: Node, client: Client): State {
    s.(stage := s.stage.(tracks := s.stage.tracks + [Track(tree, client, Unclaimed)],
                         scene := s.stage.scene + [tree],
                         enabled := s.stage.enabled + {tree}))
  }

  function ToplevelAdded(s: State, tree: Node, client: Client): State {
    Reclassified(Tracked(s, tree, client))
  }

  function Unpoint(pointer: Option<Node>, tree: Node): Option<Node> {
    if pointer == Some(tree) then None else pointer
  }

  /** The toplevel's tree has left the scene and its track the list; only the pointer for the track's
      stored role is cleared. */
  function Detached(stage: Stage, tree: Node): Stage {
    var role := RoleOf(stage.tracks, tree);
    Stage(DropTree(stage.tracks, tree),
          if role == Shell then Unpoint(stage.shellTree, tree) else stage.shellTree,
          if role == Game then Unpoint(stage.gameTree, tree) else stage.gameTree,
          if role == Overlay then Unpoint(stage.overlayTree, tree) else stage.overlayTree,
          Without(stage.scene, {tree}), stage.enabled - {tree})
  }

  function Untracked(s: State, tree: Node): State {
    s.(stage := Detached(s.stage, tree))
  }

  function ToplevelRemoved(s: State, tree: Node): State {
    Raised(if RoleOf(s.stage.tracks, tree) == Game then GameExited(Untracked(s, tree))
           else Refreshed(Untracked(s, tree)))
  }

  /** The first-frame rule: a buffer on a surface with stored role GAME. */
  function Committed(s: State, tree: Node, hasBuffer: bool): State {
    if RoleOf(s.stage.tracks, tree) == Game && hasBuffer then SurfaceReady(s) else s
  }

  /** A new output brings a background rectangle at the very bottom. */
  function OutputAdded(s: State, background: Node): State {
    s.(stage := s.stage.(scene := [background] + s.stage.scene, enabled := s.stage.enabled + {background}))
  }

  // ---- Trusted clients and overlay bindings ------------------------------------------------

  /** A claim of the shell role (`shell`) or of the overlay role; a held role is not taken over. */
  function Claimed(s: State, client: Client, shell: bool): State {
    if IsHeld(s.trust, shell) then s
    else Reclassified(if shell then HeldByShell(s, client) else HeldByOverlay(s, client))
  }

  predicate IsHeld(trust: Trust, shell: bool) {
    if shell then trust.shellClient.Some? else trust.overlayClient.Some?
  }

  function HeldByShell(s: State, client: Client): State {
    s.(trust := s.trust.(shellClient := Some(client), shellListener := Some(client)))
  }

  function HeldByOverlay(s: State, client: Client): State {
    s.(trust := s.trust.(overlayClient := Some(client), overlayListener := Some(client)))
  }

  function ShellReleased(s: State): State {
    s.(trust := s.trust.(shellClient := None, shellListener := None))
  }

  function OverlayReleased(s: State): State {
    s.(trust := s.trust.(overlayClient := None, overlayListener := None))
  }

  /** The newest binding of `client`, bindings being kept newest first. */
  function Newest(bindings: seq<Binding>, client: Client): Option<Resource> {
    if bindings == [] then None
    else if bindings[0].client == client then Some(bindings[0].resource)
    else Newest(bindings[1..], client)
  }

  function Resolved(s: State, client: Client): State {
    match Newest(s.trust.bindings, client)
    case None => s
    case Some(r) => s.(trust := s.trust.(overlayResource := Some(r)))
  }

  function OverlayClaimed(s: State, client: Client): State {
    if s.trust.overlayClient.Some? then s
    else Resolved(Claimed(s, client, false), client)
  }

  function OverlayBound(s: State, client: Client, resource: Resource): State {
    var b := s.(trust := s.trust.(bindings := [Binding(client, resource)] + s.trust.bindings));
    if s.trust.overlayClient == Some(client) then Resolved(b, client) else b
  }

  function DropResource(bindings: seq<Binding>, resource: Resource): seq<Binding> {
    if bindings == [] then []
    else if bindings[0].resource == resource then bindings[1..]
    else [bindings[0]] + DropResource(bindings[1..], resource)
  }

  function ResourceRemoved(s: State, resource: Resource): State {
    s.(trust := s.trust.(bindings := DropResource(s.trust.bindings, resource),
                         overlayResource := if s.trust.overlayResource == Some(resource) then None
                                            else s.trust.overlayResource))
  }

  function Dismissed(s: State, client: Client): State {
    if s.trust.overlayClient == Some(client) then Hidden(s) else s
  }

  // ---- Reserved buttons (linux/input-event-codes.h) ----------------------------------------

  const BTN_MODE := 0x13c
  const KEY_PROG1 := 148
  const KEY_PROG2 := 149
  const BTN_TRIGGER_HAPPY1 := 0x2c0
  const BTN_TRIGGER_HAPPY2 := 0x2c1
  const KEY_F16 := 186
  const KEY_F17 := 187

  predicate IsReserved(code: nat) {
    code == BTN_MODE || code == KEY_PROG1 || code == BTN_TRIGGER_HAPPY1 || code == KEY_F17 ||
    code == KEY_PROG2 || code == BTN_TRIGGER_HAPPY2 || code == KEY_F16
  }

  predicate IsSystem(code: nat) {
    code == BTN_MODE || code == KEY_PROG1 || code == BTN_TRIGGER_HAPPY1 || code == KEY_F17
  }

  function KeyHandled(s: State, code: nat, pressed: bool): State {
    if IsReserved(code) && pressed && IsSystem(code) then
      if s.session.fg == GameForeground then Shown(s)
      else if s.session.fg == PlayosUi then Hidden(s)
      else s
    else s
  }

  // ---- Events ------------------------------------------------------------------------------

  datatype Event =
    | SetExpectedGame(token: bytes, gameId: bytes)
    | ClearExpectedGame
    | ForceTerminateGame
    | ShowOverlay
    | HideOverlay
    | NewToplevel(tree: Node, client: Client)
    | Commit(tree: Node, hasBuffer: bool)
    | DestroyToplevel(tree: Node)
    | RegisterShell(client: Client)
    | RegisterOverlay(client: Client)
    | ShellGone
    | OverlayGone
    | BindOverlay(client: Client, resource: Resource)
    | DestroyResource(resource: Resource)
    | RequestDismiss(client: Client)
    | Key(code: nat, pressed: bool)
    | NewOutput(background: Node)

  function Step(s: State, e: Event): State {
    match e
    case SetExpectedGame(token, gameId) => Expecting(s, token, gameId)
    case ClearExpectedGame => Cleared(s)
    case ForceTerminateGame => ForceTerminated(s)
    case ShowOverlay => Shown(s)
    case HideOverlay => Hidden(s)
    case NewToplevel(tree, client) => ToplevelAdded(s, tree, client)
    case Commit(tree, hasBuffer) => Committed(s, tree, hasBuffer)
    case DestroyToplevel(tree) => ToplevelRemoved(s, tree)
    case RegisterShell(client) => Claimed(s, client, true)
    case RegisterOverlay(client) => OverlayClaimed(s, client)
    case ShellGone => ShellReleased(s)
    case OverlayGone => OverlayReleased(s)
    case BindOverlay(client, resource) => OverlayBound(s, client, resource)
    case DestroyResource(resource) => ResourceRemoved(s, resource)
    case RequestDismiss(client) => Dismissed(s, client)
    case Key(code, pressed) => KeyHandled(s, code, pressed)
    case NewOutput(background) => OutputAdded(s, background)
  }

  ghost predicate IsTracked(stage: Stage, tree: Node) {
    exists i :: 0 <= i < |stage.tracks| && stage.tracks[i].tree == tree
  }

  ghost predicate IsBound(trust: Trust, resource: Resource) {
    exists i :: 0 <= i < |trust.bindings| && trust.bindings[i].resource == resource
  }

  /** When libwayland and wlroots can deliver the event: new objects are new, listeners belong to live
      objects, and a role's destroy listener fires only while it is linked. */
  ghost predicate Possible(s: State, e: Event) {
    match e
    case NewToplevel(tree, _) => tree !in s.stage.scene
    case Commit(tree, _) => IsTracked(s.stage, tree)
    case DestroyToplevel(tree) => IsTracked(s.stage, tree)
    case ShellGone => s.trust.shellListener.Some?
    case OverlayGone => s.trust.overlayListener.Some?
    case BindOverlay(_, resource) => !IsBound(s.trust, resource)
    case DestroyResource(resource) => IsBound(s.trust, resource)
    case NewOutput(background) => background !in s.stage.scene
    case _ => true
  }

  /** The state after a run of events from start-up. */
  function After(es: seq<Event>): State {
    if es == [] then INITIAL else Step(After(es[..|es| - 1]), es[|es| - 1])
  }

  /** A run in which every event is delivered when it can be. */
  ghost predicate Legal(es: seq<Event>) {
    forall k | 0 <= k < |es| :: Possible(After(es[..k]), es[k])
  }

  ghost predicate Reachable(s: State) {
    exists es :: Legal(es) && After(es) == s
  }

  lemma Extended(es: seq<Event>, e: Event)
    requires Legal(es) && Possible(After(es), e)
    ensures Legal(es + [e]) && After(es + [e]) == Step(After(es), e)
  {
    var fs := es + [e];
    assert fs[..|es|] == es;
    forall k | 0 <= k < |fs| ensures Possible(After(fs[..k]), fs[k]) {
      assert fs[..k] == if k < |es| then es[..k] else es;
    }
  }

  lemma ReachableStep(s: State, e: Event)
    requires Reachable(s) && Possible(s, e)
    ensures Reachable(Step(s, e))
  {
    var es :| Legal(es) && After(es) == s;
    Extended(es, e);
  }

  /** A legal run split at its last event. */
  lemma LastStep(es: seq<Event>)
    requires Legal(es) && es != []
    ensures var init := es[..|es| - 1];
            && Legal(init) && Possible(After(init), es[|es| - 1])
            && After(es) == Step(After(init), es[|es| - 1])
  {
    var init := es[..|es| - 1];
    assert forall k | 0 <= k < |init| :: init[..k] == es[..k];
  }
}
