/** The connection to compositor.sock: one live socket, or one armed retry timer with exponential
    backoff. */
module LinkModel {
  import opened Foundation

  /** A timer source: absent, created or fired but not armed, or armed for some milliseconds. */
  datatype Timer = NoTimer | Idle | Armed(ms: int)

  datatype LinkState = LinkState(fd: int, source: bool, timer: Timer, delay: int)

  const FIRST := 100
  const CAP := 5000

  // ---- What the handlers do ----------------------------------------------------------------

  function Disconnected(l: LinkState): LinkState {
    l.(source := false, fd := if l.fd >= 0 then -1 else l.fd)
  }

  function Scheduled(l: LinkState): LinkState {
    if l.timer != NoTimer then l else l.(timer := Armed(l.delay))
  }

  function Lost(l: LinkState): LinkState {
    Scheduled(Disconnected(l))
  }

  /** A retry with the result of connecting: a descriptor, or a negative number. */
  function Retried(l: LinkState, fd: int): LinkState {
    if fd >= 0 then LinkState(fd, true, NoTimer, FIRST)
    else
      var doubled := if l.delay < CAP then l.delay * 2 else l.delay;
      var delay := if doubled > CAP then CAP else doubled;
      l.(delay := delay, timer := Armed(delay))
  }

  function Started(fd: int): LinkState {
    if fd >= 0 then LinkState(fd, true, NoTimer, FIRST)
    else Scheduled(LinkState(-1, false, NoTimer, FIRST))
  }

  // ---- The object --------------------------------------------------------------------------

  class Link {
    var compositorSockFd: int
    var ipcSource: bool
    var ipcReconnectTimer: Timer
    var ipcReconnectDelayMs: int

    function View(): LinkState
      reads this
    {
      LinkState(compositorSockFd, ipcSource, ipcReconnectTimer, ipcReconnectDelayMs)
    }

    /** playos_compositor_ipc_start; `fd` is what connecting gave. */
    constructor (fd: int)
      ensures View() == Started(fd)
    {
      compositorSockFd, ipcSource := -1, false;
      ipcReconnectTimer, ipcReconnectDelayMs := NoTimer, 100;
      new;
      if fd >= 0 {
        compositorSockFd := fd;
        ipcSource := true;
        return;
      }
      ScheduleReconnect();
    }

    method Disconnect()
      modifies this
      ensures View() == Disconnected(old(View()))
    {
      if ipcSource { ipcSource := false; }
      if compositorSockFd >= 0 { compositorSockFd := -1; }
    }

    method ScheduleReconnect()
      modifies this
      ensures View() == Scheduled(old(View()))
    {
      if ipcReconnectTimer != NoTimer { return; }
      ipcReconnectTimer := Idle;
      ipcReconnectTimer := Armed(ipcReconnectDelayMs);
    }

    method HandleReconnect(fd: int)
      modifies this
      ensures View() == Retried(old(View()), fd)
    {
      if fd >= 0 {
        compositorSockFd := fd;
        ipcSource := true;
        ipcReconnectDelayMs := 100;
        if ipcReconnectTimer != NoTimer { ipcReconnectTimer := NoTimer; }
      } else {
        if ipcReconnectDelayMs < 5000 { ipcReconnectDelayMs := ipcReconnectDelayMs * 2; }
        if ipcReconnectDelayMs > 5000 { ipcReconnectDelayMs := 5000; }
        ipcReconnectTimer := Armed(ipcReconnectDelayMs);
      }
    }

    /** The socket's handler up to decoding: `received` is the result of the read. A hangup, an error
        or an empty read loses the connection; only a non-empty read goes on to decoding. */
    method HandleFd(hangup: bool, readable: bool, received: int) returns (decode: bool)
      modifies this
      ensures decode <==> !hangup && readable && received > 0
      ensures View() == if hangup || (readable && received <= 0) then Lost(old(View())) else old(View())
    {
      if hangup {
        Disconnect();
        ScheduleReconnect();
        return false;
      }
      if !readable { return false; }
      if received <= 0 {
        Disconnect();
        ScheduleReconnect();
        return false;
      }
      return true;
    }

    method Stop()
      modifies this
      ensures View() == Disconnected(old(View())).(timer := NoTimer)
      ensures compositorSockFd < 0 && !ipcSource && ipcReconnectTimer == NoTimer
    {
      Disconnect();
      if ipcReconnectTimer != NoTimer { ipcReconnectTimer := NoTimer; }
    }
  }

  // ---- Runs --------------------------------------------------------------------------------

  datatype LinkEvent = Loss | Retry(fd: int) | Traffic

  /** What the link should be: up, or down after so many failed retries. */
  datatype Status = Up | Down(failures: nat)

  function Pow2(k: nat): nat {
    if k == 0 then 1 else 2 * Pow2(k - 1)
  }

  function Backoff(k: nat): nat {
    if FIRST * Pow2(k) < CAP then FIRST * Pow2(k) else CAP
  }

  function StatusAfter(fd: int, es: seq<LinkEvent>): Status {
    if es == [] then if fd >= 0 then Up else Down(0)
    else
      match es[|es| - 1]
      case Loss => Down(0)
      case Traffic => StatusAfter(fd, es[..|es| - 1])
      case Retry(got) =>
        if got >= 0 then Up
        else match StatusAfter(fd, es[..|es| - 1])
             case Up => Down(1)
             case Down(k) => Down(k + 1)
  }

  function Perform(l: LinkState, e: LinkEvent): LinkState {
    match e
    case Loss => Lost(l)
    case Retry(fd) => Retried(l, fd)
    case Traffic => l
  }

  function LinkAfter(fd: int, es: seq<LinkEvent>): LinkState {
    if es == [] then Started(fd) else Perform(LinkAfter(fd, es[..|es| - 1]), es[|es| - 1])
  }

  /** Socket events need the socket's source, retries an armed timer. */
  predicate CanHappen(l: LinkState, e: LinkEvent) {
    if e.Retry? then l.timer.Armed? else l.source
  }

  ghost predicate LegalLink(fd: int, es: seq<LinkEvent>) {
    forall k | 0 <= k < |es| :: CanHappen(LinkAfter(fd, es[..k]), es[k])
  }

  /** Exactly one of: a live descriptor with its source, no timer and the first delay; or no
      descriptor, no source and one timer armed for the backoff of the failures so far. */
  ghost predicate Matches(l: LinkState, status: Status) {
    match status
    case Up => l.fd >= 0 && l.source && l.timer == NoTimer && l.delay == FIRST
    case Down(k) => l.fd == -1 && !l.source && l.timer == Armed(Backoff(k)) && l.delay == Backoff(k)
  }

  lemma BackoffStep(k: nat)
    ensures Backoff(k + 1) == if 2 * Backoff(k) < CAP then 2 * Backoff(k) else CAP
  {
    assert Pow2(k + 1) == 2 * Pow2(k);
  }

  /** After any run the link is in the state its status asks for. */
  lemma {:induction false} LinkFollows(fd: int, es: seq<LinkEvent>)
    requires LegalLink(fd, es)
    ensures Matches(LinkAfter(fd, es), StatusAfter(fd, es))
  {
    if es == [] {
    } else {
      var init := es[..|es| - 1];
      assert forall k | 0 <= k < |init| :: init[..k] == es[..k];
      LinkFollows(fd, init);
      var status := StatusAfter(fd, init);
      if status.Down? { BackoffStep(status.failures); }
    }
  }

  /** One event reaches its handler. */
  method Deliver(l: Link, e: LinkEvent)
    requires CanHappen(l.View(), e)
    modifies l
    ensures l.View() == Perform(old(l.View()), e)
  {
    match e
    case Loss => var decode := l.HandleFd(true, false, 0);
    case Retry(fd) => l.HandleReconnect(fd);
    case Traffic => var decode := l.HandleFd(false, true, 1);
  }

  /** From the start through any legal run, the object is in the state its status asks for. */
  method Run(fd: int, es: seq<LinkEvent>) returns (l: Link)
    requires LegalLink(fd, es)
    ensures fresh(l) && l.View() == LinkAfter(fd, es) && Matches(l.View(), StatusAfter(fd, es))
  {
    l := new Link(fd);
    for i := 0 to |es|
      invariant fresh(l) && l.View() == LinkAfter(fd, es[..i])
    {
      assert es[..i + 1][..i] == es[..i];
      Deliver(l, es[i]);
    }
    assert es[..|es|] == es;
    LinkFollows(fd, es);
  }

  /** The descriptor of the last successful connection, if any. */
  function LastConnected(fd: int, es: seq<LinkEvent>): Option<int> {
    if es == [] then if fd >= 0 then Some(fd) else None
    else
      match es[|es| - 1]
      case Retry(got) => if got >= 0 then Some(got) else LastConnected(fd, es[..|es| - 1])
      case _ => LastConnected(fd, es[..|es| - 1])
  }

  /** Over every run a live descriptor is the one the last successful connection gave. */
  lemma {:induction false} LiveDescriptor(fd: int, es: seq<LinkEvent>)
    ensures LinkAfter(fd, es).fd >= 0 ==> LastConnected(fd, es) == Some(LinkAfter(fd, es).fd)
  {
    if es == [] {
    } else {
      LiveDescriptor(fd, es[..|es| - 1]);
    }
  }

  // ---- The retry schedule ------------------------------------------------------------------

  /** `n` retries in a row, all failing. */
  function Failing(l: LinkState, n: nat): LinkState {
    if n == 0 then l else Retried(Failing(l, n - 1), -1)
  }

  /** The time after which the n-th of them fires: the armed delays waited for, one after another. */
  function FiresAt(l: LinkState, n: nat): int {
    if n == 0 then 0
    else FiresAt(l, n - 1) + match Failing(l, n - 1).timer case Armed(ms) => ms case _ => 0
  }

  lemma {:induction false} FailingMatches(l: LinkState, k: nat, n: nat)
    requires Matches(l, Down(k))
    ensures Matches(Failing(l, n), Down(k + n))
  {
    if n == 0 {
    } else {
      FailingMatches(l, k, n - 1);
      BackoffStep(k + n - 1);
    }
  }

  lemma Pow2Values()
    ensures Pow2(1) == 2 && Pow2(2) == 4 && Pow2(3) == 8 && Pow2(4) == 16 && Pow2(5) == 32 && Pow2(6) == 64
  {
    assert Pow2(2) == 2 * Pow2(1);
    assert Pow2(4) == 2 * Pow2(3);
  }

  lemma {:induction false} Pow2Grows(k: nat)
    requires k >= 6
    ensures Pow2(k) >= 64
  {
    Pow2Values();
    if k > 6 { Pow2Grows(k - 1); }
  }

  /** When the n-th retry after the connection went fires: 100(2^n - 1) ms up to the sixth, and every
      5 s from then on. */
  function Elapsed(n: nat): int {
    if n <= 6 then 100 * (Pow2(n) - 1) else 6300 + 5000 * (n - 6)
  }

  /** From any point of an outage the next n retries keep to the schedule. */
  lemma {:induction false} RetrySchedule(l: LinkState, k: nat, n: nat)
    requires Matches(l, Down(k))
    ensures FiresAt(l, n) == Elapsed(k + n) - Elapsed(k)
  {
    if n == 0 {
    } else {
      RetrySchedule(l, k, n - 1);
      FailingMatches(l, k, n - 1);
      ElapsedStep(k + n - 1);
    }
  }

  lemma ElapsedStep(n: nat)
    ensures Elapsed(n + 1) == Elapsed(n) + Backoff(n)
  {
    Pow2Values();
    if n >= 6 { Pow2Grows(n); }
  }

  /** An outage begins with a loss or with a failed connection at start-up. */
  lemma OutageBegins(l: LinkState, fd: int)
    ensures Matches(l, Up) ==> Matches(Lost(l), Down(0))
    ensures fd < 0 ==> Matches(Started(fd), Down(0))
    ensures Elapsed(0) == 0
  {
  }
}
