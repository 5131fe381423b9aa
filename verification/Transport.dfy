/** The compositor and its connection together: messages go out only while there is a descriptor, and
    nothing is sent again after a reconnect. */
module Transport {
  import opened StateMachine
  import opened Protocol
  import opened LinkModel
  import opened Echo

  datatype Incident = Machine(event: Event) | Connection(change: LinkEvent)

  /** `delivered` is what was handed to a live socket. */
  datatype Joint = Joint(state: State, link: LinkState, delivered: seq<Message>)

  predicate IsUp(j: Joint) {
    j.link.fd >= 0
  }

  function JointStep(j: Joint, i: Incident): Joint {
    match i
    case Connection(change) => j.(link := Perform(j.link, change))
    case Machine(e) =>
      var t := Step(j.state, e);
      Joint(t, j.link, j.delivered + if IsUp(j) then Added(j.state.sent, t.sent) else [])
  }

  function JointAfter(fd: int, run: seq<Incident>): Joint {
    if run == [] then Joint(INITIAL, Started(fd), [])
    else JointStep(JointAfter(fd, run[..|run| - 1]), run[|run| - 1])
  }

  predicate Mirrors(j: Joint) {
    Peer(j.delivered) == j.state.session.fg
  }

  predicate ChangesForeground(j: Joint, i: Incident) {
    i.Machine? && Step(j.state, i.event).session.fg != j.state.session.fg
  }

  lemma PeerAnnounced(log: seq<Message>, u: Session, v: Session)
    ensures Peer(log + Announced(u, v)) == if u.fg == v.fg then Peer(log) else v.fg
  {
    var r := log + Announced(u, v);
    if u.fg == v.fg {
      assert r == log;
    } else {
      assert r[|r| - 1] == StateChanged(v.fg);
    }
  }

  /** The peer's belief changes exactly with the foreground changes made while connected. */
  lemma BeliefStep(j: Joint, i: Incident)
    ensures Peer(JointStep(j, i).delivered) ==
            if IsUp(j) && ChangesForeground(j, i) then JointStep(j, i).state.session.fg else Peer(j.delivered)
  {
    if i.Machine? {
      var s, t := j.state, Step(j.state, i.event);
      StepReports(s, i.event);
      assert Added(s.sent, t.sent) == Announced(s.session, t.session);
      PeerAnnounced(j.delivered, s.session, t.session);
      assert j.delivered + [] == j.delivered;
    }
  }

  /** The foreground state after the last change made while connected. */
  function LastSeen(fd: int, run: seq<Incident>): Foreground {
    if run == [] then ShellForeground
    else
      var j, i := JointAfter(fd, run[..|run| - 1]), run[|run| - 1];
      if IsUp(j) && ChangesForeground(j, i) then JointStep(j, i).state.session.fg
      else LastSeen(fd, run[..|run| - 1])
  }

  /** What a peer that sees only what was delivered believes, at any time. */
  lemma {:induction false} PeerHoldsLastSeen(fd: int, run: seq<Incident>)
    ensures Peer(JointAfter(fd, run).delivered) == LastSeen(fd, run)
    ensures Mirrors(JointAfter(fd, run)) <==> JointAfter(fd, run).state.session.fg == LastSeen(fd, run)
  {
    if run == [] {
    } else {
      PeerHoldsLastSeen(fd, run[..|run| - 1]);
      BeliefStep(JointAfter(fd, run[..|run| - 1]), run[|run| - 1]);
    }
  }

  // ---- On the wire -------------------------------------------------------------------------

  /** What the machine itself went through. */
  function Events(run: seq<Incident>): seq<Event> {
    if run == [] then []
    else
      var init := Events(run[..|run| - 1]);
      match run[|run| - 1]
      case Connection(_) => init
      case Machine(e) => init + [e]
  }

  lemma {:induction false} MachineRuns(fd: int, run: seq<Incident>)
    ensures JointAfter(fd, run).state == After(Events(run))
  {
    if run == [] {
    } else {
      var init := Events(run[..|run| - 1]);
      MachineRuns(fd, run[..|run| - 1]);
      match run[|run| - 1]
      case Connection(_) =>
      case Machine(e) => assert (init + [e])[..|init|] == init;
    }
  }

  ghost predicate TokensShort(log: seq<Message>) {
    forall i | 0 <= i < |log| :: log[i].GameSurfaceReady? ==> |log[i].token| <= 63
  }

  lemma {:induction false} DeliveredFits(fd: int, run: seq<Incident>)
    ensures TokensShort(JointAfter(fd, run).delivered)
  {
    if run == [] {
    } else {
      var init := run[..|run| - 1];
      DeliveredFits(fd, init);
      MachineRuns(fd, run);
      TokensFit(Events(run));
      NewlyDelivered(JointAfter(fd, init), run[|run| - 1]);
    }
  }

  lemma NewlyDelivered(j: Joint, i: Incident)
    requires TokensShort(j.delivered) && TokensShort(JointStep(j, i).state.sent)
    ensures TokensShort(JointStep(j, i).delivered)
  {
  }

  /** A peer that decodes the bytes of every packet handed to a live socket believes the state after
      the last change made while connected. */
  lemma DeliveredBytes(fd: int, run: seq<Incident>)
    ensures WirePeer(OnWire(JointAfter(fd, run).delivered)) == LastSeen(fd, run)
  {
    DeliveredFits(fd, run);
    WirePeerIsPeer(JointAfter(fd, run).delivered);
    PeerHoldsLastSeen(fd, run);
  }

  // ---- Throughout a run --------------------------------------------------------------------

  /** If event `k` changes the foreground, the peer is told. */
  ghost predicate SeenAt(fd: int, run: seq<Incident>, k: nat)
    requires k < |run|
  {
    ChangesForeground(JointAfter(fd, run[..k]), run[k]) ==> IsUp(JointAfter(fd, run[..k]))
  }

  ghost predicate MirrorsAt(fd: int, run: seq<Incident>, n: nat)
    requires n <= |run|
  {
    Mirrors(JointAfter(fd, run[..n]))
  }

  ghost predicate AlwaysMirrors(fd: int, run: seq<Incident>) {
    forall n | 0 <= n <= |run| :: MirrorsAt(fd, run, n)
  }

  ghost predicate AlwaysSeen(fd: int, run: seq<Incident>) {
    forall k | 0 <= k < |run| :: SeenAt(fd, run, k)
  }

  lemma SamePrefix(fd: int, run: seq<Incident>, n: nat)
    requires n < |run|
    ensures var init := run[..|run| - 1];
            && MirrorsAt(fd, init, n) == MirrorsAt(fd, run, n)
            && (n < |init| ==> SeenAt(fd, init, n) == SeenAt(fd, run, n))
  {
    assert run[..|run| - 1][..n] == run[..n];
  }

  lemma AlwaysMirrorsLast(fd: int, run: seq<Incident>)
    requires run != []
    ensures AlwaysMirrors(fd, run) <==> AlwaysMirrors(fd, run[..|run| - 1]) && MirrorsAt(fd, run, |run|)
  {
    var init := run[..|run| - 1];
    if AlwaysMirrors(fd, run) {
      forall n | 0 <= n <= |init| ensures MirrorsAt(fd, init, n) { SamePrefix(fd, run, n); }
    } else {
      var n :| 0 <= n <= |run| && !MirrorsAt(fd, run, n);
      if n < |run| { SamePrefix(fd, run, n); }
    }
  }

  lemma SeenInPrefix(fd: int, run: seq<Incident>)
    requires run != [] && AlwaysSeen(fd, run)
    ensures AlwaysSeen(fd, run[..|run| - 1]) && SeenAt(fd, run, |run| - 1)
  {
    var init := run[..|run| - 1];
    forall k | 0 <= k < |init| ensures SeenAt(fd, init, k) { SamePrefix(fd, run, k); }
  }

  lemma SeenExtends(fd: int, run: seq<Incident>)
    requires run != [] && AlwaysSeen(fd, run[..|run| - 1]) && SeenAt(fd, run, |run| - 1)
    ensures AlwaysSeen(fd, run)
  {
    forall k | 0 <= k < |run| ensures SeenAt(fd, run, k) {
      if k < |run| - 1 { SamePrefix(fd, run, k); }
    }
  }

  /** The delivered messages tell the foreground state throughout a run iff it never changes while
      the connection is down. */
  lemma {:induction false} DeliveredMirror(fd: int, run: seq<Incident>)
    ensures AlwaysMirrors(fd, run) <==> AlwaysSeen(fd, run)
  {
    if run == [] {
      assert forall n | 0 <= n <= |run| :: run[..n] == [];
    } else {
      var init := run[..|run| - 1];
      DeliveredMirror(fd, init);
      AlwaysMirrorsLast(fd, run);
      if AlwaysSeen(fd, run) { SeenInPrefix(fd, run); }
      if AlwaysSeen(fd, init) && SeenAt(fd, run, |run| - 1) { SeenExtends(fd, run); }
      assert run[..|run|] == run && init[..|init|] == init;
      if AlwaysMirrors(fd, init) {
        assert MirrorsAt(fd, init, |init|);
        BeliefStep(JointAfter(fd, init), run[|run| - 1]);
      }
    }
  }
}
