/** From a received SetExpectedGame to the GameSurfaceReady that answers it, byte for byte, and the
    state mirror as a peer reads it off the wire. */
module Echo {
  import opened Foundation
  import opened StateMachine
  import opened Sessions
  import opened Protocol
  import opened Json
  import opened JsonMeaning
  import opened Framing
  import opened Ipc

  lemma UiNamePlain()
    ensures QuoteFree(StateName(PlayosUi)) && '\\' !in StateName(PlayosUi) && |StateName(PlayosUi)| == 41
  {
  }

  lemma ShortNamesPlain(fg: Foreground)
    requires fg != PlayosUi
    ensures QuoteFree(StateName(fg)) && '\\' !in StateName(fg) && |StateName(fg)| <= 16
  {
  }

  lemma StateNamesPlain(fg: Foreground)
    ensures QuoteFree(StateName(fg)) && WellPaired(StateName(fg)) && |StateName(fg)| <= 41
  {
    if fg == PlayosUi { UiNamePlain(); } else { ShortNamesPlain(fg); }
    PlainIsWellPaired(StateName(fg));
  }

  lemma StateNamesDistinct(fg: Foreground)
    ensures StateNamed(StateName(fg)) == Some(StateChanged(fg))
  {
    assert StateName(ShellForeground)[0] == 'S' && StateName(TerminatingGame)[0] == 'T';
  }

  lemma {:induction false} PlainIsWellPaired(s: bytes)
    requires QuoteFree(s) && '\\' !in s
    ensures WellPaired(s)
  {
    if s == [] {
    } else {
      PlainIsWellPaired(s[1..]);
    }
  }

  lemma KindPlain(m: Message)
    ensures QuoteFree(Kind(m)) && WellPaired(Kind(m))
  {
    PlainIsWellPaired(Kind(m));
  }

  /** The member's text fits its buffer, and the frame always fits the socket buffer. */
  lemma WireForm(m: Message)
    requires m.GameSurfaceReady? ==> |m.token| <= 63
    ensures Wire(m).Some? && Decoded(Wire(m).value) == Some(Body(Kind(m), Member(Payload(m))))
  {
    if m.StateChanged? { StateNamesPlain(m.state); }
    FrameRoundTrip(Kind(m), Member(Payload(m)));
  }

  lemma MemberName(m: Message)
    ensures QuoteFree(Payload(m).name) && |Payload(m).name| in {5, 12}
  {
    match m
    case StateChanged(_) => assert Payload(m).name == STATE;
    case GameSurfaceReady(_) => assert Payload(m).name == LAUNCH_TOKEN;
  }

  lemma KindLength(m: Message)
    ensures |Kind(m)| in {16, 22}
  {
  }

  lemma HeadPlain(i: nat)
    requires i < 5
    ensures QuoteFree(HEAD[i]) && |HEAD[i]| <= 4
  {
  }

  /** Nothing before the member's name is that name, which their lengths show, and all of it is free
      of quotes. */
  lemma MemberIsNew(m: Message, before: seq<bytes>)
    requires before == HEAD + [Kind(m), ",", Payload(m).name]
    ensures forall i | 0 <= i < 8 :: QuoteFree(before[i])
    ensures forall i | 0 <= i < 7 :: before[i] != Payload(m).name
  {
    KindPlain(m);
    KindLength(m);
    MemberName(m);
    assert before[5] == Kind(m) && before[6] == "," && before[7] == Payload(m).name;
    forall i | 0 <= i < 5 ensures QuoteFree(before[i]) && |before[i]| <= 4 {
      HeadPlain(i);
      assert before[i] == HEAD[i];
    }
  }

  lemma OneMember(kind: bytes, f: Field)
    ensures Segments(kind, [f]) == HEAD + [kind, ",", f.name] + ([":", f.value] + ["}"])
  {
    assert [f][1..] == [];
    assert FieldSegments([f]) == [",", f.name, ":", f.value] + ["}"];
  }

  lemma ScanMember(kind: bytes, f: Field, before: seq<bytes>)
    requires before == HEAD + [kind, ",", f.name]
    requires forall i | 0 <= i < 8 :: QuoteFree(before[i])
    requires forall i | 0 <= i < 7 :: before[i] != f.name
    ensures Scan(Body(kind, Member(f)), f.name) == AfterKey(":\"" + f.value + "\"" + "}")
  {
    var segs := Segments(kind, [f]);
    BodyJoin(kind, [f]);
    assert Members([f]) == Member(f) + [] == Member(f);
    OneMember(kind, f);
    assert segs == before + ([":", f.value] + ["}"]);
    assert segs[8..] == [":", f.value] + ["}"];
    ScanSegments(segs, f.name, 7);
    JoinTwo(":", f.value);
    JoinAppend([":", f.value], ["}"]);
    assert ":" + "\"" + f.value + "\"" + "}" == ":\"" + f.value + "\"" + "}";
  }

  /** What the extractor gets for the one member of a printed message: whatever the scan makes of
      the text after the colon. */
  lemma MemberScanned(m: Message)
    ensures Scan(Body(Kind(m), Member(Payload(m))), Payload(m).name) == AfterKey(":\"" + Payload(m).value + "\"" + "}")
  {
    var before := HEAD + [Kind(m), ",", Payload(m).name];
    MemberIsNew(m, before);
    ScanMember(Kind(m), Payload(m), before);
  }

  /** The scan of a printed value never reads past its printed closing quote. */
  lemma ReadValue(v: bytes)
    ensures var r := AfterKey(":\"" + v + "\"" + "}");
            && (r == Some(v) <==> WellPaired(v))
            && (r.Some? ==> |r.value| <= |v|)
  {
    var s := ":\"" + v + "\"" + "}";
    var t := v + "\"" + "}";
    assert s[1..] == "\"" + t && s[1..][1..] == t;
    assert t[..|v|] == v && t[|v|] == '"' && t[|v| + 1] == '}';
    assert AfterKey(s) == match Close(t) case None => None case Some(e) => Some(t[..e]);
    CloseMeaning(t, |v|);
    if Close(t).Some? { CloseMeaning(t, Close(t).value); }
  }

  /** A peer reads a printed message back as it was sent, for GameSurfaceReady iff the token's
      backslashes are paired and it holds no bare quote. */
  lemma MessageRoundTrip(m: Message)
    requires m.GameSurfaceReady? ==> |m.token| <= 63
    ensures Wire(m).Some?
    ensures Read(Wire(m).value) == Some(m) <==> (m.GameSurfaceReady? ==> WellPaired(m.token))
    ensures m.GameSurfaceReady? && Read(Wire(m).value).Some? ==>
              && Read(Wire(m).value).value.GameSurfaceReady?
              && |Read(Wire(m).value).value.token| <= |m.token|
  {
    WireForm(m);
    KindPlain(m);
    TypeRoundTrip(Kind(m), Member(Payload(m)));
    MemberScanned(m);
    ReadValue(Payload(m).value);
    if m.StateChanged? {
      StateNamesPlain(m.state);
      StateNamesDistinct(m.state);
    }
  }

  // ---- The token, end to end ---------------------------------------------------------------

  lemma CutOnce(raw: bytes)
    ensures var t := CString(Cut(raw, 63));
            && |t| <= 63
            && (t == raw <==> |raw| <= 63 && NUL !in raw)
            && (t != raw ==> |t| < |raw|)
  {
  }

  /** `packet` is accepted as the SetExpectedGame `e`, and `raw` is its raw `launch_token`. */
  ghost predicate AsksFor(packet: bytes, raw: bytes, e: Event) {
    && Decoded(packet).Some?
    && Scan(Decoded(packet).value, LAUNCH_TOKEN) == Some(raw)
    && e.SetExpectedGame?
    && exists t: bytes, i: bytes :: Interpreted(Decoded(packet).value, t, i) == Some(e)
  }

  lemma CommandToken(kind: bytes, token: bytes, gameId: bytes, e: Event)
    requires Command(kind, token, gameId) == Some(e) && e.SetExpectedGame?
    ensures e.token == token
  {
  }

  /** The token of an accepted SetExpectedGame body that holds `raw` under `launch_token`. */
  lemma InterpretedToken(body: bytes, t: bytes, i: bytes, raw: bytes, e: Event)
    requires Scan(body, LAUNCH_TOKEN) == Some(raw)
    requires Interpreted(body, t, i) == Some(e) && e.SetExpectedGame?
    ensures e.token == CString(Cut(raw, 63))
  {
    var token, gameId := Extracted(body, LAUNCH_TOKEN, 63, t), Extracted(body, GAME_ID, 255, i);
    assert Command(KindOf(body).value, token, gameId) == Some(e);
    CommandToken(KindOf(body).value, token, gameId, e);
  }

  lemma AskedToken(packet: bytes, raw: bytes, e: Event)
    requires AsksFor(packet, raw, e)
    ensures e.token == CString(Cut(raw, 63)) && WellPaired(raw)
  {
    var body := Decoded(packet).value;
    var t: bytes, i: bytes :| Interpreted(body, t, i) == Some(e);
    InterpretedToken(body, t, i, raw, e);
    ExtractedIsWellPaired(body, LAUNCH_TOKEN);
  }

  lemma ReadyToken(es: seq<Event>, k: nat, m: nat, sent: bytes)
    requires k < m < |es| && IsCurrent(es[..m], k) && SendsReady(es, m, sent)
    ensures sent == Cut(es[k].token, 63)
  {
    ReadyMeansStarting(es, m, sent);
    SessionHistory(es[..m]);
  }

  /** The GameSurfaceReady for a token derived from `raw` reads back as `raw` iff nothing was cut. */
  lemma EchoesRaw(raw: bytes)
    requires WellPaired(raw)
    ensures var sent := CString(Cut(raw, 63));
            && Wire(GameSurfaceReady(sent)).Some?
            && (Read(Wire(GameSurfaceReady(sent)).value) == Some(GameSurfaceReady(raw))
                <==> |raw| <= 63 && NUL !in raw)
  {
    CutOnce(raw);
    MessageRoundTrip(GameSurfaceReady(CString(Cut(raw, 63))));
  }

  /** A raw `launch_token` from an accepted SetExpectedGame packet comes back in the GameSurfaceReady
      of its session, decoded through the same header check and extractor, iff it fits its buffer
      and holds no NUL. */
  lemma TokenEcho(es: seq<Event>, k: nat, m: nat, packet: bytes, raw: bytes, sent: bytes)
    requires k < m < |es| && IsCurrent(es[..m], k) && SendsReady(es, m, sent)
    requires AsksFor(packet, raw, es[k])
    ensures Wire(GameSurfaceReady(sent)).Some?
    ensures Read(Wire(GameSurfaceReady(sent)).value) == Some(GameSurfaceReady(raw)) <==> |raw| <= 63 && NUL !in raw
  {
    ReadyToken(es, k, m, sent);
    AskedToken(packet, raw, es[k]);
    CutOnce(raw);
    EchoesRaw(raw);
  }

  // ---- The mirror on the wire --------------------------------------------------------------

  /** The state a peer believes in after the packets, taking notice of those it reads as changes. */
  function WirePeer(packets: seq<Option<bytes>>): Foreground {
    if packets == [] then ShellForeground
    else
      var last := packets[|packets| - 1];
      if last.Some? && Read(last.value).Some? && Read(last.value).value.StateChanged?
      then Read(last.value).value.state
      else WirePeer(packets[..|packets| - 1])
  }

  function OnWire(log: seq<Message>): seq<Option<bytes>> {
    if log == [] then [] else OnWire(log[..|log| - 1]) + [Wire(log[|log| - 1])]
  }

  lemma LastPacket(m: Message)
    requires m.GameSurfaceReady? ==> |m.token| <= 63
    ensures Wire(m).Some?
    ensures m.StateChanged? ==> Read(Wire(m).value) == Some(m)
    ensures m.GameSurfaceReady? ==> Read(Wire(m).value).None? || Read(Wire(m).value).value.GameSurfaceReady?
  {
    MessageRoundTrip(m);
  }

  /** One packet moves the peer exactly as the message it carries. */
  lemma WirePeerStep(packets: seq<Option<bytes>>, m: Message)
    requires m.GameSurfaceReady? ==> |m.token| <= 63
    ensures WirePeer(packets + [Wire(m)]) == if m.StateChanged? then m.state else WirePeer(packets)
  {
    var all := packets + [Wire(m)];
    assert all[..|all| - 1] == packets && all[|all| - 1] == Wire(m);
    LastPacket(m);
  }

  lemma {:induction false} WirePeerIsPeer(log: seq<Message>)
    requires forall i | 0 <= i < |log| :: log[i].GameSurfaceReady? ==> |log[i].token| <= 63
    ensures WirePeer(OnWire(log)) == Peer(log)
  {
    if log == [] {
    } else {
      var init, m := log[..|log| - 1], log[|log| - 1];
      WirePeerIsPeer(init);
      WirePeerStep(OnWire(init), m);
    }
  }

  lemma {:induction false} TokensFit(es: seq<Event>)
    ensures |After(es).session.token| <= 63
    ensures forall i | 0 <= i < |After(es).sent| ::
              After(es).sent[i].GameSurfaceReady? ==> |After(es).sent[i].token| <= 63
  {
    if es == [] {
    } else {
      var s := After(es[..|es| - 1]);
      var e := es[|es| - 1];
      TokensFit(es[..|es| - 1]);
      StepReports(s, e);
      if e.SetExpectedGame? {
        SetStep(s, e.token, e.gameId);
      } else if EndsSession(s, e) {
        EndStep(s, e);
      } else {
        QuietStep(s, e);
      }
    }
  }

  /** In every run, a peer that decodes the bytes of every attempted send knows the foreground state. */
  lemma WireMirrors(es: seq<Event>)
    ensures WirePeer(OnWire(After(es).sent)) == After(es).session.fg
  {
    TokensFit(es);
    PeerMirrors(es);
    WirePeerIsPeer(After(es).sent);
  }
}
