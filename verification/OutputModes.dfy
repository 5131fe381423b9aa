/** Output selection: the connector and mode scoring loops, and how far the weighted sum keeps to
    the documented order eDP > LVDS > DSI > other. */
module OutputModes {
  import opened Foundation

  datatype ConnectorType = EDp | Lvds | Dsi | DisplayPort | HdmiA | HdmiB | Vga | DviI | Other

  datatype Mode = Mode(hdisplay: nat, vdisplay: nat, vrefresh: nat)

  datatype Connector = Connector(kind: ConnectorType, typeId: nat, connected: bool, modes: seq<Mode>)

  datatype Config = Config(width: nat, height: nat, refreshMhz: nat, scale100: nat, name: bytes, isEdp: bool,
                           valid: bool)

  /** The configuration as cleared on entry. */
  const CLEARED := Config(0, 0, 0, 0, [], false, false)

  function Area(m: Mode): nat {
    m.hdisplay * m.vdisplay
  }

  function Base(kind: ConnectorType): nat {
    match kind case EDp => 1000 case Lvds => 900 case Dsi => 850 case _ => 100
  }

  predicate IsInternalPanel(kind: ConnectorType) {
    kind == EDp || kind == Lvds || kind == Dsi
  }

  /** The first mode of the largest area. */
  ghost predicate IsBestMode(modes: seq<Mode>, m: int) {
    && 0 <= m < |modes|
    && (forall j | 0 <= j < |modes| :: Area(modes[j]) <= Area(modes[m]))
    && (forall j | 0 <= j < m :: Area(modes[j]) < Area(modes[m]))
  }

  /** The mode loop; `area` is its max_w * max_h. */
  method BestMode(modes: seq<Mode>) returns (best: nat, area: nat)
    requires modes != []
    ensures IsBestMode(modes, best) && area == modes[best].hdisplay * modes[best].vdisplay
  {
    best, area := 0, 0;
    for m := 0 to |modes|
      invariant 0 <= best < |modes| && (best == 0 || best < m)
      invariant m == 0 || area == Area(modes[best])
      invariant m == 0 ==> area == 0 && best == 0
      invariant forall j | 0 <= j < m :: Area(modes[j]) <= area
      invariant forall j | 0 <= j < best :: Area(modes[j]) < area
    {
      var pixels := Area(modes[m]);
      if pixels > area {
        best, area := m, pixels;
      }
    }
  }

  predicate Usable(c: Option<Connector>) {
    c.Some? && c.value.connected && c.value.modes != []
  }

  /** The largest area among the modes. */
  function MaxArea(modes: seq<Mode>): nat {
    if modes == [] then 0
    else
      var rest := MaxArea(modes[1..]);
      if Area(modes[0]) >= rest then Area(modes[0]) else rest
  }

  lemma MaxAreaMeaning(modes: seq<Mode>, m: int)
    requires IsBestMode(modes, m)
    ensures Area(modes[m]) == MaxArea(modes)
  {
    MaxAreaBounds(modes);
  }

  lemma {:induction false} MaxAreaBounds(modes: seq<Mode>)
    ensures forall j | 0 <= j < |modes| :: Area(modes[j]) <= MaxArea(modes)
    ensures modes != [] ==> exists j :: 0 <= j < |modes| && Area(modes[j]) == MaxArea(modes)
  {
    if modes == [] {
    } else {
      MaxAreaBounds(modes[1..]);
      assert forall j | 1 <= j < |modes| :: modes[j] == modes[1..][j - 1];
      if Area(modes[0]) < MaxArea(modes[1..]) {
        var j :| 0 <= j < |modes[1..]| && Area(modes[1..][j]) == MaxArea(modes[1..]);
        assert modes[j + 1] == modes[1..][j];
      }
    }
  }

  function Score(c: Connector): nat {
    Base(c.kind) + MaxArea(c.modes) / 100000
  }

  /** The first usable connector of the highest score. */
  ghost predicate IsBestConnector(cs: seq<Option<Connector>>, i: int) {
    && 0 <= i < |cs| && Usable(cs[i])
    && (forall j | 0 <= j < |cs| && Usable(cs[j]) :: Score(cs[j].value) <= Score(cs[i].value))
    && (forall j | 0 <= j < i && Usable(cs[j]) :: Score(cs[j].value) < Score(cs[i].value))
  }

  function ConfigOf(c: Connector, m: nat): Config
    requires m < |c.modes|
  {
    Config(c.modes[m].hdisplay, c.modes[m].vdisplay, c.modes[m].vrefresh * 1000, 100, ConnectorName(c),
           IsInternalPanel(c.kind), true)
  }

  /** The configuration tells the mode and the connector field by field. */
  ghost predicate Describes(config: Config, c: Connector, m: nat)
    requires m < |c.modes|
  {
    && config.width == c.modes[m].hdisplay && config.height == c.modes[m].vdisplay
    && config.refreshMhz == 1000 * c.modes[m].vrefresh && config.scale100 == 100
    && (config.isEdp <==> c.kind in {EDp, Lvds, Dsi})
    && config.valid
    && (c.typeId < 0x1_0000_0000 ==> Names(config.name, c.kind, c.typeId))
  }

  /** A name is the word of the kind, a dash and the identifier in decimal. */
  ghost predicate Names(name: bytes, kind: ConnectorType, typeId: nat) {
    exists digits: bytes :: Counts(digits, typeId) && name == (
      match kind
      case EDp => "eDP-" + digits
      case Lvds => "LVDS-" + digits
      case Dsi => "DSI-" + digits
      case DisplayPort => "DP-" + digits
      case HdmiA => "HDMI-A-" + digits
      case HdmiB => "HDMI-B-" + digits
      case Vga => "VGA-" + digits
      case DviI => "DVI-I-" + digits
      case Other => "Other-" + digits)
  }

  function ValueOf(digits: bytes): int {
    if digits == [] then 0
    else 10 * ValueOf(digits[..|digits| - 1]) + (digits[|digits| - 1] as int - '0' as int)
  }

  /** `digits` are decimal, without a leading zero, and have the value `n`. */
  ghost predicate Counts(digits: bytes, n: nat) {
    && digits != [] && (forall d | d in digits :: '0' <= d <= '9')
    && (digits[0] == '0' ==> |digits| == 1)
    && ValueOf(digits) == n
  }

  function TypeName(kind: ConnectorType): bytes {
    match kind
    case EDp => "eDP"
    case Lvds => "LVDS"
    case Dsi => "DSI"
    case DisplayPort => "DP"
    case HdmiA => "HDMI-A"
    case HdmiB => "HDMI-B"
    case Vga => "VGA"
    case DviI => "DVI-I"
    case Other => "Other"
  }

  function Decimal(n: nat): bytes {
    (if n < 10 then [] else Decimal(n / 10)) + [(n % 10 + '0' as int) as char]
  }

  lemma {:induction false} DecimalCounts(n: nat)
    ensures Counts(Decimal(n), n)
    ensures n > 0 ==> Decimal(n)[0] != '0'
  {
    var last := [(n % 10 + '0' as int) as char];
    if n < 10 {
      assert Decimal(n) == last && last[..0] == [];
    } else {
      DecimalCounts(n / 10);
      assert Decimal(n) == Decimal(n / 10) + last;
      assert Decimal(n)[..|Decimal(n)| - 1] == Decimal(n / 10);
    }
  }

  lemma {:induction false} DecimalLength(n: nat, k: nat)
    requires n < Power10(k) && k > 0
    ensures |Decimal(n)| <= k
  {
    if n < 10 {
    } else {
      DecimalLength(n / 10, k - 1);
    }
  }

  function Power10(k: nat): nat {
    if k == 0 then 1 else 10 * Power10(k - 1)
  }

  lemma NameFits(c: Connector)
    requires c.typeId < 0x1_0000_0000
    ensures ConnectorName(c) == TypeName(c.kind) + "-" + Decimal(c.typeId)
  {
    assert Power10(10) == 10_000_000_000 by {
      assert Power10(5) == 100_000;
      assert Power10(8) == 1000 * Power10(5);
    }
    DecimalLength(c.typeId, 10);
  }

  lemma NameMeaning(c: Connector)
    requires c.typeId < 0x1_0000_0000
    ensures Names(ConnectorName(c), c.kind, c.typeId)
  {
    var digits := Decimal(c.typeId);
    DecimalCounts(c.typeId);
    NameFits(c);
    KindWords();
  }

  lemma KindWords()
    ensures TypeName(EDp) + "-" == "eDP-" && TypeName(Lvds) + "-" == "LVDS-" && TypeName(Dsi) + "-" == "DSI-"
    ensures TypeName(DisplayPort) + "-" == "DP-" && TypeName(HdmiA) + "-" == "HDMI-A-"
    ensures TypeName(HdmiB) + "-" == "HDMI-B-" && TypeName(Vga) + "-" == "VGA-"
    ensures TypeName(DviI) + "-" == "DVI-I-" && TypeName(Other) + "-" == "Other-"
  {
  }

  lemma ConfigMeaning(c: Connector, m: nat)
    requires m < |c.modes|
    ensures Describes(ConfigOf(c, m), c, m)
  {
    if c.typeId < 0x1_0000_0000 { NameMeaning(c); }
  }

  function ConnectorName(c: Connector): bytes {
    Cut(TypeName(c.kind) + "-" + Decimal(c.typeId), 63)
  }

  /** The areas whose products the loops form fit a signed 32-bit int. */
  ghost predicate AreasFit(cs: seq<Option<Connector>>) {
    forall c | c in cs && c.Some? :: forall m | m in c.value.modes :: Area(m) < 0x8000_0000
  }

  /** The connector loop; -1 when no connector is usable. */
  method BestConnector(cs: seq<Option<Connector>>) returns (best: int, mode: nat)
    requires AreasFit(cs)
    ensures best == -1 <==>
            forall j | 0 <= j < |cs| :: cs[j].None? || !cs[j].value.connected || |cs[j].value.modes| == 0
    ensures best != -1 ==> IsBestConnector(cs, best) && IsBestMode(cs[best].value.modes, mode)
  {
    best, mode := -1, 0;
    var bestScore: int := -1;
    for i := 0 to |cs|
      invariant best == -1 <==> forall j | 0 <= j < i :: !Usable(cs[j])
      invariant best == -1 ==> bestScore == -1
      invariant best != -1 ==> 0 <= best < i && Usable(cs[best]) && bestScore == Score(cs[best].value)
                               && IsBestMode(cs[best].value.modes, mode)
      invariant forall j | 0 <= j < i && Usable(cs[j]) :: Score(cs[j].value) <= bestScore
      invariant forall j | 0 <= j < best && Usable(cs[j]) :: Score(cs[j].value) < bestScore
    {
      if cs[i].None? { continue; }
      var conn := cs[i].value;
      if !conn.connected || |conn.modes| == 0 { continue; }
      var score;
      match conn.kind {
        case EDp => score := 1000;
        case Lvds => score := 900;
        case Dsi => score := 850;
        case _ => score := 100;
      }
      var bestM, area := BestMode(conn.modes);
      MaxAreaMeaning(conn.modes, bestM);
      score := score + area / 100000;
      if score > bestScore {
        bestScore, best, mode := score, i, bestM;
      }
    }
  }

  /** playos_output_select_from_fd: `again` is what reading the chosen connector a second time gives.
      0 and a valid configuration, or -1 and a cleared one. */
  method Select(cs: seq<Option<Connector>>, again: seq<Option<Connector>>) returns (rc: int, config: Config)
    requires |again| == |cs| && AreasFit(cs)
    ensures (rc == 0 && config.valid) || (rc == -1 && config == CLEARED)
    ensures (forall j | 0 <= j < |cs| :: !Usable(cs[j])) ==> rc == -1
    ensures again == cs && rc == -1 ==> forall j | 0 <= j < |cs| :: !Usable(cs[j])
    ensures forall i, m | IsBestConnector(cs, i) && IsBestMode(cs[i].value.modes, m) ::
              if again[i].Some? && m < |again[i].value.modes| then rc == 0 && Describes(config, again[i].value, m)
              else rc == -1
  {
    config := CLEARED;
    var best, mode := BestConnector(cs);
    if best < 0 { return -1, config; }
    if again[best].None? || mode >= |again[best].value.modes| { return -1, config; }
    ConfigMeaning(again[best].value, mode);
    return 0, ConfigOf(again[best].value, mode);
  }

  // ---- The documented order ----------------------------------------------------------------

  /** eDP > LVDS > DSI > other. */
  function Rank(kind: ConnectorType): nat {
    match kind case EDp => 3 case Lvds => 2 case Dsi => 1 case _ => 0
  }

  /** Below this area a connector cannot reach the score of a better kind. */
  function Bound(kind: ConnectorType): Option<nat> {
    match kind
    case EDp => None
    case Lvds => Some(10_000_000)
    case Dsi => Some(5_000_000)
    case _ => Some(75_000_000)
  }

  predicate WithinBound(c: Connector) {
    Bound(c.kind).Some? ==> MaxArea(c.modes) < Bound(c.kind).value
  }

  /** When every usable connector keeps its bound, the chosen one is of the best kind present. */
  lemma OrderHolds(cs: seq<Option<Connector>>, i: int)
    requires IsBestConnector(cs, i)
    requires forall j | 0 <= j < |cs| && Usable(cs[j]) :: WithinBound(cs[j].value)
    ensures forall j | 0 <= j < |cs| && Usable(cs[j]) :: Rank(cs[j].value.kind) <= Rank(cs[i].value.kind)
  {
    forall j | 0 <= j < |cs| && Usable(cs[j]) ensures Rank(cs[j].value.kind) <= Rank(cs[i].value.kind) {
      assert Score(cs[j].value) <= Score(cs[i].value);
    }
  }

  /** A connector yields to every connector of a better kind listed after it iff it keeps its bound. */
  lemma BoundIsExact(lo: Connector)
    requires Usable(Some(lo)) && lo.kind != EDp
    ensures WithinBound(lo) <==>
            forall hi: Connector | Usable(Some(hi)) && Rank(hi.kind) > Rank(lo.kind) ::
              IsBestConnector([Some(lo), Some(hi)], 1)
  {
    if !WithinBound(lo) {
      var next := match lo.kind case Lvds => EDp case Dsi => Lvds case _ => Dsi;
      var hi := Connector(next, 0, true, [Mode(1, 1, 60)]);
      assert MaxArea(hi.modes) == 1;
      var cs := [Some(lo), Some(hi)];
      assert Score(cs[0].value) >= Score(cs[1].value);
      assert Usable(cs[0]);
      assert !IsBestConnector(cs, 1);
    }
  }

  /** A better kind listed first wins ties, so the bound is one step of the bonus larger. */
  function BoundAfter(kind: ConnectorType): Option<nat> {
    match Bound(kind)
    case None => None
    case Some(b) => Some(b + 100_000)
  }

  /** A connector yields to every connector of a better kind listed before it iff it keeps that bound. */
  lemma BoundAfterIsExact(lo: Connector)
    requires Usable(Some(lo)) && lo.kind != EDp
    ensures MaxArea(lo.modes) < BoundAfter(lo.kind).value <==>
            forall hi: Connector | Usable(Some(hi)) && Rank(hi.kind) > Rank(lo.kind) ::
              IsBestConnector([Some(hi), Some(lo)], 0)
  {
    if MaxArea(lo.modes) >= BoundAfter(lo.kind).value {
      var next := match lo.kind case Lvds => EDp case Dsi => Lvds case _ => Dsi;
      var hi := Connector(next, 0, true, [Mode(1, 1, 60)]);
      assert MaxArea(hi.modes) == 1;
      var cs := [Some(hi), Some(lo)];
      assert Score(cs[1].value) > Score(cs[0].value);
      assert Usable(cs[1]);
      assert !IsBestConnector(cs, 0);
    }
  }
}
