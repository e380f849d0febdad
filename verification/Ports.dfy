/** The ports of the server: what validation promises, and what each port does to its connections. */
module Ports {
  import opened Strings

  const DELAY_COUNT := 10
  const DELAYS: seq<nat> := [0, 1, 2, 8, 10, 30, 60, 120, 300, 600]

  // ---------- Ranges and the validator ----------

  datatype PortRange = PortRange(name: string, start: int, end: int) {
    predicate Contains(port: int) {
      start <= port <= end
    }

    predicate OverlapsWith(other: PortRange) {
      start <= other.end && other.start <= end
    }

    predicate NonEmpty() {
      start <= end
    }
  }

  function NewPortRange(name: string, start: int, size: int): PortRange {
    PortRange(name, start, start + size)
  }

  datatype Conflict =
    | RangesOverlap(i: nat, j: nat)
    | PortInRange(name: string, i: nat)
    | PortsEqual(name1: string, name2: string)

  /** Who can lay claim to a port number. */
  datatype Claimant = ByRange(i: nat) | ByName(name: string)

  ghost predicate Claims(ranges: seq<PortRange>, ports: map<string, int>, c: Claimant, p: int) {
    match c
    case ByRange(i) => i < |ranges| && ranges[i].Contains(p)
    case ByName(name) => name in ports && ports[name] == p
  }

  /** No port number is claimed twice. */
  ghost predicate NothingShared(ranges: seq<PortRange>, ports: map<string, int>) {
    forall p: int, c, d :: Claims(ranges, ports, c, p) && Claims(ranges, ports, d, p) ==> c == d
  }

  predicate AllNonEmpty(ranges: seq<PortRange>) {
    forall i :: 0 <= i < |ranges| ==> ranges[i].NonEmpty()
  }

  ghost predicate RangesApart(ranges: seq<PortRange>) {
    forall i, j :: 0 <= i < j < |ranges| ==> !ranges[i].OverlapsWith(ranges[j])
  }

  ghost predicate PortsOutside(ranges: seq<PortRange>, ports: map<string, int>) {
    forall name, i :: name in ports && 0 <= i < |ranges| ==> !ranges[i].Contains(ports[name])
  }

  ghost predicate PortsDiffer(ports: map<string, int>) {
    forall a, b :: a in ports && b in ports && a != b ==> ports[a] != ports[b]
  }

  /** Two non-empty ranges overlap exactly when they have a number in common. */
  lemma OverlapIsSharing(a: PortRange, b: PortRange)
    requires a.NonEmpty() && b.NonEmpty()
    ensures a.OverlapsWith(b) <==> exists p: int :: a.Contains(p) && b.Contains(p)
  {
    if a.OverlapsWith(b) {
      var p := if a.start <= b.start then b.start else a.start;
      assert a.Contains(p) && b.Contains(p);
    }
  }

  /** Two ranges, one of them empty, that the overlap test nevertheless reports. */
  ghost predicate EmptyReported(ranges: seq<PortRange>) {
    exists i, j :: 0 <= i < j < |ranges| && ranges[i].OverlapsWith(ranges[j])
      && !(ranges[i].NonEmpty() && ranges[j].NonEmpty())
  }

  ghost predicate ChecksPass(ranges: seq<PortRange>, ports: map<string, int>) {
    RangesApart(ranges) && PortsOutside(ranges, ports) && PortsDiffer(ports)
  }

  lemma PassingMeansNothingShared(ranges: seq<PortRange>, ports: map<string, int>)
    requires ChecksPass(ranges, ports)
    ensures NothingShared(ranges, ports)
  {
    forall p: int, c, d | Claims(ranges, ports, c, p) && Claims(ranges, ports, d, p)
      ensures c == d
    {
      if c.ByRange? && d.ByRange? && c != d {
        var i, j := if c.i < d.i then c.i else d.i, if c.i < d.i then d.i else c.i;
        OverlapIsSharing(ranges[i], ranges[j]);
      }
    }
  }

  lemma NothingSharedPasses(ranges: seq<PortRange>, ports: map<string, int>)
    requires NothingShared(ranges, ports) && !EmptyReported(ranges)
    ensures ChecksPass(ranges, ports)
  {
    forall i, j | 0 <= i < j < |ranges|
      ensures !ranges[i].OverlapsWith(ranges[j])
    {
      if ranges[i].OverlapsWith(ranges[j]) {
        OverlapIsSharing(ranges[i], ranges[j]);
        var p: int :| ranges[i].Contains(p) && ranges[j].Contains(p);
        assert Claims(ranges, ports, ByRange(i), p) && Claims(ranges, ports, ByRange(j), p);
      }
    }
    forall name, i | name in ports && 0 <= i < |ranges|
      ensures !ranges[i].Contains(ports[name])
    {
      if ranges[i].Contains(ports[name]) {
        assert Claims(ranges, ports, ByRange(i), ports[name]) && Claims(ranges, ports, ByName(name), ports[name]);
      }
    }
    forall a, b | a in ports && b in ports && a != b
      ensures ports[a] != ports[b]
    {
      assert Claims(ranges, ports, ByName(a), ports[a]) && Claims(ranges, ports, ByName(b), ports[b]);
    }
  }

  /**
    The three pairwise checks pass exactly when no number is shared and no empty range is reported; so, where no range
    is empty, exactly when no number is shared.
  */
  lemma ChecksDecideSharing(ranges: seq<PortRange>, ports: map<string, int>)
    ensures ChecksPass(ranges, ports) <==> NothingShared(ranges, ports) && !EmptyReported(ranges)
    ensures AllNonEmpty(ranges) ==> (ChecksPass(ranges, ports) <==> NothingShared(ranges, ports))
  {
    if ChecksPass(ranges, ports) {
      PassingMeansNothingShared(ranges, ports);
    }
    if NothingShared(ranges, ports) && !EmptyReported(ranges) {
      NothingSharedPasses(ranges, ports);
    }
  }

  /** With an empty range the overlap test can report a conflict where no number is shared. */
  lemma EmptyRangesCanMislead()
    ensures var a, b := PortRange("a", 5, 3), PortRange("b", 1, 10);
      a.OverlapsWith(b) && forall p: int :: !(a.Contains(p) && b.Contains(p))
  {
  }

  class PortValidator {
    var ranges: seq<PortRange>
    var ports: map<string, int>

    constructor ()
      ensures ranges == [] && ports == map[]
    {
      ranges, ports := [], map[];
    }

    method AddRange(r: PortRange)
      modifies `ranges
      ensures ranges == old(ranges) + [r]
    {
      ranges := ranges + [r];
    }

    method AddPort(name: string, port: int)
      modifies `ports
      ensures ports == old(ports)[name := port]
    {
      ports := ports[name := port];
    }

    method ValidateRangeOverlaps() returns (r: Option<Conflict>)
      ensures r.None? <==> RangesApart(ranges)
      ensures r.Some? ==> r.value.RangesOverlap? && r.value.i < r.value.j < |ranges|
      ensures r.Some? ==> ranges[r.value.i].OverlapsWith(ranges[r.value.j])
    {
      for i := 0 to |ranges|
        invariant forall a, b :: 0 <= a < i && a < b < |ranges| ==> !ranges[a].OverlapsWith(ranges[b])
      {
        for j := i + 1 to |ranges|
          invariant forall b :: i < b < j ==> !ranges[i].OverlapsWith(ranges[b])
        {
          if ranges[i].OverlapsWith(ranges[j]) {
            return Some(RangesOverlap(i, j));
          }
        }
      }
      return None;
    }

    method ValidatePortRangeConflicts() returns (r: Option<Conflict>)
      ensures r.None? <==> PortsOutside(ranges, ports)
      ensures r.Some? ==> r.value.PortInRange? && r.value.name in ports && r.value.i < |ranges|
      ensures r.Some? ==> ranges[r.value.i].Contains(ports[r.value.name])
    {
      var names := ports.Keys;
      while names != {}
        invariant names <= ports.Keys
        invariant forall n, i :: n in ports && n !in names && 0 <= i < |ranges| ==> !ranges[i].Contains(ports[n])
        decreases names
      {
        var name :| name in names;
        for i := 0 to |ranges|
          invariant forall k :: 0 <= k < i ==> !ranges[k].Contains(ports[name])
        {
          if ranges[i].Contains(ports[name]) {
            return Some(PortInRange(name, i));
          }
        }
        names := names - {name};
      }
      return None;
    }

    /** The ports in some order, each once. */
    method PortList() returns (list: seq<(string, int)>)
      ensures forall i :: 0 <= i < |list| ==> list[i].0 in ports && list[i].1 == ports[list[i].0]
      ensures forall i, j :: 0 <= i < j < |list| ==> list[i].0 != list[j].0
      ensures forall n :: n in ports ==> exists i :: 0 <= i < |list| && list[i].0 == n
    {
      list := [];
      var names := ports.Keys;
      while names != {}
        invariant names <= ports.Keys
        invariant forall i :: 0 <= i < |list| ==>
          list[i].0 in ports && list[i].0 !in names && list[i].1 == ports[list[i].0]
        invariant forall i, j :: 0 <= i < j < |list| ==> list[i].0 != list[j].0
        invariant forall n :: n in ports && n !in names ==> exists i :: 0 <= i < |list| && list[i].0 == n
        decreases names
      {
        var name :| name in names;
        ghost var before := list;
        list := list + [(name, ports[name])];
        names := names - {name};
        forall n | n in ports && n !in names
          ensures exists i :: 0 <= i < |list| && list[i].0 == n
        {
          if n == name {
            assert list[|before|].0 == n;
          } else {
            var i :| 0 <= i < |before| && before[i].0 == n;
            assert list[i].0 == n;
          }
        }
      }
    }

    method ValidatePortConflicts() returns (r: Option<Conflict>)
      ensures r.None? <==> PortsDiffer(ports)
      ensures r.Some? ==> r.value.PortsEqual? && r.value.name1 in ports && r.value.name2 in ports
      ensures r.Some? ==> r.value.name1 != r.value.name2 && ports[r.value.name1] == ports[r.value.name2]
    {
      var list := PortList();
      for i := 0 to |list|
        invariant forall a, b :: 0 <= a < i && a < b < |list| ==> list[a].1 != list[b].1
      {
        for j := i + 1 to |list|
          invariant forall b :: i < b < j ==> list[i].1 != list[b].1
        {
          if list[i].1 == list[j].1 {
            return Some(PortsEqual(list[i].0, list[j].0));
          }
        }
      }
      forall a, b | a in ports && b in ports && a != b
        ensures ports[a] != ports[b]
      {
        var i :| 0 <= i < |list| && list[i].0 == a;
        var j :| 0 <= j < |list| && list[j].0 == b;
      }
      return None;
    }

    /**
      For any number of ranges and ports: success exactly when no port number is shared and no empty range is reported;
      with non-empty ranges, exactly when no port number is shared.
    */
    method ValidateAll() returns (r: Option<Conflict>)
      ensures r.None? <==> NothingShared(ranges, ports) && !EmptyReported(ranges)
      ensures AllNonEmpty(ranges) ==> (r.None? <==> NothingShared(ranges, ports))
    {
      hide NothingShared, EmptyReported, AllNonEmpty;
      ChecksDecideSharing(ranges, ports);
      r := ValidateRangeOverlaps();
      if r.None? {
        r := ValidatePortRangeConflicts();
        if r.None? {
          r := ValidatePortConflicts();
        }
      }
    }
  }

  // ---------- Configurations ----------

  datatype PortConfig = PortConfig(port: int, greetingStart: int, dropStart: int, tlsPort: int, starttlsPort: int)

  predicate InWindow(start: int, port: int) {
    start <= port < start + DELAY_COUNT
  }

  /** The ports `Start` listens on: the normal one, ten and ten with delays, and the two for TLS. */
  function PortAt(c: PortConfig, k: nat): int
    requires k < 23
  {
    if k == 0 then c.port
    else if k <= DELAY_COUNT then c.greetingStart + (k - 1)
    else if k <= 2 * DELAY_COUNT then c.dropStart + (k - 1 - DELAY_COUNT)
    else if k == 21 then c.tlsPort
    else c.starttlsPort
  }

  function OpenedPorts(c: PortConfig): (ps: seq<int>)
    ensures |ps| == 23
  {
    seq(23, k requires 0 <= k < 23 => PortAt(c, k))
  }

  predicate AllDifferent(ps: seq<int>) {
    forall i, j :: 0 <= i < j < |ps| ==> ps[i] != ps[j]
  }

  /** A normal port inside the hundred ports after a start, but beyond its ten, is taken for a mistake. */
  predicate LooksMistaken(c: PortConfig, start: int) {
    start <= c.port < start + 100 && c.port - start >= DELAY_COUNT
  }

  function RangesOf(c: PortConfig): seq<PortRange> {
    [NewPortRange("greeting delay", c.greetingStart, DELAY_COUNT - 1),
     NewPortRange("drop delay", c.dropStart, DELAY_COUNT - 1)]
  }

  function PortsOf(c: PortConfig): map<string, int> {
    map["normal" := c.port, "TLS" := c.tlsPort, "STARTTLS" := c.starttlsPort]
  }

  /** The claimants of a configuration are pairwise apart exactly when these numbers are. */
  ghost predicate Apart(c: PortConfig) {
    && (c.greetingStart + 9 < c.dropStart || c.dropStart + 9 < c.greetingStart)
    && !InWindow(c.greetingStart, c.port) && !InWindow(c.dropStart, c.port)
    && !InWindow(c.greetingStart, c.tlsPort) && !InWindow(c.dropStart, c.tlsPort)
    && !InWindow(c.greetingStart, c.starttlsPort) && !InWindow(c.dropStart, c.starttlsPort)
    && c.port != c.tlsPort && c.port != c.starttlsPort && c.tlsPort != c.starttlsPort
  }

  lemma NothingSharedIsApart(c: PortConfig)
    ensures NothingShared(RangesOf(c), PortsOf(c)) <==> Apart(c)
  {
    hide NothingShared;
    var rs, ps := RangesOf(c), PortsOf(c);
    ChecksDecideSharing(rs, ps);
    assert "normal" in ps && "TLS" in ps && "STARTTLS" in ps;
    assert RangesApart(rs) <==> !rs[0].OverlapsWith(rs[1]);
    assert PortsOutside(rs, ps) <==>
      !rs[0].Contains(c.port) && !rs[1].Contains(c.port) && !rs[0].Contains(c.tlsPort) && !rs[1].Contains(c.tlsPort)
      && !rs[0].Contains(c.starttlsPort) && !rs[1].Contains(c.starttlsPort);
  }

  lemma ApartIsDifferent(c: PortConfig, i: nat, j: nat)
    requires Apart(c) && i < j < 23
    ensures PortAt(c, i) != PortAt(c, j)
  {
  }

  /** Two claimants that are not apart show up as two equal ports. */
  lemma SharedIsRepeated(c: PortConfig) returns (i: nat, j: nat)
    requires !Apart(c)
    ensures i < j < 23 && PortAt(c, i) == PortAt(c, j)
  {
    var g, d := c.greetingStart, c.dropStart;
    if g <= d <= g + 9 {
      i, j := d - g + 1, 11;
    } else if d <= g <= d + 9 {
      i, j := 1, g - d + 11;
    } else if InWindow(g, c.port) {
      i, j := 0, c.port - g + 1;
    } else if InWindow(d, c.port) {
      i, j := 0, c.port - d + 11;
    } else if InWindow(g, c.tlsPort) {
      i, j := c.tlsPort - g + 1, 21;
    } else if InWindow(d, c.tlsPort) {
      i, j := c.tlsPort - d + 11, 21;
    } else if InWindow(g, c.starttlsPort) {
      i, j := c.starttlsPort - g + 1, 22;
    } else if InWindow(d, c.starttlsPort) {
      i, j := c.starttlsPort - d + 11, 22;
    } else if c.port == c.tlsPort {
      i, j := 0, 21;
    } else if c.port == c.starttlsPort {
      i, j := 0, 22;
    } else {
      i, j := 21, 22;
    }
  }

  lemma DifferentIsApart(c: PortConfig)
    ensures AllDifferent(OpenedPorts(c)) <==> Apart(c)
  {
    hide Apart, PortAt;
    var ps := OpenedPorts(c);
    if Apart(c) {
      forall i, j | 0 <= i < j < |ps|
        ensures ps[i] != ps[j]
      {
        ApartIsDifferent(c, i, j);
      }
    } else {
      var i, j := SharedIsRepeated(c);
      assert ps[i] == ps[j];
    }
  }

  /**
    A configuration passes exactly when the 23 ports the server opens are all different and the normal port does
    not look like a mistyped delay port.
  */
  method ValidatePortConfiguration(c: PortConfig) returns (ok: bool)
    ensures ok <==>
      AllDifferent(OpenedPorts(c)) && !LooksMistaken(c, c.greetingStart) && !LooksMistaken(c, c.dropStart)
  {
    hide NothingShared, AllDifferent, OpenedPorts;
    NothingSharedIsApart(c);
    DifferentIsApart(c);
    var v := new PortValidator();
    v.AddRange(NewPortRange("greeting delay", c.greetingStart, DELAY_COUNT - 1));
    v.AddRange(NewPortRange("drop delay", c.dropStart, DELAY_COUNT - 1));
    v.AddPort("normal", c.port);
    v.AddPort("TLS", c.tlsPort);
    v.AddPort("STARTTLS", c.starttlsPort);
    assert v.ranges == RangesOf(c) && v.ports == PortsOf(c);
    var conflict := v.ValidateAll();
    if conflict.Some? {
      return false;
    }
    if c.port >= c.greetingStart && c.port < c.greetingStart + 100 && c.port - c.greetingStart >= DELAY_COUNT {
      return false;
    }
    if c.port >= c.dropStart && c.port < c.dropStart + 100 && c.port - c.dropStart >= DELAY_COUNT {
      return false;
    }
    return true;
  }

  // ---------- What a port does ----------

  datatype Behaviour = Behaviour(greetingDelay: nat, dropDelay: nat, dropImmediate: bool)

  const NORMAL := Behaviour(0, 0, false)

  /** The delays a connection on `port` gets, from those the configuration had. */
  function Analyse(c: PortConfig, base: Behaviour, port: int): Behaviour {
    var b := if InWindow(c.greetingStart, port) then base.(greetingDelay := DELAYS[port - c.greetingStart]) else base;
    if InWindow(c.dropStart, port)
    then b.(dropDelay := DELAYS[port - c.dropStart], dropImmediate := b.dropImmediate || port == c.dropStart)
    else b
  }

  class ConnectionConfig {
    const ports: PortConfig
    var port: int
    var behaviour: Behaviour

    constructor (ports: PortConfig, port: int, behaviour: Behaviour)
      ensures this.ports == ports && this.port == port && this.behaviour == behaviour
    {
      this.ports, this.port, this.behaviour := ports, port, behaviour;
    }

    method AnalysePortBehaviour()
      modifies `behaviour
      ensures behaviour == Analyse(ports, old(behaviour), port)
      ensures old(behaviour) == NORMAL ==>
        (IsTrueOf(Describe(ports, port), behaviour)
         <==> !(InWindow(ports.greetingStart, port) && InWindow(ports.dropStart, port)))
    {
      hide Describe, IsTrueOf;
      DescriptionAgrees(ports, port);
      if port >= ports.greetingStart && port < ports.greetingStart + DELAY_COUNT {
        var offset := port - ports.greetingStart;
        behaviour := behaviour.(greetingDelay := DELAYS[offset]);
      }
      if port >= ports.dropStart && port < ports.dropStart + DELAY_COUNT {
        var offset := port - ports.dropStart;
        behaviour := behaviour.(dropDelay := DELAYS[offset]);
        if offset == 0 {
          behaviour := behaviour.(dropImmediate := true);
        }
      }
    }
  }

  function Describe(c: PortConfig, port: int): string {
    if InWindow(c.greetingStart, port) then "Greeting delay: " + FormatNat(DELAYS[port - c.greetingStart]) + "s"
    else if InWindow(c.dropStart, port) then
      if port == c.dropStart then "Immediate drop" else "Drop with delay: " + FormatNat(DELAYS[port - c.dropStart]) + "s"
    else "Normal behaviour"
  }

  /** The text is true of a connection with these delays, and of every delay it has. */
  predicate IsTrueOf(text: string, b: Behaviour) {
    || (text == "Immediate drop" && b == Behaviour(0, 0, true))
    || (text == "Drop with delay: " + FormatNat(b.dropDelay) + "s" && b == Behaviour(0, b.dropDelay, false))
    || (text == "Greeting delay: " + FormatNat(b.greetingDelay) + "s" && b == Behaviour(b.greetingDelay, 0, false))
    || (text == "Normal behaviour" && b == NORMAL)
  }

  /** The two delays never meet on one port unless the windows overlap there. */
  lemma OneBehaviourPerPort(c: PortConfig, port: int)
    ensures var b := Analyse(c, NORMAL, port);
      !(InWindow(c.greetingStart, port) && InWindow(c.dropStart, port))
      ==> b.greetingDelay == 0 || (b.dropDelay == 0 && !b.dropImmediate)
    ensures AllDifferent(OpenedPorts(c)) ==> !(InWindow(c.greetingStart, port) && InWindow(c.dropStart, port))
  {
    hide OpenedPorts, AllDifferent;
    DifferentIsApart(c);
  }

  /** The seconds of the ten ports of a window, as configured. */
  function Seconds(k: nat): nat
    requires k < 10
  {
    match k
    case 0 => 0
    case 1 => 1
    case 2 => 2
    case 3 => 8
    case 4 => 10
    case 5 => 30
    case 6 => 60
    case 7 => 120
    case 8 => 300
    case _ => 600
  }

  /** Each port of a window that no other window overlaps has its delay, and only the first drop port drops at once. */
  lemma EachPortItsDelay(c: PortConfig, k: nat)
    requires k < 10
    ensures !InWindow(c.dropStart, c.greetingStart + k) ==>
      Analyse(c, NORMAL, c.greetingStart + k) == Behaviour(Seconds(k), 0, false)
    ensures !InWindow(c.greetingStart, c.dropStart + k) ==>
      Analyse(c, NORMAL, c.dropStart + k) == Behaviour(0, Seconds(k), k == 0)
    ensures forall port :: !InWindow(c.greetingStart, port) && !InWindow(c.dropStart, port) ==>
      Analyse(c, NORMAL, port) == NORMAL
  {
    assert DELAYS[k] == Seconds(k);
  }

  /**
    The description of a port is true of the delays its analysis gives, and of all of them, exactly where the windows
    do not overlap.
  */
  lemma DescriptionAgrees(c: PortConfig, port: int)
    ensures IsTrueOf(Describe(c, port), Analyse(c, NORMAL, port))
      <==> !(InWindow(c.greetingStart, port) && InWindow(c.dropStart, port))
  {
    hide FormatNat;
    assert forall k :: 0 < k < 10 ==> DELAYS[k] > 0;
    assert DELAYS[0] == 0;
    if InWindow(c.greetingStart, port) && InWindow(c.dropStart, port) {
      assert Describe(c, port)[0] == 'G';
    }
  }
}
