/** The routing engine of internal/router/default_router.go: a table of destinations in insertion
    order, and the choice of the longest matching prefix (section 5.2.4.3 of RFC 1812). */
module Router {
  import opened Bytes

  datatype Route = Route(destination: string, gateway: string, iface: string, priority: int, enabled: bool)

  /** What `net.ParseCIDR` makes of a destination: the prefix length and the addresses it covers. */
  datatype Network = Network(ones: nat, contains: seq<byte> -> bool)

  type Cidr = string -> Option<Network>

  datatype PacketContext = PacketContext(packet: seq<byte>, dst: seq<byte>, protocol: string)

  // The table

  function Find(routes: seq<Route>, destination: string): Option<nat> {
    if routes == [] then None
    else if routes[0].destination == destination then Some(0)
    else match Find(routes[1..], destination) case None => None case Some(i) => Some(1 + i)
  }

  function Lookup(routes: seq<Route>, destination: string): Option<Route>
  {
    if routes == [] then None
    else if routes[0].destination == destination then Some(routes[0])
    else Lookup(routes[1..], destination)
  }

  function Added(routes: seq<Route>, route: Route): seq<Route> {
    if routes == [] then [route]
    else if routes[0].destination == route.destination then [route] + routes[1..]
    else [routes[0]] + Added(routes[1..], route)
  }

  function Removed(routes: seq<Route>, destination: string): seq<Route> {
    if routes == [] then []
    else if routes[0].destination == destination then routes[1..]
    else [routes[0]] + Removed(routes[1..], destination)
  }

  /** No two routes have the same destination. */
  predicate Distinct(routes: seq<Route>) {
    forall i, j :: 0 <= i < j < |routes| ==> routes[i].destination != routes[j].destination
  }

  lemma {:induction false} FindMeaning(routes: seq<Route>, destination: string)
    ensures match Find(routes, destination)
            case Some(i) => i < |routes| && routes[i].destination == destination
                            && (forall j :: 0 <= j < i ==> routes[j].destination != destination)
                            && Lookup(routes, destination) == Some(routes[i])
            case None => (forall r :: r in routes ==> r.destination != destination) && Lookup(routes, destination) == None
    decreases |routes|
  {
    if routes != [] {
      FindMeaning(routes[1..], destination);
      if Find(routes, destination).None? {
        FirstAndRest(routes);
      }
    }
  }

  /** Replacing where the destination is found, appending where it is not. */
  lemma {:induction false} AddedShape(routes: seq<Route>, route: Route)
    ensures Added(routes, route)
            == match Find(routes, route.destination)
               case Some(i) => if i < |routes| then routes[i := route] else routes
               case None => routes + [route]
    decreases |routes|
  {
    if routes != [] {
      AddedShape(routes[1..], route);
      FindMeaning(routes, route.destination);
      FindMeaning(routes[1..], route.destination);
    }
  }

  lemma DropInTail(s: seq<Route>, i: nat)
    requires 1 + i < |s|
    ensures [s[0]] + (s[1..][..i] + s[1..][i + 1..]) == s[..1 + i] + s[1 + i + 1..]
  {
  }

  lemma {:induction false} RemovedShape(routes: seq<Route>, destination: string)
    ensures match Find(routes, destination)
            case Some(i) => i < |routes| && Removed(routes, destination) == routes[..i] + routes[i + 1..]
            case None => Removed(routes, destination) == routes
    decreases |routes|
  {
    FindMeaning(routes, destination);
    if routes != [] && routes[0].destination != destination {
      RemovedShape(routes[1..], destination);
      FindMeaning(routes[1..], destination);
      FirstAndRest(routes);
      if Find(routes, destination).Some? {
        DropInTail(routes, Find(routes[1..], destination).value);
      }
    }
  }

  lemma AddKeepsDistinct(routes: seq<Route>, route: Route)
    requires Distinct(routes)
    ensures Distinct(Added(routes, route))
  {
    AddedShape(routes, route);
    FindMeaning(routes, route.destination);
  }

  lemma RemoveKeepsDistinct(routes: seq<Route>, destination: string)
    requires Distinct(routes)
    ensures Distinct(Removed(routes, destination))
  {
    RemovedShape(routes, destination);
    FindMeaning(routes, destination);
  }

  /** Adding a route sets one entry of the table. */
  lemma {:induction false} AddSetsEntry(routes: seq<Route>, route: Route, d: string)
    ensures Lookup(Added(routes, route), d) == if d == route.destination then Some(route) else Lookup(routes, d)
    decreases |routes|
  {
    if routes != [] && routes[0].destination != route.destination {
      AddSetsEntry(routes[1..], route, d);
    }
  }

  /** Removing one clears one entry: with distinct destinations nothing else is hidden behind it. */
  lemma {:induction false} RemoveClearsEntry(routes: seq<Route>, destination: string, d: string)
    requires Distinct(routes)
    ensures Lookup(Removed(routes, destination), d) == if d == destination then None else Lookup(routes, d)
    decreases |routes|
  {
    if routes != [] {
      if routes[0].destination == destination {
        FindMeaning(routes[1..], destination);
      } else {
        RemoveClearsEntry(routes[1..], destination, d);
      }
    }
  }

  /** Removing a route that was new when it was added restores the table, order included. */
  lemma {:induction false} RemoveUndoesAdd(routes: seq<Route>, route: Route)
    requires Lookup(routes, route.destination).None?
    ensures Removed(Added(routes, route), route.destination) == routes
    decreases |routes|
  {
    if routes != [] {
      RemoveUndoesAdd(routes[1..], route);
      FirstAndRest(routes);
    }
  }

  // Runs of changes

  datatype Change = Add(route: Route) | Remove(destination: string)

  /** The table after the changes, the last one last. */
  function Applied(cidr: Cidr, changes: seq<Change>): seq<Route> {
    if changes == [] then []
    else
      var before := Applied(cidr, changes[..|changes| - 1]);
      match changes[|changes| - 1]
      case Add(route) => if cidr(route.destination).Some? then Added(before, route) else before
      case Remove(destination) => Removed(before, destination)
  }

  /** The same as a map. */
  function Entries(cidr: Cidr, changes: seq<Change>): map<string, Route> {
    if changes == [] then map[]
    else
      var before := Entries(cidr, changes[..|changes| - 1]);
      match changes[|changes| - 1]
      case Add(route) => if cidr(route.destination).Some? then before[route.destination := route] else before
      case Remove(destination) => before - {destination}
  }

  /** After every run of changes the destinations are distinct, and looking a destination up finds what
      a map would hold: the last route added for it and not removed since. */
  lemma {:induction false} TableIsMap(cidr: Cidr, changes: seq<Change>, d: string)
    ensures Distinct(Applied(cidr, changes))
    ensures Lookup(Applied(cidr, changes), d)
            == if d in Entries(cidr, changes) then Some(Entries(cidr, changes)[d]) else None
    decreases |changes|
  {
    if changes != [] {
      var init := changes[..|changes| - 1];
      TableIsMap(cidr, init, d);
      var before := Applied(cidr, init);
      match changes[|changes| - 1]
      case Add(route) =>
        AddKeepsDistinct(before, route);
        AddSetsEntry(before, route, d);
      case Remove(destination) =>
        RemoveKeepsDistinct(before, destination);
        RemoveClearsEntry(before, destination, d);
    }
  }

  // The choice

  /** An enabled route whose network covers `dst`, with a prefix of at least one bit. */
  predicate Matches(cidr: Cidr, r: Route, dst: seq<byte>) {
    r.enabled && cidr(r.destination).Some? && cidr(r.destination).value.contains(dst)
    && cidr(r.destination).value.ones >= 1
  }

  function Ones(cidr: Cidr, r: Route): nat {
    match cidr(r.destination) case None => 0 case Some(n) => n.ones
  }

  /** Route `k` is the first of the longest matches. */
  predicate Chosen(cidr: Cidr, routes: seq<Route>, dst: seq<byte>, k: nat)
    requires k < |routes|
  {
    && Matches(cidr, routes[k], dst)
    && (forall j :: 0 <= j < |routes| && Matches(cidr, routes[j], dst) ==> Ones(cidr, routes[j]) <= Ones(cidr, routes[k]))
    && (forall j :: 0 <= j < k && Matches(cidr, routes[j], dst) ==> Ones(cidr, routes[j]) < Ones(cidr, routes[k]))
  }

  /** The scan of `RoutePacket`: starts from length 0 and takes strictly longer matches, and so
      finds the first longest match, and nothing exactly when only prefixes of length zero match. */
  method SelectRoute(cidr: Cidr, routes: seq<Route>, dst: seq<byte>) returns (best: Option<nat>)
    ensures best.None? <==> forall r :: r in routes ==> !Matches(cidr, r, dst)
    ensures best.Some? ==> best.value < |routes| && Chosen(cidr, routes, dst, best.value)
  {
    best := None;
    var bestMatchLen := 0;
    var i := 0;
    while i < |routes|
      invariant 0 <= i <= |routes|
      invariant best.None? ==> bestMatchLen == 0 && forall j :: 0 <= j < i ==> !Matches(cidr, routes[j], dst)
      invariant best.Some? ==> best.value < i && Chosen(cidr, routes[..i], dst, best.value)
                               && bestMatchLen == Ones(cidr, routes[best.value])
    {
      if routes[i].enabled {
        var ipNet := cidr(routes[i].destination);
        if ipNet.Some? && ipNet.value.contains(dst) && ipNet.value.ones > bestMatchLen {
          bestMatchLen := ipNet.value.ones;
          best := Some(i);
        }
      }
      i := i + 1;
    }
    assert routes[..i] == routes;
  }

  /** A new route takes over a destination exactly when it matches with a longer prefix than the route
      chosen before; otherwise the choice stays. */
  lemma NewRouteTakesOver(cidr: Cidr, routes: seq<Route>, route: Route, dst: seq<byte>, k: nat)
    requires k < |routes| && Chosen(cidr, routes, dst, k) && Lookup(routes, route.destination).None?
    ensures var routes' := Added(routes, route);
            |routes'| == |routes| + 1 && routes'[|routes|] == route
            && if Matches(cidr, route, dst) && Ones(cidr, route) > Ones(cidr, routes[k])
               then Chosen(cidr, routes', dst, |routes|) else Chosen(cidr, routes', dst, k)
  {
    FindMeaning(routes, route.destination);
    AddedShape(routes, route);
  }

  // The engine

  /** `ctx.Dst` when the context names the protocol, else the destination in the IP header. */
  function DstOf(ctx: PacketContext): Option<seq<byte>> {
    if ctx.protocol == "IPv4" || ctx.protocol == "IPv6" then Some(ctx.dst)
    else if |ctx.packet| >= 20 && ctx.packet[0] / 16 == 4 then Some(ctx.packet[16..20])
    else if |ctx.packet| >= 40 && ctx.packet[0] / 16 == 6 then Some(ctx.packet[24..40])
    else None
  }

  /** In an IPv4 packet, whatever its options, and in an IPv6 packet, that is the second address. */
  lemma DestinationIsSecond(ctx: PacketContext, head: seq<byte>, src: seq<byte>, dst: seq<byte>, rest: seq<byte>)
    requires ctx.protocol != "IPv4" && ctx.protocol != "IPv6" && ctx.packet == head + src + dst + rest
    requires || (|head| == 12 && |src| == |dst| == 4 && head[0] / 16 == 4)
             || (|head| == 8 && |src| == |dst| == 16 && head[0] / 16 == 6)
    ensures DstOf(ctx) == Some(dst)
  {
    var p := head + src + dst + rest;
    assert p[|head| + |src|..|head| + |src| + |dst|] == dst && p[0] == head[0];
  }

  datatype Outcome = NotRunning | Unparsed | NoRoute | NoInterface | SendFailed | Routed

  datatype InterfaceStats = InterfaceStats(packetsSent: nat, bytesSent: nat, errors: nat)

  const NoTraffic := InterfaceStats(0, 0, 0)

  /** An interface handler, with the packets it has been given and has accepted. */
  class Handler {
    var sent: seq<seq<byte>>

    method SendPacket(packet: seq<byte>, accepts: bool) returns (ok: bool)
      modifies this
      ensures ok == accepts && sent == if ok then old(sent) + [packet] else old(sent)
    {
      ok := accepts;
      if ok {
        sent := sent + [packet];
      }
    }
  }

  class DefaultRouter {
    const cidr: Cidr
    var routes: seq<Route>
    var interfaces: map<string, Handler>
    var interfaceStats: map<string, InterfaceStats>
    var running: bool
    var packetsProcessed: nat
    var packetsRouted: nat
    var packetsDropped: nat
    var errors: nat

    /** Destinations are distinct and every packet since the last start is accounted for. */
    ghost predicate Valid()
      reads this
    {
      && Distinct(routes) && interfaceStats.Keys <= interfaces.Keys
      && (forall r :: r in routes ==> cidr(r.destination).Some?)
      && packetsProcessed == packetsRouted + packetsDropped + errors
    }

    constructor (cidr: Cidr)
      ensures Valid() && this.cidr == cidr && routes == [] && interfaces == map[] && !running
    {
      this.cidr := cidr;
      routes, interfaces, interfaceStats, running := [], map[], map[], false;
      packetsProcessed, packetsRouted, packetsDropped, errors := 0, 0, 0, 0;
    }

    method Start() returns (ok: bool)
      requires Valid()
      modifies this
      ensures Valid() && ok == !old(running) && running && routes == old(routes) && interfaces == old(interfaces)
      ensures ok ==> packetsProcessed == 0 && interfaceStats == map name | name in interfaces :: NoTraffic
      ensures !ok ==> packetsProcessed == old(packetsProcessed) && interfaceStats == old(interfaceStats)
    {
      if running {
        return false;
      }
      running := true;
      packetsProcessed, packetsRouted, packetsDropped, errors := 0, 0, 0, 0;
      interfaceStats := map name | name in interfaces :: NoTraffic;
      ok := true;
    }

    method Stop() returns (ok: bool)
      requires Valid()
      modifies this`running
      ensures Valid() && ok == old(running) && !running
    {
      ok := running;
      running := false;
    }

    /** `AddRoute` of a route that is not nil. */
    method AddRoute(route: Route) returns (ok: bool)
      requires Valid()
      modifies this`routes
      ensures Valid() && (ok <==> cidr(route.destination).Some?)
      ensures routes == if ok then Added(old(routes), route) else old(routes)
    {
      if cidr(route.destination).None? {
        return false;
      }
      AddKeepsDistinct(routes, route);
      AddedShape(routes, route);
      FindMeaning(routes, route.destination);
      var i := 0;
      while i < |routes|
        invariant 0 <= i <= |routes| && forall j :: 0 <= j < i ==> routes[j].destination != route.destination
      {
        if routes[i].destination == route.destination {
          routes := routes[i := route];
          return true;
        }
        i := i + 1;
      }
      routes := routes + [route];
      ok := true;
    }

    method RemoveRoute(destination: string) returns (ok: bool)
      requires Valid()
      modifies this`routes
      ensures Valid() && routes == Removed(old(routes), destination)
      ensures ok <==> Lookup(old(routes), destination).Some?
    {
      hide Removed;
      RemoveKeepsDistinct(routes, destination);
      RemovedShape(routes, destination);
      FindMeaning(routes, destination);
      var i := 0;
      while i < |routes|
        invariant 0 <= i <= |routes| && forall j :: 0 <= j < i ==> routes[j].destination != destination
      {
        if routes[i].destination == destination {
          routes := routes[..i] + routes[i + 1..];
          return true;
        }
        i := i + 1;
      }
      ok := false;
    }

    method RegisterInterface(name: string, handler: Handler) returns (ok: bool)
      requires Valid()
      modifies this`interfaces, this`interfaceStats
      ensures Valid() && (ok <==> name != "" && name !in old(interfaces))
      ensures interfaces == if ok then old(interfaces)[name := handler] else old(interfaces)
      ensures interfaceStats == if ok then old(interfaceStats)[name := NoTraffic] else old(interfaceStats)
    {
      ok := name != "" && name !in interfaces;
      if ok {
        interfaces := interfaces[name := handler];
        interfaceStats := interfaceStats[name := NoTraffic];
      }
    }

    method UnregisterInterface(name: string) returns (ok: bool)
      requires Valid()
      modifies this`interfaces, this`interfaceStats
      ensures Valid() && (ok <==> name in old(interfaces))
      ensures interfaces == old(interfaces) - {name} && interfaceStats == old(interfaceStats) - {name}
    {
      ok := name in interfaces;
      assert !ok ==> interfaces == interfaces - {name} && interfaceStats == interfaceStats - {name};
      if ok {
        interfaces := interfaces - {name};
        interfaceStats := interfaceStats - {name};
      }
    }

    /** `RoutePacket`: the packet goes to the interface of the chosen route, and exactly one counter
        says what became of it.  `accepts` is what the interface answers. */
    method RoutePacket(ctx: PacketContext, accepts: bool) returns (outcome: Outcome, best: Option<nat>)
      requires Valid()
      modifies this, interfaces.Values
      ensures Valid() && routes == old(routes) && interfaces == old(interfaces) && running == old(running)
      ensures outcome == NotRunning <==> !running
      ensures outcome == Unparsed <==> running && DstOf(ctx).None?
      ensures running && DstOf(ctx).Some? ==> Decision(DstOf(ctx).value, outcome, best)
      ensures (outcome == Routed ==> accepts) && (outcome == SendFailed ==> !accepts)
      ensures packetsProcessed == old(packetsProcessed) + (if running then 1 else 0)
      ensures packetsRouted == old(packetsRouted) + (if outcome == Routed then 1 else 0)
      ensures errors == old(errors) + (if outcome == SendFailed then 1 else 0)
      ensures forall h :: h in interfaces.Values ==>
                h.sent == if outcome == Routed && best.Some? && best.value < |routes|
                             && routes[best.value].iface in interfaces && h == interfaces[routes[best.value].iface]
                          then old(h.sent) + [ctx.packet] else old(h.sent)
      ensures interfaceStats ==
              match outcome
              case Routed => Noted(old(interfaceStats), routes[best.value].iface, InterfaceStats(1, |ctx.packet|, 0))
              case SendFailed => Noted(old(interfaceStats), routes[best.value].iface, InterfaceStats(0, 0, 1))
              case _ => old(interfaceStats)
    {
      best := None;
      if !running {
        return NotRunning, best;
      }
      packetsProcessed := packetsProcessed + 1;
      var dst := DstOf(ctx);
      if dst.None? {
        packetsDropped := packetsDropped + 1;
        return Unparsed, best;
      }
      best := SelectRoute(cidr, routes, dst.value);
      if best.Some? && routes[best.value].iface in interfaces {
        outcome := SendTo(routes[best.value].iface, ctx.packet, accepts);
      } else {
        packetsDropped := packetsDropped + 1;
        outcome := if best.None? then NoRoute else NoInterface;
      }
    }

    /** The route taken for `dst` is the chosen one, and no other outcome than the following has a
        route or an interface to blame. */
    predicate Decision(dst: seq<byte>, outcome: Outcome, best: Option<nat>)
      reads this`routes, this`interfaces
    {
      && (best.None? <==> forall r :: r in routes ==> !Matches(cidr, r, dst))
      && (best.Some? ==> best.value < |routes| && Chosen(cidr, routes, dst, best.value))
      && (outcome == NoRoute <==> best.None?)
      && (outcome == NoInterface <==> best.Some? && routes[best.value].iface !in interfaces)
      && (outcome == Routed || outcome == SendFailed <==> best.Some? && routes[best.value].iface in interfaces)
    }

    /** The sending part: the handler, then the counters. */
    method SendTo(name: string, packet: seq<byte>, accepts: bool) returns (outcome: Outcome)
      requires name in interfaces
      modifies this`packetsRouted, this`errors, this`interfaceStats, interfaces[name]
      ensures outcome == if accepts then Routed else SendFailed
      ensures packetsRouted == old(packetsRouted) + (if outcome == Routed then 1 else 0)
      ensures errors == old(errors) + (if outcome == SendFailed then 1 else 0)
      ensures forall h :: h in interfaces.Values ==>
                h.sent == if outcome == Routed && h == interfaces[name] then old(h.sent) + [packet] else old(h.sent)
      ensures interfaceStats.Keys == old(interfaceStats.Keys)
      ensures interfaceStats == Noted(old(interfaceStats), name,
                                      if outcome == Routed then InterfaceStats(1, |packet|, 0) else InterfaceStats(0, 0, 1))
    {
      var ok := interfaces[name].SendPacket(packet, accepts);
      if ok {
        packetsRouted := packetsRouted + 1;
        Note(name, InterfaceStats(1, |packet|, 0));
        outcome := Routed;
      } else {
        errors := errors + 1;
        Note(name, InterfaceStats(0, 0, 1));
        outcome := SendFailed;
      }
    }

    /** Adds to the counters of an interface, if it has any. */
    method Note(name: string, more: InterfaceStats)
      modifies this`interfaceStats
      ensures interfaceStats == Noted(old(interfaceStats), name, more)
    {
      if name in interfaceStats {
        var s := interfaceStats[name];
        interfaceStats := interfaceStats[name := InterfaceStats(s.packetsSent + more.packetsSent,
                                                                s.bytesSent + more.bytesSent, s.errors + more.errors)];
      }
    }
  }

  function Noted(stats: map<string, InterfaceStats>, name: string, more: InterfaceStats): map<string, InterfaceStats> {
    if name !in stats then stats
    else
      var s := stats[name];
      stats[name := InterfaceStats(s.packetsSent + more.packetsSent, s.bytesSent + more.bytesSent, s.errors + more.errors)]
  }
}
