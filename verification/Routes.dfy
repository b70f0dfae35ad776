/** Where a limit applies: the routes a target names, and the key by which equal routes are grouped. */
module Routes {
  import opened Seqs
  import opened Text
  import opened Limiter

  datatype RouteConfig = RouteConfig(vhost: string, route: string, direction: string)

  datatype Context = SidecarInbound | SidecarOutbound

  /** Everything that is not outbound is matched inbound. */
  function ContextOf(direction: string): Context {
    if direction == OUTBOUND then SidecarOutbound else SidecarInbound
  }

  function Key(rc: RouteConfig): string {
    rc.vhost + "/" + rc.route
  }

  /** The route config of one "vhost/route" string; a string of another shape names no route. */
  function NamedRoute(direction: string, name: string): seq<RouteConfig> {
    var parts := Split(name, '/');
    if |parts| == 2 then [RouteConfig(parts[0], parts[1], direction)] else []
  }

  /** A port of 0 stands for every port. */
  function InboundVhost(port: int): string {
    if port == 0 then ALLOW_ALL_PORT else INBOUND + "|http|" + FormatInt(port)
  }

  function RouteConfigs(target: Option<Target>): seq<RouteConfig> {
    if target.Some? && target.value.routes != [] then
      FlatMap(name => NamedRoute(target.value.direction, name), target.value.routes)
    else
      [RouteConfig(InboundVhost(if target.None? then 0 else target.value.port), INBOUND_DEFAULT_ROUTE, INBOUND)]
  }

  method GenerateRouteConfigs(target: Option<Target>) returns (rcs: seq<RouteConfig>)
    ensures rcs == RouteConfigs(target)
  {
    rcs := [];
    if target.Some? && |target.value.routes| > 0 {
      ghost var named := name => NamedRoute(target.value.direction, name);
      var routes := target.value.routes;
      for i := 0 to |routes|
        invariant rcs == FlatMap(named, routes[..i])
      {
        FlatMapSnoc(named, routes, i);
        var parts := Split(routes[i], '/');
        if |parts| != 2 {
          continue;
        }
        var vhostName, routeName := parts[0], parts[1];
        rcs := rcs + [RouteConfig(vhostName, routeName, target.value.direction)];
      }
      assert routes[..|routes|] == routes;
      return;
    }
    rcs := GenerateDefaultInboundRouteConfigs(target);
  }

  method GenerateDefaultInboundRouteConfigs(target: Option<Target>) returns (rcs: seq<RouteConfig>)
    ensures rcs ==
      [RouteConfig(InboundVhost(if target.None? then 0 else target.value.port), INBOUND_DEFAULT_ROUTE, INBOUND)]
  {
    if target.None? || target.value.port == 0 {
      rcs := [RouteConfig(ALLOW_ALL_PORT, INBOUND_DEFAULT_ROUTE, INBOUND)];
      return;
    }
    var vhostName := INBOUND + "|" + "http" + "|" + FormatInt(target.value.port);
    assert vhostName == InboundVhost(target.value.port);
    rcs := [RouteConfig(vhostName, INBOUND_DEFAULT_ROUTE, INBOUND)];
  }

  lemma {:induction false} SplitLength(s: string, sep: char)
    ensures |Split(s, sep)| == 1 + multiset(s)[sep]
  {
    if s != [] {
      SplitLength(s[1..], sep);
      assert s == [s[0]] + s[1..];
    }
  }

  /** A route string is accepted exactly when it holds one slash, and then its key is the string itself. */
  lemma NamedRouteRoundTrip(direction: string, name: string)
    ensures NamedRoute(direction, name) != [] <==> multiset(name)['/'] == 1
    ensures forall rc :: rc in NamedRoute(direction, name) ==> Key(rc) == name && rc.direction == direction
  {
    SplitLength(name, '/');
    JoinSplit(name, '/');
    var parts := Split(name, '/');
    if |parts| == 2 {
      assert Join(parts, '/') == parts[0] + ['/'] + Join(parts[1..], '/');
    }
  }

  /** No part of a route config that a target yields holds a slash. */
  ghost predicate SlashFree(rc: RouteConfig) {
    '/' !in rc.vhost && '/' !in rc.route
  }

  lemma InboundVhostSlashFree(port: int)
    ensures '/' !in InboundVhost(port)
  {
  }

  /** All route configs of one target are slash-free and share one direction. */
  lemma RouteConfigsShape(target: Option<Target>, rc: RouteConfig)
    requires rc in RouteConfigs(target)
    ensures SlashFree(rc)
    ensures rc.direction == if target.Some? && target.value.routes != [] then target.value.direction else INBOUND
  {
    if target.Some? && target.value.routes != [] {
      var named := name => NamedRoute(target.value.direction, name);
      InFlatMap(named, target.value.routes, rc);
      var i :| 0 <= i < |target.value.routes| && rc in named(target.value.routes[i]);
    } else {
      InboundVhostSlashFree(if target.None? then 0 else target.value.port);
    }
  }

  /** The target names the route: as virtual host, slash, route, with no other slash. */
  predicate NamesRoute(target: Target, vhost: string, route: string) {
    '/' !in vhost && '/' !in route && vhost + "/" + route in target.routes
  }

  /** The route configs of a target that names routes are exactly those, in the target's direction. */
  lemma RouteNamed(target: Target, rc: RouteConfig)
    requires target.routes != []
    ensures rc in RouteConfigs(Some(target)) <==>
      rc.direction == target.direction && NamesRoute(target, rc.vhost, rc.route)
  {
    hide Split;
    var named := name => NamedRoute(target.direction, name);
    InFlatMap(named, target.routes, rc);
    if rc in RouteConfigs(Some(target)) {
      RouteConfigsShape(Some(target), rc);
      var i :| 0 <= i < |target.routes| && rc in named(target.routes[i]);
      NamedRouteRoundTrip(target.direction, target.routes[i]);
    }
    if rc.direction == target.direction && NamesRoute(target, rc.vhost, rc.route) {
      var i :| 0 <= i < |target.routes| && target.routes[i] == rc.vhost + "/" + rc.route;
      SplitTwo(rc.vhost, rc.route, '/');
      assert target.routes[i] == rc.vhost + ['/'] + rc.route;
      assert rc in named(target.routes[i]);
    }
  }

  /** Splitting a key gives back the virtual host and the route. */
  lemma KeyRoundTrip(rc: RouteConfig)
    requires SlashFree(rc)
    ensures Split(Key(rc), '/') == [rc.vhost, rc.route]
  {
    SplitTwo(rc.vhost, rc.route, '/');
  }

  /** Over all targets, routes with one key have one virtual host and one route. */
  lemma KeyInjective(target: Option<Target>, other: Option<Target>, rc: RouteConfig, rc': RouteConfig)
    requires rc in RouteConfigs(target) && rc' in RouteConfigs(other)
    requires Key(rc) == Key(rc')
    ensures rc.vhost == rc'.vhost && rc.route == rc'.route
  {
    RouteConfigsShape(target, rc);
    RouteConfigsShape(other, rc');
    KeyRoundTrip(rc);
    KeyRoundTrip(rc');
  }

  /** Targets that name no route are told apart by their port. */
  lemma DefaultKeysTellPorts(t: Target, u: Target)
    requires t.routes == [] && u.routes == []
    ensures Key(RouteConfigs(Some(t))[0]) == Key(RouteConfigs(Some(u))[0]) <==> t.port == u.port
  {
    var rc, rc' := RouteConfigs(Some(t))[0], RouteConfigs(Some(u))[0];
    if Key(rc) == Key(rc') {
      KeyInjective(Some(t), Some(u), rc, rc');
      var prefix := INBOUND + "|http|";
      if t.port != 0 && u.port != 0 {
        assert (prefix + FormatInt(t.port))[|prefix|..] == FormatInt(t.port);
        assert (prefix + FormatInt(u.port))[|prefix|..] == FormatInt(u.port);
        FormatIntInjective(t.port, u.port);
      }
    }
  }
}
