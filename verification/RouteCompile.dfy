/** Routes compiled to Caddy virtual hosts and Nginx server blocks, and how the
    layers meet the ports Docker publishes. */
module RouteCompile {
  import opened Common
  import opened Ports
  import opened Routing

  /** What the generators read besides the routes. */
  datatype Setup = Setup(defs: map<Service, ServiceDef>, colors: map<Service, Color>, domain: string, env: set<string>) {
    /** The active color; a service without a recorded one is blue. */
    function ColorOf(s: Service): Color {
      if s in colors then colors[s] else Blue
    }

    /** Colors are read for defined services only, and definitions carry their own name. */
    predicate Consistent() {
      && colors.Keys == defs.Keys
      && forall s :: s in defs ==> defs[s].service == s
    }
  }

  /** A name with a dot is used as it is. */
  function Fqdn(sub: string, domain: string): string {
    if '.' in sub then sub else sub + "." + domain
  }

  datatype CaddyBlock = CaddyBlock(host: string, port: Port, noCache: bool, auth: Option<string>)
  datatype ServerBlock = ServerBlock(name: string, upstream: Port, noCache: bool)

  // ---------- Caddy ----------

  /** Offsets Caddy knows by heart for two services; routes to the host have none. */
  function FixedOffset(s: Service, c: Color): Option<Port> {
    if s == "host" then Some(0)
    else if s == "paseo" then Some(if c.Blue? then 10000 else 20000)
    else if s == "apps" then Some(if c.Blue? then 0 else 10000)
    else None
  }

  function CaddyPort(r: Route, x: Setup): Port {
    var c := x.ColorOf(r.target);
    match FixedOffset(r.target, c)
    case Some(offset) => AddPort(r.port, offset)
    case None => if r.target in x.defs then x.defs[r.target].scheme.HostPort(c, r.port) else r.port
  }

  function ToCaddyBlock(r: Route, x: Setup): CaddyBlock {
    CaddyBlock(Fqdn(r.subdomain, x.domain), CaddyPort(r, x), r.noCache,
               if r.authEnv.Some? && r.authEnv.value in x.env then r.authEnv else None)
  }

  /** The service is recorded as green. */
  predicate IsGreen(x: Setup, s: Service) { s in x.colors && x.colors[s].Green? }

  /** The port of a route on the host: its own for the host and for what is not
      defined; with the color's offset otherwise, which Caddy knows by heart for
      two services. */
  predicate PortIs(port: Port, r: Route, x: Setup) {
    var green := IsGreen(x, r.target);
    if r.target == "host" then port == r.port
    else if r.target == "paseo" then port == (r.port + if green then 20000 else 10000) % 0x1_0000
    else if r.target == "apps" then port == (r.port + if green then 10000 else 0) % 0x1_0000
    else if r.target in x.defs then
      var scheme := x.defs[r.target].scheme;
      port == (r.port + if green then scheme.green else scheme.blue) % 0x1_0000
    else port == r.port
  }

  /** The block is what the route asks for; a password only if the environment has it. */
  ghost predicate AsRouted(b: CaddyBlock, r: Route, x: Setup) {
    && b.host == (if '.' in r.subdomain then r.subdomain else r.subdomain + "." + x.domain)
    && PortIs(b.port, r, x) && b.noCache == r.noCache
    && forall e :: b.auth == Some(e) <==> r.authEnv == Some(e) && e in x.env
  }

  lemma BlockAsRouted(r: Route, x: Setup)
    ensures AsRouted(ToCaddyBlock(r, x), r, x)
  {
  }

  /** One is the other with the domain spelled out. */
  predicate Collide(a: string, b: string, domain: string) {
    ('.' !in a && b == a + "." + domain) || ('.' !in b && a == b + "." + domain)
  }

  predicate SomeCollide(routes: seq<Route>, domain: string) {
    exists i, j :: 0 <= i < j < |routes| && Collide(routes[i].subdomain, routes[j].subdomain, domain)
  }

  predicate HostsDistinct(blocks: seq<CaddyBlock>) {
    forall i, j :: 0 <= i < j < |blocks| ==> blocks[i].host != blocks[j].host
  }

  /** One virtual host per route, in order. For a sorted map of routes no two of
      them have one host name, if and only if no two subdomains collide. */
  method GenerateCaddy(routes: seq<Route>, x: Setup) returns (blocks: seq<CaddyBlock>)
    ensures |blocks| == |routes|
    ensures forall k :: 0 <= k < |routes| ==> blocks[k] == ToCaddyBlock(routes[k], x) && AsRouted(blocks[k], routes[k], x)
    ensures StrictlySorted(routes) ==> (HostsDistinct(blocks) <==> !SomeCollide(routes, x.domain))
  {
    blocks := [];
    for i := 0 to |routes|
      invariant |blocks| == i
      invariant forall k :: 0 <= k < i ==> blocks[k] == ToCaddyBlock(routes[k], x) && AsRouted(blocks[k], routes[k], x)
    {
      BlockAsRouted(routes[i], x);
      blocks := blocks + [ToCaddyBlock(routes[i], x)];
    }
    if StrictlySorted(routes) { HostsCollide(routes, x, blocks); }
  }

  lemma HostsCollide(routes: seq<Route>, x: Setup, blocks: seq<CaddyBlock>)
    requires StrictlySorted(routes) && |blocks| == |routes|
    requires forall k :: 0 <= k < |routes| ==> blocks[k] == ToCaddyBlock(routes[k], x)
    ensures HostsDistinct(blocks) <==> !SomeCollide(routes, x.domain)
  {
    forall i, j | 0 <= i < j < |routes|
      ensures blocks[i].host == blocks[j].host <==> Collide(routes[i].subdomain, routes[j].subdomain, x.domain)
    {
      LessIrreflexive(routes[i].subdomain);
      NamesCollide(routes[i].subdomain, routes[j].subdomain, x.domain);
    }
  }

  /** Caddy's arithmetic for the service is the one of its definition. */
  predicate OffsetsAgree(def: ServiceDef, c: Color) {
    var offset := if c.Green? then def.scheme.green else def.scheme.blue;
    && (def.service == "host" ==> offset == 0)
    && (def.service == "paseo" ==> offset == if c.Green? then 20000 else 10000)
    && (def.service == "apps" ==> offset == if c.Green? then 10000 else 0)
  }

  lemma AddPortInjective(p: Port, a: Port, b: Port)
    ensures AddPort(p, a) == AddPort(p, b) <==> a == b
  {
  }

  /** A route declared by a service goes to a port that the service's active
      container publishes for the declared container port, exactly when Caddy's
      offsets for that service are the definition's. */
  lemma ServiceRouteMeetsContainer(x: Setup, def: ServiceDef, i: nat, r: Route)
    requires x.Consistent() && def.service in x.defs && x.defs[def.service] == def
    requires i < |def.ports| && r in PortToRoutes(def.service, def.ports[i])
    ensures def.Publishes(r.port) && r.port == def.ports[i].containerPort
    ensures CaddyPort(r, x) == def.scheme.HostPort(x.ColorOf(def.service), r.port)
       <==> OffsetsAgree(def, x.ColorOf(def.service))
  {
    var c := x.ColorOf(def.service);
    assert NamedAt(def.ports, i, r.port);
    AddPortInjective(r.port, def.scheme.Offset(c),
                     if FixedOffset(def.service, c).Some? then FixedOffset(def.service, c).value else 0);
  }

  /** Where a route of the service layer comes from. */
  lemma {:induction false} ServiceRouteOrigin(defs: seq<ServiceDef>, r: Route)
    requires r in ServiceRoutes(defs)
    ensures exists d, i :: 0 <= d < |defs| && 0 <= i < |defs[d].ports| && r in PortToRoutes(defs[d].service, defs[d].ports[i])
  {
    var n := |defs| - 1;
    if r in ServiceRoutes(defs[..n]) {
      ServiceRouteOrigin(defs[..n], r);
      var d, i :| 0 <= d < n && 0 <= i < |defs[..n][d].ports|
                  && r in PortToRoutes(defs[..n][d].service, defs[..n][d].ports[i]);
      assert defs[..n][d] == defs[d];
    } else {
      PortRouteOrigin(defs[n].service, defs[n].ports, r);
    }
  }

  lemma {:induction false} PortRouteOrigin(s: Service, ports: seq<NamedPort>, r: Route)
    requires r in PortRoutes(s, ports)
    ensures exists i :: 0 <= i < |ports| && r in PortToRoutes(s, ports[i])
  {
    var n := |ports| - 1;
    if r in PortRoutes(s, ports[..n]) {
      PortRouteOrigin(s, ports[..n], r);
      var i :| 0 <= i < n && r in PortToRoutes(s, ports[..n][i]);
      assert ports[..n][i] == ports[i];
    }
  }

  /** Every route of the merged map that a service declared itself meets its
      active container, when the hard-coded offsets are the definitions'. */
  lemma ServiceLayerReachesContainers(t: Tables, x: Setup, routes: seq<Route>, k: nat)
    requires IsRouteMap(t, routes) && k < |routes| && x.Consistent()
    requires forall d :: 0 <= d < |t.defs| ==>
               t.defs[d].service in x.defs && x.defs[t.defs[d].service] == t.defs[d]
    requires forall d :: 0 <= d < |t.defs| ==> OffsetsAgree(t.defs[d], x.ColorOf(t.defs[d].service))
    requires LastFor(PreviewRoutes(t.previews), routes[k].subdomain).None?
    requires LastFor(AppRoutes(t.apps), routes[k].subdomain).None?
    requires LastFor(StaticRoutes(t.statics), routes[k].subdomain).None?
    ensures var r := routes[k];
            && r.target in x.defs
            && x.defs[r.target].Publishes(r.port)
            && ToCaddyBlock(r, x).port == x.defs[r.target].scheme.HostPort(x.ColorOf(r.target), r.port)
  {
    var r := routes[k];
    FirstForName(ServiceRoutes(t.defs), r.subdomain);
    ServiceRouteOrigin(t.defs, r);
    var d, i :| 0 <= d < |t.defs| && 0 <= i < |t.defs[d].ports| && r in PortToRoutes(t.defs[d].service, t.defs[d].ports[i]);
    ServiceRouteMeetsContainer(x, t.defs[d], i, r);
  }

  // ---------- Nginx ----------

  function ToServerBlocks(r: Route, domain: string): seq<ServerBlock> {
    if r.internalPort.None? || r.target != "apps" then []
    else [ServerBlock(Fqdn(r.subdomain, domain), r.internalPort.value, r.noCache)]
  }

  function NginxBlocks(routes: seq<Route>, domain: string): seq<ServerBlock> {
    if routes == [] then []
    else NginxBlocks(routes[..|routes| - 1], domain) + ToServerBlocks(routes[|routes| - 1], domain)
  }

  /** The block is that of a route to an app. */
  predicate ServesApp(b: ServerBlock, r: Route, domain: string) {
    && r.target == "apps" && r.internalPort == Some(b.upstream) && b.noCache == r.noCache
    && b.name == if '.' in r.subdomain then r.subdomain else r.subdomain + "." + domain
  }

  /** There is one for each route to an app, and no other. */
  lemma {:induction false} NginxServesApps(routes: seq<Route>, domain: string, b: ServerBlock)
    ensures b in NginxBlocks(routes, domain) <==> exists k :: 0 <= k < |routes| && ServesApp(b, routes[k], domain)
  {
    if routes != [] {
      var n := |routes| - 1;
      var front := routes[..n];
      NginxServesApps(front, domain, b);
      assert b in ToServerBlocks(routes[n], domain) <==> ServesApp(b, routes[n], domain);
      if k :| 0 <= k < |front| && ServesApp(b, front[k], domain) { assert ServesApp(b, routes[k], domain); }
      if k :| 0 <= k < |routes| && ServesApp(b, routes[k], domain) { assert k == n || ServesApp(b, front[k], domain); }
    }
  }

  predicate IsAppRoute(r: Route) {
    r.internalPort.Some? && r.target == "apps"
  }

  predicate Answers(r: Route, domain: string, name: string) {
    IsAppRoute(r) && Fqdn(r.subdomain, domain) == name
  }

  /** How many server blocks answer to a name. */
  function BlocksNamed(blocks: seq<ServerBlock>, name: string): nat {
    if blocks == [] then 0
    else BlocksNamed(blocks[..|blocks| - 1], name) + if blocks[|blocks| - 1].name == name then 1 else 0
  }

  /** How many app routes resolve to a name. */
  function AppsNamed(routes: seq<Route>, domain: string, name: string): nat {
    if routes == [] then 0
    else
      AppsNamed(routes[..|routes| - 1], domain, name)
      + if Answers(routes[|routes| - 1], domain, name) then 1 else 0
  }

  lemma BlocksNamedSnoc(blocks: seq<ServerBlock>, b: ServerBlock, name: string)
    ensures BlocksNamed(blocks + [b], name) == BlocksNamed(blocks, name) + if b.name == name then 1 else 0
  {
    assert (blocks + [b])[..|blocks|] == blocks;
  }

  lemma BlocksNamedMore(blocks: seq<ServerBlock>, r: Route, domain: string, name: string)
    ensures BlocksNamed(blocks + ToServerBlocks(r, domain), name)
         == BlocksNamed(blocks, name) + if Answers(r, domain, name) then 1 else 0
  {
    if IsAppRoute(r) {
      BlocksNamedSnoc(blocks, ServerBlock(Fqdn(r.subdomain, domain), r.internalPort.value, r.noCache), name);
    } else {
      assert blocks + [] == blocks;
    }
  }

  lemma {:induction false} BlocksCountApps(routes: seq<Route>, domain: string, name: string)
    ensures BlocksNamed(NginxBlocks(routes, domain), name) == AppsNamed(routes, domain, name)
  {
    if routes != [] {
      var front, r := routes[..|routes| - 1], routes[|routes| - 1];
      BlocksCountApps(front, domain, name);
      BlocksNamedMore(NginxBlocks(front, domain), r, domain, name);
    }
  }

  /** Another app route answers to the same name. */
  predicate Shadowed(routes: seq<Route>, domain: string, k: nat)
    requires k < |routes|
  {
    exists j :: 0 <= j < |routes| && j != k && IsAppRoute(routes[j])
                && Fqdn(routes[j].subdomain, domain) == Fqdn(routes[k].subdomain, domain)
  }

  lemma {:induction false} CountOne(routes: seq<Route>, domain: string, k: nat)
    requires k < |routes| && IsAppRoute(routes[k])
    ensures AppsNamed(routes, domain, Fqdn(routes[k].subdomain, domain)) >= 1
    ensures AppsNamed(routes, domain, Fqdn(routes[k].subdomain, domain)) == 1 <==> !Shadowed(routes, domain, k)
  {
    var n, name := |routes| - 1, Fqdn(routes[k].subdomain, domain);
    var front := routes[..n];
    if k < n {
      CountOne(front, domain, k);
      assert Shadowed(routes, domain, k) <==>
             Shadowed(front, domain, k) || (IsAppRoute(routes[n]) && Fqdn(routes[n].subdomain, domain) == name) by {
        forall j | 0 <= j < n ensures front[j] == routes[j] {}
      }
    } else {
      CountZero(front, domain, name);
      forall j | 0 <= j < n ensures front[j] == routes[j] {}
    }
  }

  lemma {:induction false} CountZero(routes: seq<Route>, domain: string, name: string)
    ensures AppsNamed(routes, domain, name) == 0 <==>
            forall j :: 0 <= j < |routes| && IsAppRoute(routes[j]) ==> Fqdn(routes[j].subdomain, domain) != name
  {
    if routes != [] {
      var front := routes[..|routes| - 1];
      CountZero(front, domain, name);
      forall j | 0 <= j < |front| ensures front[j] == routes[j] {}
    }
  }

  /** Two names become one exactly when one is the other with the domain spelled out. */
  lemma NamesCollide(a: string, b: string, domain: string)
    requires a != b
    ensures Fqdn(a, domain) == Fqdn(b, domain) <==> Collide(a, b, domain)
  {
    assert '.' in a + "." + domain by { assert (a + "." + domain)[|a|] == '.'; }
    assert '.' in b + "." + domain by { assert (b + "." + domain)[|b|] == '.'; }
    if a + "." + domain == b + "." + domain { SameSuffix(a, b, domain); }
  }

  lemma SameSuffix(a: string, b: string, domain: string)
    requires a + "." + domain == b + "." + domain
    ensures a == b
  {
    var x := a + "." + domain;
    assert |a| == |b|;
    assert a == x[..|a|] && b == x[..|b|];
  }

  /** Such a pair: both apps claim `a.b`, and Nginx gets two blocks for it. */
  lemma OneNameTwice(first: Port, second: Port)
    ensures var routes := [AppToRoute(App("a", first, false)), AppToRoute(App("a.b", second, false))];
            Shadowed(routes, "b", 0) && BlocksNamed(NginxBlocks(routes, "b"), "a.b") != 1
  {
    var routes := [AppToRoute(App("a", first, false)), AppToRoute(App("a.b", second, false))];
    NamesCollide("a", "a.b", "b");
    assert "a.b" == "a" + "." + "b";
    assert Fqdn(routes[1].subdomain, "b") == Fqdn(routes[0].subdomain, "b") == "a.b";
    BlocksCountApps(routes, "b", "a.b");
    CountOne(routes, "b", 0);
  }

  /** An app's row in the table, not hidden by a preview, becomes one route to
      port 8080 of the apps container; Caddy's port for it is the one the active
      apps container publishes for 8080 exactly when the apps offsets are the
      known ones. Nginx has exactly one block for its name, proxying to its own
      port, exactly when no other app spells the same name. */
  lemma AppReachesItsPort(t: Tables, x: Setup, routes: seq<Route>, app: App)
    returns (k: nat)
    requires IsRouteMap(t, routes) && x.Consistent() && "apps" in x.defs
    requires LastFor(AppRoutes(t.apps), app.subdomain) == Some(AppToRoute(app))
    requires LastFor(PreviewRoutes(t.previews), app.subdomain).None?
    ensures k < |routes| && routes[k] == AppToRoute(app)
    ensures ToCaddyBlock(routes[k], x).host == Fqdn(app.subdomain, x.domain)
    ensures ToCaddyBlock(routes[k], x).port == x.defs["apps"].scheme.HostPort(x.ColorOf("apps"), 8080)
       <==> OffsetsAgree(x.defs["apps"], x.ColorOf("apps"))
    ensures ServerBlock(Fqdn(app.subdomain, x.domain), app.internalPort, app.noCache) in NginxBlocks(routes, x.domain)
    ensures BlocksNamed(NginxBlocks(routes, x.domain), Fqdn(app.subdomain, x.domain)) == 1
       <==> !Shadowed(routes, x.domain, k)
  {
    assert Winner(t, app.subdomain) == Some(AppToRoute(app));
    k :| 0 <= k < |routes| && routes[k] == AppToRoute(app);
    var c := x.ColorOf("apps");
    AddPortInjective(8080, x.defs["apps"].scheme.Offset(c), FixedOffset("apps", c).value);
    BlockPresent(routes, x.domain, k);
    BlocksCountApps(routes, x.domain, Fqdn(app.subdomain, x.domain));
    CountOne(routes, x.domain, k);
  }

  /** The last preview of a name is what Caddy serves under it, at the preview's own
      host port and without caching, whatever else asks for the name. */
  lemma PreviewReachesItsPort(t: Tables, x: Setup, routes: seq<Route>, i: nat) returns (k: nat)
    requires IsRouteMap(t, routes) && i < |t.previews| && LastPreview(t, i, t.previews[i].subdomain)
    ensures k < |routes| && routes[k].subdomain == t.previews[i].subdomain
    ensures var b := ToCaddyBlock(routes[k], x);
            b.port == t.previews[i].hostPort && b.noCache && b.auth.None?
  {
    var p := t.previews[i];
    var r := Route(p.subdomain, p.hostPort, "host", None, true, None);
    assert PreviewHas(t, p.subdomain, r);
    WinnerWins(t, p.subdomain, r);
    k :| 0 <= k < |routes| && routes[k] == r;
    BlockAsRouted(r, x);
  }

  lemma {:induction false} BlockPresent(routes: seq<Route>, domain: string, k: nat)
    requires k < |routes| && IsAppRoute(routes[k])
    ensures ServerBlock(Fqdn(routes[k].subdomain, domain), routes[k].internalPort.value, routes[k].noCache)
            in NginxBlocks(routes, domain)
  {
    if k < |routes| - 1 {
      BlockPresent(routes[..|routes| - 1], domain, k);
    }
  }

  // ---------- Diagnosis ----------

  /** The host port the diagnosis expects a listener on: it knows no offset for apps. */
  function DiagnosePort(r: Route, x: Setup): Port {
    var c := x.ColorOf(r.target);
    var fixed := if r.target == "apps" then None else FixedOffset(r.target, c);
    match fixed
    case Some(offset) => AddPort(r.port, offset)
    case None => if r.target in x.defs then x.defs[r.target].scheme.HostPort(c, r.port) else r.port
  }

  /** The diagnosis looks at the port Caddy uses, for every route, exactly when
      the apps definition, if there is one, has the offset Caddy assumes. */
  lemma DiagnosisLooksWhereCaddyPoints(r: Route, x: Setup)
    requires x.Consistent()
    ensures DiagnosePort(r, x) == CaddyPort(r, x) <==>
            (r.target == "apps" && "apps" in x.defs ==> OffsetsAgree(x.defs["apps"], x.ColorOf("apps")))
    ensures r.target == "apps" ==>
              DiagnosePort(r, x) == (r.port + if "apps" !in x.defs then 0 else if IsGreen(x, "apps") then
                                                x.defs["apps"].scheme.green else x.defs["apps"].scheme.blue) % 0x1_0000
  {
    if r.target == "apps" && "apps" in x.defs {
      var c := x.ColorOf("apps");
      AddPortInjective(r.port, x.defs["apps"].scheme.Offset(c), FixedOffset("apps", c).value);
    }
  }
}
