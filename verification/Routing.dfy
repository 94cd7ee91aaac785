/** The unified route map: service ports, static routes, runtime apps and
    previews merged by priority. */
module Routing {
  import opened Common
  import opened Ports

  datatype Route = Route(
    subdomain: string,
    port: Port,
    target: string,
    internalPort: Option<Port>,
    noCache: bool,
    authEnv: Option<string>)

  datatype StaticRoute = StaticRoute(subdomain: string, port: Port, target: string)
  datatype App = App(subdomain: string, internalPort: Port, noCache: bool)
  datatype PreviewRow = PreviewRow(subdomain: string, hostPort: Port)

  datatype Tables = Tables(
    defs: seq<ServiceDef>, statics: seq<StaticRoute>, apps: seq<App>, previews: seq<PreviewRow>)

  // ---------- The route each row stands for ----------

  function StaticToRoute(r: StaticRoute): Route {
    Route(r.subdomain, r.port, r.target, None, false, None)
  }

  function AppToRoute(a: App): Route {
    Route(a.subdomain, 8080, "apps", Some(a.internalPort), a.noCache, None)
  }

  function PreviewToRoute(p: PreviewRow): Route {
    Route(p.subdomain, p.hostPort, "host", None, true, None)
  }

  /** UDP ports and ports without a subdomain are not routed. */
  function PortToRoutes(s: Service, p: NamedPort): seq<Route> {
    if p.protocol.Udp? || p.subdomain.None? then []
    else [Route(p.subdomain.value, p.containerPort, s, None, false, p.auth)]
  }

  function StaticRoutes(rows: seq<StaticRoute>): seq<Route> {
    seq(|rows|, i requires 0 <= i < |rows| => StaticToRoute(rows[i]))
  }

  function AppRoutes(rows: seq<App>): seq<Route> {
    seq(|rows|, i requires 0 <= i < |rows| => AppToRoute(rows[i]))
  }

  function PreviewRoutes(rows: seq<PreviewRow>): seq<Route> {
    seq(|rows|, i requires 0 <= i < |rows| => PreviewToRoute(rows[i]))
  }

  function PortRoutes(s: Service, ports: seq<NamedPort>): seq<Route> {
    if ports == [] then []
    else PortRoutes(s, ports[..|ports| - 1]) + PortToRoutes(s, ports[|ports| - 1])
  }

  function ServiceRoutes(defs: seq<ServiceDef>): seq<Route> {
    if defs == [] then []
    else ServiceRoutes(defs[..|defs| - 1]) + PortRoutes(defs[|defs| - 1].service, defs[|defs| - 1].ports)
  }

  // ---------- The priority lookup ----------

  function FirstFor(rs: seq<Route>, sub: string): Option<Route> {
    if rs == [] then None
    else if rs[0].subdomain == sub then Some(rs[0])
    else FirstFor(rs[1..], sub)
  }

  function LastFor(rs: seq<Route>, sub: string): Option<Route> {
    if rs == [] then None
    else if rs[|rs| - 1].subdomain == sub then Some(rs[|rs| - 1])
    else LastFor(rs[..|rs| - 1], sub)
  }

  function OrElse(a: Option<Route>, b: Option<Route>): Option<Route> {
    if a.Some? then a else b
  }

  /** A preview wins over an app, an app over a static route, and that over the
      first service port that asks for the subdomain. */
  function Winner(t: Tables, sub: string): Option<Route> {
    OrElse(LastFor(PreviewRoutes(t.previews), sub),
    OrElse(LastFor(AppRoutes(t.apps), sub),
    OrElse(LastFor(StaticRoutes(t.statics), sub),
           FirstFor(ServiceRoutes(t.defs), sub))))
  }

  lemma {:induction false} FirstForConcat(a: seq<Route>, b: seq<Route>, sub: string)
    ensures FirstFor(a + b, sub) == OrElse(FirstFor(a, sub), FirstFor(b, sub))
  {
    if a == [] {
      assert a + b == b;
    } else {
      assert (a + b)[1..] == a[1..] + b;
      FirstForConcat(a[1..], b, sub);
    }
  }

  lemma {:induction false} FirstForName(rs: seq<Route>, sub: string)
    ensures FirstFor(rs, sub).Some? ==> FirstFor(rs, sub).value.subdomain == sub && FirstFor(rs, sub).value in rs
  {
    if rs != [] { FirstForName(rs[1..], sub); }
  }

  lemma {:induction false} LastForName(rs: seq<Route>, sub: string)
    ensures LastFor(rs, sub).Some? ==> LastFor(rs, sub).value.subdomain == sub && LastFor(rs, sub).value in rs
  {
    if rs != [] { LastForName(rs[..|rs| - 1], sub); }
  }

  // ---------- The same on the tables ----------

  predicate LastPreview(t: Tables, i: int, sub: string) {
    && 0 <= i < |t.previews| && t.previews[i].subdomain == sub
    && forall k :: i < k < |t.previews| ==> t.previews[k].subdomain != sub
  }

  predicate LastApp(t: Tables, i: int, sub: string) {
    && 0 <= i < |t.apps| && t.apps[i].subdomain == sub
    && forall k :: i < k < |t.apps| ==> t.apps[k].subdomain != sub
  }

  predicate LastStatic(t: Tables, i: int, sub: string) {
    && 0 <= i < |t.statics| && t.statics[i].subdomain == sub
    && forall k :: i < k < |t.statics| ==> t.statics[k].subdomain != sub
  }

  /** A TCP port that asks for the subdomain. */
  predicate AsksFor(p: NamedPort, sub: string) {
    p.protocol.Tcp? && p.subdomain == Some(sub)
  }

  predicate FirstPort(ports: seq<NamedPort>, j: int, sub: string) {
    0 <= j < |ports| && AsksFor(ports[j], sub) && forall k :: 0 <= k < j ==> !AsksFor(ports[k], sub)
  }

  predicate NoPort(ports: seq<NamedPort>, sub: string) {
    forall k :: 0 <= k < |ports| ==> !AsksFor(ports[k], sub)
  }

  predicate FirstDef(defs: seq<ServiceDef>, d: int, sub: string) {
    0 <= d < |defs| && !NoPort(defs[d].ports, sub) && forall k :: 0 <= k < d ==> NoPort(defs[k].ports, sub)
  }

  ghost predicate PreviewHas(t: Tables, sub: string, r: Route) {
    exists i :: LastPreview(t, i, sub) && r == Route(sub, t.previews[i].hostPort, "host", None, true, None)
  }

  ghost predicate AppHas(t: Tables, sub: string, r: Route) {
    exists i :: LastApp(t, i, sub) && r == Route(sub, 8080, "apps", Some(t.apps[i].internalPort), t.apps[i].noCache, None)
  }

  ghost predicate StaticHas(t: Tables, sub: string, r: Route) {
    exists i :: LastStatic(t, i, sub) && r == Route(sub, t.statics[i].port, t.statics[i].target, None, false, None)
  }

  /** Port `j` of service `d` is the first that asks for the subdomain, with this route. */
  predicate ClaimedBy(defs: seq<ServiceDef>, d: int, j: int, sub: string, r: Route) {
    && FirstDef(defs, d, sub) && FirstPort(defs[d].ports, j, sub)
    && r == Route(sub, defs[d].ports[j].containerPort, defs[d].service, None, false, defs[d].ports[j].auth)
  }

  ghost predicate ServiceHas(t: Tables, sub: string, r: Route) {
    exists d, j :: ClaimedBy(t.defs, d, j, sub, r)
  }

  predicate NoPreview(t: Tables, sub: string) { forall k :: 0 <= k < |t.previews| ==> t.previews[k].subdomain != sub }
  predicate NoApp(t: Tables, sub: string) { forall k :: 0 <= k < |t.apps| ==> t.apps[k].subdomain != sub }
  predicate NoStatic(t: Tables, sub: string) { forall k :: 0 <= k < |t.statics| ==> t.statics[k].subdomain != sub }

  /** The subdomain's route: its last preview; else its last app; else its last
      static route; else the first port of the first service that asks for it. */
  ghost predicate Wins(t: Tables, sub: string, r: Route) {
    || PreviewHas(t, sub, r)
    || (NoPreview(t, sub) && AppHas(t, sub, r))
    || (NoPreview(t, sub) && NoApp(t, sub) && StaticHas(t, sub, r))
    || (NoPreview(t, sub) && NoApp(t, sub) && NoStatic(t, sub) && ServiceHas(t, sub, r))
  }

  /** Where the last route of a name stands. */
  lemma {:induction false} LastForAt(rs: seq<Route>, sub: string) returns (i: int)
    ensures match LastFor(rs, sub)
            case None => forall k :: 0 <= k < |rs| ==> rs[k].subdomain != sub
            case Some(r) => 0 <= i < |rs| && rs[i] == r && r.subdomain == sub
                            && forall k :: i < k < |rs| ==> rs[k].subdomain != sub
  {
    i := |rs| - 1;
    if rs != [] && rs[i].subdomain != sub { i := LastForAt(rs[..i], sub); }
  }

  lemma PreviewLayer(t: Tables, sub: string, r: Route)
    ensures LastFor(PreviewRoutes(t.previews), sub).None? <==> NoPreview(t, sub)
    ensures LastFor(PreviewRoutes(t.previews), sub) == Some(r) <==> PreviewHas(t, sub, r)
  {
    var rs := PreviewRoutes(t.previews);
    assert forall k :: 0 <= k < |rs| ==> rs[k].subdomain == t.previews[k].subdomain;
    var i := LastForAt(rs, sub);
    if LastFor(rs, sub).Some? { assert LastPreview(t, i, sub); }
  }

  lemma AppLayer(t: Tables, sub: string, r: Route)
    ensures LastFor(AppRoutes(t.apps), sub).None? <==> NoApp(t, sub)
    ensures LastFor(AppRoutes(t.apps), sub) == Some(r) <==> AppHas(t, sub, r)
  {
    var rs := AppRoutes(t.apps);
    assert forall k :: 0 <= k < |rs| ==> rs[k].subdomain == t.apps[k].subdomain;
    var i := LastForAt(rs, sub);
    if LastFor(rs, sub).Some? { assert LastApp(t, i, sub); }
  }

  lemma StaticLayer(t: Tables, sub: string, r: Route)
    ensures LastFor(StaticRoutes(t.statics), sub).None? <==> NoStatic(t, sub)
    ensures LastFor(StaticRoutes(t.statics), sub) == Some(r) <==> StaticHas(t, sub, r)
  {
    var rs := StaticRoutes(t.statics);
    assert forall k :: 0 <= k < |rs| ==> rs[k].subdomain == t.statics[k].subdomain;
    var i := LastForAt(rs, sub);
    if LastFor(rs, sub).Some? { assert LastStatic(t, i, sub); }
  }

  lemma {:induction false} PortsFirst(s: Service, ports: seq<NamedPort>, sub: string) returns (j: int)
    ensures match FirstFor(PortRoutes(s, ports), sub)
            case None => NoPort(ports, sub)
            case Some(r) => FirstPort(ports, j, sub) && r == Route(sub, ports[j].containerPort, s, None, false, ports[j].auth)
    decreases |ports|
  {
    j := 0;
    if ports != [] {
      var n := |ports| - 1;
      var front, last := ports[..n], PortToRoutes(s, ports[n]);
      j := PortsFirst(s, front, sub);
      FirstForConcat(PortRoutes(s, front), last, sub);
      assert forall k :: 0 <= k < n ==> front[k] == ports[k];
      if FirstFor(PortRoutes(s, front), sub).None? {
        assert FirstFor(last, sub).Some? <==> AsksFor(ports[n], sub);
        if AsksFor(ports[n], sub) { j := n; }
      }
    }
  }

  lemma ClaimedStill(defs: seq<ServiceDef>, d: int, j: int, sub: string, r: Route)
    requires defs != [] && ClaimedBy(defs[..|defs| - 1], d, j, sub, r)
    ensures ClaimedBy(defs, d, j, sub, r)
  {
    assert forall k :: 0 <= k <= d ==> defs[..|defs| - 1][k] == defs[k];
  }

  lemma {:induction false} DefsFirst(defs: seq<ServiceDef>, sub: string) returns (d: int, j: int)
    ensures match FirstFor(ServiceRoutes(defs), sub)
            case None => forall k :: 0 <= k < |defs| ==> NoPort(defs[k].ports, sub)
            case Some(r) => ClaimedBy(defs, d, j, sub, r)
    decreases |defs|
  {
    d, j := 0, 0;
    if defs != [] {
      var n := |defs| - 1;
      var front, def := defs[..n], defs[n];
      d, j := DefsFirst(front, sub);
      var r := FirstFor(ServiceRoutes(front), sub);
      FirstForConcat(ServiceRoutes(front), PortRoutes(def.service, def.ports), sub);
      if r.Some? {
        ClaimedStill(defs, d, j, sub, r.value);
      } else {
        assert forall k :: 0 <= k < n ==> front[k] == defs[k];
        d := n;
        j := PortsFirst(def.service, def.ports, sub);
      }
    }
  }

  lemma ServiceLayer(t: Tables, sub: string, r: Route)
    ensures FirstFor(ServiceRoutes(t.defs), sub) == Some(r) <==> ServiceHas(t, sub, r)
  {
    var d, j := DefsFirst(t.defs, sub);
    if e, k :| ClaimedBy(t.defs, e, k, sub, r) {
      assert FirstFor(ServiceRoutes(t.defs), sub).Some?;
      assert e == d && k == j;
    }
  }

  lemma WinnerWins(t: Tables, sub: string, r: Route)
    ensures Winner(t, sub) == Some(r) <==> Wins(t, sub, r)
  {
    PreviewLayer(t, sub, r);
    AppLayer(t, sub, r);
    StaticLayer(t, sub, r);
    ServiceLayer(t, sub, r);
  }

  // ---------- Order of names ----------

  /** Byte order of strings. */
  predicate Less(a: string, b: string) {
    b != [] && (a == [] || a[0] < b[0] || (a[0] == b[0] && Less(a[1..], b[1..])))
  }

  /** At the first place where they differ the character is smaller, or there is none. */
  predicate DiffersAt(a: string, b: string, k: nat) {
    k <= |a| && k < |b| && a[..k] == b[..k] && (k == |a| || a[k] < b[k])
  }

  lemma {:induction false} LessMeaning(a: string, b: string)
    ensures Less(a, b) <==> exists k: nat :: DiffersAt(a, b, k)
  {
    if a == [] {
      if b != [] { assert DiffersAt(a, b, 0); }
    } else if b != [] {
      LessMeaning(a[1..], b[1..]);
      if a[0] < b[0] { assert DiffersAt(a, b, 0); }
      if a[0] == b[0] {
        if k: nat :| DiffersAt(a[1..], b[1..], k) {
          assert a[..k + 1] == [a[0]] + a[1..][..k] && b[..k + 1] == [b[0]] + b[1..][..k];
          assert DiffersAt(a, b, k + 1);
        }
        if k: nat :| DiffersAt(a, b, k) {
          assert k > 0;
          assert a[1..][..k - 1] == a[..k][1..] && b[1..][..k - 1] == b[..k][1..];
          assert DiffersAt(a[1..], b[1..], k - 1);
        }
      } else {
        if k: nat :| DiffersAt(a, b, k) { assert k > 0 ==> a[..k][0] == b[..k][0]; }
      }
    }
  }

  lemma {:induction false} LessTransitive(a: string, b: string, c: string)
    requires Less(a, b) && Less(b, c)
    ensures Less(a, c)
  {
    if a != [] && a[0] == b[0] && b[0] == c[0] { LessTransitive(a[1..], b[1..], c[1..]); }
  }

  lemma {:induction false} LessTotal(a: string, b: string)
    ensures a == b || Less(a, b) || Less(b, a)
  {
    if a != [] && b != [] && a[0] == b[0] {
      LessTotal(a[1..], b[1..]);
      assert a == [a[0]] + a[1..] && b == [b[0]] + b[1..];
    }
  }

  lemma {:induction false} LessIrreflexive(a: string)
    ensures !Less(a, a)
  {
    if a != [] { LessIrreflexive(a[1..]); }
  }

  predicate StrictlySorted(rs: seq<Route>) {
    forall i, j :: 0 <= i < j < |rs| ==> Less(rs[i].subdomain, rs[j].subdomain)
  }

  // ---------- The result ----------

  /** Sorted by name, no name twice, and exactly the winners. */
  ghost predicate IsRouteMap(t: Tables, rs: seq<Route>) {
    && StrictlySorted(rs)
    && (forall k :: 0 <= k < |rs| ==> Winner(t, rs[k].subdomain) == Some(rs[k]))
    && (forall sub :: Winner(t, sub).Some? ==> Winner(t, sub).value in rs)
  }

  lemma {:induction false} SortedUnique(a: seq<Route>, b: seq<Route>)
    requires StrictlySorted(a) && StrictlySorted(b)
    requires forall r :: r in a <==> r in b
    ensures a == b
  {
    assert |a| > 0 ==> a[0] in a;
    assert |b| > 0 ==> b[0] in b;
    if a != [] {
      var i :| 0 <= i < |b| && b[i] == a[0];
      var j :| 0 <= j < |a| && a[j] == b[0];
      if i > 0 && j > 0 {
        LessTransitive(a[0].subdomain, b[0].subdomain, a[0].subdomain);
        LessIrreflexive(a[0].subdomain);
      }
      assert a[0] == b[0];
      forall r ensures r in a[1..] <==> r in b[1..] { TailMembers(a, r); TailMembers(b, r); }
      SortedUnique(a[1..], b[1..]);
      assert a == [a[0]] + a[1..] && b == [b[0]] + b[1..];
    }
  }

  lemma TailMembers(a: seq<Route>, r: Route)
    requires StrictlySorted(a) && a != []
    ensures r in a[1..] <==> r in a && r != a[0]
  {
    assert a == [a[0]] + a[1..];
    LessIrreflexive(a[0].subdomain);
    assert forall k :: 0 <= k < |a[1..]| ==> a[1..][k] == a[k + 1];
  }

  /** The tables determine the list: no order in which a hash map gives its
      values back can show. */
  lemma RouteMapUnique(t: Tables, a: seq<Route>, b: seq<Route>)
    requires IsRouteMap(t, a) && IsRouteMap(t, b)
    ensures a == b
  {
    forall r ensures r in a <==> r in b {
      if r in a { var k :| 0 <= k < |a| && a[k] == r; }
      if r in b { var k :| 0 <= k < |b| && b[k] == r; }
    }
    SortedUnique(a, b);
  }

  // ---------- Building it ----------

  function Lookup(m: map<string, Route>, sub: string): Option<Route> {
    if sub in m then Some(m[sub]) else None
  }

  function Insert(rs: seq<Route>, r: Route): seq<Route> {
    if rs == [] then [r]
    else if Less(r.subdomain, rs[0].subdomain) then [r] + rs
    else [rs[0]] + Insert(rs[1..], r)
  }

  lemma {:induction false} InsertKeepsSorted(rs: seq<Route>, r: Route)
    requires StrictlySorted(rs)
    requires forall k :: 0 <= k < |rs| ==> rs[k].subdomain != r.subdomain
    ensures StrictlySorted(Insert(rs, r))
    ensures forall x :: x in Insert(rs, r) <==> x in rs || x == r
  {
    if rs == [] {
    } else if Less(r.subdomain, rs[0].subdomain) {
      forall k | 0 <= k < |rs| ensures Less(r.subdomain, rs[k].subdomain) {
        if k > 0 { LessTransitive(r.subdomain, rs[0].subdomain, rs[k].subdomain); }
      }
    } else {
      LessTotal(r.subdomain, rs[0].subdomain);
      InsertKeepsSorted(rs[1..], r);
      var tail := Insert(rs[1..], r);
      forall k | 0 <= k < |tail| ensures Less(rs[0].subdomain, tail[k].subdomain) {
        assert tail[k] in tail;
        if tail[k] in rs[1..] { var j :| 0 <= j < |rs[1..]| && rs[1..][j] == tail[k]; }
      }
      assert rs == [rs[0]] + rs[1..];
    }
  }

  /** The values come out in any order; sorting makes that invisible. */
  method SortedValues(m: map<string, Route>) returns (rs: seq<Route>)
    requires forall k :: k in m ==> m[k].subdomain == k
    ensures StrictlySorted(rs)
    ensures forall r :: r in rs <==> r.subdomain in m && m[r.subdomain] == r
  {
    rs := [];
    var left := m.Keys;
    while left != {}
      invariant left <= m.Keys
      invariant StrictlySorted(rs)
      invariant forall r :: r in rs <==> r.subdomain in m && r.subdomain !in left && m[r.subdomain] == r
    {
      var k :| k in left;
      left := left - {k};
      forall j | 0 <= j < |rs| ensures rs[j].subdomain != k { assert rs[j] in rs; }
      InsertKeepsSorted(rs, m[k]);
      rs := Insert(rs, m[k]);
    }
  }

  ghost predicate Layered(m: map<string, Route>, upper: seq<Route>, lower: map<string, Route>) {
    && (forall k :: k in m ==> m[k].subdomain == k)
    && forall sub :: Lookup(m, sub) == OrElse(LastFor(upper, sub), Lookup(lower, sub))
  }

  lemma LayerInsert(m: map<string, Route>, upper: seq<Route>, lower: map<string, Route>, r: Route)
    requires Layered(m, upper, lower)
    ensures Layered(m[r.subdomain := r], upper + [r], lower)
  {
    assert (upper + [r])[..|upper|] == upper;
  }

  ghost predicate Claimed(m: map<string, Route>, rs: seq<Route>) {
    && (forall k :: k in m ==> m[k].subdomain == k)
    && forall sub :: Lookup(m, sub) == FirstFor(rs, sub)
  }

  lemma ClaimOrKeep(m: map<string, Route>, rs: seq<Route>, r: Route)
    requires Claimed(m, rs)
    ensures Claimed(if r.subdomain in m then m else m[r.subdomain := r], rs + [r])
  {
    forall sub ensures FirstFor(rs + [r], sub) == OrElse(FirstFor(rs, sub), FirstFor([r], sub)) {
      FirstForConcat(rs, [r], sub);
    }
    assert forall sub :: FirstFor([r], sub) == if r.subdomain == sub then Some(r) else None;
  }

  /** The ports of one service claim the names that are still free. */
  method ClaimPorts(claimed: map<string, Route>, def: ServiceDef, ghost before: seq<Route>) returns (m: map<string, Route>)
    requires Claimed(claimed, before)
    ensures Claimed(m, before + PortRoutes(def.service, def.ports))
  {
    m := claimed;
    assert before + [] == before;
    for j := 0 to |def.ports|
      invariant Claimed(m, before + PortRoutes(def.service, def.ports[..j]))
    {
      var port := def.ports[j];
      ghost var sofar := before + PortRoutes(def.service, def.ports[..j]);
      PortRoutesNext(before, def.service, def.ports, j);
      if port.protocol.Udp? { assert sofar + [] == sofar; continue; }
      if port.subdomain.Some? {
        var r := Route(port.subdomain.value, port.containerPort, def.service, None, false, port.auth);
        ClaimOrKeep(m, sofar, r);
        if r.subdomain !in m { m := m[r.subdomain := r]; }
      } else {
        assert sofar + [] == sofar;
      }
    }
    assert def.ports[..|def.ports|] == def.ports;
  }

  lemma PortRoutesNext(before: seq<Route>, s: Service, ports: seq<NamedPort>, j: nat)
    requires j < |ports|
    ensures before + PortRoutes(s, ports[..j + 1]) == before + PortRoutes(s, ports[..j]) + PortToRoutes(s, ports[j])
  {
    assert ports[..j + 1][..j] == ports[..j];
  }

  /** First come, first served among the service ports. */
  method ClaimServicePorts(defs: seq<ServiceDef>) returns (m: map<string, Route>)
    ensures Claimed(m, ServiceRoutes(defs))
  {
    m := map[];
    for i := 0 to |defs|
      invariant Claimed(m, ServiceRoutes(defs[..i]))
    {
      m := ClaimPorts(m, defs[i], ServiceRoutes(defs[..i]));
      assert defs[..i + 1][..i] == defs[..i];
    }
    assert defs[..|defs|] == defs;
  }

  /** Service ports first, then each further table overwriting the ones before. */
  method BuildRouteMap(t: Tables) returns (routes: seq<Route>)
    ensures IsRouteMap(t, routes)
    ensures forall r :: r in routes <==> Wins(t, r.subdomain, r)
  {
    var m := ClaimServicePorts(t.defs);
    ghost var services := m;
    for i := 0 to |t.statics|
      invariant Layered(m, StaticRoutes(t.statics[..i]), services)
    {
      LayerInsert(m, StaticRoutes(t.statics[..i]), services, StaticToRoute(t.statics[i]));
      m := m[t.statics[i].subdomain := StaticToRoute(t.statics[i])];
      assert StaticRoutes(t.statics[..i + 1]) == StaticRoutes(t.statics[..i]) + [StaticToRoute(t.statics[i])];
    }
    assert t.statics[..|t.statics|] == t.statics;
    ghost var fixed := m;
    for i := 0 to |t.apps|
      invariant Layered(m, AppRoutes(t.apps[..i]), fixed)
    {
      LayerInsert(m, AppRoutes(t.apps[..i]), fixed, AppToRoute(t.apps[i]));
      m := m[t.apps[i].subdomain := AppToRoute(t.apps[i])];
      assert AppRoutes(t.apps[..i + 1]) == AppRoutes(t.apps[..i]) + [AppToRoute(t.apps[i])];
    }
    assert t.apps[..|t.apps|] == t.apps;
    ghost var apps := m;
    for i := 0 to |t.previews|
      invariant Layered(m, PreviewRoutes(t.previews[..i]), apps)
    {
      LayerInsert(m, PreviewRoutes(t.previews[..i]), apps, PreviewToRoute(t.previews[i]));
      m := m[t.previews[i].subdomain := PreviewToRoute(t.previews[i])];
      assert PreviewRoutes(t.previews[..i + 1]) == PreviewRoutes(t.previews[..i]) + [PreviewToRoute(t.previews[i])];
    }
    assert t.previews[..|t.previews|] == t.previews;
    assert forall sub :: Lookup(m, sub) == Winner(t, sub);
    routes := SortedValues(m);
    forall k | 0 <= k < |routes| ensures Winner(t, routes[k].subdomain) == Some(routes[k]) {
      assert routes[k] in routes;
      assert Lookup(m, routes[k].subdomain) == Some(routes[k]);
    }
    forall r ensures r in routes <==> Wins(t, r.subdomain, r) { WinnerWins(t, r.subdomain, r); }
  }
}
