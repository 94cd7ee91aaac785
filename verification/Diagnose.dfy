/** The mismatch detector, and its agreement with what the deploy protocol keeps. */
module Diagnose {
  import opened Common
  import opened Ports
  import opened Routing
  import opened RouteCompile
  import Protocol
  import CommandTheorems

  datatype Severity = Ok | Mismatch | Dead | Stale | Info

  function ClassifyService(state: Color, running: seq<Color>): Severity {
    if |running| == 0 then Dead
    else if |running| == 1 then (if running[0] == state then Ok else Mismatch)
    else Info
  }

  /** What the four looks at a service found: whether a preview is pending, the
      recorded color, and which containers run. */
  datatype Glimpse = Glimpse(pending: bool, color: Color, blue: bool, green: bool) {
    predicate SawRunning(c: Color) { if c.Blue? then blue else green }
  }

  function RunningColors(g: Glimpse): seq<Color> {
    (if g.blue then [Blue] else []) + (if g.green then [Green] else [])
  }

  /** A pending preview is reported whatever runs. */
  function Verdict(g: Glimpse): Severity {
    if g.pending then Stale else ClassifyService(g.color, RunningColors(g))
  }

  /** What looks that all work find on a host that stands still. */
  function GlimpseOf(v: Protocol.Site): Glimpse {
    Glimpse(v.preview.Some?, v.active, v.Running(Blue), v.Running(Green))
  }

  predicate Alarm(s: Severity) { s.Mismatch? || s.Dead? }

  /** A mismatch or a dead service is reported exactly when no preview was pending
      and the container of the color that was read was not seen running. */
  lemma AlarmMeaning(g: Glimpse)
    ensures Alarm(Verdict(g)) <==> !g.pending && !g.SawRunning(g.color)
  {
  }

  /** On a host that stands still, what each verdict means for the two containers. */
  lemma SeverityMeaning(v: Protocol.Site)
    ensures Verdict(GlimpseOf(v)) == Stale <==> v.preview.Some?
    ensures Verdict(GlimpseOf(v)) == Ok <==> v.preview.None? && Protocol.Available(v) && !v.Running(Flip(v.active))
    ensures Verdict(GlimpseOf(v)) == Mismatch <==> v.preview.None? && !Protocol.Available(v) && v.Running(Flip(v.active))
    ensures Verdict(GlimpseOf(v)) == Dead <==> v.preview.None? && !Protocol.Available(v) && !v.Running(Flip(v.active))
    ensures Verdict(GlimpseOf(v)) == Info <==> v.preview.None? && Protocol.Available(v) && v.Running(Flip(v.active))
  {
  }

  /** After a deploy has run through, the detector is content. */
  lemma ConvergedIsOk(w: Protocol.World, s: Service, sha: string)
    requires CommandTheorems.Converged(w, s, sha) && w.sites[s].preview.None?
    ensures Verdict(GlimpseOf(w.sites[s])) == Ok
  {
    SeverityMeaning(w.sites[s]);
  }

  /** The colors Caddy was given are the ones its ports are computed from: a route
      to a defined service goes to the color it is routed to. */
  lemma CaddyServesRouted(w: Protocol.World, r: Route, x: Setup)
    requires x.colors == w.caddy && r.target in x.defs && OffsetsAgree(x.defs[r.target], w.Routed(r.target))
    requires x.defs[r.target].service == r.target
    ensures var scheme := x.defs[r.target].scheme;
            ToCaddyBlock(r, x).port == (r.port + if w.Routed(r.target).Green? then scheme.green else scheme.blue) % 0x1_0000
  {
    BlockAsRouted(r, x);
  }

  predicate Unhealthy(s: Severity) {
    s.Mismatch? || s.Dead? || s.Stale?
  }

  datatype Report = Report(
    services: seq<Severity>, deadRoutes: seq<Route>, previews: nat, allHealthy: bool, issueCount: nat)

  predicate Listening(r: Route, x: Setup, ports: set<Port>) {
    DiagnosePort(r, x) in ports
  }

  /** The services that count as issues. */
  function Troubled(glimpses: seq<Glimpse>): set<nat> {
    set k: nat | k < |glimpses| && (glimpses[k].pending || !glimpses[k].SawRunning(glimpses[k].color))
  }

  function Deaf(routes: seq<Route>, x: Setup, ports: set<Port>): set<nat> {
    set k: nat | k < |routes| && !Listening(routes[k], x, ports)
  }

  lemma TroubledNext(glimpses: seq<Glimpse>, i: nat)
    requires i < |glimpses|
    ensures |Troubled(glimpses[..i + 1])| == |Troubled(glimpses[..i])| + if Unhealthy(Verdict(glimpses[i])) then 1 else 0
  {
    var now, next, g := Troubled(glimpses[..i]), Troubled(glimpses[..i + 1]), glimpses[i];
    AlarmMeaning(g);
    assert next == if Unhealthy(Verdict(g)) then now + {i} else now;
  }

  lemma DeafNext(routes: seq<Route>, x: Setup, ports: set<Port>, i: nat)
    requires i < |routes|
    ensures |Deaf(routes[..i + 1], x, ports)| == |Deaf(routes[..i], x, ports)| + if Listening(routes[i], x, ports) then 0 else 1
  {
    var now, next := Deaf(routes[..i], x, ports), Deaf(routes[..i + 1], x, ports);
    assert next == if Listening(routes[i], x, ports) then now else now + {i};
  }

  /** The report is all clear exactly when no issue is counted, and exactly when
      every service is fine, every route has a listener and no preview waits. */
  method Run(glimpses: seq<Glimpse>, routes: seq<Route>, previews: nat, x: Setup, ports: set<Port>)
    returns (report: Report)
    ensures report.allHealthy <==> report.issueCount == 0
    ensures report.issueCount == |Troubled(glimpses)| + |Deaf(routes, x, ports)| + previews
    ensures report.allHealthy <==>
            && (forall k :: 0 <= k < |glimpses| ==> !Unhealthy(Verdict(glimpses[k])))
            && (forall k :: 0 <= k < |routes| ==> Listening(routes[k], x, ports))
            && previews == 0
    ensures |report.services| == |glimpses|
    ensures forall k :: 0 <= k < |glimpses| ==> report.services[k] == Verdict(glimpses[k])
    ensures forall r :: r in report.deadRoutes <==> r in routes && !Listening(r, x, ports)
  {
    var services: seq<Severity>, anyUnhealthy, counted: nat := [], false, 0;
    for i := 0 to |glimpses|
      invariant |services| == i && forall k :: 0 <= k < i ==> services[k] == Verdict(glimpses[k])
      invariant !anyUnhealthy <==> forall k :: 0 <= k < i ==> !Unhealthy(Verdict(glimpses[k]))
      invariant anyUnhealthy <==> counted > 0
      invariant counted == |Troubled(glimpses[..i])|
    {
      TroubledNext(glimpses, i);
      var severity := Verdict(glimpses[i]);
      services := services + [severity];
      anyUnhealthy := anyUnhealthy || severity.Mismatch? || severity.Dead? || severity.Stale?;
      if !(severity.Ok? || severity.Info?) { counted := counted + 1; }
    }
    assert glimpses[..|glimpses|] == glimpses;
    var dead: seq<Route> := [];
    for i := 0 to |routes|
      invariant |dead| == |Deaf(routes[..i], x, ports)|
      invariant forall r :: r in dead <==> r in routes[..i] && !Listening(r, x, ports)
    {
      assert routes[..i + 1] == routes[..i] + [routes[i]];
      DeafNext(routes, x, ports, i);
      if DiagnosePort(routes[i], x) in ports { continue; }
      dead := dead + [routes[i]];
    }
    assert routes[..|routes|] == routes;
    assert dead == [] <==> forall k :: 0 <= k < |routes| ==> Listening(routes[k], x, ports) by {
      assert |dead| > 0 ==> dead[0] in dead;
      assert forall k :: 0 <= k < |routes| ==> routes[k] in routes;
    }
    var allHealthy := !anyUnhealthy && dead == [] && previews == 0;
    report := Report(services, dead, previews, allHealthy, counted + |dead| + previews);
  }
}
