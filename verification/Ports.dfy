/** Port arithmetic of service definitions: what Docker publishes, what the TCP
    and UDP relays listen on, and which port a preview gets. */
module Ports {
  import opened Common

  datatype PortProtocol = Tcp | Udp
  datatype PortBind = Any | Loopback | Tailnet

  datatype NamedPort = NamedPort(
    name: string,
    containerPort: Port,
    subdomain: Option<string>,
    fixedPort: Option<Port>,
    protocol: PortProtocol,
    bind: PortBind,
    auth: Option<string>)
  {
    /** Served by the UDP relay, never by Docker. */
    predicate Relayed() { protocol.Udp? && fixedPort.Some? }
  }

  /** Both ends are published. */
  datatype PortRange = PortRange(start: Port, end: Port, bind: PortBind)

  datatype PortScheme = PortScheme(blue: Port, green: Port) {
    function Offset(c: Color): Port { if c.Blue? then blue else green }
    function HostPort(c: Color, containerPort: Port): Port { AddPort(containerPort, Offset(c)) }
  }

  /** A named port of this container port, with TCP or with no fixed port. */
  predicate NamedAt(ports: seq<NamedPort>, i: int, c: Port) {
    0 <= i < |ports| && (ports[i].protocol.Tcp? || ports[i].fixedPort.None?) && ports[i].containerPort == c
  }

  predicate NamedPublish(ports: seq<NamedPort>, c: Port) {
    exists i :: 0 <= i < |ports| && NamedAt(ports, i, c)
  }

  datatype ServiceDef = ServiceDef(service: Service, scheme: PortScheme, ports: seq<NamedPort>, range: Option<PortRange>) {

    predicate InRange(c: Port) { range.Some? && range.value.start <= c <= range.value.end }

    /** Docker publishes this container port. */
    predicate Publishes(c: Port) {
      NamedPublish(ports, c) || InRange(c)
    }

    /** The range, or else the last named port, says which interface it is for. */
    predicate BindsTo(c: Port, bind: PortBind) {
      if InRange(c) then bind == range.value.bind
      else exists i :: 0 <= i < |ports| && LastNamed(ports, i, c) && bind == ports[i].bind
    }

    /** Some published port is for the tailnet. */
    predicate WantsTailnet() {
      || (exists i :: 0 <= i < |ports| && NamedAt(ports, i, ports[i].containerPort) && ports[i].bind.Tailnet?)
      || (range.Some? && range.value.start <= range.value.end && range.value.bind.Tailnet?)
    }
  }

  predicate LastNamed(ports: seq<NamedPort>, i: int, c: Port) {
    NamedAt(ports, i, c) && forall k :: i < k < |ports| ==> !NamedAt(ports, k, c)
  }

  datatype BindingSpec = BindingSpec(host: Port, container: Port, bind: PortBind)

  // ---------- Published ports ----------

  /** Named ports first, relayed ones left out. */
  function NamedSpecs(ports: seq<NamedPort>, scheme: PortScheme, color: Color): seq<BindingSpec> {
    if ports == [] then []
    else
      var p := ports[|ports| - 1];
      NamedSpecs(ports[..|ports| - 1], scheme, color)
      + if p.Relayed() then [] else [BindingSpec(scheme.HostPort(color, p.containerPort), p.containerPort, p.bind)]
  }

  /** The first `n` ports of the range. */
  function RangeSpecs(start: Port, n: nat, bind: PortBind, scheme: PortScheme, color: Color): seq<BindingSpec>
    requires start + n <= U16
  {
    if n == 0 then []
    else
      RangeSpecs(start, n - 1, bind, scheme, color)
      + [BindingSpec(scheme.HostPort(color, start + n - 1), start + n - 1, bind)]
  }

  function RangeSize(r: PortRange): nat {
    if r.start <= r.end then r.end + 1 - r.start else 0
  }

  /** What is to be published, in order: the named ports, then the whole range. */
  function SpecsOf(def: ServiceDef, color: Color): seq<BindingSpec> {
    NamedSpecs(def.ports, def.scheme, color)
    + if def.range.None? then []
      else RangeSpecs(def.range.value.start, RangeSize(def.range.value), def.range.value.bind, def.scheme, color)
  }

  predicate HasSpec(specs: seq<BindingSpec>, c: Port) {
    exists k :: 0 <= k < |specs| && specs[k].container == c
  }

  lemma HasSpecConcat(a: seq<BindingSpec>, b: seq<BindingSpec>, c: Port)
    ensures HasSpec(a + b, c) <==> HasSpec(a, c) || HasSpec(b, c)
  {
    if HasSpec(a, c) { var k :| 0 <= k < |a| && a[k].container == c; assert (a + b)[k].container == c; }
    if HasSpec(b, c) { var k :| 0 <= k < |b| && b[k].container == c; assert (a + b)[|a| + k].container == c; }
  }

  lemma HasOneSpec(spec: BindingSpec, c: Port)
    ensures HasSpec([spec], c) <==> spec.container == c
  {
    assert [spec][0] == spec;
  }

  /** Every spec is at its scheme's host port. */
  predicate AtHostPorts(specs: seq<BindingSpec>, scheme: PortScheme, color: Color) {
    forall k :: 0 <= k < |specs| ==> specs[k].host == scheme.HostPort(color, specs[k].container)
  }

  lemma NamedPublishNext(ports: seq<NamedPort>, c: Port)
    requires ports != []
    ensures var p := ports[|ports| - 1];
            NamedPublish(ports, c) <==> NamedPublish(ports[..|ports| - 1], c) || (!p.Relayed() && p.containerPort == c)
  {
    var before, n := ports[..|ports| - 1], |ports| - 1;
    if i :| NamedAt(before, i, c) { assert NamedAt(ports, i, c); }
    if i :| NamedAt(ports, i, c) { assert i == n || NamedAt(before, i, c); }
    if !ports[n].Relayed() && ports[n].containerPort == c { assert NamedAt(ports, n, c); }
  }

  lemma {:induction false} NamedSpecsPublish(ports: seq<NamedPort>, scheme: PortScheme, color: Color, c: Port)
    ensures AtHostPorts(NamedSpecs(ports, scheme, color), scheme, color)
    ensures HasSpec(NamedSpecs(ports, scheme, color), c) <==> NamedPublish(ports, c)
  {
    if ports != [] {
      var before, p := ports[..|ports| - 1], ports[|ports| - 1];
      NamedSpecsPublish(before, scheme, color, c);
      NamedPublishNext(ports, c);
      if !p.Relayed() {
        var spec := BindingSpec(scheme.HostPort(color, p.containerPort), p.containerPort, p.bind);
        HasSpecConcat(NamedSpecs(before, scheme, color), [spec], c);
        HasOneSpec(spec, c);
      } else {
        assert NamedSpecs(before, scheme, color) + [] == NamedSpecs(before, scheme, color);
      }
    }
  }

  lemma {:induction false} RangeSpecsPublish(start: Port, n: nat, bind: PortBind, scheme: PortScheme, color: Color, c: Port)
    requires start + n <= U16
    ensures AtHostPorts(RangeSpecs(start, n, bind, scheme, color), scheme, color)
    ensures HasSpec(RangeSpecs(start, n, bind, scheme, color), c) <==> start <= c < start + n
  {
    if n > 0 {
      var spec := BindingSpec(scheme.HostPort(color, start + n - 1), start + n - 1, bind);
      RangeSpecsPublish(start, n - 1, bind, scheme, color, c);
      HasSpecConcat(RangeSpecs(start, n - 1, bind, scheme, color), [spec], c);
      HasOneSpec(spec, c);
    }
  }

  /** No published port wraps around. */
  ghost predicate Fits(def: ServiceDef, color: Color) {
    forall c: Port :: def.Publishes(c) ==> c + def.scheme.Offset(color) < U16
  }

  /** The specs are those of exactly the published ports, at their scheme's host
      port, and without wrap-around when every published port fits. */
  lemma SpecsPublish(def: ServiceDef, color: Color)
    ensures forall c: Port :: HasSpec(SpecsOf(def, color), c) <==> def.Publishes(c)
    ensures AtHostPorts(SpecsOf(def, color), def.scheme, color)
    ensures Fits(def, color) ==>
              forall k :: 0 <= k < |SpecsOf(def, color)| ==>
                SpecsOf(def, color)[k].host == SpecsOf(def, color)[k].container + def.scheme.Offset(color)
  {
    var specs := SpecsOf(def, color);
    forall c: Port ensures HasSpec(specs, c) <==> def.Publishes(c) { SpecPublishes(def, color, c); }
    SpecPublishes(def, color, 0);
    if Fits(def, color) { SpecsFit(def, color, specs); }
  }

  lemma SpecPublishes(def: ServiceDef, color: Color, c: Port)
    ensures HasSpec(SpecsOf(def, color), c) <==> def.Publishes(c)
    ensures AtHostPorts(SpecsOf(def, color), def.scheme, color)
  {
    var named := NamedSpecs(def.ports, def.scheme, color);
    NamedSpecsPublish(def.ports, def.scheme, color, c);
    if def.range.Some? {
      var r := def.range.value;
      RangeSpecsPublish(r.start, RangeSize(r), r.bind, def.scheme, color, c);
      HasSpecConcat(named, RangeSpecs(r.start, RangeSize(r), r.bind, def.scheme, color), c);
    } else {
      assert named + [] == named;
    }
  }

  lemma SpecsFit(def: ServiceDef, color: Color, specs: seq<BindingSpec>)
    requires Fits(def, color) && AtHostPorts(specs, def.scheme, color)
    requires forall c: Port :: HasSpec(specs, c) ==> def.Publishes(c)
    ensures forall k :: 0 <= k < |specs| ==> specs[k].host == specs[k].container + def.scheme.Offset(color)
  {
    forall k | 0 <= k < |specs| ensures specs[k].host == specs[k].container + def.scheme.Offset(color) {
      assert HasSpec(specs, specs[k].container);
    }
  }

  /** Pushed one by one: the named ports, then the range. */
  method PortBindingSpecs(def: ServiceDef, color: Color) returns (specs: seq<BindingSpec>)
    ensures specs == SpecsOf(def, color)
  {
    specs := [];
    for i := 0 to |def.ports|
      invariant specs == NamedSpecs(def.ports[..i], def.scheme, color)
    {
      var p := def.ports[i];
      assert def.ports[..i + 1][..i] == def.ports[..i];
      if p.protocol.Udp? && p.fixedPort.Some? { continue; }
      specs := specs + [BindingSpec(def.scheme.HostPort(color, p.containerPort), p.containerPort, p.bind)];
    }
    assert def.ports[..|def.ports|] == def.ports;
    if def.range.Some? {
      var r := def.range.value;
      ghost var named := specs;
      assert named + [] == named;
      for n := 0 to RangeSize(r)
        invariant specs == named + RangeSpecs(r.start, n, r.bind, def.scheme, color)
      {
        specs := specs + [BindingSpec(def.scheme.HostPort(color, r.start + n), r.start + n, r.bind)];
      }
    }
  }

  // ---------- Bindings ----------

  /** Where a published port listens: a host address and a host port. */
  datatype Binding = Binding(address: string, port: Port)

  /** The tailnet address is not replaced by anything when it is missing. */
  function Address(bind: PortBind, tailnetIp: Option<string>): Option<string> {
    match bind
    case Any => Some("0.0.0.0")
    case Loopback => Some("127.0.0.1")
    case Tailnet => tailnetIp
  }

  /** The last spec of a container port decides where it is bound. */
  function LastSpec(specs: seq<BindingSpec>, c: Port): Option<BindingSpec> {
    if specs == [] then None
    else if specs[|specs| - 1].container == c then Some(specs[|specs| - 1])
    else LastSpec(specs[..|specs| - 1], c)
  }

  lemma {:induction false} LastSpecThere(specs: seq<BindingSpec>, c: Port)
    ensures LastSpec(specs, c).Some? <==> HasSpec(specs, c)
    ensures LastSpec(specs, c).Some? ==> LastSpec(specs, c).value in specs && LastSpec(specs, c).value.container == c
  {
    if specs != [] {
      var before, last := specs[..|specs| - 1], specs[|specs| - 1];
      LastSpecThere(before, c);
      assert specs == before + [last];
      HasSpecConcat(before, [last], c);
      HasOneSpec(last, c);
    }
  }

  /** One binding per container port with a spec, as its last spec says. */
  ghost predicate Bound(m: map<Port, Binding>, specs: seq<BindingSpec>, tailnetIp: Option<string>) {
    forall c: Port ::
      && (c in m <==> LastSpec(specs, c).Some?)
      && (c in m ==> m[c].port == LastSpec(specs, c).value.host
                     && Address(LastSpec(specs, c).value.bind, tailnetIp) == Some(m[c].address))
  }

  lemma {:induction false} LastOfTwo(a: seq<BindingSpec>, b: seq<BindingSpec>, c: Port)
    ensures LastSpec(a + b, c) == if LastSpec(b, c).Some? then LastSpec(b, c) else LastSpec(a, c)
    decreases |b|
  {
    if b == [] {
      assert a + b == a;
    } else {
      var n := |b| - 1;
      assert (a + b)[..|a| + n] == a + b[..n];
      LastOfTwo(a, b[..n], c);
    }
  }

  lemma LastOne(a: seq<BindingSpec>, spec: BindingSpec, c: Port)
    ensures LastSpec(a + [spec], c) == if spec.container == c then Some(spec) else LastSpec(a, c)
  {
    assert (a + [spec])[..|a|] == a;
  }

  /** The last spec of a named port is that of the last such port. */
  lemma {:induction false} NamedLast(ports: seq<NamedPort>, scheme: PortScheme, color: Color, c: Port, i: int)
    requires LastNamed(ports, i, c)
    ensures var last := LastSpec(NamedSpecs(ports, scheme, color), c);
            last.Some? && last.value.bind == ports[i].bind
    decreases |ports|
  {
    var n := |ports| - 1;
    var before, p := ports[..n], ports[n];
    if !p.Relayed() {
      LastOne(NamedSpecs(before, scheme, color),
              BindingSpec(scheme.HostPort(color, p.containerPort), p.containerPort, p.bind), c);
    } else {
      assert NamedSpecs(before, scheme, color) + [] == NamedSpecs(before, scheme, color);
    }
    if i < n {
      assert !NamedAt(ports, n, c);
      assert LastNamed(before, i, c) by {
        forall k | i < k < |before| ensures !NamedAt(before, k, c) { assert !NamedAt(ports, k, c); }
      }
      NamedLast(before, scheme, color, c, i);
    }
  }

  lemma {:induction false} RangeLast(start: Port, n: nat, bind: PortBind, scheme: PortScheme, color: Color, c: Port)
    requires start + n <= U16
    ensures var last := LastSpec(RangeSpecs(start, n, bind, scheme, color), c);
            if start <= c < start + n then last.Some? && last.value.bind == bind else last.None?
  {
    if n > 0 {
      RangeLast(start, n - 1, bind, scheme, color, c);
      LastOne(RangeSpecs(start, n - 1, bind, scheme, color),
              BindingSpec(scheme.HostPort(color, start + n - 1), start + n - 1, bind), c);
    }
  }

  /** So the last spec has the interface the definition asks for. */
  lemma LastSpecBinds(def: ServiceDef, color: Color, c: Port, bind: PortBind)
    requires def.BindsTo(c, bind)
    ensures LastSpec(SpecsOf(def, color), c).Some? && LastSpec(SpecsOf(def, color), c).value.bind == bind
  {
    var named := NamedSpecs(def.ports, def.scheme, color);
    if def.range.Some? {
      var r := def.range.value;
      RangeLast(r.start, RangeSize(r), r.bind, def.scheme, color, c);
      LastOfTwo(named, RangeSpecs(r.start, RangeSize(r), r.bind, def.scheme, color), c);
    } else {
      assert named + [] == named;
    }
    if !def.InRange(c) {
      var i :| LastNamed(def.ports, i, c) && bind == def.ports[i].bind;
      NamedLast(def.ports, def.scheme, color, c, i);
    }
  }

  predicate Tailed(specs: seq<BindingSpec>) {
    exists k :: 0 <= k < |specs| && specs[k].bind.Tailnet?
  }

  lemma TailedOne(a: seq<BindingSpec>, spec: BindingSpec)
    ensures Tailed(a + [spec]) <==> Tailed(a) || spec.bind.Tailnet?
  {
    TailedTwo(a, [spec]);
    assert [spec][0] == spec;
  }

  lemma TailedTwo(a: seq<BindingSpec>, b: seq<BindingSpec>)
    ensures Tailed(a + b) <==> Tailed(a) || Tailed(b)
  {
    if k :| 0 <= k < |a| && a[k].bind.Tailnet? { assert (a + b)[k].bind.Tailnet?; }
    if k :| 0 <= k < |b| && b[k].bind.Tailnet? { assert (a + b)[|a| + k].bind.Tailnet?; }
  }

  lemma {:induction false} NamedTailed(ports: seq<NamedPort>, scheme: PortScheme, color: Color)
    ensures Tailed(NamedSpecs(ports, scheme, color)) <==>
            exists i :: 0 <= i < |ports| && NamedAt(ports, i, ports[i].containerPort) && ports[i].bind.Tailnet?
    decreases |ports|
  {
    if ports != [] {
      var n := |ports| - 1;
      var before, p := ports[..n], ports[n];
      NamedTailed(before, scheme, color);
      if p.Relayed() {
        assert NamedSpecs(before, scheme, color) + [] == NamedSpecs(before, scheme, color);
      } else {
        TailedOne(NamedSpecs(before, scheme, color),
                  BindingSpec(scheme.HostPort(color, p.containerPort), p.containerPort, p.bind));
      }
      assert forall i :: 0 <= i < n ==> ports[i] == before[i];
      if i :| 0 <= i < |before| && NamedAt(before, i, before[i].containerPort) && before[i].bind.Tailnet? {
        assert NamedAt(ports, i, ports[i].containerPort);
      }
      if i :| 0 <= i < |ports| && NamedAt(ports, i, ports[i].containerPort) && ports[i].bind.Tailnet? {
        assert i == n || NamedAt(before, i, before[i].containerPort);
      }
      assert !p.Relayed() <==> NamedAt(ports, n, p.containerPort);
    }
  }

  lemma {:induction false} RangeTailed(start: Port, n: nat, bind: PortBind, scheme: PortScheme, color: Color)
    requires start + n <= U16
    ensures Tailed(RangeSpecs(start, n, bind, scheme, color)) <==> n > 0 && bind.Tailnet?
  {
    if n > 0 {
      RangeTailed(start, n - 1, bind, scheme, color);
      TailedOne(RangeSpecs(start, n - 1, bind, scheme, color),
                BindingSpec(scheme.HostPort(color, start + n - 1), start + n - 1, bind));
    }
  }

  lemma SpecsTailed(def: ServiceDef, color: Color)
    ensures Tailed(SpecsOf(def, color)) <==> def.WantsTailnet()
  {
    var named := NamedSpecs(def.ports, def.scheme, color);
    NamedTailed(def.ports, def.scheme, color);
    if def.range.Some? {
      var r := def.range.value;
      RangeTailed(r.start, RangeSize(r), r.bind, def.scheme, color);
      TailedTwo(named, RangeSpecs(r.start, RangeSize(r), r.bind, def.scheme, color));
    } else {
      assert named + [] == named;
    }
  }

  /** A port for that interface listens there. */
  predicate ListensOn(address: string, bind: PortBind, tailnetIp: Option<string>) {
    match bind
    case Any => address == "0.0.0.0"
    case Loopback => address == "127.0.0.1"
    case Tailnet => tailnetIp == Some(address)
  }

  /** A port is bound exactly if it is published, at its container port plus the
      color's offset and on the interface its definition asks for. */
  predicate PortAsDefined(m: map<Port, Binding>, def: ServiceDef, color: Color, tailnetIp: Option<string>, c: Port) {
    && (c in m <==> def.Publishes(c))
    && (c in m ==> m[c].port == (c + if color.Blue? then def.scheme.blue else def.scheme.green) % 0x1_0000)
    && (c in m ==> exists bind :: def.BindsTo(c, bind) && ListensOn(m[c].address, bind, tailnetIp))
  }

  ghost predicate AsDefined(m: map<Port, Binding>, def: ServiceDef, color: Color, tailnetIp: Option<string>) {
    forall c: Port :: PortAsDefined(m, def, color, tailnetIp, c)
  }

  /** There is always such an interface. */
  lemma PublishedBinds(def: ServiceDef, c: Port) returns (bind: PortBind)
    requires def.Publishes(c)
    ensures def.BindsTo(c, bind)
  {
    if def.InRange(c) {
      bind := def.range.value.bind;
    } else {
      var i :| NamedAt(def.ports, i, c);
      var last := FindLast(def.ports, i, c);
      bind := def.ports[last].bind;
    }
  }

  lemma {:induction false} FindLast(ports: seq<NamedPort>, i: int, c: Port) returns (last: int)
    requires NamedAt(ports, i, c)
    ensures LastNamed(ports, last, c)
    decreases |ports| - i
  {
    if k :| i < k < |ports| && NamedAt(ports, k, c) { last := FindLast(ports, k, c); } else { last := i; }
  }

  lemma BoundPort(m: map<Port, Binding>, def: ServiceDef, color: Color, tailnetIp: Option<string>, c: Port)
    requires Bound(m, SpecsOf(def, color), tailnetIp)
    ensures c in m <==> def.Publishes(c)
    ensures c in m ==> m[c].port == def.scheme.HostPort(color, c)
  {
    SpecPublishes(def, color, c);
    LastSpecThere(SpecsOf(def, color), c);
  }

  lemma BoundTo(m: map<Port, Binding>, def: ServiceDef, color: Color, tailnetIp: Option<string>, c: Port, bind: PortBind)
    requires Bound(m, SpecsOf(def, color), tailnetIp) && c in m && def.BindsTo(c, bind)
    ensures ListensOn(m[c].address, bind, tailnetIp)
  {
    LastSpecBinds(def, color, c, bind);
  }

  lemma BoundAsDefined(m: map<Port, Binding>, def: ServiceDef, color: Color, tailnetIp: Option<string>)
    requires Bound(m, SpecsOf(def, color), tailnetIp)
    ensures AsDefined(m, def, color, tailnetIp)
  {
    forall c: Port ensures PortAsDefined(m, def, color, tailnetIp, c) {
      BoundPort(m, def, color, tailnetIp, c);
      if c in m {
        var bind := PublishedBinds(def, c);
        BoundTo(m, def, color, tailnetIp, c, bind);
      }
    }
  }

  /** What Docker is told. It fails exactly when some port for the tailnet has no
      tailnet address to go to. */
  method BuildPortBindings(def: ServiceDef, color: Color, tailnetIp: Option<string>)
    returns (bindings: Option<map<Port, Binding>>)
    ensures bindings.None? <==> def.WantsTailnet() && tailnetIp.None?
    ensures bindings.Some? ==> AsDefined(bindings.value, def, color, tailnetIp)
  {
    var specs := PortBindingSpecs(def, color);
    var m: map<Port, Binding> := map[];
    SpecsTailed(def, color);
    for i := 0 to |specs|
      invariant Bound(m, specs[..i], tailnetIp)
      invariant forall spec <- specs[..i] :: Address(spec.bind, tailnetIp).Some?
    {
      var address := Address(specs[i].bind, tailnetIp);
      if address.None? { return None; }
      assert specs[..i + 1][..i] == specs[..i];
      assert specs[..i + 1] == specs[..i] + [specs[i]];
      m := m[specs[i].container := Binding(address.value, specs[i].host)];
    }
    assert specs[..|specs|] == specs;
    BoundAsDefined(m, def, color, tailnetIp);
    return Some(m);
  }

  /** Some host port would be wanted by both colors. */
  ghost predicate Clash(def: ServiceDef) {
    exists c: Port, d: Port :: def.Publishes(c) && def.Publishes(d)
                               && def.scheme.HostPort(Blue, c) == def.scheme.HostPort(Green, d)
  }

  /** The colors never compete for a host port exactly when no two published
      ports are as far apart as the two offsets are. */
  lemma ColorsDisjoint(def: ServiceDef)
    requires Fits(def, Blue) && Fits(def, Green)
    ensures !Clash(def) <==>
            forall c: Port, d: Port :: def.Publishes(c) && def.Publishes(d) ==>
              c - d != def.scheme.green - def.scheme.blue
  {
    forall c: Port, d: Port | def.Publishes(c) && def.Publishes(d)
      ensures def.scheme.HostPort(Blue, c) == def.scheme.HostPort(Green, d)
         <==> c - d == def.scheme.green - def.scheme.blue
    {
    }
  }

  /** In particular when the gap between the offsets exceeds the spread of the ports. */
  lemma GapExceedsSpread(def: ServiceDef, low: Port, high: Port)
    requires Fits(def, Blue) && Fits(def, Green)
    requires forall c: Port :: def.Publishes(c) ==> low <= c <= high
    requires def.scheme.green - def.scheme.blue > high - low || def.scheme.blue - def.scheme.green > high - low
    ensures !Clash(def)
  {
    ColorsDisjoint(def);
  }

  // ---------- Fixed ports ----------

  datatype Target = Target(service: Service, fixedPort: Port, containerPort: Port, bind: PortBind)

  function TargetsOf(s: Service, ports: seq<NamedPort>, protocol: PortProtocol): seq<Target> {
    if ports == [] then []
    else
      var front, p := ports[..|ports| - 1], ports[|ports| - 1];
      TargetsOf(s, front, protocol)
      + if p.protocol == protocol && p.fixedPort.Some?
        then [Target(s, p.fixedPort.value, p.containerPort, p.bind)] else []
  }

  function AllTargets(defs: seq<ServiceDef>, protocol: PortProtocol): seq<Target> {
    if defs == [] then []
    else
      AllTargets(defs[..|defs| - 1], protocol)
      + TargetsOf(defs[|defs| - 1].service, defs[|defs| - 1].ports, protocol)
  }

  method CollectTargets(defs: seq<ServiceDef>, protocol: PortProtocol) returns (targets: seq<Target>)
    ensures targets == AllTargets(defs, protocol)
  {
    targets := [];
    for i := 0 to |defs|
      invariant targets == AllTargets(defs[..i], protocol)
    {
      var def := defs[i];
      ghost var before := targets;
      for j := 0 to |def.ports|
        invariant targets == before + TargetsOf(def.service, def.ports[..j], protocol)
      {
        var port := def.ports[j];
        assert def.ports[..j + 1][..j] == def.ports[..j];
        if port.protocol == protocol {
          if port.fixedPort.Some? {
            targets := targets + [Target(def.service, port.fixedPort.value, port.containerPort, port.bind)];
          }
        }
      }
      assert def.ports[..|def.ports|] == def.ports;
      assert defs[..i + 1][..i] == defs[..i];
    }
    assert defs[..|defs|] == defs;
  }

  /** All fixed ports a definition asks for, whoever serves them. */
  function FixedPorts(s: Service, ports: seq<NamedPort>): multiset<Target> {
    if ports == [] then multiset{}
    else
      var front, p := ports[..|ports| - 1], ports[|ports| - 1];
      FixedPorts(s, front)
      + if p.fixedPort.Some? then multiset{Target(s, p.fixedPort.value, p.containerPort, p.bind)} else multiset{}
  }

  function AllFixedPorts(defs: seq<ServiceDef>): multiset<Target> {
    if defs == [] then multiset{}
    else AllFixedPorts(defs[..|defs| - 1]) + FixedPorts(defs[|defs| - 1].service, defs[|defs| - 1].ports)
  }

  lemma {:induction false} PortsPartition(s: Service, ports: seq<NamedPort>)
    ensures multiset(TargetsOf(s, ports, Tcp)) + multiset(TargetsOf(s, ports, Udp)) == FixedPorts(s, ports)
  {
    if ports != [] { PortsPartition(s, ports[..|ports| - 1]); }
  }

  /** Port `j` of the definition asks for this target and this protocol. */
  predicate Asks(def: ServiceDef, j: int, protocol: PortProtocol, t: Target) {
    && 0 <= j < |def.ports| && def.ports[j].protocol == protocol && def.ports[j].fixedPort == Some(t.fixedPort)
    && def.service == t.service && def.ports[j].containerPort == t.containerPort && def.ports[j].bind == t.bind
  }

  predicate Asked(defs: seq<ServiceDef>, protocol: PortProtocol, t: Target) {
    exists i, j :: 0 <= i < |defs| && 0 <= j < |defs[i].ports| && Asks(defs[i], j, protocol, t)
  }

  lemma {:induction false} TargetsAsked(def: ServiceDef, n: nat, protocol: PortProtocol, t: Target)
    requires n <= |def.ports|
    ensures t in TargetsOf(def.service, def.ports[..n], protocol) <==> exists j :: 0 <= j < n && Asks(def, j, protocol, t)
  {
    if n > 0 {
      TargetsAsked(def, n - 1, protocol, t);
      assert def.ports[..n][..n - 1] == def.ports[..n - 1];
      var p := def.ports[n - 1];
      assert Asks(def, n - 1, protocol, t) <==>
             p.protocol == protocol && p.fixedPort.Some? && t == Target(def.service, p.fixedPort.value, p.containerPort, p.bind);
    }
  }

  /** A list has exactly the fixed ports that ask for its protocol. */
  lemma {:induction false} ServedAsAsked(defs: seq<ServiceDef>, protocol: PortProtocol, t: Target)
    ensures t in AllTargets(defs, protocol) <==> Asked(defs, protocol, t)
  {
    if defs != [] {
      var n := |defs| - 1;
      var before, def := defs[..n], defs[n];
      ServedAsAsked(before, protocol, t);
      TargetsAsked(def, |def.ports|, protocol, t);
      assert def.ports[..|def.ports|] == def.ports;
      if i, j :| 0 <= i < n && 0 <= j < |before[i].ports| && Asks(before[i], j, protocol, t) {
        assert Asks(defs[i], j, protocol, t);
      }
      if j :| 0 <= j < |def.ports| && Asks(def, j, protocol, t) { assert Asks(defs[n], j, protocol, t); }
      if i, j :| 0 <= i < |defs| && 0 <= j < |defs[i].ports| && Asks(defs[i], j, protocol, t) {
        assert i == n || Asks(before[i], j, protocol, t);
      }
    }
  }

  /** Every fixed port is served exactly once: the TCP proxy's list and the UDP
      relay's together are all the fixed ports, with multiplicity, and each list has
      exactly those that ask for its protocol. */
  lemma {:induction false} TargetsPartition(defs: seq<ServiceDef>)
    ensures multiset(AllTargets(defs, Tcp)) + multiset(AllTargets(defs, Udp)) == AllFixedPorts(defs)
    ensures forall protocol, t :: t in AllTargets(defs, protocol) <==> Asked(defs, protocol, t)
  {
    if defs != [] {
      TargetsPartition(defs[..|defs| - 1]);
      PortsPartition(defs[|defs| - 1].service, defs[|defs| - 1].ports);
    }
    forall protocol, t ensures t in AllTargets(defs, protocol) <==> Asked(defs, protocol, t) {
      ServedAsAsked(defs, protocol, t);
    }
  }

  // ---------- The preview port ----------

  /** The definition checks that a deploy makes on UDP ports. */
  predicate UdpSane(def: ServiceDef) {
    forall i :: 0 <= i < |def.ports| && def.ports[i].protocol.Udp? ==>
      def.ports[i].fixedPort.Some? && def.ports[i].subdomain.None?
  }

  /** The first port with a subdomain. */
  predicate FirstNamed(def: ServiceDef, i: nat) {
    && i < |def.ports| && def.ports[i].subdomain.Some?
    && forall k :: 0 <= k < i ==> def.ports[k].subdomain.None?
  }

  /** The port a preview is shown on, and for a definition that passed its checks
      a port Docker publishes. */
  method ResolvePreviewPort(def: ServiceDef) returns (port: Option<Port>)
    ensures port.Some? && UdpSane(def) ==> def.Publishes(port.value)
    ensures forall i: nat :: FirstNamed(def, i) ==> port == Some(def.ports[i].containerPort)
    ensures port.Some? && (forall i: nat :: !FirstNamed(def, i)) ==> port.value == 8080
    ensures port.None? ==> forall i :: 0 <= i < |def.ports| ==> def.ports[i].subdomain.None?
    ensures port.None? && def.range.Some? ==> !(def.range.value.start <= 8080 <= def.range.value.end)
  {
    for i := 0 to |def.ports|
      invariant forall k :: 0 <= k < i ==> def.ports[k].subdomain.None?
    {
      if def.ports[i].subdomain.Some? {
        assert FirstNamed(def, i);
        assert def.ports[i].protocol.Tcp? ==> NamedAt(def.ports, i, def.ports[i].containerPort);
        return Some(def.ports[i].containerPort);
      }
    }
    if def.range.Some? && def.range.value.start <= 8080 && def.range.value.end >= 8080 { return Some(8080); }
    return None;
  }
}
