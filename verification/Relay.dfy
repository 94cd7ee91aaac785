/** The UDP relay of one fixed port: a capped table of clients, an outbound
    socket with a reply forwarder per client, and a cached address of the active
    container. Times are in nanoseconds. */
module Relay {
  import opened Common

  type Peer = string
  type Addr = string
  type Socket = nat

  const SECOND := 1_000_000_000
  const CLIENT_IDLE := 300 * SECOND
  const RESOLVE_TTL := 2 * SECOND
  const MAX_CLIENTS := 16

  datatype ClientEntry = ClientEntry(outbound: Socket, lastSeen: int)

  datatype Resolved = Resolved(addr: Addr, at: int)

  /** `forwarders[k]` is the peer that the forwarder of the k-th socket answers. */
  datatype State = State(clients: map<Peer, ClientEntry>, cached: Option<Resolved>, forwarders: seq<Peer>)

  const INITIAL := State(map[], None, [])

  /** An attempt to resolve the active container: the address it found, when it
      read the color, when it inspected that container and when it was done. */
  datatype Lookup =
    | Found(addr: Addr, readAt: int, inspectedAt: int, doneAt: int)
    | Failed(doneAt: int)

  datatype Event =
    | Receive(peer: Peer, seen: int, binds: bool, checked: int, lookup: Lookup)
    | Sweep(tick: int)
    | Reply(socket: Socket)

  datatype Outcome =
    | Dropped
    | Sent(from: Peer, via: Socket, server: Addr, at: int, fallback: bool)
    | Swept
    | Answered(client: Peer)

  // ---------- The operations on values ----------

  predicate Admits(s: State, peer: Peer, binds: bool) {
    peer in s.clients || (|s.clients| < MAX_CLIENTS && binds)
  }

  function SocketFor(s: State, peer: Peer): Socket {
    if peer in s.clients then s.clients[peer].outbound else |s.forwarders|
  }

  function Admit(s: State, peer: Peer, seen: int): State {
    s.(clients := s.clients[peer := ClientEntry(SocketFor(s, peer), seen)],
       forwarders := if peer in s.clients then s.forwarders else s.forwarders + [peer])
  }

  function Live(clients: map<Peer, ClientEntry>, now: int): map<Peer, ClientEntry> {
    map p | p in clients && now - clients[p].lastSeen < CLIENT_IDLE :: clients[p]
  }

  predicate Stale(cached: Option<Resolved>, now: int) {
    cached.None? || now - cached.value.at > RESOLVE_TTL
  }

  function Refresh(cached: Option<Resolved>, now: int, lookup: Lookup): Option<Resolved> {
    if Stale(cached, now) && lookup.Found? then Some(Resolved(lookup.addr, lookup.doneAt)) else cached
  }

  /** When the server address is at hand. */
  function Ready(cached: Option<Resolved>, now: int, lookup: Lookup): int {
    if Stale(cached, now) then lookup.doneAt else now
  }

  function Next(s: State, e: Event): State {
    match e
    case Receive(peer, seen, binds, checked, lookup) =>
      if Admits(s, peer, binds) then Admit(s, peer, seen).(cached := Refresh(s.cached, checked, lookup)) else s
    case Sweep(tick) => s.(clients := Live(s.clients, tick))
    case Reply(_) => s
  }

  function Out(s: State, e: Event): Outcome {
    match e
    case Receive(peer, _, binds, checked, lookup) =>
      var cached := Refresh(s.cached, checked, lookup);
      if !Admits(s, peer, binds) || cached.None? then Dropped
      else
        var fallback := Stale(s.cached, checked) && lookup.Failed?;
        Sent(peer, SocketFor(s, peer), cached.value.addr, Ready(s.cached, checked, lookup), fallback)
    case Sweep(_) => Swept
    case Reply(socket) => if socket < |s.forwarders| then Answered(s.forwarders[socket]) else Dropped
  }

  /** The state before the i-th event of a relay that just started. */
  function Before(events: seq<Event>, i: nat): State
    requires i <= |events|
    decreases i
  {
    if i == 0 then INITIAL else Next(Before(events, i - 1), events[i - 1])
  }

  function OutcomeAt(events: seq<Event>, i: nat): Outcome
    requires i < |events|
  {
    Out(Before(events, i), events[i])
  }

  // ---------- The relay ----------

  class UdpRelay {
    var clients: map<Peer, ClientEntry>
    var resolved: Option<Resolved>
    var forwarders: seq<Peer>

    constructor ()
      ensures Model() == INITIAL
    {
      clients, resolved, forwarders := map[], None, [];
    }

    function Model(): State
      reads this
    {
      State(clients, resolved, forwarders)
    }

    method OutboundFor(peer: Peer, seen: int, binds: bool) returns (outbound: Option<Socket>)
      modifies this`clients, this`forwarders
      ensures outbound.Some? == Admits(old(Model()), peer, binds)
      ensures outbound.Some? ==> outbound.value == SocketFor(old(Model()), peer)
      ensures Model() == if outbound.Some? then Admit(old(Model()), peer, seen) else old(Model())
    {
      if peer in clients {
        var entry := clients[peer];
        clients := clients[peer := entry.(lastSeen := seen)];
        return Some(entry.outbound);
      }
      if |clients| >= MAX_CLIENTS { return None; }
      if !binds { return None; }
      var socket := |forwarders|;
      forwarders := forwarders + [peer];
      clients := clients[peer := ClientEntry(socket, seen)];
      return Some(socket);
    }

    method ServerAddr(now: int, lookup: Lookup) returns (server: Option<Addr>)
      modifies this`resolved
      ensures resolved == Refresh(old(resolved), now, lookup)
      ensures server == if resolved.Some? then Some(resolved.value.addr) else None
    {
      var stale := resolved.None? || now - resolved.value.at > RESOLVE_TTL;
      if stale && lookup.Found? {
        resolved := Some(Resolved(lookup.addr, lookup.doneAt));
      }
      return if resolved.Some? then Some(resolved.value.addr) else None;
    }

    /** One turn of the relay loop, or one reply passed on by a forwarder. */
    method Handle(e: Event) returns (outcome: Outcome)
      modifies this
      ensures Model() == Next(old(Model()), e) && outcome == Out(old(Model()), e)
    {
      match e {
        case Receive(peer, seen, binds, checked, lookup) =>
          var outbound := OutboundFor(peer, seen, binds);
          if outbound.None? { return Dropped; }
          var fallback := Stale(resolved, checked) && lookup.Failed?;
          var at := Ready(resolved, checked, lookup);
          var server := ServerAddr(checked, lookup);
          if server.None? { return Dropped; }
          outcome := Sent(peer, outbound.value, server.value, at, fallback);
        case Sweep(tick) =>
          clients := Live(clients, tick);
          outcome := Swept;
        case Reply(socket) =>
          if socket < |forwarders| { return Answered(forwarders[socket]); }
          outcome := Dropped;
      }
    }

    method Relay(events: seq<Event>) returns (outcomes: seq<Outcome>)
      requires Model() == INITIAL
      modifies this
      ensures Model() == Before(events, |events|)
      ensures |outcomes| == |events| && forall i :: 0 <= i < |events| ==> outcomes[i] == OutcomeAt(events, i)
    {
      outcomes := [];
      for i := 0 to |events|
        invariant |outcomes| == i && Model() == Before(events, i)
        invariant forall j :: 0 <= j < i ==> outcomes[j] == OutcomeAt(events, j)
      {
        var outcome := Handle(events[i]);
        outcomes := outcomes + [outcome];
      }
    }
  }

  // ---------- Clients ----------

  /** The cap holds, and a client's socket was opened for that client. */
  ghost predicate Inv(s: State) {
    && |s.clients| <= MAX_CLIENTS
    && forall p <- s.clients :: s.clients[p].outbound < |s.forwarders| && s.forwarders[s.clients[p].outbound] == p
  }

  lemma LiveShrinks(clients: map<Peer, ClientEntry>, now: int)
    ensures |Live(clients, now)| <= |clients|
  {
    SubsetSize(Live(clients, now).Keys, clients.Keys);
    assert |Live(clients, now)| == |Live(clients, now).Keys| && |clients| == |clients.Keys|;
  }

  lemma {:induction false} SubsetSize(a: set<Peer>, b: set<Peer>)
    requires a <= b
    ensures |a| <= |b|
    decreases a
  {
    if x :| x in a { SubsetSize(a - {x}, b - {x}); }
  }

  lemma InsertSize(clients: map<Peer, ClientEntry>, peer: Peer, entry: ClientEntry)
    ensures |clients[peer := entry]| == |clients| + if peer in clients then 0 else 1
  {
    var bigger := clients[peer := entry];
    assert bigger.Keys == clients.Keys + {peer};
    assert |bigger| == |bigger.Keys| && |clients| == |clients.Keys|;
  }

  lemma StepKeepsInv(s: State, e: Event)
    requires Inv(s)
    ensures Inv(Next(s, e))
  {
    match e
    case Receive(peer, seen, binds, _, _) =>
      var k := if peer in s.clients then s.clients[peer].outbound else |s.forwarders|;
      InsertSize(s.clients, peer, ClientEntry(k, seen));
    case Sweep(tick) => LiveShrinks(s.clients, tick);
    case Reply(_) =>
  }

  /** Every state of every run. */
  lemma {:induction false} InvAlways(events: seq<Event>, i: nat)
    requires i <= |events|
    ensures Inv(Before(events, i))
    decreases i
  {
    if i > 0 {
      InvAlways(events, i - 1);
      StepKeepsInv(Before(events, i - 1), events[i - 1]);
    }
  }

  lemma {:induction false} ForwardersGrow(events: seq<Event>, i: nat, j: nat)
    requires i <= j <= |events|
    ensures Before(events, i).forwarders <= Before(events, j).forwarders
    decreases j
  {
    if i < j {
      ForwardersGrow(events, i, j - 1);
      ForwardersOneMore(events, j - 1);
    }
  }

  lemma ForwardersOneMore(events: seq<Event>, i: nat)
    requires i < |events|
    ensures Before(events, i).forwarders <= Before(events, i + 1).forwarders
  {
  }

  /** At all times at most 16 clients, no two on one socket. */
  lemma TableHolds(events: seq<Event>, i: nat)
    requires i <= |events|
    ensures var s := Before(events, i);
            && |s.clients| <= 16
            && (forall p, q | p in s.clients && q in s.clients && p != q :: s.clients[p].outbound != s.clients[q].outbound)
  {
    InvAlways(events, i);
  }

  /** The lookup of an admitted datagram found an address. */
  predicate Resolves(events: seq<Event>, k: nat)
    requires k < |events|
  {
    var e := events[k];
    e.Receive? && Admits(Before(events, k), e.peer, e.binds) && e.lookup.Found?
  }

  lemma {:induction false} UnresolvedSoFar(events: seq<Event>, i: nat)
    requires i <= |events|
    ensures Before(events, i).cached.None? <==> forall k :: 0 <= k < i ==> !Resolves(events, k)
    decreases i
  {
    if i > 0 {
      UnresolvedSoFar(events, i - 1);
      ResolvedStep(events, i - 1);
      assert (forall k :: 0 <= k < i ==> !Resolves(events, k))
        <==> (forall k :: 0 <= k < i - 1 ==> !Resolves(events, k)) && !Resolves(events, i - 1);
    }
  }

  lemma ResolvedStep(events: seq<Event>, i: nat)
    requires i < |events|
    ensures Before(events, i + 1).cached.None? <==> Before(events, i).cached.None? && !Resolves(events, i)
  {
  }

  /** Over every run a datagram is dropped if and only if its sender is unknown and
      the table has 16 others or no socket can be opened, or its lookup fails and no
      lookup has found an address before. So a client in the table is never dropped
      once the server was found. */
  lemma DroppedIff(events: seq<Event>, i: nat)
    requires i < |events| && events[i].Receive?
    ensures var s, e := Before(events, i), events[i];
            OutcomeAt(events, i).Dropped? <==>
              || (e.peer !in s.clients && (|s.clients| == 16 || !e.binds))
              || (e.lookup.Failed? && forall k :: 0 <= k < i ==> !Resolves(events, k))
  {
    InvAlways(events, i);
    UnresolvedSoFar(events, i);
  }

  lemma SentFromOwnSocket(s: State, e: Event)
    requires Inv(s) && Out(s, e).Sent?
    ensures var sent, s' := Out(s, e), Next(s, e);
            e.Receive? && sent.from == e.peer && sent.via < |s'.forwarders| && s'.forwarders[sent.via] == e.peer
  {
  }

  /** Demultiplexing over a whole run, sweeps and re-admissions included: what
      comes back on a socket goes to the one peer whose datagrams went out on it. */
  lemma NoCrossTalk(events: seq<Event>, i: nat, j: nat)
    requires i < |events| && j < |events|
    requires OutcomeAt(events, i).Sent? && events[j] == Reply(OutcomeAt(events, i).via)
    requires OutcomeAt(events, j).Answered?
    ensures events[i].Receive? && OutcomeAt(events, j) == Answered(events[i].peer)
  {
    InvAlways(events, i);
    SentFromOwnSocket(Before(events, i), events[i]);
    if i < j { ForwardersGrow(events, i + 1, j); } else { ForwardersGrow(events, j, i + 1); }
  }

  /** A reply passed on after the datagram was sent does reach that peer. */
  lemma ReplyComesBack(events: seq<Event>, i: nat, j: nat)
    requires i < j < |events|
    requires OutcomeAt(events, i).Sent? && events[j] == Reply(OutcomeAt(events, i).via)
    ensures OutcomeAt(events, j) == Answered(OutcomeAt(events, i).from)
  {
    InvAlways(events, i);
    SentFromOwnSocket(Before(events, i), events[i]);
    ForwardersGrow(events, i + 1, j);
  }

  /** The last time the peer was heard before the n-th event, if it was heard
      since the i-th. */
  function LastHeard(events: seq<Event>, peer: Peer, i: nat, n: nat): Option<int>
    requires i <= n <= |events|
    decreases n
  {
    if n == i then None
    else if events[n - 1].Receive? && events[n - 1].peer == peer then Some(events[n - 1].seen)
    else LastHeard(events, peer, i, n - 1)
  }

  /** No sweep between `i` and `n` finds the peer idle. */
  ghost predicate KeptWarm(events: seq<Event>, peer: Peer, i: nat, n: nat, first: int)
    requires i <= n <= |events|
  {
    forall k | i <= k < n && events[k].Sweep? ::
      var heard := LastHeard(events, peer, i, k);
      events[k].tick - (if heard.Some? then heard.value else first) < 300_000_000_000
  }

  /** The session is still the one it was: same socket, last heard when it was. */
  ghost predicate SameSession(events: seq<Event>, peer: Peer, i: nat, n: nat)
    requires i <= n <= |events| && peer in Before(events, i).clients
  {
    var was, now, heard := Before(events, i).clients[peer], Before(events, n).clients, LastHeard(events, peer, i, n);
    peer in now && now[peer] == ClientEntry(was.outbound, if heard.Some? then heard.value else was.lastSeen)
  }

  lemma {:induction false} WarmSessionStays(events: seq<Event>, peer: Peer, i: nat, n: nat)
    requires i <= n <= |events| && peer in Before(events, i).clients
    requires KeptWarm(events, peer, i, n, Before(events, i).clients[peer].lastSeen)
    ensures SameSession(events, peer, i, n)
    decreases n
  {
    if i < n { WarmSessionStays(events, peer, i, n - 1); }
  }

  /** A socket number below `bound` never comes back to the peer. */
  ghost predicate NeverBelow(s: State, peer: Peer, bound: nat) {
    bound <= |s.forwarders| && (peer in s.clients ==> s.clients[peer].outbound >= bound)
  }

  lemma NeverBelowStep(s: State, e: Event, peer: Peer, bound: nat)
    requires NeverBelow(s, peer, bound)
    ensures NeverBelow(Next(s, e), peer, bound)
  {
  }

  lemma {:induction false} NeverBelowAgain(events: seq<Event>, peer: Peer, bound: nat, i: nat, n: nat)
    requires i <= n <= |events| && NeverBelow(Before(events, i), peer, bound)
    ensures NeverBelow(Before(events, n), peer, bound)
    decreases n
  {
    if i < n {
      NeverBelowAgain(events, peer, bound, i, n - 1);
      NeverBelowStep(Before(events, n - 1), events[n - 1], peer, bound);
    }
  }

  /** The first sweep that finds the peer idle. */
  lemma {:induction false} FirstIdleSweep(events: seq<Event>, peer: Peer, i: nat, n: nat, first: int) returns (k: nat)
    requires i <= n <= |events| && !KeptWarm(events, peer, i, n, first)
    ensures i <= k < n && events[k].Sweep? && KeptWarm(events, peer, i, k, first)
    ensures var heard := LastHeard(events, peer, i, k);
            events[k].tick - (if heard.Some? then heard.value else first) >= CLIENT_IDLE
    decreases n
  {
    if KeptWarm(events, peer, i, n - 1, first) { k := n - 1; } else { k := FirstIdleSweep(events, peer, i, n - 1, first); }
  }

  /** Over every run, a session keeps its socket if and only if no sweep finds it
      idle for 300 seconds or more: an evicted client that comes back is given
      another one. */
  lemma SessionStable(events: seq<Event>, peer: Peer, i: nat, n: nat)
    requires i <= n <= |events| && peer in Before(events, i).clients
    ensures var was, now := Before(events, i).clients[peer], Before(events, n).clients;
            peer in now && now[peer].outbound == was.outbound <==> KeptWarm(events, peer, i, n, was.lastSeen)
  {
    if KeptWarm(events, peer, i, n, Before(events, i).clients[peer].lastSeen) {
      WarmSessionStays(events, peer, i, n);
    } else {
      var k := FirstIdleSweep(events, peer, i, n, Before(events, i).clients[peer].lastSeen);
      WarmSessionStays(events, peer, i, k);
      EvictedForGood(events, peer, k, n);
    }
  }

  lemma EvictedForGood(events: seq<Event>, peer: Peer, k: nat, n: nat)
    requires k < n <= |events| && events[k].Sweep? && peer in Before(events, k).clients
    requires events[k].tick - Before(events, k).clients[peer].lastSeen >= CLIENT_IDLE
    ensures peer in Before(events, n).clients ==>
              Before(events, n).clients[peer].outbound > Before(events, k).clients[peer].outbound
  {
    InvAlways(events, k);
    SweptAway(events, peer, k);
    NeverBelowAgain(events, peer, Before(events, k).clients[peer].outbound + 1, k + 1, n);
  }

  lemma SweptAway(events: seq<Event>, peer: Peer, k: nat)
    requires k < |events| && events[k].Sweep? && Inv(Before(events, k)) && peer in Before(events, k).clients
    requires events[k].tick - Before(events, k).clients[peer].lastSeen >= CLIENT_IDLE
    ensures NeverBelow(Before(events, k + 1), peer, Before(events, k).clients[peer].outbound + 1)
  {
  }

  // ---------- Where datagrams go ----------

  /** What a lookup can see: the recorded color and the containers' addresses over time. */
  datatype Timeline = Timeline(color: int -> Color, address: (Color, int) -> Addr)

  /** Between `from` and `until` the color was read and then the container of that
      color had this address. */
  ghost predicate ActiveDuring(host: Timeline, addr: Addr, from: int, until: int) {
    exists t, u :: from <= t <= u <= until && host.address(host.color(t), u) == addr
  }

  /** The parts of handling one datagram follow each other in time. */
  predicate Ordered(e: Event) {
    e.Receive? ==>
      && e.seen <= e.checked <= e.lookup.doneAt
      && (e.lookup.Found? ==> e.checked <= e.lookup.readAt <= e.lookup.inspectedAt <= e.lookup.doneAt)
  }

  /** A lookup answers what it saw, and takes at most `latency`. */
  predicate Truthful(host: Timeline, latency: nat, e: Event) {
    e.Receive? && e.lookup.Found? ==>
      && host.address(host.color(e.lookup.readAt), e.lookup.inspectedAt) == e.lookup.addr
      && e.lookup.doneAt - e.lookup.readAt <= latency
  }

  /** Datagrams are handled one after the other, with truthful lookups. */
  ghost predicate Honest(host: Timeline, latency: nat, events: seq<Event>) {
    && (forall e <- events :: Ordered(e) && Truthful(host, latency, e))
    && (forall i, j | 0 <= i < j < |events| && events[i].Receive? && events[j].Receive? ::
          events[i].lookup.doneAt <= events[j].seen)
  }

  ghost predicate CacheHonest(host: Timeline, latency: nat, cached: Option<Resolved>) {
    cached.Some? ==> ActiveDuring(host, cached.value.addr, cached.value.at - latency, cached.value.at)
  }

  /** The cache was filled before the datagrams from the i-th on arrived. */
  ghost predicate FilledBefore(events: seq<Event>, i: nat, cached: Option<Resolved>) {
    cached.Some? ==> forall j | i <= j < |events| && events[j].Receive? :: cached.value.at <= events[j].seen
  }

  lemma StepCache(s: State, e: Event)
    ensures Next(s, e).cached == s.cached
         || (e.Receive? && e.lookup.Found? && Next(s, e).cached == Some(Resolved(e.lookup.addr, e.lookup.doneAt)))
  {
  }

  lemma {:induction false} CacheHonestAlways(host: Timeline, latency: nat, events: seq<Event>, i: nat)
    requires i <= |events| && Honest(host, latency, events)
    ensures CacheHonest(host, latency, Before(events, i).cached) && FilledBefore(events, i, Before(events, i).cached)
    decreases i
  {
    if i > 0 {
      var e := events[i - 1];
      CacheHonestAlways(host, latency, events, i - 1);
      StepCache(Before(events, i - 1), e);
      assert e in events;
      if e.Receive? && e.lookup.Found? {
        assert host.address(host.color(e.lookup.readAt), e.lookup.inspectedAt) == e.lookup.addr;
      }
    }
  }

  /** Bounded staleness over every run: a datagram goes to an address that was
      the active container's within the cache's lifetime plus the time one lookup
      takes, unless this datagram's own lookup failed; then the last known address
      is used and the cache stays as it is. */
  lemma StalenessBound(host: Timeline, latency: nat, events: seq<Event>, i: nat)
    requires i < |events| && Honest(host, latency, events) && OutcomeAt(events, i).Sent?
    ensures var sent := OutcomeAt(events, i);
            if sent.fallback then
              && Before(events, i).cached.Some? && sent.server == Before(events, i).cached.value.addr
              && Before(events, i + 1).cached == Before(events, i).cached
              && ActiveDuring(host, sent.server, Before(events, i).cached.value.at - latency, sent.at)
            else ActiveDuring(host, sent.server, sent.at - 2_000_000_000 - latency, sent.at)
  {
    var s, e := Before(events, i), events[i];
    CacheHonestAlways(host, latency, events, i);
    assert e in events;
    if Stale(s.cached, e.checked) && e.lookup.Found? {
      assert host.address(host.color(e.lookup.readAt), e.lookup.inspectedAt) == e.lookup.addr;
    }
  }

  /** After a cutover datagrams go to the new color's container from the cache's
      lifetime plus one lookup on, unless lookups fail: the replaced one gets none. */
  lemma ReplacedContainerDrains(host: Timeline, latency: nat, events: seq<Event>, cutover: int, promoted: Color, i: nat)
    requires i < |events| && Honest(host, latency, events) && OutcomeAt(events, i).Sent?
    requires forall t :: t >= cutover ==> host.color(t) == promoted
    requires OutcomeAt(events, i).at >= cutover + 2_000_000_000 + latency && !OutcomeAt(events, i).fallback
    ensures exists u :: cutover <= u <= OutcomeAt(events, i).at && host.address(promoted, u) == OutcomeAt(events, i).server
  {
    StalenessBound(host, latency, events, i);
    var sent := OutcomeAt(events, i);
    var t, u :| sent.at - RESOLVE_TTL - latency <= t <= u <= sent.at && host.address(host.color(t), u) == sent.server;
    assert host.address(promoted, u) == sent.server;
  }

  /** Two seconds sharp is promised exactly for lookups that take no time: the
      cache is stamped when the answer arrives, not when it was read. */
  lemma TwoSecondsIffInstant(addr: Addr, readAt: int, doneAt: int)
    requires readAt <= doneAt
    ensures (forall t :: t >= doneAt && !Stale(Some(Resolved(addr, doneAt)), t) ==> t - readAt <= 2_000_000_000)
       <==> readAt == doneAt
  {
    var cached, last := Some(Resolved(addr, doneAt)), doneAt + RESOLVE_TTL;
    assert !Stale(cached, last);
  }

  /** A lookup that takes one second lets the replaced container get a datagram
      two and a half seconds after the cutover. */
  lemma SlowLookupOutlivesTtl() returns (host: Timeline, events: seq<Event>)
    ensures Honest(host, SECOND, events) && |events| == 2
    ensures forall t :: t >= SECOND / 2 ==> host.color(t) == Green
    ensures forall t, u :: host.address(Blue, t) != host.address(Green, u)
    ensures OutcomeAt(events, 1).Sent? && !OutcomeAt(events, 1).fallback
    ensures OutcomeAt(events, 1).server == host.address(Blue, 0) && OutcomeAt(events, 1).at == 3 * SECOND
  {
    host := Timeline(t => if t < SECOND / 2 then Blue else Green, (c, t) => if c == Blue then "blue" else "green");
    var first := Receive("peer", 0, true, 0, Found("blue", 0, 0, SECOND));
    var second := Receive("peer", 3 * SECOND, true, 3 * SECOND, Failed(3 * SECOND));
    events := [first, second];
  }

  // ---------- Retrying ----------

  /** The datagram gets as far as a lookup. */
  predicate Tries(s: State, e: Event) {
    e.Receive? && Admits(s, e.peer, e.binds) && Stale(s.cached, e.checked)
  }

  predicate NotResolved(events: seq<Event>, i: nat)
    requires i < |events|
  {
    Tries(Before(events, i), events[i]) ==> events[i].lookup.Failed?
  }

  lemma FailureKeepsCache(events: seq<Event>, i: nat)
    requires i < |events| && NotResolved(events, i)
    ensures Before(events, i + 1).cached == Before(events, i).cached
  {
  }

  lemma {:induction false} FailuresKeepCache(events: seq<Event>, i: nat, j: nat)
    requires i <= j <= |events|
    requires forall k | i <= k < j :: NotResolved(events, k)
    ensures Before(events, j).cached == Before(events, i).cached
    decreases j
  {
    if i < j {
      FailuresKeepCache(events, i, j - 1);
      FailureKeepsCache(events, j - 1);
    }
  }

  /** As long as lookups fail, the cache stays and every admitted datagram tries again. */
  lemma FailedLookupRetries(host: Timeline, latency: nat, events: seq<Event>, i: nat, j: nat)
    requires Honest(host, latency, events) && i < j < |events|
    requires Tries(Before(events, i), events[i])
    requires forall k | i <= k < j :: NotResolved(events, k)
    ensures Before(events, j).cached == Before(events, i).cached
    ensures events[j].Receive? && Admits(Before(events, j), events[j].peer, events[j].binds)
        ==> Tries(Before(events, j), events[j])
  {
    FailuresKeepCache(events, i, j);
    assert events[i] in events && events[j] in events;
    assert events[j].Receive? ==> events[i].lookup.doneAt <= events[j].seen;
  }
}
