/** The methods that work on the cache (resolve's address loop, prepare, RoundTrip up to the site's unlock,
    destroyClient and one pass of cleaner, proxy/transport/client.go). Each is shown to be a run of the machine
    in SiteLifecycle, so what is proved there of every run holds of them. */
module SiteCache {
  import opened GoTypes
  import opened SiteLifecycle

  /** What the name of a site leads to. */
  datatype Found = NotFound | FoundBag | FoundServer(key: nat, addresses: seq<nat>)

  /** A connection asked for: the server's key, its address, and the site's host. */
  datatype Dial = Dial(key: nat, addr: nat, host: Host)

  class RldpInfo {
    const id: nat
    const addr: nat
    var activeClient: Option<ClientId>

    constructor (id: nat, addr: nat, client: Option<ClientId>)
      ensures this.id == id && this.addr == addr && activeClient == client
    {
      this.id, this.addr, activeClient := id, addr, client;
    }

    /** Closes a client that has disconnected, and forgets it where it is the active one. */
    method DestroyClient(gone: ClientId, out: Outside)
      modifies this, out`closed
      ensures out.closed == old(out.closed) + {gone}
      ensures activeClient == if old(activeClient) == Some(gone) then None else old(activeClient)
    {
      out.Close(gone);
      if activeClient == Some(gone) { activeClient := None; }
    }
  }

  datatype Backend = Nothing | OfBag(bag: BagId) | OfServer(info: RldpInfo)

  function Infos(a: Backend): set<RldpInfo> {
    if a.OfServer? then {a.info} else {}
  }

  function Seen(a: Backend): Actor
    reads Infos(a)
  {
    match a
    case Nothing => NoActor
    case OfBag(bag) => Bag(bag)
    case OfServer(info) => Rldp(info.activeClient)
  }

  class SiteInfo {
    const host: Host
    ghost const id: SiteId
    var actor: Backend
    var lastUsed: int
    var lastSuccess: int
    var locked: bool

    constructor (host: Host, now: int, ghost id: SiteId)
      ensures this.host == host && this.id == id
      ensures actor == Nothing && lastUsed == now && lastSuccess == 0 && !locked
    {
      this.host, this.id, actor, lastUsed, lastSuccess, locked := host, id, Nothing, now, 0, false;
    }
  }

  /** The actor once a client is gone. */
  function Without(a: Actor, gone: ClientId): Actor {
    if a == Rldp(Some(gone)) then Rldp(None) else a
  }

  /** A later reading of the clock gives no earlier time. */
  predicate Later(clock: nat -> int, i: nat, j: nat) {
    i <= j ==> clock(i) <= clock(j)
  }

  ghost predicate Rising(clock: nat -> int) {
    forall i: nat, j: nat {:trigger Later(clock, i, j)} :: Later(clock, i, j)
  }

  /** What the methods ask of the outside, answer by answer: the clock, the resolver, the gate and the global
      context. The ghost world is the machine's, moved along with them. */
  class Outside {
    const clock: nat -> int
    const finds: (Host, nat) -> Found
    const connects: nat -> bool
    const stopped: nat -> bool
    var readings: nat
    var lookups: nat
    var dialled: seq<Dial>
    var reinits: seq<ClientId>
    var asked: nat
    var now: int
    var bags: nat
    var clients: seq<Host>
    var closed: set<ClientId>
    var stops: seq<BagId>
    ghost const start: World
    ghost const limit: int
    ghost var world: World
    ghost var table: map<Host, SiteId>

    ghost predicate Valid()
      reads this
    {
      && Rising(clock) && now <= clock(readings)
      && Reaches(start, limit, world) && world.now == now
    }

    /** The world has handed out the same bags and clients, closed the same clients and kept the same table. */
    ghost predicate Counted()
      reads this
    {
      (world.bags, world.hosts, world.closedClients, world.active) == (bags, clients, closed, table)
    }

    constructor (clock: nat -> int, finds: (Host, nat) -> Found, connects: nat -> bool, stopped: nat -> bool,
                 ghost threads: set<Thread>, ghost limit: int)
      requires 0 <= clock(0) && Rising(clock)
      ensures Valid() && Counted() && world == start == NewTransport(0, threads) && this.limit == limit
      ensures this.clock == clock && this.finds == finds && this.connects == connects && this.stopped == stopped
    {
      this.clock, this.finds, this.connects, this.stopped := clock, finds, connects, stopped;
      readings, lookups, asked, now, bags, clients := 0, 0, 0, 0, 0, [];
      dialled, reinits := [], [];
      closed, stops := {}, [];
      this.start, this.limit := NewTransport(0, threads), limit;
      this.world, this.table := NewTransport(0, threads), map[];
      new;
      ReachesItself(start, limit);
    }

    /** Thread t takes a step. */
    ghost method Runs(t: Thread, c: Choice)
      requires Valid() && Step(world, limit, Mover.Runs(t), c).Some?
      requires Step(world, limit, Mover.Runs(t), c).value.now == now
      modifies this`world
      ensures Valid() && Step(old(world), limit, Mover.Runs(t), c) == Some(world)
    {
      var n := Step(world, limit, Mover.Runs(t), c).value;
      Next(start, limit, world, Mover.Runs(t), c, n);
      world := n;
    }

    /** The cleaner takes a step. */
    ghost method Cleans(c: Choice)
      requires Valid() && CleanerStep(world, c).Some? && CleanerStep(world, c).value.now == now
      modifies this`world
      ensures Valid() && CleanerStep(old(world), c) == Some(world)
    {
      var n := CleanerStep(world, c).value;
      Next(start, limit, world, Mover.Cleans, c, n);
      world := n;
    }

    method Now() returns (time: int)
      requires Valid()
      modifies this`readings, this`now, this`world
      ensures Valid() && time == now == clock(old(readings)) && readings == old(readings) + 1 && now >= old(now)
      ensures world == old(world).(now := now)
    {
      time := clock(readings);
      assert Later(clock, readings, readings + 1);
      ghost var n := world.(now := time);
      Next(start, limit, world, Ticks(time), Go, n);
      readings, now, world := readings + 1, time, n;
    }

    /** A site that is ready is stamped, if it is a bag or a client that is set anew. */
    ghost method Uses(t: Thread, i: SiteId, depth: nat, resolved: bool)
      requires Valid() && t in world.threads && world.threads[t] == Switch(i, depth, resolved)
      requires i < |world.sites| && Ready(world.sites[i].actor)
      modifies this`world
      ensures Valid()
      ensures var w, site := old(world), old(world).sites[i];
              var used := if site.actor.Bag? || site.lastUsed + REINIT_AFTER < now then now else site.lastUsed;
              world == w.(sites := w.sites[i := site.(lastUsed := used)], threads := w.threads[t := HandOut(i)])
    {
      Runs(t, Go);
      assert world.sites == old(world).sites[i := world.sites[i]];
    }

    /** A round trip looks its site up, or makes it. */
    ghost method LooksUp(t: Thread, host: Host)
      requires Valid() && t in world.threads && world.threads[t] == Lookup(host)
      modifies this`world
      ensures Valid()
      ensures var w := old(world);
              if host in w.active then world == w.(threads := w.threads[t := Pc.Lock(w.active[host])])
              else world == w.(sites := w.sites + [Site(host, NoActor, None, now, 0, None)],
                               active := w.active[host := |w.sites|], threads := w.threads[t := Pc.Lock(|w.sites|)])
    {
      Runs(t, Go);
    }

    /** A disconnect closes its client and drops it from site i, in two steps. */
    ghost method Drops(t: Thread, gone: ClientId, i: SiteId)
      requires Valid() && t in world.threads && world.threads[t] == DClose(gone, i) && i < |world.sites|
      modifies this`world
      ensures Valid() && world == old(world).(
                closedClients := old(world).closedClients + {gone}, threads := old(world).threads[t := Unlock(i)],
                sites := old(world).sites[i := old(world).sites[i].(actor := Without(old(world).sites[i].actor, gone))])
    {
      Runs(t, Go);
      var w := world;
      Runs(t, Go);
      assert w.sites[i := w.sites[i]] == w.sites;
      assert w.threads[t := Unlock(i)] == old(world).threads[t := Unlock(i)];
    }

    /** A connection for site i is made or fails. */
    ghost method Connects(t: Thread, i: SiteId, depth: nat, ok: bool)
      requires Valid() && t in world.threads && world.threads[t] == Pc.Connect(i, depth) && i < |world.sites|
      modifies this`world
      ensures Valid()
      ensures var w, site := old(world), old(world).sites[i];
              if ok then
                var connected := site.(actor := Rldp(Some(|w.hosts|)), arriving := None, lastUsed := now);
                world == w.(sites := w.sites[i := connected],
                            hosts := w.hosts + [site.host], threads := w.threads[t := HandOut(i)])
              else
                world == w.(sites := w.sites[i := site.(actor := NoActor)],
                            threads := w.threads[t := Decide(i, depth + 1)])
    {
      Runs(t, if ok then Go else Fails);
      if ok {
        Runs(t, Go);
        assert world.threads == old(world).threads[t := HandOut(i)];
      }
    }

    /** A name is resolved to a server with a new client, which becomes site i's. */
    ghost method Installs(t: Thread, i: SiteId, depth: nat)
      requires Valid() && t in world.threads && world.threads[t] == Pc.Resolve(i, depth) && i < |world.sites|
      modifies this`world
      ensures Valid()
      ensures var w, site := old(world), old(world).sites[i];
              world == w.(sites := w.sites[i := site.(actor := Rldp(Some(|w.hosts|)), arriving := None)],
                          hosts := w.hosts + [site.host], threads := w.threads[t := Pc.StampSuccess(i, depth)])
    {
      Runs(t, GivesRldp);
      Runs(t, Go);
      assert world.threads == old(world).threads[t := Pc.StampSuccess(i, depth)];
    }

    method Stopped() returns (yes: bool)
      modifies this`asked
      ensures yes == stopped(old(asked)) && asked == old(asked) + 1
    {
      yes, asked := stopped(asked), asked + 1;
    }

    method Connect(key: nat, addr: nat, host: Host) returns (client: Option<ClientId>)
      modifies this`dialled, this`clients
      ensures dialled == old(dialled) + [Dial(key, addr, host)]
      ensures client == if connects(|old(dialled)|) then Some(|old(clients)|) else None
      ensures clients == if connects(|old(dialled)|) then old(clients) + [host] else old(clients)
    {
      client := if connects(|dialled|) then Some(|clients|) else None;
      if client.Some? { clients := clients + [host]; }
      dialled := dialled + [Dial(key, addr, host)];
    }

    /** An idle client's connection is set anew. */
    method Reinit(client: ClientId)
      modifies this`reinits
      ensures reinits == old(reinits) + [client]
    {
      reinits := reinits + [client];
    }

    method Close(client: ClientId)
      modifies this`closed
      ensures closed == old(closed) + {client}
    {
      closed := closed + {client};
    }
  }

  // ---------------------------------------------------------------- resolve

  /** How many of n dials from number dial on fail before one connects: all n when none does. */
  function FirstLive(connects: nat -> bool, dial: nat, n: nat): (k: nat)
    ensures k <= n && (k < n ==> connects(dial + k))
    ensures forall j: nat :: dial <= j < dial + k ==> !connects(j)
    decreases n
  {
    if n == 0 || connects(dial) then 0 else 1 + FirstLive(connects, dial + 1, n - 1)
  }

  lemma {:induction false} FirstLiveAfter(connects: nat -> bool, dial: nat, n: nat, k: nat)
    requires k < n && connects(dial + k) && forall j: nat :: dial <= j < dial + k ==> !connects(j)
    ensures FirstLive(connects, dial, n) == k
    decreases n
  {
    if k > 0 { FirstLiveAfter(connects, dial + 1, n - 1, k - 1); }
  }

  /** The dials of a server's addresses, in order. */
  function DialsTo(key: nat, addresses: seq<nat>, host: Host): (dials: seq<Dial>)
    ensures |dials| == |addresses|
  {
    if addresses == [] then []
    else DialsTo(key, addresses[..|addresses| - 1], host) + [Dial(key, addresses[|addresses| - 1], host)]
  }

  /** Tries the addresses in order and keeps the first that connects; without any it fails. */
  method ConnectFirst(out: Outside, host: Host, key: nat, addresses: seq<nat>) returns (info: Option<RldpInfo>)
    modifies out`dialled, out`clients
    ensures var k := FirstLive(out.connects, |old(out.dialled)|, |addresses|);
            if k == |addresses| then
              && info == None && out.clients == old(out.clients)
              && out.dialled == old(out.dialled) + DialsTo(key, addresses, host)
            else
              && info.Some? && fresh(info.value) && info.value.id == key && info.value.addr == addresses[k]
              && info.value.activeClient == Some(|old(out.clients)|) && out.clients == old(out.clients) + [host]
              && out.dialled == old(out.dialled) + DialsTo(key, addresses[..k + 1], host)
  {
    info := None;
    for i := 0 to |addresses|
      invariant info == None && out.clients == old(out.clients)
      invariant out.dialled == old(out.dialled) + DialsTo(key, addresses[..i], host)
      invariant forall k: nat :: |old(out.dialled)| <= k < |old(out.dialled)| + i ==> !out.connects(k)
    {
      var client := out.Connect(key, addresses[i], host);
      assert addresses[..i + 1][..i] == addresses[..i];
      if client.Some? {
        FirstLiveAfter(out.connects, |old(out.dialled)|, |addresses|, i);
        var server := new RldpInfo(key, addresses[i], client);
        return Some(server);
      }
    }
    assert addresses[..|addresses|] == addresses;
  }

  /** The dials of a lookup, from number dial on: a server's addresses up to the first that connects. */
  function DialsOf(found: Found, connects: nat -> bool, dial: nat, host: Host): seq<Dial> {
    match found
    case NotFound => []
    case FoundBag => []
    case FoundServer(key, addresses) =>
      var k := FirstLive(connects, dial, |addresses|);
      DialsTo(key, if k == |addresses| then addresses else addresses[..k + 1], host)
  }

  /** What a lookup leads to, its dials starting at number dial: a new bag, the first server that connects, with
      the key found and that address, or nothing. */
  ghost predicate LedTo(found: Found, connects: nat -> bool, dial: nat, bags: nat, a: Backend) {
    match found
    case NotFound => a == Nothing
    case FoundBag => a == OfBag(bags)
    case FoundServer(key, addresses) =>
      var k := FirstLive(connects, dial, |addresses|);
      if k == |addresses| then a == Nothing else a.OfServer? && a.info.id == key && a.info.addr == addresses[k]
  }

  /** Whether a lookup fails, its dials starting at number dial. */
  predicate NoAnswer(found: Found, connects: nat -> bool, dial: nat) {
    match found
    case NotFound => true
    case FoundBag => false
    case FoundServer(_, addresses) => forall k: nat :: dial <= k < dial + |addresses| ==> !connects(k)
  }

  lemma LedToNothing(found: Found, connects: nat -> bool, dial: nat, bags: nat, a: Backend)
    requires LedTo(found, connects, dial, bags, a)
    ensures a == Nothing <==> NoAnswer(found, connects, dial)
  {
    if found.FoundServer? {
      var k := FirstLive(connects, dial, |found.addresses|);
      assert k < |found.addresses| ==> connects(dial + k);
    }
  }

  method Resolve(out: Outside, host: Host) returns (actor: Backend)
    modifies out`lookups, out`dialled, out`clients, out`bags
    ensures out.lookups == old(out.lookups) + 1
    ensures LedTo(out.finds(host, old(out.lookups)), out.connects, |old(out.dialled)|, old(out.bags), actor)
    ensures actor == Nothing <==> NoAnswer(out.finds(host, old(out.lookups)), out.connects, |old(out.dialled)|)
    ensures var dials := DialsOf(out.finds(host, old(out.lookups)), out.connects, |old(out.dialled)|, host);
            out.dialled == old(out.dialled) + dials
    ensures actor.OfBag? ==> actor.bag == old(out.bags)
    ensures actor.OfServer? ==> fresh(actor.info) && actor.info.activeClient == Some(|old(out.clients)|)
    ensures out.bags == if actor.OfBag? then old(out.bags) + 1 else old(out.bags)
    ensures out.clients == if actor.OfServer? then old(out.clients) + [host] else old(out.clients)
  {
    var found := out.finds(host, out.lookups);
    out.lookups := out.lookups + 1;
    ghost var dial, bags := |out.dialled|, out.bags;
    match found {
      case NotFound => actor := Nothing;
      case FoundBag =>
        actor := OfBag(out.bags);
        out.bags := out.bags + 1;
      case FoundServer(key, addresses) =>
        var info := ConnectFirst(out, host, key, addresses);
        actor := if info.Some? then OfServer(info.value) else Nothing;
    }
    LedToNothing(found, out.connects, dial, bags, actor);
  }

  // ---------------------------------------------------------------- prepare

  function PcOf(w: World, t: Thread): Option<Pc> {
    if t in w.threads then Some(w.threads[t]) else None
  }

  function SiteAt(sites: seq<Site>, i: SiteId): Option<Site> {
    if i < |sites| then Some(sites[i]) else None
  }

  ghost predicate Same(sites: seq<Site>, s: SiteInfo, mx: Option<Holder>)
    reads s`actor, s`lastUsed, s`lastSuccess, Infos(s.actor)
  {
    SiteAt(sites, s.id) == Some(Site(s.host, Seen(s.actor), None, s.lastUsed, s.lastSuccess, mx))
  }

  /** Thread t, which holds the site's lock, is at pc. */
  ghost predicate At(out: Outside, s: SiteInfo, t: Thread, pc: Pc)
    reads out, s, Infos(s.actor)
  {
    && out.Valid() && out.Counted() && Same(out.world.sites, s, Some(ByThread(t)))
    && PcOf(out.world, t) == Some(pc)
  }

  /** The name is looked up, and what it leads to becomes the site's actor. */
  method ResolveSite(out: Outside, s: SiteInfo, ghost t: Thread, ghost depth: nat) returns (ok: bool)
    requires At(out, s, t, Pc.Resolve(s.id, depth))
    modifies out`lookups, out`dialled, out`bags, out`clients, out`world, s`actor
    ensures At(out, s, t, if ok then Pc.StampSuccess(s.id, depth) else Unlock(s.id))
    ensures var found := out.finds(s.host, old(out.lookups));
            && ok == !NoAnswer(found, out.connects, |old(out.dialled)|)
            && LedTo(found, out.connects, |old(out.dialled)|, old(out.bags), s.actor)
            && out.lookups == old(out.lookups) + 1
            && out.dialled == old(out.dialled) + DialsOf(found, out.connects, |old(out.dialled)|, s.host)
    ensures s.actor.OfServer? ==> fresh(s.actor.info)
    ensures if ok then s.actor != Nothing else s.actor == Nothing
    ensures s.actor.OfServer? ==> s.actor.info.activeClient.Some?
  {
    s.actor := Resolve(out, s.host);
    ok := s.actor != Nothing;
    if s.actor.OfServer? {
      out.Installs(t, s.id, depth);
    } else {
      out.Runs(t, if ok then GivesBag else Fails);
    }
  }

  method StampSuccess(out: Outside, s: SiteInfo, ghost t: Thread, ghost depth: nat)
    requires At(out, s, t, Pc.StampSuccess(s.id, depth))
    modifies out`readings, out`now, out`world, s`lastSuccess
    ensures At(out, s, t, Pc.StampUsed(s.id, depth))
    ensures s.lastSuccess == out.now == out.clock(old(out.readings)) && out.readings == old(out.readings) + 1
  {
    s.lastSuccess := out.Now();
    out.Runs(t, Go);
  }

  method StampUsed(out: Outside, s: SiteInfo, ghost t: Thread, ghost depth: nat)
    requires At(out, s, t, Pc.StampUsed(s.id, depth))
    modifies out`readings, out`now, out`world, s`lastUsed
    ensures At(out, s, t, Switch(s.id, depth, true))
    ensures s.lastUsed == out.now && out.readings == old(out.readings) + 1
  {
    s.lastUsed := out.Now();
    out.Runs(t, Go);
  }

  method Stamp(out: Outside, s: SiteInfo, ghost t: Thread, ghost depth: nat)
    requires At(out, s, t, Pc.StampSuccess(s.id, depth))
    modifies out`readings, out`now, out`world, s`lastSuccess, s`lastUsed
    ensures At(out, s, t, Switch(s.id, depth, true))
    ensures s.lastSuccess == out.clock(old(out.readings)) && out.readings == old(out.readings) + 2
  {
    StampSuccess(out, s, t, depth);
    StampUsed(out, s, t, depth);
  }

  /** LastSuccess is stamped too, not to resolve again too soon. */
  method ResolveAndStamp(out: Outside, s: SiteInfo, ghost t: Thread, ghost depth: nat) returns (ok: bool)
    requires At(out, s, t, Pc.Resolve(s.id, depth))
    modifies out`readings, out`now, out`lookups, out`dialled, out`bags, out`clients, out`world,
             s`actor, s`lastUsed, s`lastSuccess
    ensures At(out, s, t, if ok then Switch(s.id, depth, true) else Unlock(s.id))
    ensures out.readings >= old(out.readings)
    ensures var found := out.finds(s.host, old(out.lookups));
            && ok == !NoAnswer(found, out.connects, |old(out.dialled)|)
            && LedTo(found, out.connects, |old(out.dialled)|, old(out.bags), s.actor)
            && out.lookups == old(out.lookups) + 1
            && out.dialled == old(out.dialled) + DialsOf(found, out.connects, |old(out.dialled)|, s.host)
    ensures if ok then s.actor != Nothing && s.lastSuccess == out.clock(old(out.readings)) else s.actor == Nothing
    ensures s.actor.OfServer? ==> fresh(s.actor.info) && s.actor.info.activeClient.Some?
  {
    ok := ResolveSite(out, s, t, depth);
    if ok { Stamp(out, s, t, depth); }
  }

  method IsOver(out: Outside, s: SiteInfo, ghost t: Thread, ghost depth: nat) returns (over: bool)
    requires At(out, s, t, Decide(s.id, depth))
    modifies out`asked, out`world
    ensures At(out, s, t, if over then Unlock(s.id) else Decide(s.id, depth))
    ensures over == out.stopped(old(out.asked)) && out.asked == old(out.asked) + 1
  {
    over := out.Stopped();
    if over { out.Runs(t, Cancelled); }
  }

  /** A site is due without an actor, or when nothing succeeded on it for 90 seconds. */
  method IsDue(out: Outside, s: SiteInfo, ghost t: Thread, ghost depth: nat) returns (due: bool)
    requires At(out, s, t, Decide(s.id, depth))
    modifies out`readings, out`now, out`world
    ensures At(out, s, t, if due then Pc.Resolve(s.id, depth) else Switch(s.id, depth, false))
    ensures s.actor == Nothing ==> due && out.readings == old(out.readings)
    ensures s.actor != Nothing ==>
              && due == (s.lastSuccess + RESOLVE_AFTER < out.clock(old(out.readings)))
              && out.readings == old(out.readings) + 1
  {
    due := s.actor == Nothing;
    if !due {
      var now := out.Now();
      due := s.lastSuccess + RESOLVE_AFTER < now;
    }
    out.Runs(t, Go);
  }

  /** A lookup is due now: the site has no actor, or nothing succeeded on it for 90 seconds. */
  predicate DueNow(out: Outside, s: SiteInfo)
    reads out, s
  {
    s.actor == Nothing || s.lastSuccess + 90 < out.clock(out.readings)
  }

  /** The site's server has lost its client, and its next connection fails. */
  predicate LostNow(out: Outside, s: SiteInfo)
    reads out, s, Infos(s.actor)
  {
    s.actor.OfServer? && s.actor.info.activeClient == None && !out.connects(|out.dialled|)
  }

  /** The connection that a server without a client asks for. */
  function Redial(a: Backend, host: Host): seq<Dial>
    reads Infos(a)
  {
    if a.OfServer? && a.info.activeClient == None then [Dial(a.info.id, a.info.addr, host)] else []
  }

  /** What a prepare goes by: the answers it has had so far, the actor, and what DueNow and LostNow say. */
  datatype Standing = Standing(asked: nat, lookups: nat, dialled: seq<Dial>, bags: nat, actor: Backend, due: bool,
                               lost: bool, redial: seq<Dial>)

  function StandingOf(out: Outside, s: SiteInfo): Standing
    reads out, s, Infos(s.actor)
  {
    Standing(out.asked, out.lookups, out.dialled, out.bags, s.actor, DueNow(out, s), LostNow(out, s),
             Redial(s.actor, s.host))
  }

  /** The answers to come: whether the context is stopped, what the host's name leads to, and which dials connect. */
  datatype Answers = Answers(stopped: nat -> bool, finds: (Host, nat) -> Found, connects: nat -> bool, host: Host)

  function AnswersTo(out: Outside, s: SiteInfo): Answers {
    Answers(out.stopped, out.finds, out.connects, s.host)
  }

  /** The next lookup. */
  function NextFound(o: Answers, w: Standing): Found {
    o.finds(o.host, w.lookups)
  }

  /** Its dials. */
  function NextDials(o: Answers, w: Standing): seq<Dial> {
    DialsOf(NextFound(o, w), o.connects, |w.dialled|, o.host)
  }

  /** A lookup is made and succeeds exactly when it has an answer, and the site has the actor it leads to. */
  ghost predicate FromLookup(o: Answers, w: Standing, n: Standing, ok: bool) {
    && ok == !NoAnswer(NextFound(o, w), o.connects, |w.dialled|)
    && LedTo(NextFound(o, w), o.connects, |w.dialled|, w.bags, n.actor)
    && (n.lookups, n.dialled) == (w.lookups + 1, w.dialled + NextDials(o, w))
  }

  /** A lookup that was made where it is due, and nothing otherwise. */
  ghost predicate LookedUp(o: Answers, w: Standing, n: Standing, ok: bool, resolved: bool) {
    && n.asked == w.asked && resolved == w.due
    && (if w.due then FromLookup(o, w, n, ok) && !n.lost && n.redial == []
        else ok && (n.lookups, n.dialled, n.bags, n.actor, n.lost, n.redial)
                == (w.lookups, w.dialled, w.bags, w.actor, w.lost, w.redial))
  }

  method ResolveIfDue(out: Outside, s: SiteInfo, ghost t: Thread, ghost depth: nat)
    returns (ok: bool, ghost resolved: bool)
    requires At(out, s, t, Decide(s.id, depth))
    modifies out`readings, out`now, out`lookups, out`dialled, out`bags, out`clients, out`world,
             s`actor, s`lastUsed, s`lastSuccess
    ensures At(out, s, t, if ok then Switch(s.id, depth, resolved) else Unlock(s.id))
    ensures LookedUp(AnswersTo(out, s), old(StandingOf(out, s)), StandingOf(out, s), ok, resolved)
    ensures out.readings >= old(out.readings)
    ensures if ok then s.actor != Nothing && s.lastSuccess + RESOLVE_AFTER >= out.clock(old(out.readings))
            else s.actor == Nothing
    ensures s.actor.OfServer? && s.actor != old(s.actor) ==> fresh(s.actor.info)
    ensures ok && resolved && s.actor.OfServer? ==> s.actor.info.activeClient.Some?
  {
    var due := IsDue(out, s, t, depth);
    ok, resolved := true, due;
    assert Later(out.clock, old(out.readings), out.readings);
    if due { ok := ResolveAndStamp(out, s, t, depth); }
  }

  /** The same, unless the context is stopped. */
  ghost predicate Refreshed(o: Answers, w: Standing, n: Standing, ok: bool, resolved: bool) {
    if o.stopped(w.asked) then
      !ok && (n.asked, n.lookups, n.dialled, n.actor) == (w.asked + 1, w.lookups, w.dialled, w.actor)
    else LookedUp(o, w.(asked := w.asked + 1), n, ok, resolved)
  }

  /** Looks the site up again when that is due. */
  method Refresh(out: Outside, s: SiteInfo, ghost t: Thread, ghost depth: nat) returns (ok: bool, ghost resolved: bool)
    requires At(out, s, t, Decide(s.id, depth))
    modifies out`readings, out`now, out`lookups, out`dialled, out`bags, out`clients, out`world, out`asked,
             s`actor, s`lastUsed, s`lastSuccess
    ensures At(out, s, t, if ok then Switch(s.id, depth, resolved) else Unlock(s.id))
    ensures Refreshed(AnswersTo(out, s), old(StandingOf(out, s)), StandingOf(out, s), ok, resolved)
    ensures out.readings >= old(out.readings)
    ensures ok ==> s.actor != Nothing && s.lastSuccess + RESOLVE_AFTER >= out.clock(old(out.readings))
    ensures s.actor.OfServer? && s.actor != old(s.actor) ==> fresh(s.actor.info)
    ensures ok && resolved && s.actor.OfServer? ==> s.actor.info.activeClient.Some?
  {
    var over := IsOver(out, s, t, depth);
    if over { return false, false; }
    ok, resolved := ResolveIfDue(out, s, t, depth);
  }

  /** A bag in use is stamped; so is a server whose client has not been used for 30 seconds, which is set anew. */
  method Use(out: Outside, s: SiteInfo, ghost t: Thread, ghost depth: nat, ghost resolved: bool)
    requires At(out, s, t, Switch(s.id, depth, resolved))
    requires s.actor != Nothing && (s.actor.OfServer? ==> s.actor.info.activeClient.Some?)
    modifies out`readings, out`now, out`world, out`reinits, s`lastUsed
    ensures At(out, s, t, HandOut(s.id)) && s.lastUsed + REINIT_AFTER >= out.now && out.readings >= old(out.readings)
    ensures s.actor.OfBag? ==> s.lastUsed == out.now && out.reinits == old(out.reinits)
    ensures s.actor.OfServer? ==>
              if old(s.lastUsed) + 30 < out.clock(old(out.readings)) then
                s.lastUsed == out.now && out.reinits == old(out.reinits) + [s.actor.info.activeClient.value]
              else
                s.lastUsed == old(s.lastUsed) && out.reinits == old(out.reinits)
  {
    var now := out.Now();
    if s.actor.OfBag? {
      s.lastUsed := now;
    } else if s.lastUsed + REINIT_AFTER < now {
      out.Reinit(s.actor.info.activeClient.value);
      s.lastUsed := out.Now();
    }
    out.Uses(t, s.id, depth, resolved);
  }

  /** A server without a client gets one; if it cannot, the site is left without an actor. */
  method Connect(out: Outside, s: SiteInfo, info: RldpInfo, ghost t: Thread, ghost depth: nat) returns (ok: bool)
    requires At(out, s, t, Pc.Connect(s.id, depth)) && s.actor == OfServer(info)
    modifies out`readings, out`now, out`dialled, out`clients, out`world, s`actor, s`lastUsed, info
    ensures At(out, s, t, if ok then HandOut(s.id) else Decide(s.id, depth + 1))
    ensures ok == out.connects(|old(out.dialled)|) && out.readings >= old(out.readings)
    ensures out.dialled == old(out.dialled) + [Dial(info.id, info.addr, s.host)]
    ensures ok ==> s.actor == OfServer(info) && info.activeClient == Some(|old(out.clients)|) && s.lastUsed == out.now
    ensures !ok ==> s.actor == Nothing
  {
    var client := out.Connect(info.id, info.addr, s.host);
    info.activeClient := client;
    ok := client.Some?;
    if ok {
      s.lastUsed := out.Now();
    } else {
      s.actor := Nothing;
    }
    out.Connects(t, s.id, depth, ok);
  }

  ghost method LacksClient(out: Outside, s: SiteInfo, t: Thread, depth: nat, resolved: bool)
    requires At(out, s, t, Switch(s.id, depth, resolved)) && Seen(s.actor) == Rldp(None)
    modifies out`world
    ensures At(out, s, t, Pc.Connect(s.id, depth))
  {
    out.Runs(t, Go);
  }

  /** A site keeps its actor, unless a connection fails. */
  ghost predicate Reached(w: Standing, n: Standing, ok: bool) {
    && ok == !w.lost && (n.asked, n.lookups, n.dialled, n.bags) == (w.asked, w.lookups, w.dialled + w.redial, w.bags)
    && (if ok then n.actor == w.actor else (n.actor, n.due, n.lost, n.redial) == (Nothing, true, false, []))
  }

  /** A site that was just resolved is always ready; any other server may have lost its client. */
  method UseOrConnect(out: Outside, s: SiteInfo, ghost t: Thread, ghost depth: nat, ghost resolved: bool)
    returns (ok: bool)
    requires At(out, s, t, Switch(s.id, depth, resolved)) && s.actor != Nothing
    requires resolved && s.actor.OfServer? ==> s.actor.info.activeClient.Some?
    modifies out`readings, out`now, out`dialled, out`clients, out`world, out`reinits,
             s`actor, s`lastUsed, Infos(s.actor)
    ensures At(out, s, t, if ok then HandOut(s.id) else Decide(s.id, depth + 1))
    ensures out.readings >= old(out.readings)
    ensures Reached(old(StandingOf(out, s)), StandingOf(out, s), ok)
    ensures if ok then s.lastUsed + REINIT_AFTER >= out.now else !resolved && s.actor == Nothing
    ensures s.actor.OfServer? ==> s.actor.info.activeClient.Some?
  {
    if s.actor.OfServer? && s.actor.info.activeClient == None {
      LacksClient(out, s, t, depth, resolved);
      ok := Connect(out, s, s.actor.info, t, depth);
    } else {
      Joined(out.dialled, [], []);
      Use(out, s, t, depth, resolved);
      ok := true;
    }
  }

  /** How a prepare comes out, from the answers it gets: over where the context is stopped, by a lookup where one is
      due, by another after a connection that failed, and with the site as it was otherwise. */
  datatype Course = Over | ByLookup | ByRetry(over: bool) | AsItWas

  function CourseOf(stopped: nat -> bool, w: Standing): Course {
    if stopped(w.asked) then Over
    else if w.due then ByLookup
    else if w.lost then ByRetry(stopped(w.asked + 1))
    else AsItWas
  }

  /** The standing after a connection that failed. */
  function Stranded(w: Standing): Standing {
    w.(dialled := w.dialled + w.redial, actor := Nothing, due := true, lost := false, redial := [])
  }

  /** It succeeds exactly when the context is not stopped where it is asked and the lookup that is due, or follows a
      failed connection, is answered; and then the site has the actor that this lookup led to. */
  ghost predicate Prepared(o: Answers, w: Standing, n: Standing, ok: bool) {
    match CourseOf(o.stopped, w)
    case Over => !ok && (n.asked, n.lookups, n.dialled, n.actor) == (w.asked + 1, w.lookups, w.dialled, w.actor)
    case ByLookup => n.asked == w.asked + 1 && FromLookup(o, w, n, ok)
    case ByRetry(over) =>
      && n.asked == w.asked + 2
      && if over then !ok && (n.lookups, n.dialled, n.actor) == (w.lookups, w.dialled + w.redial, Nothing)
         else FromLookup(o, Stranded(w), n, ok)
    case AsItWas =>
      ok && (n.asked, n.lookups, n.dialled, n.actor) == (w.asked + 1, w.lookups, w.dialled + w.redial, w.actor)
  }

  /** What GetReady makes of a site. */
  ghost predicate Readied(o: Answers, w: Standing, n: Standing, ok: bool) {
    if w.lost then Prepared(o, Stranded(w), n, ok)
    else ok && (n.asked, n.lookups, n.dialled, n.actor) == (w.asked, w.lookups, w.dialled + w.redial, w.actor)
  }

  lemma FromRefreshed(o: Answers, w: Standing, m: Standing, n: Standing, ok: bool, resolved: bool, ready: bool)
    requires Refreshed(o, w, m, ok, resolved)
    requires if ok then Readied(o, m, n, ready) else n == m && !ready
    requires w.lost ==> |w.redial| == 1
    ensures Prepared(o, w, n, ready)
  {
    var course := CourseOf(o.stopped, w);
    if course.ByRetry? {
      assert CourseOf(o.stopped, Stranded(m)) == if course.over then Over else ByLookup;
    } else {
      Joined(m.dialled, [], []);
      Joined(w.dialled, [], []);
    }
  }

  lemma Joined<T>(a: seq<T>, b: seq<T>, c: seq<T>)
    ensures (a + b) + c == a + (b + c)
    ensures a + [] == a
  {
  }

  /** Gets a site ready, holding its lock. It calls itself at most once. When it succeeds the site has a bag or a
      connected client, used within 30 seconds and resolved or successful within 90. */
  method Prepare(out: Outside, s: SiteInfo, ghost t: Thread, ghost depth: nat) returns (ok: bool)
    requires At(out, s, t, Decide(s.id, depth)) && depth <= 1 && (depth == 1 ==> s.actor == Nothing)
    modifies out`readings, out`now, out`lookups, out`dialled, out`bags, out`clients, out`world, out`asked,
             out`reinits, s`actor, s`lastUsed, s`lastSuccess, Infos(s.actor)
    ensures At(out, s, t, if ok then HandOut(s.id) else Unlock(s.id))
    ensures Prepared(AnswersTo(out, s), old(StandingOf(out, s)), StandingOf(out, s), ok)
    ensures s.actor.OfServer? && s.actor != old(s.actor) ==> fresh(s.actor.info)
    ensures ok ==> s.actor != Nothing && (s.actor.OfServer? ==> s.actor.info.activeClient.Some?)
    ensures ok ==> s.lastUsed + REINIT_AFTER >= out.now && s.lastSuccess + RESOLVE_AFTER >= out.clock(old(out.readings))
    decreases 1 - depth, 1
  {
    ghost var resolved;
    ok, resolved := Refresh(out, s, t, depth);
    ghost var refreshed, m := ok, StandingOf(out, s);
    if ok {
      assert Later(out.clock, old(out.readings), out.readings);
      ok := GetReady(out, s, t, depth, resolved);
    }
    FromRefreshed(AnswersTo(out, s), old(StandingOf(out, s)), m, StandingOf(out, s), refreshed, resolved, ok);
  }

  /** What follows the lookup, if there was one: the site is used, its server connected, or all tried again. */
  method GetReady(out: Outside, s: SiteInfo, ghost t: Thread, ghost depth: nat, ghost resolved: bool) returns (ok: bool)
    requires At(out, s, t, Switch(s.id, depth, resolved)) && s.actor != Nothing && depth <= 1
    requires resolved && s.actor.OfServer? ==> s.actor.info.activeClient.Some?
    requires depth == 1 ==> resolved
    modifies out`readings, out`now, out`lookups, out`dialled, out`bags, out`clients, out`world, out`asked,
             out`reinits, s`actor, s`lastUsed, s`lastSuccess, Infos(s.actor)
    ensures At(out, s, t, if ok then HandOut(s.id) else Unlock(s.id))
    ensures Readied(AnswersTo(out, s), old(StandingOf(out, s)), StandingOf(out, s), ok)
    ensures s.actor == old(s.actor) ==> s.lastSuccess == old(s.lastSuccess)
    ensures ok && s.lastSuccess != old(s.lastSuccess) ==> s.lastSuccess + RESOLVE_AFTER >= out.clock(old(out.readings))
    ensures s.actor.OfServer? && s.actor != old(s.actor) ==> fresh(s.actor.info)
    ensures ok ==> s.actor != Nothing && s.lastUsed + REINIT_AFTER >= out.now
    ensures ok && s.actor.OfServer? ==> s.actor.info.activeClient.Some?
    decreases 1 - depth, 0
  {
    ok := UseOrConnect(out, s, t, depth, resolved);
    if !ok {
      assert Later(out.clock, old(out.readings), out.readings);
      ok := Retry(out, s, t);
    }
  }

  /** The second call, on a site whose server could not be reached. */
  method Retry(out: Outside, s: SiteInfo, ghost t: Thread) returns (ok: bool)
    requires At(out, s, t, Decide(s.id, 1)) && s.actor == Nothing
    modifies out`readings, out`now, out`lookups, out`dialled, out`bags, out`clients, out`world, out`asked,
             out`reinits, s`actor, s`lastUsed, s`lastSuccess
    ensures At(out, s, t, if ok then HandOut(s.id) else Unlock(s.id))
    ensures Prepared(AnswersTo(out, s), old(StandingOf(out, s)), StandingOf(out, s), ok)
    ensures s.actor.OfServer? ==> fresh(s.actor.info)
    ensures ok ==> s.actor != Nothing && (s.actor.OfServer? ==> s.actor.info.activeClient.Some?)
    ensures ok ==> s.lastUsed + REINIT_AFTER >= out.now && s.lastSuccess + RESOLVE_AFTER >= out.clock(old(out.readings))
    decreases 0, 2
  {
    ok := Prepare(out, s, t, 1);
  }

  // ---------------------------------------------------------------- RoundTrip and the disconnect callback

  class Transport {
    var activeSites: map<Host, SiteInfo>

    constructor ()
      ensures activeSites == map[]
    {
      activeSites := map[];
    }
  }

  ghost predicate Table(out: Outside, tr: Transport)
    reads out, tr
  {
    out.Valid() && out.Counted() && Ids(tr.activeSites, out.table)
  }

  /** The world's table has the same sites, each under its host. */
  ghost predicate Ids(sites: map<Host, SiteInfo>, table: map<Host, SiteId>) {
    sites.Keys == table.Keys && forall h :: h in sites ==> sites[h].id == table[h] && sites[h].host == h
  }

  /** The site's lock is free. */
  ghost predicate Free(out: Outside, s: SiteInfo)
    reads out, s, Infos(s.actor)
  {
    Same(out.world.sites, s, None) && !s.locked
  }

  /** What a round trip to a host goes by: its site, or none yet. */
  function StandingFor(tr: Transport, out: Outside, host: Host): Standing
    reads out, tr, SitesOf(tr, host), InfosOf(tr, host)
  {
    if host in tr.activeSites then StandingOf(out, tr.activeSites[host])
    else Standing(out.asked, out.lookups, out.dialled, out.bags, Nothing, true, false, [])
  }

  /** The site of a host, made when there is none. */
  method LookUp(tr: Transport, out: Outside, host: Host, ghost t: Thread) returns (site: SiteInfo)
    requires Table(out, tr) && PcOf(out.world, t) == Some(Lookup(host))
    requires host in tr.activeSites ==> Free(out, tr.activeSites[host])
    modifies tr`activeSites, out`readings, out`now, out`world, out`table
    ensures Table(out, tr) && Free(out, site) && PcOf(out.world, t) == Some(Pc.Lock(site.id))
    ensures tr.activeSites == old(tr.activeSites)[host := site] && site.host == host
    ensures if host in old(tr.activeSites) then site == old(tr.activeSites[host]) && out.readings == old(out.readings)
            else fresh(site) && site.actor == Nothing && site.lastUsed == out.clock(old(out.readings))
    ensures StandingOf(out, site) == old(StandingFor(tr, out, host)) && out.readings >= old(out.readings)
  {
    if host in tr.activeSites {
      site := tr.activeSites[host];
      FindsHost(tr, out, host, t);
      assert tr.activeSites[host := site] == tr.activeSites;
    } else {
      site := MakeSite(tr, out, host, t);
    }
  }

  ghost method FindsHost(tr: Transport, out: Outside, host: Host, t: Thread)
    requires Table(out, tr) && PcOf(out.world, t) == Some(Lookup(host))
    requires host in tr.activeSites && Free(out, tr.activeSites[host])
    modifies out`world
    ensures Table(out, tr) && Free(out, tr.activeSites[host])
    ensures PcOf(out.world, t) == Some(Pc.Lock(tr.activeSites[host].id))
  {
    out.LooksUp(t, host);
  }

  method MakeSite(tr: Transport, out: Outside, host: Host, ghost t: Thread) returns (site: SiteInfo)
    requires Table(out, tr) && PcOf(out.world, t) == Some(Lookup(host))
    requires host !in tr.activeSites
    modifies tr`activeSites, out`readings, out`now, out`world, out`table
    ensures Table(out, tr) && Free(out, site) && PcOf(out.world, t) == Some(Pc.Lock(site.id))
    ensures tr.activeSites == old(tr.activeSites)[host := site] && fresh(site) && site.host == host
    ensures site.actor == Nothing && site.lastUsed == out.clock(old(out.readings))
    ensures out.readings == old(out.readings) + 1
  {
    var now := out.Now();
    site := new SiteInfo(host, now, |out.world.sites|);
    tr.activeSites := tr.activeSites[host := site];
    out.table := out.table[host := site.id];
    out.LooksUp(t, host);
  }

  method Acquire(out: Outside, s: SiteInfo, ghost t: Thread, ghost gone: Option<ClientId>)
    requires out.Valid() && out.Counted() && Free(out, s)
    requires PcOf(out.world, t) == Some(if gone == None then Pc.Lock(s.id) else DLock(gone.value, s.id))
    modifies out`world, s`locked
    ensures At(out, s, t, if gone == None then Decide(s.id, 0) else DCheck(gone.value, s.id)) && s.locked
    ensures StandingOf(out, s) == old(StandingOf(out, s))
  {
    s.locked := true;
    out.Runs(t, Go);
  }

  method Release(out: Outside, s: SiteInfo, ghost t: Thread, ghost next: Pc)
    requires At(out, s, t, if next.Idle? then Unlock(s.id) else HandOut(s.id))
    requires next == Pc.Idle || next == Running(s.id, Seen(s.actor), s.lastUsed)
    modifies out`world, s`locked
    ensures out.Valid() && out.Counted() && Free(out, s)
    ensures PcOf(out.world, t) == Some(next)
    ensures StandingOf(out, s) == old(StandingOf(out, s))
  {
    s.locked := false;
    out.Runs(t, Go);
  }

  function SitesOf(tr: Transport, host: Host): set<SiteInfo>
    reads tr
  {
    if host in tr.activeSites then {tr.activeSites[host]} else {}
  }

  function InfosOf(tr: Transport, host: Host): set<RldpInfo>
    reads tr, SitesOf(tr, host)
  {
    if host in tr.activeSites then Infos(tr.activeSites[host].actor) else {}
  }

  /** A round trip takes what prepare left, and gives the lock back. */
  method Take(out: Outside, s: SiteInfo, ghost t: Thread) returns (rldpClient: Option<ClientId>, torrent: Option<BagId>)
    requires At(out, s, t, HandOut(s.id))
    requires s.actor != Nothing && (s.actor.OfServer? ==> s.actor.info.activeClient.Some?)
    modifies out`world, s`locked
    ensures out.Valid() && out.Counted() && Free(out, s)
    ensures PcOf(out.world, t) == Some(Running(s.id, Seen(s.actor), s.lastUsed))
    ensures rldpClient.Some? != torrent.Some?
    ensures Seen(s.actor) == if torrent.Some? then Bag(torrent.value) else Rldp(rldpClient)
    ensures StandingOf(out, s) == old(StandingOf(out, s))
  {
    rldpClient, torrent := None, None;
    match s.actor {
      case OfServer(info) => rldpClient := info.activeClient;
      case OfBag(bag) => torrent := Some(bag);
      case Nothing =>
    }
    Release(out, s, t, Running(s.id, Seen(s.actor), s.lastUsed));
  }

  /** The site's lock is taken, the site got ready, and the lock given back. */
  method PrepareSite(out: Outside, s: SiteInfo, ghost t: Thread)
    returns (ok: bool, rldpClient: Option<ClientId>, torrent: Option<BagId>)
    requires out.Valid() && out.Counted() && Free(out, s)
    requires PcOf(out.world, t) == Some(Pc.Lock(s.id))
    modifies out`readings, out`now, out`lookups, out`dialled, out`bags, out`clients, out`world, out`asked,
             out`reinits, s, Infos(s.actor)
    ensures out.Valid() && out.Counted() && Free(out, s)
    ensures PcOf(out.world, t) == Some(if ok then Running(s.id, Seen(s.actor), s.lastUsed) else Pc.Idle)
    ensures if ok then rldpClient.Some? != torrent.Some? else rldpClient == None && torrent == None
    ensures ok ==> Seen(s.actor) == if torrent.Some? then Bag(torrent.value) else Rldp(rldpClient)
    ensures Prepared(AnswersTo(out, s), old(StandingOf(out, s)), StandingOf(out, s), ok)
    ensures ok ==> s.lastUsed + REINIT_AFTER >= out.now && s.lastSuccess + RESOLVE_AFTER >= out.clock(old(out.readings))
  {
    Acquire(out, s, t, None);
    ok := Prepare(out, s, t, 0);
    rldpClient, torrent := None, None;
    if ok { rldpClient, torrent := Take(out, s, t); } else { Release(out, s, t, Pc.Idle); }
  }

  /** What a round trip does before it sends anything: it has exactly one of a connected client and a bag to send
      to, or it fails. */
  method PickSite(tr: Transport, out: Outside, host: Host, ghost t: Thread)
    returns (site: SiteInfo, ok: bool, rldpClient: Option<ClientId>, torrent: Option<BagId>)
    requires Table(out, tr) && PcOf(out.world, t) == Some(Lookup(host))
    requires host in tr.activeSites ==> Free(out, tr.activeSites[host])
    modifies tr, out, SitesOf(tr, host), InfosOf(tr, host)
    ensures Table(out, tr) && Free(out, site) && tr.activeSites == old(tr.activeSites)[host := site]
    ensures PcOf(out.world, t) == Some(if ok then Running(site.id, Seen(site.actor), site.lastUsed) else Pc.Idle)
    ensures if ok then rldpClient.Some? != torrent.Some? else rldpClient == None && torrent == None
    ensures ok ==> Seen(site.actor) == if torrent.Some? then Bag(torrent.value) else Rldp(rldpClient)
    ensures site.host == host
    ensures Prepared(AnswersTo(out, site), old(StandingFor(tr, out, host)), StandingOf(out, site), ok)
    ensures ok ==> site.lastUsed + REINIT_AFTER >= out.now
    ensures ok ==> site.lastSuccess + RESOLVE_AFTER >= out.clock(old(out.readings))
  {
    site := LookUp(tr, out, host, t);
    assert Later(out.clock, old(out.readings), out.readings);
    ok, rldpClient, torrent := PrepareSite(out, site, t);
  }

  /** The part of a disconnect callback under the site's lock. */
  method DropClient(out: Outside, s: SiteInfo, gone: ClientId, ghost t: Thread)
    requires At(out, s, t, DCheck(gone, s.id))
    modifies out`closed, out`world, Infos(s.actor)
    ensures At(out, s, t, Unlock(s.id))
    ensures out.closed == if s.actor.OfServer? then old(out.closed) + {gone} else old(out.closed)
    ensures Seen(s.actor) == Without(old(Seen(s.actor)), gone)
  {
    ChecksActor(out, s, gone, t);
    if s.actor.OfServer? {
      s.actor.info.DestroyClient(gone, out);
      out.Drops(t, gone, s.id);
    }
  }

  ghost method ChecksActor(out: Outside, s: SiteInfo, gone: ClientId, t: Thread)
    requires At(out, s, t, DCheck(gone, s.id))
    modifies out`world
    ensures At(out, s, t, if s.actor.OfServer? then DClose(gone, s.id) else Unlock(s.id))
  {
    out.Runs(t, Go);
  }

  method DropFromSite(out: Outside, s: SiteInfo, gone: ClientId, ghost t: Thread)
    requires out.Valid() && out.Counted() && Free(out, s)
    requires PcOf(out.world, t) == Some(DLock(gone, s.id))
    modifies out`closed, out`world, s`locked, Infos(s.actor)
    ensures out.Valid() && out.Counted() && Free(out, s) && PcOf(out.world, t) == Some(Pc.Idle)
    ensures out.closed == if s.actor.OfServer? then old(out.closed) + {gone} else old(out.closed)
    ensures Seen(s.actor) == Without(old(Seen(s.actor)), gone)
  {
    Acquire(out, s, t, Some(gone));
    DropClient(out, s, gone, t);
    Release(out, s, t, Pc.Idle);
  }

  ghost method FindsSite(tr: Transport, out: Outside, gone: ClientId, t: Thread)
    requires Table(out, tr) && PcOf(out.world, t) == Some(DLookup(gone)) && gone < |out.clients|
    requires out.clients[gone] in tr.activeSites ==> Free(out, tr.activeSites[out.clients[gone]])
    modifies out`world
    ensures Table(out, tr)
    ensures out.clients[gone] in tr.activeSites ==> Free(out, tr.activeSites[out.clients[gone]])
    ensures var host := out.clients[gone];
            PcOf(out.world, t) == Some(if host in tr.activeSites then DLock(gone, tr.activeSites[host].id) else Pc.Idle)
  {
    out.Runs(t, Go);
  }

  /** A client is gone: the site of that host loses it, if it is the one in use. */
  method RemoveRldp(tr: Transport, out: Outside, gone: ClientId, ghost t: Thread)
    requires Table(out, tr) && PcOf(out.world, t) == Some(DLookup(gone)) && gone < |out.clients|
    requires out.clients[gone] in tr.activeSites ==> Free(out, tr.activeSites[out.clients[gone]])
    modifies out`closed, out`world, SitesOf(tr, out.clients[gone]), InfosOf(tr, out.clients[gone])
    ensures Table(out, tr) && PcOf(out.world, t) == Some(Pc.Idle)
    ensures out.clients[gone] in tr.activeSites ==>
              var s := tr.activeSites[out.clients[gone]];
              && Free(out, s) && Seen(s.actor) == Without(old(Seen(s.actor)), gone)
              && out.closed == (if s.actor.OfServer? then old(out.closed) + {gone} else old(out.closed))
    ensures out.clients[gone] !in tr.activeSites ==> out.closed == old(out.closed)
  {
    var host := out.clients[gone];
    FindsSite(tr, out, gone, t);
    if host in tr.activeSites {
      var site := tr.activeSites[host];
      DropFromSite(out, site, gone, t);
    }
  }

  // ---------------------------------------------------------------- cleaner

  predicate IdleBag(s: SiteInfo, now: int)
    reads s
  {
    !s.locked && s.lastUsed + IDLE_AFTER < now && s.actor.OfBag?
  }

  /** The world has of the site what the cleaner looks at: its bag, if it runs on one, and its last use. */
  ghost predicate Known(sites: seq<Site>, s: SiteInfo)
    reads s
  {
    && s.id < |sites| && sites[s.id].host == s.host && sites[s.id].lastUsed == s.lastUsed
    && (if s.actor.OfBag? then sites[s.id].actor == Bag(s.actor.bag) else !sites[s.id].actor.Bag?)
  }

  ghost predicate Settled(sites: seq<Site>, s: SiteInfo)
    reads s
  {
    Known(sites, s) && (s.locked <==> sites[s.id].mx != None)
  }

  /** Stops the bag of a site that the cleaner has locked and takes the site out of the table. */
  method StopBag(tr: Transport, out: Outside, s: SiteInfo, bag: BagId)
    requires Table(out, tr) && Known(out.world.sites, s) && out.world.sites[s.id].mx == Some(ByCleaner)
    requires s.actor == OfBag(bag)
    requires s.host in tr.activeSites && tr.activeSites[s.host] == s
    requires out.world.sweep.Deleting? && out.world.sweep.site == s.id && out.world.sweep.bag == bag
    modifies tr`activeSites, out`stops, out`world, out`table
    ensures Table(out, tr) && out.world.sites == old(out.world.sites)
    ensures out.world.sweep == Unlocking(old(out.world.sweep.since), old(out.world.sweep.todo), s.id)
    ensures tr.activeSites == old(tr.activeSites) - {s.host} && out.stops == old(out.stops) + [bag]
  {
    if s.host in tr.activeSites && tr.activeSites[s.host] == s {
      tr.activeSites := tr.activeSites - {s.host};
      out.table := out.table - {s.host};
    }
    out.Cleans(Go);
    out.stops := out.stops + [bag];
    out.Cleans(Go);
  }

  method TryLock(tr: Transport, out: Outside, s: SiteInfo, now: int) returns (ok: bool)
    requires Table(out, tr) && Settled(out.world.sites, s)
    requires out.world.sweep.Sweeping? && out.world.sweep.since == now
    requires s.host in out.world.sweep.todo && out.world.sweep.todo[s.host] == s.id
    modifies out`world
    ensures Table(out, tr) && ok == !s.locked
    ensures var todo := old(out.world.sweep.todo) - {s.host};
            out.world.sweep == if ok then Checking(now, todo, s.id) else Sweeping(now, todo)
    ensures ok ==> Known(out.world.sites, s) && out.world.sites[s.id].mx == Some(ByCleaner)
    ensures ok ==> old(out.world.sites[s.id].mx) == None
    ensures ok ==> out.world.sites == old(out.world.sites)[s.id := old(out.world.sites)[s.id].(mx := Some(ByCleaner))]
    ensures !ok ==> out.world.sites == old(out.world.sites)
  {
    ok := !s.locked;
    out.Cleans(Pick(s.host));
  }

  /** A site that the cleaner has locked loses its bag when that was idle for 300 seconds. */
  method CheckSite(tr: Transport, out: Outside, s: SiteInfo, now: int) returns (idle: bool)
    requires Table(out, tr) && Known(out.world.sites, s) && out.world.sites[s.id].mx == Some(ByCleaner)
    requires s.host in tr.activeSites && tr.activeSites[s.host] == s
    requires out.world.sweep.Checking? && out.world.sweep.since == now && out.world.sweep.site == s.id
    modifies tr`activeSites, out`stops, out`world, out`table
    ensures Table(out, tr) && out.world.sites == old(out.world.sites)
    ensures out.world.sweep == Unlocking(now, old(out.world.sweep.todo), s.id)
    ensures idle == (s.lastUsed + IDLE_AFTER < now && s.actor.OfBag?)
    ensures tr.activeSites == if idle then old(tr.activeSites) - {s.host} else old(tr.activeSites)
    ensures out.stops == if idle then old(out.stops) + [s.actor.bag] else old(out.stops)
  {
    idle := s.lastUsed + IDLE_AFTER < now && s.actor.OfBag?;
    out.Cleans(Go);
    if idle { StopBag(tr, out, s, s.actor.bag); }
  }

  ghost method Unlocks(tr: Transport, out: Outside, s: SiteInfo)
    requires Table(out, tr) && Known(out.world.sites, s) && out.world.sites[s.id].mx == Some(ByCleaner)
    requires out.world.sweep.Unlocking? && out.world.sweep.site == s.id
    modifies out`world
    ensures Table(out, tr) && out.world.sweep == Sweeping(old(out.world.sweep.since), old(out.world.sweep.todo))
    ensures out.world.sites == old(out.world.sites)[s.id := old(out.world.sites)[s.id].(mx := None)]
  {
    out.Cleans(Go);
  }

  method SweepSite(tr: Transport, out: Outside, s: SiteInfo, now: int) returns (idle: bool)
    requires Table(out, tr) && Settled(out.world.sites, s)
    requires s.host in tr.activeSites && tr.activeSites[s.host] == s
    requires out.world.sweep.Sweeping? && out.world.sweep.since == now
    requires s.host in out.world.sweep.todo && out.world.sweep.todo[s.host] == s.id
    modifies tr`activeSites, out`stops, out`world, out`table
    ensures Table(out, tr) && out.world.sites == old(out.world.sites)
    ensures out.world.sweep == Sweeping(now, old(out.world.sweep.todo) - {s.host})
    ensures idle == IdleBag(s, now)
    ensures tr.activeSites == if idle then old(tr.activeSites) - {s.host} else old(tr.activeSites)
    ensures out.stops == if idle then old(out.stops) + [s.actor.bag] else old(out.stops)
  {
    var ok := TryLock(tr, out, s, now);
    idle := false;
    if ok {
      idle := CheckSite(tr, out, s, now);
      Unlocks(tr, out, s);
    }
  }

  /** The hosts whose sites are due to be dropped, with their bags. */
  function IdleBags(sites: map<Host, SiteInfo>, now: int): map<Host, BagId>
    reads sites.Values
  {
    map h | h in sites && IdleBag(sites[h], now) :: sites[h].actor.bag
  }

  /** The bags of some hosts, in that order. */
  function BagsInOrder(bags: map<Host, BagId>, order: seq<Host>): seq<BagId> {
    if order == [] then []
    else
      var h, before := order[|order| - 1], BagsInOrder(bags, order[..|order| - 1]);
      if h in bags then before + [bags[h]] else before
  }

  /** Every host of a set, once. */
  ghost predicate Lists(order: seq<Host>, hosts: set<Host>) {
    && (forall h :: h in order <==> h in hosts)
    && (forall j, k :: 0 <= j < k < |order| ==> order[j] != order[k])
  }

  lemma OneMore(bags: map<Host, BagId>, order: seq<Host>, todo: set<Host>, h: Host)
    requires Lists(order, bags.Keys - todo) && h in todo
    ensures h in bags ==> Lists(order + [h], bags.Keys - (todo - {h}))
    ensures h in bags ==> BagsInOrder(bags, order + [h]) == BagsInOrder(bags, order) + [bags[h]]
    ensures h !in bags ==> Lists(order, bags.Keys - (todo - {h}))
  {
    assert h in bags ==> bags.Keys - (todo - {h}) == bags.Keys - todo + {h};
    assert h !in bags ==> bags.Keys - (todo - {h}) == bags.Keys - todo;
    assert (order + [h])[..|order|] == order;
  }

  ghost predicate AllSettled(now: seq<Site>, sites: map<Host, SiteInfo>)
    reads sites.Values
  {
    forall h :: h in sites ==> sites[h].host == h && Settled(now, sites[h])
  }

  predicate Due(sites: map<Host, SiteInfo>, now: int, idle: map<Host, BagId>)
    reads sites.Values
  {
    && (forall h :: h in sites && IdleBag(sites[h], now) ==> h in idle)
    && (forall h :: h in idle ==> h in sites && IdleBag(sites[h], now) && sites[h].actor == OfBag(idle[h]))
  }

  /** A pass in which the hosts of todo are still to be looked at. */
  ghost predicate Pass(tr: Transport, out: Outside, sites: map<Host, SiteInfo>, idle: map<Host, BagId>, todo: set<Host>)
    reads out, tr, sites.Values
  {
    && Table(out, tr) && AllSettled(out.world.sites, sites) && Due(sites, out.now, idle)
    && out.world.sweep == Sweeping(out.now, IdsOf(sites, todo)) && tr.activeSites == sites - (idle.Keys - todo)
  }

  /** The sites of some hosts, as the world knows them. */
  ghost function IdsOf(sites: map<Host, SiteInfo>, hosts: set<Host>): map<Host, SiteId> {
    map h | h in hosts && h in sites :: sites[h].id
  }

  lemma StopOneMore(before: seq<BagId>, stopped: seq<BagId>, bag: BagId)
    ensures before + stopped + [bag] == before + (stopped + [bag])
  {
  }

  lemma PassedOne<V>(sites: map<Host, V>, idle: set<Host>, todo: set<Host>, h: Host)
    requires h in todo
    ensures h in idle ==> sites - (idle - todo) - {h} == sites - (idle - (todo - {h}))
    ensures h !in idle ==> sites - (idle - todo) == sites - (idle - (todo - {h}))
  {
    assert h !in idle ==> idle - (todo - {h}) == idle - todo;
  }

  lemma LeftOver(sites: map<Host, SiteInfo>, todo: set<Host>, h: Host)
    ensures IdsOf(sites, todo) - {h} == IdsOf(sites, todo - {h})
  {
  }

  method SweepNext(tr: Transport, out: Outside, sites: map<Host, SiteInfo>, ghost idle: map<Host, BagId>,
                   todo: set<Host>, h: Host)
    requires Pass(tr, out, sites, idle, todo) && h in todo && h in sites
    modifies tr`activeSites, out`stops, out`world, out`table
    ensures Pass(tr, out, sites, idle, todo - {h}) && out.world.sites == old(out.world.sites)
    ensures out.stops == if h in idle then old(out.stops) + [idle[h]] else old(out.stops)
  {
    PassedOne(sites, idle.Keys, todo, h);
    LeftOver(sites, todo, h);
    var stopped := SweepSite(tr, out, sites[h], out.now);
  }

  method TakeSnapshot(tr: Transport, out: Outside)
    requires Table(out, tr) && out.world.sweep == Asleep
    modifies out`readings, out`now, out`world
    ensures Table(out, tr) && out.world.sites == old(out.world.sites) && out.world.sweep == Sweeping(out.now, out.table)
    ensures out.now == out.clock(old(out.readings))
  {
    out.Cleans(Go);
    var now := out.Now();
    out.Cleans(Go);
  }

  method StartPass(tr: Transport, out: Outside)
    requires Table(out, tr) && AllSettled(out.world.sites, tr.activeSites) && out.world.sweep == Asleep
    modifies out`readings, out`now, out`world
    ensures Pass(tr, out, tr.activeSites, IdleBags(tr.activeSites, out.now), tr.activeSites.Keys)
    ensures out.now == out.clock(old(out.readings)) && out.world.sites == old(out.world.sites)
  {
    TakeSnapshot(tr, out);
    assert IdleBags(tr.activeSites, out.now).Keys - tr.activeSites.Keys == {};
  }

  ghost method EndPass(tr: Transport, out: Outside, sites: map<Host, SiteInfo>, idle: map<Host, BagId>)
    requires Pass(tr, out, sites, idle, {})
    modifies out`world
    ensures Table(out, tr) && AllSettled(out.world.sites, sites) && out.world.sweep == Asleep
    ensures out.world.sites == old(out.world.sites)
    ensures Due(sites, out.now, idle) && tr.activeSites == sites - idle.Keys
  {
    assert idle.Keys - {} == idle.Keys;
    out.Cleans(Go);
  }

  /** One pass: of the sites in the table exactly those that run on a bag idle for 300 seconds, and are not
      locked, leave it, and each of their bags is stopped once. */
  method Sweep(tr: Transport, out: Outside) returns (ghost idle: map<Host, BagId>, ghost order: seq<Host>)
    requires Table(out, tr) && AllSettled(out.world.sites, tr.activeSites) && out.world.sweep == Asleep
    modifies tr`activeSites, out`readings, out`now, out`stops, out`world, out`table
    ensures Table(out, tr) && AllSettled(out.world.sites, old(tr.activeSites)) && out.world.sweep == Asleep
    ensures out.now == out.clock(old(out.readings)) && out.world.sites == old(out.world.sites)
    ensures Due(old(tr.activeSites), out.now, idle) && tr.activeSites == old(tr.activeSites) - idle.Keys
    ensures Lists(order, idle.Keys) && out.stops == old(out.stops) + BagsInOrder(idle, order)
  {
    StartPass(tr, out);
    idle := IdleBags(tr.activeSites, out.now);
    order := SweepAll(tr, out, idle);
    EndPass(tr, out, old(tr.activeSites), idle);
  }

  /** A pass with the bags it has stopped so far, in order. */
  ghost predicate Passing(tr: Transport, out: Outside, sites: map<Host, SiteInfo>, idle: map<Host, BagId>,
                          todo: set<Host>, before: seq<BagId>, order: seq<Host>)
    reads out, tr, sites.Values
  {
    && Pass(tr, out, sites, idle, todo)
    && Lists(order, idle.Keys - todo) && out.stops == before + BagsInOrder(idle, order)
  }

  /** One more host. */
  method SweepHost(tr: Transport, out: Outside, sites: map<Host, SiteInfo>, ghost idle: map<Host, BagId>,
                   todo: set<Host>, h: Host, ghost before: seq<BagId>, ghost order: seq<Host>)
    returns (ghost longer: seq<Host>)
    requires Passing(tr, out, sites, idle, todo, before, order) && h in todo && h in sites
    modifies tr`activeSites, out`stops, out`world, out`table
    ensures Passing(tr, out, sites, idle, todo - {h}, before, longer) && out.world.sites == old(out.world.sites)
  {
    OneMore(idle, order, todo, h);
    SweepNext(tr, out, sites, idle, todo, h);
    longer := order;
    if h in idle {
      StopOneMore(before, BagsInOrder(idle, order), idle[h]);
      longer := order + [h];
    }
  }

  method SweepAll(tr: Transport, out: Outside, ghost idle: map<Host, BagId>) returns (ghost order: seq<Host>)
    requires Pass(tr, out, tr.activeSites, idle, tr.activeSites.Keys)
    modifies tr`activeSites, out`stops, out`world, out`table
    ensures Pass(tr, out, old(tr.activeSites), idle, {}) && out.world.sites == old(out.world.sites)
    ensures Lists(order, idle.Keys) && out.stops == old(out.stops) + BagsInOrder(idle, order)
  {
    var sites := tr.activeSites;
    var todo := sites.Keys;
    assert idle.Keys - todo == {};
    order := [];
    while todo != {}
      invariant todo <= sites.Keys && Passing(tr, out, sites, idle, todo, old(out.stops), order)
      invariant out.world.sites == old(out.world.sites)
    {
      var h :| h in todo;
      order := SweepHost(tr, out, sites, idle, todo, h, old(out.stops), order);
      todo := todo - {h};
    }
    assert idle.Keys - todo == idle.Keys;
  }
}
