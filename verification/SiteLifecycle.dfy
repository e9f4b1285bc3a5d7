/** The cache of sites and what ages in it (RoundTrip, siteInfo.prepare, removeRLDP, destroyClient and cleaner,
    proxy/transport/client.go), as a transition system: any number of round trips and disconnect callbacks, one
    cleaner, running torrent streams and a clock that never goes back. Each step is a lock taken or given back,
    a map access under the transport's lock, a clock reading with the store it feeds, or a call that returns. */
module SiteLifecycle {
  import opened GoTypes

  type Host = nat
  type SiteId = nat
  type BagId = nat
  type ClientId = nat
  type Thread = nat

  datatype Holder = ByThread(t: Thread) | ByCleaner

  /** What a site runs on: nothing, a bag, or an RLDP server with a client while it is connected. */
  datatype Actor = NoActor | Bag(bag: BagId) | Rldp(client: Option<ClientId>)

  /** arriving is the client that connectRLDP has just connected for the site, until it becomes its actor's. */
  datatype Site = Site(host: Host, actor: Actor, arriving: Option<ClientId>, lastUsed: int, lastSuccess: int,
                       mx: Option<Holder>)

  datatype Pc =
    | Idle
    // RoundTrip, with prepare from Decide to Connect
    | Lookup(host: Host)
    | Lock(site: SiteId)
    | Decide(site: SiteId, depth: nat)
    | Resolve(site: SiteId, depth: nat)
    | Install(site: SiteId, depth: nat, resolved: bool)
    | StampSuccess(site: SiteId, depth: nat)
    | StampUsed(site: SiteId, depth: nat)
    | Switch(site: SiteId, depth: nat, resolved: bool)
    | Connect(site: SiteId, depth: nat)
    | HandOut(site: SiteId)
    | Running(site: SiteId, handed: Actor, stamp: int)
    // a disconnect callback
    | DLookup(gone: ClientId)
    | DLock(gone: ClientId, site: SiteId)
    | DCheck(gone: ClientId, site: SiteId)
    | DClose(gone: ClientId, site: SiteId)
    | DDrop(gone: ClientId, site: SiteId)
    | Unlock(site: SiteId)

  datatype Sweep =
    | Asleep
    | Snapshot(todo: map<Host, SiteId>)
    | Sweeping(since: int, todo: map<Host, SiteId>)
    | Checking(since: int, todo: map<Host, SiteId>, site: SiteId)
    | Deleting(since: int, todo: map<Host, SiteId>, site: SiteId, bag: BagId)
    | Stopping(since: int, todo: map<Host, SiteId>, site: SiteId, bag: BagId)
    | Unlocking(since: int, todo: map<Host, SiteId>, site: SiteId)

  /** active is activeSites; hosts[c] is the host client c was connected for; closedBags maps a bag the cleaner
      has stopped to the clock of that sweep. */
  datatype World = World(
    now: int, active: map<Host, SiteId>, sites: seq<Site>, bags: nat, hosts: seq<Host>,
    closedBags: map<BagId, int>, closedTwice: bool, closedClients: set<ClientId>,
    threads: map<Thread, Pc>, sweep: Sweep)

  datatype Choice =
    | Begin(host: Host) | Disconnected(gone: ClientId) | Cancelled
    | Fails | GivesBag | GivesRldp | Go | Pick(host: Host)

  datatype Mover = Runs(t: Thread) | Cleans | Ticks(to: int) | Streams(site: SiteId)

  const RESOLVE_AFTER: int := 90
  const REINIT_AFTER: int := 30
  const IDLE_AFTER: int := 300

  // ---------------------------------------------------------------- steps

  function SetSite(w: World, i: SiteId, s: Site): World
    requires i < |w.sites|
  {
    w.(sites := w.sites[i := s])
  }

  function Moved(w: World, t: Thread, pc: Pc): Option<World> {
    Some(w.(threads := w.threads[t := pc]))
  }

  /** A round trip's success is recorded at most limit seconds after the stamp its prepare left. */
  function Step(w: World, limit: int, m: Mover, c: Choice): Option<World> {
    match m
    case Ticks(to) => if to >= w.now then Some(w.(now := to)) else None
    case Streams(i) => if i < |w.sites| then Some(SetSite(w, i, w.sites[i].(lastUsed := w.now))) else None
    case Cleans => CleanerStep(w, c)
    case Runs(t) =>
      if t !in w.threads then None
      else
        match w.threads[t]
        case Idle =>
          if c.Begin? then Moved(w, t, Lookup(c.host))
          else if c.Disconnected? && c.gone < |w.hosts| then Moved(w, t, DLookup(c.gone))
          else None
        case Lookup(host) =>
          if host in w.active then Moved(w, t, Lock(w.active[host]))
          else
            Moved(w.(sites := w.sites + [Site(host, NoActor, None, w.now, 0, None)],
                     active := w.active[host := |w.sites|]),
                  t, Lock(|w.sites|))
        case DLookup(gone) =>
          if gone < |w.hosts| && w.hosts[gone] in w.active then Moved(w, t, DLock(gone, w.active[w.hosts[gone]]))
          else Moved(w, t, Idle)
        case _ => if w.threads[t].site < |w.sites| then SiteStep(w, limit, t, w.threads[t], c) else None
  }

  /** A step of a thread at a site. */
  function SiteStep(w: World, limit: int, t: Thread, pc: Pc, c: Choice): Option<World>
    requires !pc.Idle? && !pc.Lookup? && !pc.DLookup? && pc.site < |w.sites|
  {
    var i := pc.site;
    var s := w.sites[i];
    match pc
    case Lock(_) => if s.mx == None then Moved(SetSite(w, i, s.(mx := Some(ByThread(t)))), t, Decide(i, 0)) else None
    case Decide(_, depth) =>
      if c.Cancelled? then Moved(w, t, Unlock(i))
      else if s.actor == NoActor || s.lastSuccess + RESOLVE_AFTER < w.now then Moved(w, t, Resolve(i, depth))
      else Moved(w, t, Switch(i, depth, false))
    case Resolve(_, depth) =>
      if c.Fails? then Moved(SetSite(w, i, s.(actor := NoActor)), t, Unlock(i))
      else if c.GivesBag? then
        Moved(SetSite(w, i, s.(actor := Bag(w.bags))).(bags := w.bags + 1), t, StampSuccess(i, depth))
      else if c.GivesRldp? then
        Moved(SetSite(w, i, s.(arriving := Some(|w.hosts|))).(hosts := w.hosts + [s.host]), t, Install(i, depth, true))
      else None
    case Install(_, depth, resolved) =>
      var installed := s.(actor := Rldp(s.arriving), arriving := None);
      if resolved then Moved(SetSite(w, i, installed), t, StampSuccess(i, depth))
      else Moved(SetSite(w, i, installed.(lastUsed := w.now)), t, HandOut(i))
    case StampSuccess(_, depth) => Moved(SetSite(w, i, s.(lastSuccess := w.now)), t, StampUsed(i, depth))
    case StampUsed(_, depth) => Moved(SetSite(w, i, s.(lastUsed := w.now)), t, Switch(i, depth, true))
    case Switch(_, depth, _) =>
      (match s.actor
       case NoActor => Moved(w, t, HandOut(i))
       case Bag(_) => Moved(SetSite(w, i, s.(lastUsed := w.now)), t, HandOut(i))
       case Rldp(client) =>
         if client == None then Moved(w, t, Connect(i, depth))
         else if s.lastUsed + REINIT_AFTER < w.now then Moved(SetSite(w, i, s.(lastUsed := w.now)), t, HandOut(i))
         else Moved(w, t, HandOut(i)))
    case Connect(_, depth) =>
      if c.Fails? then Moved(SetSite(w, i, s.(actor := NoActor)), t, Decide(i, depth + 1))
      else if c.Go? then
        Moved(SetSite(w, i, s.(arriving := Some(|w.hosts|))).(hosts := w.hosts + [s.host]), t, Install(i, depth, false))
      else None
    case HandOut(_) => Moved(SetSite(w, i, s.(mx := None)), t, Running(i, s.actor, s.lastUsed))
    case Running(_, _, stamp) =>
      if c.Fails? then Moved(w, t, Idle)
      else if c.Go? && w.now <= stamp + limit then Moved(SetSite(w, i, s.(lastSuccess := w.now)), t, Idle)
      else None
    case DLock(gone, _) =>
      if s.mx == None then Moved(SetSite(w, i, s.(mx := Some(ByThread(t)))), t, DCheck(gone, i)) else None
    case DCheck(gone, _) => Moved(w, t, if s.actor.Rldp? then DClose(gone, i) else Unlock(i))
    case DClose(gone, _) => Moved(w.(closedClients := w.closedClients + {gone}), t, DDrop(gone, i))
    case DDrop(gone, _) =>
      Moved(if s.actor == Rldp(Some(gone)) then SetSite(w, i, s.(actor := Rldp(None))) else w, t, Unlock(i))
    case Unlock(_) => Moved(SetSite(w, i, s.(mx := None)), t, Idle)
  }

  function CleanerStep(w: World, c: Choice): Option<World> {
    match w.sweep
    case Asleep => Some(w.(sweep := Snapshot(w.active)))
    case Snapshot(todo) => Some(w.(sweep := Sweeping(w.now, todo)))
    case Sweeping(since, todo) =>
      if todo == map[] then Some(w.(sweep := Asleep))
      else if c.Pick? && c.host in todo && todo[c.host] < |w.sites| then
        var i, rest := todo[c.host], todo - {c.host};
        if w.sites[i].mx == None then
          Some(SetSite(w, i, w.sites[i].(mx := Some(ByCleaner))).(sweep := Checking(since, rest, i)))
        else Some(w.(sweep := Sweeping(since, rest)))
      else None
    case Checking(since, todo, i) =>
      if i >= |w.sites| then None
      else if w.sites[i].lastUsed + IDLE_AFTER < since && w.sites[i].actor.Bag? then
        Some(w.(sweep := Deleting(since, todo, i, w.sites[i].actor.bag)))
      else Some(w.(sweep := Unlocking(since, todo, i)))
    case Deleting(since, todo, i, bag) =>
      if i >= |w.sites| then None
      else
        var host := w.sites[i].host;
        var active := if host in w.active && w.active[host] == i then w.active - {host} else w.active;
        Some(w.(active := active, sweep := Stopping(since, todo, i, bag)))
    case Stopping(since, todo, i, bag) =>
      Some(w.(closedBags := w.closedBags[bag := since], closedTwice := w.closedTwice || bag in w.closedBags,
              sweep := Unlocking(since, todo, i)))
    case Unlocking(since, todo, i) =>
      if i >= |w.sites| then None
      else Some(SetSite(w, i, w.sites[i].(mx := None)).(sweep := Sweeping(since, todo)))
  }

  // ---------------------------------------------------------------- the invariant

  predicate IsActive(w: World, i: SiteId)
    requires i < |w.sites|
  {
    w.sites[i].host in w.active && w.active[w.sites[i].host] == i
  }

  /** A bag, or a server with a connected client. */
  predicate Ready(a: Actor) {
    a.Bag? || (a.Rldp? && a.client.Some?)
  }

  /** The site whose lock a thread holds. */
  function Holds(pc: Pc): Option<SiteId> {
    match pc
    case Idle => None
    case Lookup(_) => None
    case Lock(_) => None
    case Running(_, _, _) => None
    case DLookup(_) => None
    case DLock(_, _) => None
    case _ => Some(pc.site)
  }

  function SweepHolds(sweep: Sweep): Option<SiteId> {
    match sweep
    case Asleep => None
    case Snapshot(_) => None
    case Sweeping(_, _) => None
    case _ => Some(sweep.site)
  }

  /** What a thread knows of the site it works on. */
  predicate ThreadOk(w: World, t: Thread, pc: Pc) {
    && (!pc.Idle? && !pc.Lookup? && !pc.DLookup? ==> pc.site < |w.sites|)
    && (Holds(pc).Some? ==> w.sites[pc.site].mx == Some(ByThread(t)))
    && match pc
       case Decide(i, depth) => depth <= 1 && (depth == 1 ==> w.sites[i].actor == NoActor)
       case Resolve(i, depth) => depth <= 1
       case Install(i, depth, resolved) =>
         && depth <= 1 && w.sites[i].arriving.Some? && (!resolved ==> depth == 0 && w.sites[i].actor == Rldp(None))
       case StampSuccess(i, depth) => depth <= 1 && Ready(w.sites[i].actor)
       case StampUsed(i, depth) => depth <= 1 && Ready(w.sites[i].actor)
       case Switch(i, depth, resolved) =>
         && depth <= 1 && w.sites[i].actor != NoActor && (depth == 1 ==> resolved)
         && (resolved ==> Ready(w.sites[i].actor))
       case Connect(i, depth) => depth == 0 && w.sites[i].actor == Rldp(None)
       case HandOut(i) => Ready(w.sites[i].actor)
       case Running(i, handed, stamp) => Ready(handed) && stamp <= w.sites[i].lastUsed
       case DLookup(gone) => gone < |w.hosts|
       case DLock(gone, i) => gone < |w.hosts|
       case DCheck(gone, i) => gone < |w.hosts|
       case DClose(gone, i) => gone < |w.hosts| && w.sites[i].actor.Rldp?
       case DDrop(gone, i) => gone < |w.hosts| && gone in w.closedClients
       case _ => true
  }

  /** The site a disconnect callback has looked up. */
  function CallbackSite(pc: Pc): Option<(ClientId, SiteId)> {
    match pc
    case DLock(gone, i) => Some((gone, i))
    case DCheck(gone, i) => Some((gone, i))
    case DClose(gone, i) => Some((gone, i))
    case DDrop(gone, i) => Some((gone, i))
    case _ => None
  }

  /** The site runs on this client, or is about to. */
  predicate Has(s: Site, c: ClientId) {
    s.actor == Rldp(Some(c)) || s.arriving == Some(c)
  }

  /** An active site that has a callback's client is the one the callback looked up. */
  predicate CallbackOk(w: World, pc: Pc, j: SiteId)
    requires j < |w.sites|
  {
    CallbackSite(pc).Some? && Has(w.sites[j], CallbackSite(pc).value.0) && IsActive(w, j)
    ==> CallbackSite(pc).value.1 == j
  }

  /** Some callback is about to drop this client from this site, whose lock it holds. */
  predicate BeingDropped(w: World, i: SiteId, c: ClientId)
    requires i < |w.sites|
  {
    && w.sites[i].mx.Some? && w.sites[i].mx.value.ByThread?
    && w.sites[i].mx.value.t in w.threads && w.threads[w.sites[i].mx.value.t] == DDrop(c, i)
  }

  /** The site's lock is held by a prepare that has a client for it. */
  predicate Installing(w: World, i: SiteId)
    requires i < |w.sites|
  {
    && w.sites[i].mx.Some? && w.sites[i].mx.value.ByThread?
    && w.sites[i].mx.value.t in w.threads && w.threads[w.sites[i].mx.value.t].Install?
    && w.threads[w.sites[i].mx.value.t].site == i
  }

  predicate SiteOk(w: World, i: SiteId)
    requires i < |w.sites|
  {
    var s := w.sites[i];
    && s.lastUsed <= w.now && s.lastSuccess <= w.now
    && (s.actor.Bag? ==> s.actor.bag < w.bags)
    && (s.actor.Bag? && s.actor.bag in w.closedBags ==> !IsActive(w, i))
    && (s.actor.Rldp? && s.actor.client.Some? ==>
         && s.actor.client.value < |w.hosts| && w.hosts[s.actor.client.value] == s.host
         && (IsActive(w, i) && s.actor.client.value in w.closedClients ==> BeingDropped(w, i, s.actor.client.value)))
    && (s.arriving.Some? ==>
         && s.arriving.value < |w.hosts| && w.hosts[s.arriving.value] == s.host && Installing(w, i)
         && (IsActive(w, i) ==> s.arriving.value !in w.closedClients))
    && (s.mx.Some? ==>
         match s.mx.value
         case ByThread(t) => t in w.threads && Holds(w.threads[t]) == Some(i)
         case ByCleaner => SweepHolds(w.sweep) == Some(i))
  }

  /** No two sites share a bag or a client. */
  predicate Apart(a: Site, b: Site) {
    && (a.actor.Bag? ==> a.actor != b.actor)
    && (a.actor.Rldp? && a.actor.client.Some? ==> !Has(b, a.actor.client.value))
    && (a.arriving.Some? ==> !Has(b, a.arriving.value))
  }

  /** The snapshot's remaining entries are still in the table. */
  predicate SweepOk(w: World) {
    var todo := if w.sweep.Asleep? then map[] else w.sweep.todo;
    && (forall h :: h in todo ==> h in w.active && w.active[h] == todo[h])
    && (SweepHolds(w.sweep).Some? ==>
         && w.sweep.site < |w.sites| && w.sites[w.sweep.site].mx == Some(ByCleaner)
         && w.sites[w.sweep.site].host !in todo)
    && (!w.sweep.Asleep? && !w.sweep.Snapshot? ==> w.sweep.since <= w.now)
    && (w.sweep.Checking? ==> IsActive(w, w.sweep.site))
    && (w.sweep.Deleting? ==>
         IsActive(w, w.sweep.site) && w.sites[w.sweep.site].actor == Bag(w.sweep.bag) && w.sweep.bag !in w.closedBags)
    && (w.sweep.Stopping? ==>
         !IsActive(w, w.sweep.site) && w.sites[w.sweep.site].actor == Bag(w.sweep.bag) && w.sweep.bag !in w.closedBags)
  }

  ghost predicate Inv(w: World) {
    && 0 <= w.now
    && (forall h :: h in w.active ==> w.active[h] < |w.sites| && w.sites[w.active[h]].host == h)
    && (forall i: nat :: i < |w.sites| ==> SiteOk(w, i))
    && (forall i: nat, j: nat :: i < |w.sites| && j < |w.sites| && i != j ==> Apart(w.sites[i], w.sites[j]))
    && (forall t :: t in w.threads ==> ThreadOk(w, t, w.threads[t]))
    && (forall t, j: nat :: t in w.threads && j < |w.sites| ==> CallbackOk(w, w.threads[t], j))
    && SweepOk(w) && !w.closedTwice
    && (forall b :: b in w.closedBags ==> b < w.bags)
    && (forall c :: c in w.closedClients ==> c < |w.hosts|)
  }

  // ---------------------------------------------------------------- what a step may change

  /** What a step can put in place: no actor, a disconnected server, a bag nobody had before, or the client that has
      just arrived; and a client nobody had before can arrive. */
  predicate Fresh(w: World, s: Site, s': Site) {
    && (s'.actor == s.actor || s'.actor in [NoActor, Rldp(None), Bag(w.bags), Rldp(s.arriving)])
    && (s'.arriving == s.arriving || s'.arriving in [None, Some(|w.hosts|)])
  }

  /** A site across a step of the holder h: only a lock's holder changes the actor, locks are taken when free
      and given back by their holder, and LastUsed never goes back. */
  predicate SiteChange(w: World, h: Option<Holder>, s: Site, s': Site) {
    && s'.host == s.host && s.lastUsed <= s'.lastUsed
    && ((s'.actor == s.actor && s'.arriving == s.arriving) || (s.mx == h && h.Some? && Fresh(w, s, s')))
    && (s'.mx == s.mx || (h.Some? && s.mx == None && s'.mx == h) || (h.Some? && s.mx == h && s'.mx == None))
  }

  /** Across a step of h no site but k changes, and no site comes back into the table. */
  ghost predicate Rely(w: World, n: World, h: Option<Holder>, k: SiteId) {
    && w.now <= n.now && |w.sites| <= |n.sites| && w.bags <= n.bags && w.hosts <= n.hosts
    && w.closedClients <= n.closedClients
    && (forall i: nat {:trigger n.sites[i]} :: i < |w.sites| && i != k ==> n.sites[i] == w.sites[i])
    && (k < |w.sites| ==> SiteChange(w, h, w.sites[k], n.sites[k]))
    && (forall i: nat {:trigger n.sites[i]} :: |w.sites| <= i < |n.sites| ==>
         n.sites[i].actor == NoActor && n.sites[i].arriving == None && n.sites[i].mx == None)
    && (forall i: nat {:trigger IsActive(n, i)} :: i < |w.sites| && IsActive(n, i) ==> IsActive(w, i))
  }

  lemma OtherThread(w: World, n: World, h: Option<Holder>, k: SiteId, u: Thread, pc: Pc)
    requires Rely(w, n, h, k) && h != Some(ByThread(u)) && ThreadOk(w, u, pc)
    ensures ThreadOk(n, u, pc)
  {
  }

  lemma CallbackStays(w: World, n: World, h: Option<Holder>, k: SiteId, u: Thread, pc: Pc, j: SiteId)
    requires Rely(w, n, h, k) && ThreadOk(w, u, pc) && j < |n.sites|
    requires j < |w.sites| ==> CallbackOk(w, pc, j)
    ensures CallbackOk(n, pc, j)
  {
    if CallbackSite(pc).Some? && j < |w.sites| && IsActive(n, j) {
      assert CallbackSite(pc).value.0 < |w.hosts|;
    }
  }

  lemma ApartStays(w: World, n: World, h: Option<Holder>, k: SiteId, i: SiteId, j: SiteId)
    requires Rely(w, n, h, k) && i < |n.sites| && j < |n.sites| && i != j
    requires i < |w.sites| ==> SiteOk(w, i)
    requires j < |w.sites| ==> SiteOk(w, j)
    requires i < |w.sites| && j < |w.sites| ==> Apart(w.sites[i], w.sites[j])
    ensures Apart(n.sites[i], n.sites[j])
  {
    assert i < |w.sites| && i != k ==> n.sites[i] == w.sites[i];
    assert j < |w.sites| && j != k ==> n.sites[j] == w.sites[j];
  }

  /** The parts of the invariant that follow from what a step may change, given its own parts. */
  lemma Preserved(w: World, n: World, h: Option<Holder>, k: SiteId)
    requires Inv(w) && Rely(w, n, h, k)
    requires forall u :: u in n.threads && h != Some(ByThread(u)) ==> u in w.threads && n.threads[u] == w.threads[u]
    requires forall u :: u in n.threads && h == Some(ByThread(u)) ==>
               ThreadOk(n, u, n.threads[u]) && forall j: nat :: j < |n.sites| ==> CallbackOk(n, n.threads[u], j)
    requires forall i: nat :: i < |n.sites| ==> SiteOk(n, i)
    requires forall x :: x in n.active ==> n.active[x] < |n.sites| && n.sites[n.active[x]].host == x
    requires SweepOk(n) && !n.closedTwice && forall b :: b in n.closedBags ==> b < n.bags
    requires forall c :: c in n.closedClients ==> c < |n.hosts|
    ensures Inv(n)
  {
    forall u | u in n.threads ensures ThreadOk(n, u, n.threads[u]) {
      if h != Some(ByThread(u)) { OtherThread(w, n, h, k, u, w.threads[u]); }
    }
    forall u, j: nat | u in n.threads && j < |n.sites| ensures CallbackOk(n, n.threads[u], j) {
      if h != Some(ByThread(u)) { CallbackStays(w, n, h, k, u, w.threads[u], j); }
    }
    forall i: nat, j: nat | i < |n.sites| && j < |n.sites| && i != j ensures Apart(n.sites[i], n.sites[j]) {
      ApartStays(w, n, h, k, i, j);
    }
  }

  /** A site that a step leaves alone stays in order when the step closes nothing of its own. */
  lemma OtherSite(w: World, n: World, h: Option<Holder>, k: SiteId, i: SiteId)
    requires Rely(w, n, h, k) && i < |w.sites| && i != k && SiteOk(w, i)
    requires forall b :: w.sites[i].actor == Bag(b) && b in n.closedBags ==> b in w.closedBags
    requires forall c :: Has(w.sites[i], c) && IsActive(w, i) && c in n.closedClients ==> c in w.closedClients
    requires forall u :: u in w.threads && Holds(w.threads[u]) == Some(i) ==>
               u in n.threads && n.threads[u] == w.threads[u]
    requires SweepHolds(w.sweep) == Some(i) ==> SweepHolds(n.sweep) == Some(i)
    ensures SiteOk(n, i)
  {
    assert n.sites[i] == w.sites[i];
    assert IsActive(n, i) ==> IsActive(w, i);
  }

  lemma SweepStays(w: World, n: World, h: Option<Holder>, k: SiteId)
    requires SweepOk(w) && Rely(w, n, h, k) && h != Some(ByCleaner)
    requires n.sweep == w.sweep && n.closedBags == w.closedBags
    requires forall x :: x in w.active ==> x in n.active && n.active[x] == w.active[x]
    ensures SweepOk(n)
  {
    if SweepHolds(w.sweep).Some? {
      var i := w.sweep.site;
      assert i != k ==> n.sites[i] == w.sites[i];
      assert IsActive(n, i) <==> IsActive(w, i);
    }
  }

  /** A thread's own part of the invariant after its step at site k. */
  ghost predicate OwnPart(n: World, t: Thread, k: SiteId) {
    && t in n.threads && ThreadOk(n, t, n.threads[t])
    && (forall j: nat :: j < |n.sites| ==> CallbackOk(n, n.threads[t], j))
    && (k < |n.sites| ==> SiteOk(n, k))
  }

  lemma ThreadStepKeeps(w: World, n: World, t: Thread, k: SiteId)
    requires Inv(w) && Rely(w, n, Some(ByThread(t)), k) && t in w.threads && OwnPart(n, t, k)
    requires n.threads == w.threads[t := n.threads[t]] && Holds(w.threads[t]) in [None, Some(k)]
    requires n.sweep == w.sweep && n.closedBags == w.closedBags && n.closedTwice == w.closedTwice
    requires |n.sites| == |w.sites| && n.active == w.active
    requires n.closedClients == w.closedClients || (w.threads[t].DClose? && w.threads[t].site == k
             && n.closedClients == w.closedClients + {w.threads[t].gone})
    ensures Inv(n)
  {
    forall i: nat | i < |n.sites| ensures SiteOk(n, i) {
      if i != k {
        assert CallbackOk(w, w.threads[t], i);
        OtherSite(w, n, Some(ByThread(t)), k, i);
      }
    }
    SweepStays(w, n, Some(ByThread(t)), k);
    forall x | x in n.active ensures n.active[x] < |n.sites| && n.sites[n.active[x]].host == x {
      var i := w.active[x];
      assert i != k ==> n.sites[i] == w.sites[i];
    }
    Preserved(w, n, Some(ByThread(t)), k);
  }

  // ---------------------------------------------------------------- every step keeps it

  predicate AtSite(pc: Pc) {
    !pc.Idle? && !pc.Lookup? && !pc.DLookup?
  }

  /** What a thread at a site finds there. */
  ghost predicate Finds(w: World, t: Thread) {
    && t in w.threads && AtSite(w.threads[t]) && ThreadOk(w, t, w.threads[t]) && SiteOk(w, w.threads[t].site)
    && 0 <= w.now && (forall b :: b in w.closedBags ==> b < w.bags)
    && (forall c :: c in w.closedClients ==> c < |w.hosts|)
  }

  /** A step that does no more than set a few fields of its site, for which a bag or a client may be new. */
  ghost predicate Shaped(w: World, n: World, t: Thread) {
    && t in w.threads && AtSite(w.threads[t]) && w.threads[t].site < |w.sites|
    && var k := w.threads[t].site;
       && t in n.threads && CallbackSite(n.threads[t]) in [None, CallbackSite(w.threads[t])] && k < |n.sites|
       && n == w.(sites := w.sites[k := n.sites[k]], threads := w.threads[t := n.threads[t]],
                  bags := n.bags, hosts := n.hosts, closedClients := n.closedClients)
       && SiteChange(w, Some(ByThread(t)), w.sites[k], n.sites[k]) && w.bags <= n.bags && w.hosts <= n.hosts
       && n.closedClients == (if w.threads[t].DClose? then w.closedClients + {w.threads[t].gone} else w.closedClients)
  }

  /** It leaves the site and the thread in order. */
  ghost predicate Touches(w: World, n: World, t: Thread) {
    Shaped(w, n, t) && ThreadOk(n, t, n.threads[t]) && SiteOk(n, w.threads[t].site)
  }

  // What follows looks at the thread and its site alone, a few program counters at a time.

  lemma PlainShaped(w: World, limit: int, t: Thread, c: Choice, n: World)
    requires Finds(w, t) && SiteStep(w, limit, t, w.threads[t], c) == Some(n)
    requires w.threads[t].Decide? || w.threads[t].StampSuccess? || w.threads[t].StampUsed? || w.threads[t].Running?
    ensures Shaped(w, n, t)
  {
    assert n.sites == w.sites[w.threads[t].site := n.sites[w.threads[t].site]];
  }

  lemma PlainTouches(w: World, limit: int, t: Thread, c: Choice, n: World)
    requires Finds(w, t) && SiteStep(w, limit, t, w.threads[t], c) == Some(n)
    requires w.threads[t].Decide? || w.threads[t].Running?
    ensures Touches(w, n, t)
  {
    PlainShaped(w, limit, t, c, n);
  }

  lemma StampTouches(w: World, limit: int, t: Thread, c: Choice, n: World)
    requires Finds(w, t) && SiteStep(w, limit, t, w.threads[t], c) == Some(n)
    requires w.threads[t].StampSuccess? || w.threads[t].StampUsed?
    ensures Touches(w, n, t)
  {
    PlainShaped(w, limit, t, c, n);
  }

  lemma LockShaped(w: World, limit: int, t: Thread, c: Choice, n: World)
    requires Finds(w, t) && SiteStep(w, limit, t, w.threads[t], c) == Some(n)
    requires w.threads[t].Lock? || w.threads[t].HandOut? || w.threads[t].Unlock?
    ensures Shaped(w, n, t)
  {
    assert n.sites == w.sites[w.threads[t].site := n.sites[w.threads[t].site]];
  }

  lemma LockTouches(w: World, limit: int, t: Thread, c: Choice, n: World)
    requires Finds(w, t) && SiteStep(w, limit, t, w.threads[t], c) == Some(n)
    requires w.threads[t].Lock? || w.threads[t].HandOut? || w.threads[t].Unlock?
    ensures Touches(w, n, t)
  {
    LockShaped(w, limit, t, c, n);
  }

  lemma SwitchShaped(w: World, limit: int, t: Thread, c: Choice, n: World)
    requires Finds(w, t) && SiteStep(w, limit, t, w.threads[t], c) == Some(n)
    requires w.threads[t].Switch?
    ensures Shaped(w, n, t)
  {
    assert n.sites == w.sites[w.threads[t].site := n.sites[w.threads[t].site]];
  }

  lemma SwitchTouches(w: World, limit: int, t: Thread, c: Choice, n: World)
    requires Finds(w, t) && SiteStep(w, limit, t, w.threads[t], c) == Some(n)
    requires w.threads[t].Switch?
    ensures Touches(w, n, t)
  {
    SwitchShaped(w, limit, t, c, n);
  }

  lemma ResolveShaped(w: World, limit: int, t: Thread, c: Choice, n: World)
    requires Finds(w, t) && SiteStep(w, limit, t, w.threads[t], c) == Some(n)
    requires w.threads[t].Resolve?
    ensures Shaped(w, n, t)
  {
    assert n.sites == w.sites[w.threads[t].site := n.sites[w.threads[t].site]];
  }

  lemma ResolveTouches(w: World, limit: int, t: Thread, c: Choice, n: World)
    requires Finds(w, t) && SiteStep(w, limit, t, w.threads[t], c) == Some(n)
    requires w.threads[t].Resolve?
    ensures Touches(w, n, t)
  {
    ResolveShaped(w, limit, t, c, n);
  }

  lemma InstallShaped(w: World, limit: int, t: Thread, c: Choice, n: World)
    requires Finds(w, t) && SiteStep(w, limit, t, w.threads[t], c) == Some(n)
    requires w.threads[t].Connect? || w.threads[t].Install?
    ensures Shaped(w, n, t)
  {
    assert n.sites == w.sites[w.threads[t].site := n.sites[w.threads[t].site]];
  }

  lemma InstallTouches(w: World, limit: int, t: Thread, c: Choice, n: World)
    requires Finds(w, t) && SiteStep(w, limit, t, w.threads[t], c) == Some(n)
    requires w.threads[t].Connect? || w.threads[t].Install?
    ensures Touches(w, n, t)
  {
    InstallShaped(w, limit, t, c, n);
  }

  lemma CallbackShaped(w: World, limit: int, t: Thread, c: Choice, n: World)
    requires Finds(w, t) && SiteStep(w, limit, t, w.threads[t], c) == Some(n)
    requires w.threads[t].DLock? || w.threads[t].DCheck? || w.threads[t].DClose? || w.threads[t].DDrop?
    ensures Shaped(w, n, t)
  {
    assert n.sites == w.sites[w.threads[t].site := n.sites[w.threads[t].site]];
  }

  lemma CallbackTouches(w: World, limit: int, t: Thread, c: Choice, n: World)
    requires Finds(w, t) && SiteStep(w, limit, t, w.threads[t], c) == Some(n)
    requires w.threads[t].DLock? || w.threads[t].DCheck? || w.threads[t].DClose? || w.threads[t].DDrop?
    ensures Touches(w, n, t)
  {
    CallbackShaped(w, limit, t, c, n);
  }

  lemma SiteStepTouches(w: World, limit: int, t: Thread, c: Choice, n: World)
    requires Finds(w, t) && SiteStep(w, limit, t, w.threads[t], c) == Some(n)
    ensures Touches(w, n, t)
  {
    var pc := w.threads[t];
    if pc.Switch? {
      SwitchTouches(w, limit, t, c, n);
    } else if pc.Resolve? {
      ResolveTouches(w, limit, t, c, n);
    } else if pc.Connect? || pc.Install? {
      InstallTouches(w, limit, t, c, n);
    } else if pc.Lock? || pc.HandOut? || pc.Unlock? {
      LockTouches(w, limit, t, c, n);
    } else if pc.DLock? || pc.DCheck? || pc.DClose? || pc.DDrop? {
      CallbackTouches(w, limit, t, c, n);
    } else if pc.StampSuccess? || pc.StampUsed? {
      StampTouches(w, limit, t, c, n);
    } else {
      PlainTouches(w, limit, t, c, n);
    }
  }

  lemma TouchingKeeps(w: World, n: World, t: Thread)
    requires Inv(w) && Touches(w, n, t)
    ensures Inv(n)
  {
    var k := w.threads[t].site;
    assert ThreadOk(w, t, w.threads[t]);
    forall j: nat | j < |n.sites| ensures CallbackOk(n, n.threads[t], j) {
      CallbackStays(w, n, Some(ByThread(t)), k, t, w.threads[t], j);
    }
    ThreadStepKeeps(w, n, t, k);
  }

  lemma SiteStepKeeps(w: World, limit: int, t: Thread, c: Choice)
    requires Inv(w) && t in w.threads && AtSite(w.threads[t]) && Step(w, limit, Runs(t), c).Some?
    ensures Inv(Step(w, limit, Runs(t), c).value)
  {
    var n := Step(w, limit, Runs(t), c).value;
    assert ThreadOk(w, t, w.threads[t]) && SiteOk(w, w.threads[t].site);
    SiteStepTouches(w, limit, t, c, n);
    TouchingKeeps(w, n, t);
  }

  /** Steps of a thread that is not at a site: a call begins, or the table is looked up. */
  lemma TableStepKeeps(w: World, limit: int, t: Thread, c: Choice)
    requires Inv(w) && t in w.threads && !AtSite(w.threads[t]) && Step(w, limit, Runs(t), c).Some?
    requires !w.threads[t].Lookup? || w.threads[t].host in w.active
    ensures Inv(Step(w, limit, Runs(t), c).value)
  {
    var n := Step(w, limit, Runs(t), c).value;
    assert ThreadOk(w, t, w.threads[t]);
    LooksAtTable(w, limit, t, c, n);
    forall j: nat | j < |n.sites| ensures CallbackOk(n, n.threads[t], j) {
      if n.threads[t].DLock? { assert SiteOk(w, j); }
    }
    ThreadStepKeeps(w, n, t, |w.sites|);
  }

  /** A thread that is not at a site only moves on, to the site of the host it has looked up if anywhere. */
  lemma LooksAtTable(w: World, limit: int, t: Thread, c: Choice, n: World)
    requires t in w.threads && !AtSite(w.threads[t]) && Step(w, limit, Runs(t), c) == Some(n)
    requires !w.threads[t].Lookup? || w.threads[t].host in w.active
    requires ThreadOk(w, t, w.threads[t]) && forall h :: h in w.active ==> w.active[h] < |w.sites|
    ensures t in n.threads && n == w.(threads := w.threads[t := n.threads[t]]) && ThreadOk(n, t, n.threads[t])
    ensures CallbackSite(n.threads[t]).Some? ==>
              && n.threads[t].DLock? && n.threads[t].gone < |w.hosts| && w.hosts[n.threads[t].gone] in w.active
              && n.threads[t].site == w.active[w.hosts[n.threads[t].gone]]
  {
  }

  /** A host without a site gets one. */
  lemma NewSiteKeeps(w: World, limit: int, t: Thread, c: Choice)
    requires Inv(w) && t in w.threads && w.threads[t].Lookup? && w.threads[t].host !in w.active
    ensures Step(w, limit, Runs(t), c).Some? && Inv(Step(w, limit, Runs(t), c).value)
  {
    var n := Step(w, limit, Runs(t), c).value;
    var h := Some(ByThread(t));
    var k := |w.sites|;
    MakesSite(w, limit, t, c, n);
    forall i: nat | i < |n.sites| ensures SiteOk(n, i) {
      if i < k { OtherSite(w, n, h, k, i); }
    }
    SweepStays(w, n, h, k);
    Preserved(w, n, h, k);
  }

  lemma MakesSite(w: World, limit: int, t: Thread, c: Choice, n: World)
    requires t in w.threads && w.threads[t].Lookup? && w.threads[t].host !in w.active
    requires Step(w, limit, Runs(t), c) == Some(n)
    requires forall h :: h in w.active ==> w.active[h] < |w.sites|
    ensures Rely(w, n, Some(ByThread(t)), |w.sites|)
    ensures n == w.(sites := w.sites + [Site(w.threads[t].host, NoActor, None, w.now, 0, None)],
                    active := w.active[w.threads[t].host := |w.sites|], threads := w.threads[t := Lock(|w.sites|)])
  {
  }

  lemma ClockKeeps(w: World, limit: int, m: Mover, c: Choice)
    requires Inv(w) && (m.Ticks? || m.Streams?) && Step(w, limit, m, c).Some?
    ensures Inv(Step(w, limit, m, c).value)
  {
    if m.Ticks? { TickKeeps(w, m.to); } else { StampKeeps(w, m.site); }
  }

  lemma TickKeeps(w: World, to: int)
    requires Inv(w) && w.now <= to
    ensures Inv(w.(now := to))
  {
    var n := w.(now := to);
    forall i: nat | i < |n.sites| ensures SiteOk(n, i) {
      OtherSite(w, n, None, |w.sites|, i);
    }
    SweepStays(w, n, None, |w.sites|);
    Preserved(w, n, None, |w.sites|);
  }

  lemma StampKeeps(w: World, k: SiteId)
    requires Inv(w) && k < |w.sites|
    ensures Inv(SetSite(w, k, w.sites[k].(lastUsed := w.now)))
  {
    var n := SetSite(w, k, w.sites[k].(lastUsed := w.now));
    forall i: nat | i < |n.sites| ensures SiteOk(n, i) {
      assert SiteOk(w, k);
      if i != k { OtherSite(w, n, None, k, i); }
    }
    SweepStays(w, n, None, k);
    Preserved(w, n, None, k);
  }

  /** The cleaner's step at the site it holds or takes. */
  lemma CleanerAtSite(w: World, n: World, k: SiteId)
    requires Inv(w) && Rely(w, n, Some(ByCleaner), k) && |n.sites| == |w.sites|
    requires n.threads == w.threads && n.closedClients == w.closedClients && SweepHolds(w.sweep) in [None, Some(k)]
    requires forall b :: b in n.closedBags && b !in w.closedBags ==> k < |w.sites| && w.sites[k].actor == Bag(b)
    requires k < |w.sites| ==> SiteOk(n, k)
    requires forall x :: x in n.active ==> x in w.active && n.active[x] == w.active[x]
    requires SweepOk(n) && !n.closedTwice && forall b :: b in n.closedBags ==> b < n.bags
    ensures Inv(n)
  {
    forall i: nat | i < |n.sites| ensures SiteOk(n, i) {
      if i != k {
        assert k < |w.sites| ==> Apart(w.sites[k], w.sites[i]);
        OtherSite(w, n, Some(ByCleaner), k, i);
      }
    }
    forall x | x in n.active ensures n.active[x] < |n.sites| && n.sites[n.active[x]].host == x {
      var i := w.active[x];
      assert i != k ==> n.sites[i] == w.sites[i];
    }
    Preserved(w, n, Some(ByCleaner), k);
  }

  lemma SweepStartKeeps(w: World, c: Choice)
    requires Inv(w) && CleanerStep(w, c).Some? && (w.sweep.Asleep? || w.sweep.Snapshot?)
    ensures Inv(CleanerStep(w, c).value)
  {
    CleanerAtSite(w, CleanerStep(w, c).value, |w.sites|);
  }

  lemma SweepPickKeeps(w: World, c: Choice)
    requires Inv(w) && CleanerStep(w, c).Some? && w.sweep.Sweeping? && w.sweep.todo != map[]
    ensures Inv(CleanerStep(w, c).value)
  {
    var n, k := CleanerStep(w, c).value, w.sweep.todo[c.host];
    assert c.host in w.active && w.active[c.host] == k && w.sites[k].host == c.host;
    assert SiteOk(w, k);
    Picks(w, c, n, k);
    CleanerAtSite(w, n, k);
  }

  /** The cleaner locks the site it picks, or goes past it. */
  lemma Picks(w: World, c: Choice, n: World, k: SiteId)
    requires CleanerStep(w, c) == Some(n) && w.sweep.Sweeping? && w.sweep.todo != map[] && SweepOk(w) && k < |w.sites|
    requires c.host in w.sweep.todo && w.sweep.todo[c.host] == k && w.sites[k].host == c.host && SiteOk(w, k)
    requires IsActive(w, k)
    ensures |n.sites| == |w.sites| && n == w.(sites := w.sites[k := n.sites[k]], sweep := n.sweep)
    ensures SiteChange(w, Some(ByCleaner), w.sites[k], n.sites[k]) && SiteOk(n, k) && SweepOk(n)
  {
    assert n.sites == w.sites[k := n.sites[k]];
  }

  lemma SweepCheckKeeps(w: World, c: Choice)
    requires Inv(w) && CleanerStep(w, c).Some? && w.sweep.Checking?
    ensures Inv(CleanerStep(w, c).value)
  {
    var n := CleanerStep(w, c).value;
    var k := w.sweep.site;
    assert n == w.(sweep := n.sweep);
    assert SiteOk(w, k);
    CleanerAtSite(w, n, k);
  }

  lemma SweepDeleteKeeps(w: World, c: Choice)
    requires Inv(w) && CleanerStep(w, c).Some? && w.sweep.Deleting?
    ensures Inv(CleanerStep(w, c).value)
  {
    var n := CleanerStep(w, c).value;
    var k := w.sweep.site;
    assert SiteOk(w, k);
    CleanerAtSite(w, n, k);
  }

  lemma SweepStopKeeps(w: World, c: Choice)
    requires Inv(w) && CleanerStep(w, c).Some? && w.sweep.Stopping?
    ensures Inv(CleanerStep(w, c).value)
  {
    var n := CleanerStep(w, c).value;
    var k := w.sweep.site;
    assert SiteOk(w, k);
    CleanerAtSite(w, n, k);
  }

  lemma SweepUnlockKeeps(w: World, c: Choice)
    requires Inv(w) && CleanerStep(w, c).Some? && w.sweep.Unlocking?
    ensures Inv(CleanerStep(w, c).value)
  {
    var n := CleanerStep(w, c).value;
    var k := w.sweep.site;
    assert SiteOk(w, k);
    CleanerAtSite(w, n, k);
  }

  lemma CleanerKeeps(w: World, c: Choice)
    requires Inv(w) && CleanerStep(w, c).Some?
    ensures Inv(CleanerStep(w, c).value)
  {
    match w.sweep
    case Asleep => SweepStartKeeps(w, c);
    case Snapshot(_) => SweepStartKeeps(w, c);
    case Sweeping(_, todo) =>
      if todo == map[] { CleanerAtSite(w, CleanerStep(w, c).value, |w.sites|); } else { SweepPickKeeps(w, c); }
    case Checking(_, _, _) => SweepCheckKeeps(w, c);
    case Deleting(_, _, _, _) => SweepDeleteKeeps(w, c);
    case Stopping(_, _, _, _) => SweepStopKeeps(w, c);
    case Unlocking(_, _, _) => SweepUnlockKeeps(w, c);
  }

  lemma StepKeeps(w: World, limit: int, m: Mover, c: Choice)
    requires Inv(w) && Step(w, limit, m, c).Some?
    ensures Inv(Step(w, limit, m, c).value)
  {
    match m
    case Ticks(_) => ClockKeeps(w, limit, m, c);
    case Streams(_) => ClockKeeps(w, limit, m, c);
    case Cleans => CleanerKeeps(w, c);
    case Runs(t) =>
      if AtSite(w.threads[t]) {
        SiteStepKeeps(w, limit, t, c);
      } else if w.threads[t].Lookup? && w.threads[t].host !in w.active {
        NewSiteKeeps(w, limit, t, c);
      } else {
        TableStepKeeps(w, limit, t, c);
      }
  }

  // ---------------------------------------------------------------- the clock

  /** Round trips that end well do so within this many seconds of the stamp their prepare left. */
  const IN_TIME: int := 210

  predicate HoldsClosedBag(w: World, i: SiteId)
    requires i < |w.sites|
  {
    w.sites[i].actor.Bag? && w.sites[i].actor.bag in w.closedBags
  }

  /** The site the cleaner has found idle, and the clock of its sweep. */
  function Idled(sweep: Sweep): Option<(SiteId, int)> {
    if sweep.Deleting? || sweep.Stopping? then Some((sweep.site, sweep.since)) else None
  }

  /** Seen from a time, the site is due for resolving: nothing succeeded on it lately. */
  predicate DueAt(w: World, i: SiteId, time: int)
    requires i < |w.sites|
  {
    w.sites[i].lastSuccess + RESOLVE_AFTER < time <= w.now
  }

  predicate SiteTimely(w: World, i: SiteId, limit: int)
    requires i < |w.sites|
  {
    var s := w.sites[i];
    && (s.lastSuccess <= s.lastUsed + limit || StampPending(w, i))
    && (HoldsClosedBag(w, i) ==> DueAt(w, i, w.closedBags[s.actor.bag]))
    && (Idled(w.sweep).Some? && Idled(w.sweep).value.0 == i ==> DueAt(w, i, Idled(w.sweep).value.1))
  }

  /** LastSuccess of the site is stored and LastUsed is about to be. */
  predicate StampPending(w: World, i: SiteId)
    requires i < |w.sites|
  {
    && w.sites[i].mx.Some? && w.sites[i].mx.value.ByThread? && w.sites[i].mx.value.t in w.threads
    && w.threads[w.sites[i].mx.value.t].StampUsed? && w.threads[w.sites[i].mx.value.t].site == i
  }

  /** Round trips on a site with a stopped bag are too old to end well; a prepare past its resolve test has
      no stopped bag. */
  predicate ThreadTimely(w: World, pc: Pc) {
    match pc
    case Running(i, _, stamp) =>
      i < |w.sites| ==>
        && (HoldsClosedBag(w, i) ==> stamp + IDLE_AFTER < w.closedBags[w.sites[i].actor.bag])
        && (Idled(w.sweep).Some? && Idled(w.sweep).value.0 == i ==> stamp + IDLE_AFTER < Idled(w.sweep).value.1)
    case StampSuccess(i, _) => i < |w.sites| ==> !HoldsClosedBag(w, i)
    case StampUsed(i, _) => i < |w.sites| ==> !HoldsClosedBag(w, i)
    case Switch(i, _, _) => i < |w.sites| ==> !HoldsClosedBag(w, i)
    case HandOut(i) => i < |w.sites| ==> !HoldsClosedBag(w, i)
    case _ => true
  }

  ghost predicate Timely(w: World, limit: int) {
    && (forall i: nat :: i < |w.sites| ==> SiteTimely(w, i, limit))
    && (forall t :: t in w.threads ==> ThreadTimely(w, w.threads[t]))
  }

  lemma OtherThreadTimely(w: World, n: World, h: Option<Holder>, k: SiteId, u: Thread, pc: Pc)
    requires Inv(w) && Rely(w, n, h, k) && h != Some(ByThread(u)) && ThreadOk(w, u, pc) && ThreadTimely(w, pc)
    requires n.closedBags == w.closedBags && Idled(n.sweep) in [None, Idled(w.sweep)]
    ensures ThreadTimely(n, pc)
  {
    if AtSite(pc) {
      assert pc.site != k ==> n.sites[pc.site] == w.sites[pc.site];
    }
  }

  lemma OtherSiteTimely(w: World, n: World, h: Option<Holder>, k: SiteId, i: SiteId, limit: int)
    requires Inv(w) && Rely(w, n, h, k) && i < |w.sites| && i != k && SiteTimely(w, i, limit)
    requires n.closedBags == w.closedBags && Idled(n.sweep) in [None, Idled(w.sweep)]
    requires forall u :: u in w.threads && Holds(w.threads[u]) == Some(i) ==>
               u in n.threads && n.threads[u] == w.threads[u]
    ensures SiteTimely(n, i, limit)
  {
    assert n.sites[i] == w.sites[i] && SiteOk(w, i);
  }

  /** A thread's step keeps the timing when its own part is in time. */
  lemma ThreadStepTimely(w: World, n: World, t: Thread, k: SiteId, limit: int)
    requires Inv(w) && Timely(w, limit) && Rely(w, n, Some(ByThread(t)), k) && t in w.threads && t in n.threads
    requires n.threads == w.threads[t := n.threads[t]] && Holds(w.threads[t]) in [None, Some(k)]
    requires n.sweep == w.sweep && n.closedBags == w.closedBags
    requires ThreadTimely(n, n.threads[t])
    requires k < |n.sites| ==> SiteTimely(n, k, limit)
    requires |n.sites| <= |w.sites| || (k == |w.sites| && |n.sites| == |w.sites| + 1)
    ensures Timely(n, limit)
  {
    forall i: nat | i < |n.sites| ensures SiteTimely(n, i, limit) {
      if i != k { OtherSiteTimely(w, n, Some(ByThread(t)), k, i, limit); }
    }
    forall u | u in n.threads ensures ThreadTimely(n, n.threads[u]) {
      if u != t { OtherThreadTimely(w, n, Some(ByThread(t)), k, u, w.threads[u]); }
    }
  }

  /** What a thread at a site finds there, in time. */
  ghost predicate FindsTimely(w: World, limit: int, t: Thread) {
    && Finds(w, t) && 0 <= limit <= IN_TIME && ThreadTimely(w, w.threads[t])
    && var k := w.threads[t].site;
       && SiteTimely(w, k, limit) && (SweepHolds(w.sweep) == Some(k) ==> w.sites[k].mx == Some(ByCleaner))
  }

  /** It leaves them in time. */
  ghost predicate LeavesTimely(n: World, limit: int, t: Thread, k: SiteId) {
    t in n.threads && ThreadTimely(n, n.threads[t]) && k < |n.sites| && SiteTimely(n, k, limit)
  }

  lemma PlainTimely(w: World, limit: int, t: Thread, c: Choice, n: World)
    requires FindsTimely(w, limit, t) && SiteStep(w, limit, t, w.threads[t], c) == Some(n)
    requires w.threads[t].Decide? || w.threads[t].StampSuccess? || w.threads[t].StampUsed? || w.threads[t].Running?
    ensures LeavesTimely(n, limit, t, w.threads[t].site)
  {
  }

  lemma LockTimely(w: World, limit: int, t: Thread, c: Choice, n: World)
    requires FindsTimely(w, limit, t) && SiteStep(w, limit, t, w.threads[t], c) == Some(n)
    requires w.threads[t].Lock? || w.threads[t].HandOut? || w.threads[t].Unlock?
    ensures LeavesTimely(n, limit, t, w.threads[t].site)
  {
  }

  lemma SwitchTimely(w: World, limit: int, t: Thread, c: Choice, n: World)
    requires FindsTimely(w, limit, t) && SiteStep(w, limit, t, w.threads[t], c) == Some(n)
    requires w.threads[t].Switch?
    ensures LeavesTimely(n, limit, t, w.threads[t].site)
  {
  }

  lemma InstallTimely(w: World, limit: int, t: Thread, c: Choice, n: World)
    requires FindsTimely(w, limit, t) && SiteStep(w, limit, t, w.threads[t], c) == Some(n)
    requires w.threads[t].Resolve? || w.threads[t].Connect? || w.threads[t].Install?
    ensures LeavesTimely(n, limit, t, w.threads[t].site)
  {
  }

  lemma CallbackTimely(w: World, limit: int, t: Thread, c: Choice, n: World)
    requires FindsTimely(w, limit, t) && SiteStep(w, limit, t, w.threads[t], c) == Some(n)
    requires w.threads[t].DLock? || w.threads[t].DCheck? || w.threads[t].DClose? || w.threads[t].DDrop?
    ensures LeavesTimely(n, limit, t, w.threads[t].site)
  {
  }

  lemma TouchingTimely(w: World, n: World, t: Thread, limit: int)
    requires Inv(w) && Timely(w, limit) && Touches(w, n, t) && LeavesTimely(n, limit, t, w.threads[t].site)
    ensures Timely(n, limit)
  {
    ThreadStepTimely(w, n, t, w.threads[t].site, limit);
  }

  lemma TableTimely(w: World, limit: int, t: Thread, c: Choice)
    requires Inv(w) && Timely(w, limit) && 0 <= limit && t in w.threads && !AtSite(w.threads[t])
    requires Step(w, limit, Runs(t), c).Some?
    ensures Timely(Step(w, limit, Runs(t), c).value, limit)
  {
    var n := Step(w, limit, Runs(t), c).value;
    if w.threads[t].Lookup? && w.threads[t].host !in w.active {
      NewSiteTimely(w, limit, t, c);
    } else {
      assert n == w.(threads := n.threads);
      ThreadStepTimely(w, n, t, |w.sites|, limit);
    }
  }

  lemma NewSiteTimely(w: World, limit: int, t: Thread, c: Choice)
    requires Inv(w) && Timely(w, limit) && 0 <= limit && t in w.threads
    requires w.threads[t].Lookup? && w.threads[t].host !in w.active && Step(w, limit, Runs(t), c).Some?
    ensures Timely(Step(w, limit, Runs(t), c).value, limit)
  {
    var n := Step(w, limit, Runs(t), c).value;
    assert SweepOk(w);
    ThreadStepTimely(w, n, t, |w.sites|, limit);
  }

  lemma ClockTimely(w: World, limit: int, m: Mover, c: Choice)
    requires Inv(w) && Timely(w, limit) && (m.Ticks? || m.Streams?) && Step(w, limit, m, c).Some?
    ensures Timely(Step(w, limit, m, c).value, limit)
  {
    var n := Step(w, limit, m, c).value;
    var k := if m.Streams? then m.site else |w.sites|;
    assert k < |w.sites| ==> SiteOk(w, k) && SiteTimely(w, k, limit);
    assert Rely(w, n, None, k);
    forall i: nat | i < |n.sites| ensures SiteTimely(n, i, limit) {
      if i != k { OtherSiteTimely(w, n, None, k, i, limit); }
    }
    forall u | u in n.threads ensures ThreadTimely(n, n.threads[u]) {
      OtherThreadTimely(w, n, None, k, u, w.threads[u]);
    }
  }

  /** The cleaner's steps other than finding a site idle and stopping its bag. */
  lemma CleanerAtSiteTimely(w: World, n: World, k: SiteId, limit: int)
    requires Inv(w) && Timely(w, limit) && Rely(w, n, Some(ByCleaner), k) && |n.sites| == |w.sites|
    requires n.threads == w.threads && n.closedBags == w.closedBags && Idled(n.sweep) in [None, Idled(w.sweep)]
    requires k < |w.sites| ==> SiteTimely(n, k, limit)
    ensures Timely(n, limit)
  {
    forall i: nat | i < |n.sites| ensures SiteTimely(n, i, limit) {
      if i != k { OtherSiteTimely(w, n, Some(ByCleaner), k, i, limit); }
    }
    forall u | u in n.threads ensures ThreadTimely(n, n.threads[u]) {
      OtherThreadTimely(w, n, Some(ByCleaner), k, u, w.threads[u]);
    }
  }

  lemma SweepTimely(w: World, limit: int, c: Choice)
    requires Inv(w) && Timely(w, limit) && CleanerStep(w, c).Some?
    requires w.sweep.Asleep? || w.sweep.Snapshot? || (w.sweep.Sweeping? && w.sweep.todo == map[])
    ensures Timely(CleanerStep(w, c).value, limit)
  {
    CleanerAtSiteTimely(w, CleanerStep(w, c).value, |w.sites|, limit);
  }

  lemma PickTimely(w: World, limit: int, c: Choice)
    requires Inv(w) && Timely(w, limit) && CleanerStep(w, c).Some? && w.sweep.Sweeping? && w.sweep.todo != map[]
    ensures Timely(CleanerStep(w, c).value, limit)
  {
    var n, k := CleanerStep(w, c).value, w.sweep.todo[c.host];
    assert SiteOk(w, k) && SiteTimely(w, k, limit);
    CleanerAtSiteTimely(w, n, k, limit);
  }

  lemma BusyTimely(w: World, limit: int, c: Choice)
    requires Inv(w) && Timely(w, limit) && CleanerStep(w, c).Some?
    requires w.sweep.Checking? && !CleanerStep(w, c).value.sweep.Deleting?
    ensures Timely(CleanerStep(w, c).value, limit)
  {
    var n, k := CleanerStep(w, c).value, w.sweep.site;
    assert SiteOk(w, k) && SiteTimely(w, k, limit);
    CleanerAtSiteTimely(w, n, k, limit);
  }

  lemma DeleteTimely(w: World, limit: int, c: Choice)
    requires Inv(w) && Timely(w, limit) && CleanerStep(w, c).Some? && w.sweep.Deleting?
    ensures Timely(CleanerStep(w, c).value, limit)
  {
    var n, k := CleanerStep(w, c).value, w.sweep.site;
    assert SiteOk(w, k) && SiteTimely(w, k, limit);
    CleanerAtSiteTimely(w, n, k, limit);
  }

  lemma UnlockTimely(w: World, limit: int, c: Choice)
    requires Inv(w) && Timely(w, limit) && CleanerStep(w, c).Some? && w.sweep.Unlocking?
    ensures Timely(CleanerStep(w, c).value, limit)
  {
    var n, k := CleanerStep(w, c).value, w.sweep.site;
    assert SiteOk(w, k) && SiteTimely(w, k, limit);
    CleanerAtSiteTimely(w, n, k, limit);
  }

  /** A site idle for more than 300 seconds has had no success within the last 90, nor will its round trips
      still have one in time. */
  lemma IdleTimely(w: World, limit: int, c: Choice)
    requires Inv(w) && Timely(w, limit) && limit <= IN_TIME && CleanerStep(w, c).Some?
    requires w.sweep.Checking? && CleanerStep(w, c).value.sweep.Deleting?
    ensures Timely(CleanerStep(w, c).value, limit)
  {
    var n, k := CleanerStep(w, c).value, w.sweep.site;
    assert SiteOk(w, k);
    forall i: nat | i < |n.sites| ensures SiteTimely(n, i, limit) {
      assert SiteTimely(w, i, limit);
    }
    forall u | u in n.threads ensures ThreadTimely(n, n.threads[u]) {
      assert ThreadTimely(w, w.threads[u]) && ThreadOk(w, u, w.threads[u]);
    }
  }

  lemma StopTimely(w: World, limit: int, c: Choice)
    requires Inv(w) && Timely(w, limit) && w.sweep.Stopping? && CleanerStep(w, c).Some?
    ensures Timely(CleanerStep(w, c).value, limit)
  {
    var n, k := CleanerStep(w, c).value, w.sweep.site;
    forall i: nat | i < |n.sites| ensures SiteTimely(n, i, limit) {
      assert SiteTimely(w, i, limit);
      assert i != k ==> Apart(w.sites[k], w.sites[i]);
    }
    forall u | u in n.threads ensures ThreadTimely(n, n.threads[u]) {
      var pc := w.threads[u];
      assert ThreadTimely(w, pc) && ThreadOk(w, u, pc);
      assert AtSite(pc) && pc.site != k ==> Apart(w.sites[k], w.sites[pc.site]);
    }
  }

  lemma StepTimely(w: World, limit: int, m: Mover, c: Choice)
    requires Inv(w) && Timely(w, limit) && 0 <= limit <= IN_TIME && Step(w, limit, m, c).Some?
    ensures Timely(Step(w, limit, m, c).value, limit)
  {
    match m
    case Ticks(_) => ClockTimely(w, limit, m, c);
    case Streams(_) => ClockTimely(w, limit, m, c);
    case Cleans =>
      match w.sweep {
        case Checking(_, _, _) =>
          if CleanerStep(w, c).value.sweep.Deleting? { IdleTimely(w, limit, c); } else { BusyTimely(w, limit, c); }
        case Deleting(_, _, _, _) => DeleteTimely(w, limit, c);
        case Stopping(_, _, _, _) => StopTimely(w, limit, c);
        case Unlocking(_, _, _) => UnlockTimely(w, limit, c);
        case Sweeping(_, todo) => if todo == map[] { SweepTimely(w, limit, c); } else { PickTimely(w, limit, c); }
        case _ => SweepTimely(w, limit, c);
      }
    case Runs(t) =>
      if AtSite(w.threads[t]) { SiteStepTimely(w, limit, t, c); } else { TableTimely(w, limit, t, c); }
  }

  lemma SiteStepTimely(w: World, limit: int, t: Thread, c: Choice)
    requires Inv(w) && Timely(w, limit) && 0 <= limit <= IN_TIME && t in w.threads && AtSite(w.threads[t])
    requires Step(w, limit, Runs(t), c).Some?
    ensures Timely(Step(w, limit, Runs(t), c).value, limit)
  {
    var n, pc := Step(w, limit, Runs(t), c).value, w.threads[t];
    assert ThreadOk(w, t, pc) && SiteOk(w, pc.site) && SweepOk(w);
    assert FindsTimely(w, limit, t);
    SiteStepTouches(w, limit, t, c, n);
    SiteStepLeavesTimely(w, limit, t, c, n);
    TouchingTimely(w, n, t, limit);
  }

  lemma SiteStepLeavesTimely(w: World, limit: int, t: Thread, c: Choice, n: World)
    requires FindsTimely(w, limit, t) && SiteStep(w, limit, t, w.threads[t], c) == Some(n)
    ensures LeavesTimely(n, limit, t, w.threads[t].site)
  {
    var pc := w.threads[t];
    if pc.Switch? {
      SwitchTimely(w, limit, t, c, n);
    } else if pc.Resolve? || pc.Connect? || pc.Install? {
      InstallTimely(w, limit, t, c, n);
    } else if pc.Lock? || pc.HandOut? || pc.Unlock? {
      LockTimely(w, limit, t, c, n);
    } else if pc.DLock? || pc.DCheck? || pc.DClose? || pc.DDrop? {
      CallbackTimely(w, limit, t, c, n);
    } else {
      PlainTimely(w, limit, t, c, n);
    }
  }

  // ---------------------------------------------------------------- whole runs

  type Schedule = seq<(Mover, Choice)>

  function Exec(w: World, limit: int, schedule: Schedule): Option<World>
    decreases |schedule|
  {
    if schedule == [] then Some(w)
    else
      match Step(w, limit, schedule[0].0, schedule[0].1)
      case None => None
      case Some(n) => Exec(n, limit, schedule[1..])
  }

  function NewTransport(now: nat, threads: set<Thread>): World {
    World(now, map[], [], 0, [], map[], false, {}, map t | t in threads :: Idle, Asleep)
  }

  lemma {:induction false} RunKeeps(w: World, limit: int, schedule: Schedule)
    requires Inv(w) && Exec(w, limit, schedule).Some?
    ensures Inv(Exec(w, limit, schedule).value)
    decreases |schedule|
  {
    if schedule != [] {
      StepKeeps(w, limit, schedule[0].0, schedule[0].1);
      RunKeeps(Step(w, limit, schedule[0].0, schedule[0].1).value, limit, schedule[1..]);
    }
  }

  lemma {:induction false} RunTimely(w: World, limit: int, schedule: Schedule)
    requires Inv(w) && Timely(w, limit) && 0 <= limit <= IN_TIME && Exec(w, limit, schedule).Some?
    ensures Inv(Exec(w, limit, schedule).value) && Timely(Exec(w, limit, schedule).value, limit)
    decreases |schedule|
  {
    if schedule != [] {
      StepKeeps(w, limit, schedule[0].0, schedule[0].1);
      StepTimely(w, limit, schedule[0].0, schedule[0].1);
      RunTimely(Step(w, limit, schedule[0].0, schedule[0].1).value, limit, schedule[1..]);
    }
  }

  /** The cleaner over whole runs, however long round trips take: no site in the table holds a bag it has
      stopped, and it stops no bag twice. */
  lemma CleanerSafety(now: nat, threads: set<Thread>, limit: int, schedule: Schedule)
    requires Exec(NewTransport(now, threads), limit, schedule).Some?
    ensures var w := Exec(NewTransport(now, threads), limit, schedule).value;
            && !w.closedTwice
            && (forall x :: x in w.active ==> w.active[x] < |w.sites| && !HoldsClosedBag(w, w.active[x]))
  {
    RunKeeps(NewTransport(now, threads), limit, schedule);
    var w := Exec(NewTransport(now, threads), limit, schedule).value;
    forall x | x in w.active ensures w.active[x] < |w.sites| && !HoldsClosedBag(w, w.active[x]) {
      assert SiteOk(w, w.active[x]);
    }
  }

  /** A client that a disconnect has closed is never the client of a site in the table whose lock is free. */
  lemma ClosedClientIsDropped(now: nat, threads: set<Thread>, limit: int, schedule: Schedule)
    requires Exec(NewTransport(now, threads), limit, schedule).Some?
    ensures var w := Exec(NewTransport(now, threads), limit, schedule).value;
            forall x :: x in w.active ==>
              && w.active[x] < |w.sites|
              && var s := w.sites[w.active[x]];
                 s.mx == None && s.actor.Rldp? && s.actor.client.Some? ==> s.actor.client.value !in w.closedClients
  {
    RunKeeps(NewTransport(now, threads), limit, schedule);
    var w := Exec(NewTransport(now, threads), limit, schedule).value;
    forall x | x in w.active
      ensures w.active[x] < |w.sites|
      ensures var s := w.sites[w.active[x]];
              s.mx == None && s.actor.Rldp? && s.actor.client.Some? ==> s.actor.client.value !in w.closedClients
    {
      assert SiteOk(w, w.active[x]);
    }
  }

  /** A prepare resolves site i again: it gets no client for it, or installs a new one. */
  predicate Resolving(pc: Pc, i: SiteId) {
    (pc.Resolve? || (pc.Install? && pc.resolved)) && pc.site == i
  }

  lemma CleanerLeavesNone(w: World, c: Choice, n: World, i: SiteId)
    requires CleanerStep(w, c) == Some(n) && i < |w.sites|
    ensures i < |n.sites| && n.sites[i].actor == w.sites[i].actor
  {
    if w.sweep.Sweeping? { PickLeavesNone(w, c, n, i); }
  }

  lemma PickLeavesNone(w: World, c: Choice, n: World, i: SiteId)
    requires w.sweep.Sweeping? && CleanerStep(w, c) == Some(n) && i < |w.sites|
    ensures i < |n.sites| && n.sites[i].actor == w.sites[i].actor
  {
  }

  lemma ThreadLeaves(w: World, limit: int, t: Thread, c: Choice, n: World, i: SiteId, client: ClientId)
    requires t in w.threads && AtSite(w.threads[t]) && ThreadOk(w, t, w.threads[t])
    requires SiteStep(w, limit, t, w.threads[t], c) == Some(n)
    requires i < |w.sites| && i < |n.sites| && w.sites[i].actor == Rldp(Some(client)) != n.sites[i].actor
    ensures w.sites[i].mx == Some(ByThread(t))
    ensures w.threads[t] == DDrop(client, i) || Resolving(w.threads[t], i)
    ensures w.threads[t].DDrop? ==> client in w.closedClients && n.sites[i].actor == Rldp(None)
  {
    var pc := w.threads[t];
    if !pc.Resolve? && !pc.Install? && !pc.DDrop? && !pc.Connect? { ActorStays(w, limit, t, c, n, i); }
  }

  lemma ActorStays(w: World, limit: int, t: Thread, c: Choice, n: World, i: SiteId)
    requires t in w.threads && AtSite(w.threads[t]) && w.threads[t].site < |w.sites|
    requires var pc := w.threads[t]; !pc.Resolve? && !pc.Install? && !pc.DDrop? && !pc.Connect?
    requires SiteStep(w, limit, t, w.threads[t], c) == Some(n) && i < |w.sites|
    ensures i < |n.sites| && n.sites[i].actor == w.sites[i].actor
  {
    var pc := w.threads[t];
    if pc.Lock? || pc.HandOut? || pc.Unlock? || pc.DLock? {
      LockLeavesActor(w, limit, t, c, n, i);
    } else if pc.Switch? || pc.DCheck? || pc.DClose? {
      SwitchLeavesActor(w, limit, t, c, n, i);
    }
  }

  lemma LockLeavesActor(w: World, limit: int, t: Thread, c: Choice, n: World, i: SiteId)
    requires t in w.threads && AtSite(w.threads[t]) && w.threads[t].site < |w.sites|
    requires w.threads[t].Lock? || w.threads[t].HandOut? || w.threads[t].Unlock? || w.threads[t].DLock?
    requires SiteStep(w, limit, t, w.threads[t], c) == Some(n) && i < |w.sites|
    ensures i < |n.sites| && n.sites[i].actor == w.sites[i].actor
  {
  }

  lemma SwitchLeavesActor(w: World, limit: int, t: Thread, c: Choice, n: World, i: SiteId)
    requires t in w.threads && AtSite(w.threads[t]) && w.threads[t].site < |w.sites|
    requires w.threads[t].Switch? || w.threads[t].DCheck? || w.threads[t].DClose?
    requires SiteStep(w, limit, t, w.threads[t], c) == Some(n) && i < |w.sites|
    ensures i < |n.sites| && n.sites[i].actor == w.sites[i].actor
  {
  }

  lemma StepLeaves(w: World, limit: int, m: Mover, c: Choice, n: World, i: SiteId, client: ClientId)
    requires Inv(w) && Step(w, limit, m, c) == Some(n)
    requires i < |w.sites| && i < |n.sites| && w.sites[i].actor == Rldp(Some(client)) != n.sites[i].actor
    ensures m.Runs? && m.t in w.threads && w.sites[i].mx == Some(ByThread(m.t))
    ensures w.threads[m.t] == DDrop(client, i) || Resolving(w.threads[m.t], i)
    ensures w.threads[m.t].DDrop? ==> client in w.closedClients && n.sites[i].actor == Rldp(None)
  {
    match m
    case Ticks(_) =>
    case Streams(_) =>
    case Cleans => CleanerLeavesNone(w, c, n, i);
    case Runs(t) =>
      assert ThreadOk(w, t, w.threads[t]);
      if AtSite(w.threads[t]) { ThreadLeaves(w, limit, t, c, n, i, client); }
  }

  /** A client leaves a site in two ways only, at any step of any run: a prepare that holds the lock resolves
      again, or the disconnect of that same client, which is closed by then, leaves the server without one. A
      late disconnect of an older client never drops a newer one. */
  lemma ClientLeaves(now: nat, threads: set<Thread>, limit: int, schedule: Schedule, w: World, m: Mover, c: Choice,
                     n: World, i: SiteId, client: ClientId)
    requires i < |w.sites| && i < |n.sites| && w.sites[i].actor == Rldp(Some(client)) != n.sites[i].actor
    ensures Exec(NewTransport(now, threads), limit, schedule) == Some(w) && Step(w, limit, m, c) == Some(n) ==>
              && m.Runs? && m.t in w.threads && w.sites[i].mx == Some(ByThread(m.t))
              && (w.threads[m.t] == DDrop(client, i) || Resolving(w.threads[m.t], i))
              && (w.threads[m.t].DDrop? ==> client in w.closedClients && n.sites[i].actor == Rldp(None))
  {
    if Exec(NewTransport(now, threads), limit, schedule) == Some(w) && Step(w, limit, m, c) == Some(n) {
      RunKeeps(NewTransport(now, threads), limit, schedule);
      StepLeaves(w, limit, m, c, n, i, client);
    }
  }

  /** prepare recurses at most once, and what it hands out is a bag or a connected client, never nothing. */
  lemma PrepareHandsOut(now: nat, threads: set<Thread>, limit: int, schedule: Schedule, t: Thread)
    requires Exec(NewTransport(now, threads), limit, schedule).Some?
    requires t in Exec(NewTransport(now, threads), limit, schedule).value.threads
    ensures var pc := Exec(NewTransport(now, threads), limit, schedule).value.threads[t];
            && (pc.Decide? || pc.Resolve? || pc.Install? || pc.Switch? || pc.Connect? ==> pc.depth <= 1)
            && (pc.Connect? ==> pc.depth == 0)
            && (pc.Running? ==> Ready(pc.handed))
  {
    RunKeeps(NewTransport(now, threads), limit, schedule);
    var w := Exec(NewTransport(now, threads), limit, schedule).value;
    assert ThreadOk(w, t, w.threads[t]);
  }

  /** When round trips that end well end within 210 seconds of the stamp their prepare left, prepare never hands
      out a stopped bag: at the moment of handing out, the site's bag is running. */
  lemma NoStoppedBagHandedOut(now: nat, threads: set<Thread>, limit: nat, schedule: Schedule, t: Thread)
    requires limit <= IN_TIME && Exec(NewTransport(now, threads), limit, schedule).Some?
    requires t in Exec(NewTransport(now, threads), limit, schedule).value.threads
    ensures var w := Exec(NewTransport(now, threads), limit, schedule).value;
            w.threads[t].HandOut? ==> w.threads[t].site < |w.sites| && !HoldsClosedBag(w, w.threads[t].site)
  {
    RunTimely(NewTransport(now, threads), limit, schedule);
    var w := Exec(NewTransport(now, threads), limit, schedule).value;
    assert ThreadOk(w, t, w.threads[t]) && ThreadTimely(w, w.threads[t]);
  }

  lemma {:induction false} ExecSnoc(w: World, limit: int, schedule: Schedule, n: World, m: Mover, c: Choice)
    requires Exec(w, limit, schedule) == Some(n)
    ensures Exec(w, limit, schedule + [(m, c)]) == Step(n, limit, m, c)
    decreases |schedule|
  {
    var longer := schedule + [(m, c)];
    if schedule != [] {
      assert longer[1..] == schedule[1..] + [(m, c)];
      ExecSnoc(Step(w, limit, schedule[0].0, schedule[0].1).value, limit, schedule[1..], n, m, c);
    } else {
      assert longer[1..] == [];
    }
  }

  /** One step leads from a world to the next. */
  ghost predicate Follows(w: World, n: World, limit: int) {
    exists m, c :: Step(w, limit, m, c) == Some(n)
  }

  ghost predicate IsPath(path: seq<World>, limit: int) {
    path != [] && forall k {:trigger Follows(path[k], path[k + 1], limit)} ::
                    0 <= k < |path| - 1 ==> Follows(path[k], path[k + 1], limit)
  }

  ghost predicate Reaches(w: World, limit: int, n: World) {
    exists path: seq<World> :: IsPath(path, limit) && path[0] == w && path[|path| - 1] == n
  }

  lemma ReachesItself(w: World, limit: int)
    ensures Reaches(w, limit, w)
  {
    assert IsPath([w], limit) && [w][0] == w;
  }

  lemma Next(w: World, limit: int, n: World, m: Mover, c: Choice, n': World)
    requires Reaches(w, limit, n) && Step(n, limit, m, c) == Some(n')
    ensures Reaches(w, limit, n')
  {
    var path: seq<World> :| IsPath(path, limit) && path[0] == w && path[|path| - 1] == n;
    var longer := path + [n'];
    assert Follows(n, n', limit);
    forall k | 0 <= k < |longer| - 1 ensures Follows(longer[k], longer[k + 1], limit) {
      if k < |path| - 1 { assert Follows(path[k], path[k + 1], limit); }
    }
    assert IsPath(longer, limit) && longer[0] == w && longer[|longer| - 1] == n';
  }

  /** What is reached is what some schedule leads to. */
  lemma ReachedByRun(w: World, limit: int, n: World) returns (schedule: Schedule)
    requires Reaches(w, limit, n)
    ensures Exec(w, limit, schedule) == Some(n)
  {
    var path: seq<World> :| IsPath(path, limit) && path[0] == w && path[|path| - 1] == n;
    schedule := PathIsRun(path, limit);
  }

  lemma {:induction false} PathIsRun(path: seq<World>, limit: int) returns (schedule: Schedule)
    requires IsPath(path, limit)
    ensures Exec(path[0], limit, schedule) == Some(path[|path| - 1])
    decreases |path|
  {
    if |path| == 1 {
      schedule := [];
    } else {
      PathSplits(path, limit);
      var before := PathIsRun(path[..|path| - 1], limit);
      schedule := OneStepMore(path[0], limit, before, path[|path| - 2], path[|path| - 1]);
    }
  }

  lemma PathSplits(path: seq<World>, limit: int)
    requires IsPath(path, limit) && |path| > 1
    ensures IsPath(path[..|path| - 1], limit) && Follows(path[|path| - 2], path[|path| - 1], limit)
  {
    var init, k := path[..|path| - 1], |path| - 2;
    assert Follows(path[k], path[k + 1], limit);
    forall k | 0 <= k < |init| - 1 ensures Follows(init[k], init[k + 1], limit) {
      assert Follows(path[k], path[k + 1], limit);
    }
  }

  lemma OneStepMore(w: World, limit: int, before: Schedule, n: World, n': World) returns (schedule: Schedule)
    requires Exec(w, limit, before) == Some(n) && Follows(n, n', limit)
    ensures Exec(w, limit, schedule) == Some(n')
  {
    var m, c :| Step(n, limit, m, c) == Some(n');
    ExecSnoc(w, limit, before, n, m, c);
    schedule := before + [(m, c)];
  }

  /** One site, under host 0, and two round trips. */
  function Two(now: int, site: Site, bags: nat, a: Pc, b: Pc): World {
    World(now, map[0 := 0], [site], bags, [], map[], false, {}, map[1 := a, 2 := b], Asleep)
  }

  /** A step of one of the two at the site. */
  lemma TwoNext(limit: int, now: int, site: Site, bags: nat, a: Pc, b: Pc, t: Thread, c: Choice,
                site': Site, bags': nat, a': Pc, b': Pc)
    requires Reaches(NewTransport(0, {1, 2}), limit, Two(now, site, bags, a, b)) && t in {1, 2}
    requires if t == 1 then b' == b else a' == a
    requires var n := Step(Two(now, site, bags, a, b), limit, Runs(t), c);
             && n.Some? && |n.value.sites| == 1 && n.value.sites[0] == site'
             && n.value == Two(now, site, bags, a, b).(sites := n.value.sites, bags := bags',
                                                       threads := map[1 := a, 2 := b][t := if t == 1 then a' else b'])
    ensures Reaches(NewTransport(0, {1, 2}), limit, Two(now, site', bags', a', b'))
  {
    var n := Step(Two(now, site, bags, a, b), limit, Runs(t), c).value;
    assert n.sites == [site'];
    assert map[1 := a, 2 := b][t := if t == 1 then a' else b'] == map[1 := a', 2 := b'];
    Next(NewTransport(0, {1, 2}), limit, Two(now, site, bags, a, b), Runs(t), c, n);
  }

  lemma FirstLookup(limit: int)
    ensures Reaches(NewTransport(0, {1, 2}), limit, Two(0, Site(0, NoActor, None, 0, 0, None), 0, Lock(0), Idle))
  {
    var w, s := NewTransport(0, {1, 2}), Site(0, NoActor, None, 0, 0, None);
    var n := Step(w, limit, Runs(1), Begin(0)).value;
    ReachesItself(w, limit);
    Next(w, limit, w, Runs(1), Begin(0), n);
    assert n.threads[1 := Lock(0)] == map[1 := Lock(0), 2 := Idle];
    assert n.active[0 := 0] == map[0 := 0];
    assert n.sites + [s] == [s];
    Next(w, limit, n, Runs(1), Go, Two(0, s, 0, Lock(0), Idle));
  }

  const FREE: Site := Site(0, Bag(0), None, 0, 0, None)

  /** Thread 1 resolves to bag 0 at clock 0, and is handed it. */
  lemma FirstBag(limit: int)
    ensures Reaches(NewTransport(0, {1, 2}), limit, Two(0, FREE.(mx := Some(ByThread(1))), 1, StampSuccess(0, 0), Idle))
  {
    var s, h := Site(0, NoActor, None, 0, 0, None), Some(ByThread(1));
    FirstLookup(limit);
    TwoNext(limit, 0, s, 0, Lock(0), Idle, 1, Go, s.(mx := h), 0, Decide(0, 0), Idle);
    TwoNext(limit, 0, s.(mx := h), 0, Decide(0, 0), Idle, 1, Go, s.(mx := h), 0, Resolve(0, 0), Idle);
    TwoNext(limit, 0, s.(mx := h), 0, Resolve(0, 0), Idle, 1, GivesBag, FREE.(mx := h), 1, StampSuccess(0, 0), Idle);
  }

  lemma FirstStamps(limit: int)
    ensures Reaches(NewTransport(0, {1, 2}), limit, Two(0, FREE.(mx := Some(ByThread(1))), 1, Switch(0, 0, true), Idle))
  {
    var l := FREE.(mx := Some(ByThread(1)));
    FirstBag(limit);
    TwoNext(limit, 0, l, 1, StampSuccess(0, 0), Idle, 1, Go, l, 1, StampUsed(0, 0), Idle);
    TwoNext(limit, 0, l, 1, StampUsed(0, 0), Idle, 1, Go, l, 1, Switch(0, 0, true), Idle);
  }

  lemma FirstHandOut(limit: int)
    ensures Reaches(NewTransport(0, {1, 2}), limit, Two(0, FREE, 1, Running(0, Bag(0), 0), Idle))
  {
    var l := FREE.(mx := Some(ByThread(1)));
    FirstStamps(limit);
    TwoNext(limit, 0, l, 1, Switch(0, 0, true), Idle, 1, Go, l, 1, HandOut(0), Idle);
    TwoNext(limit, 0, l, 1, HandOut(0), Idle, 1, Go, FREE, 1, Running(0, Bag(0), 0), Idle);
  }

  /** Thread 2 comes to wait for the lock. */
  lemma SecondWaits(limit: int)
    ensures Reaches(NewTransport(0, {1, 2}), limit, Two(0, FREE, 1, Running(0, Bag(0), 0), Lock(0)))
  {
    var r := Running(0, Bag(0), 0);
    FirstHandOut(limit);
    TwoNext(limit, 0, FREE, 1, r, Idle, 2, Begin(0), FREE, 1, r, Lookup(0));
    TwoNext(limit, 0, FREE, 1, r, Lookup(0), 2, Go, FREE, 1, r, Lock(0));
  }

  /** The first request ends well at clock 211. */
  lemma LateSuccess(limit: int)
    requires limit > IN_TIME
    ensures Reaches(NewTransport(0, {1, 2}), limit, Two(301, FREE.(lastSuccess := 211), 1, Idle, Lock(0)))
  {
    var w, r := NewTransport(0, {1, 2}), Running(0, Bag(0), 0);
    SecondWaits(limit);
    Next(w, limit, Two(0, FREE, 1, r, Lock(0)), Ticks(211), Go, Two(211, FREE, 1, r, Lock(0)));
    var late := FREE.(lastSuccess := 211);
    TwoNext(limit, 211, FREE, 1, r, Lock(0), 1, Go, late, 1, Idle, Lock(0));
    Next(w, limit, Two(211, late, 1, Idle, Lock(0)), Ticks(301), Go, Two(301, late, 1, Idle, Lock(0)));
  }

  /** The world in which the cleaner is done with the site. */
  function Swept(site: Site, a: Pc, b: Pc): World {
    World(301, map[], [site], 1, [], map[0 := 301], false, {}, map[1 := a, 2 := b], Sweeping(301, map[]))
  }

  /** The cleaner has locked the site in its sweep at clock 301. */
  function Locked(site: Site, a: Pc, b: Pc): World {
    Two(301, site.(mx := Some(ByCleaner)), 1, a, b).(sweep := Checking(301, map[], 0))
  }

  lemma SweepLocks(start: World, limit: int, site: Site, a: Pc, b: Pc)
    requires Reaches(start, limit, Two(301, site, 1, a, b)) && site.mx == None
    ensures Reaches(start, limit, Locked(site, a, b))
  {
    var w := Two(301, site, 1, a, b);
    Next(start, limit, w, Cleans, Go, w.(sweep := Snapshot(map[0 := 0])));
    Next(start, limit, w.(sweep := Snapshot(map[0 := 0])), Cleans, Go, w.(sweep := Sweeping(301, map[0 := 0])));
    assert map[0 := 0] - {0} == map[] && [site][0 := site.(mx := Some(ByCleaner))] == [site.(mx := Some(ByCleaner))];
    Next(start, limit, w.(sweep := Sweeping(301, map[0 := 0])), Cleans, Pick(0), Locked(site, a, b));
  }

  /** The sweep at clock 301 finds a site idle since clock 0 and stops its bag. */
  lemma SweepStops(start: World, limit: int, site: Site, a: Pc, b: Pc)
    requires Reaches(start, limit, Locked(site, a, b)) && site.mx == None
    requires site.host == 0 && site.actor == Bag(0) && site.lastUsed == 0
    ensures Reaches(start, limit, Swept(site, a, b))
  {
    var c := Locked(site, a, b);
    var held := site.(mx := Some(ByCleaner));
    Next(start, limit, c, Cleans, Go, c.(sweep := Deleting(301, map[], 0, 0)));
    assert map[0 := 0] - {0} == map[];
    var d := c.(active := map[]);
    Next(start, limit, c.(sweep := Deleting(301, map[], 0, 0)), Cleans, Go, d.(sweep := Stopping(301, map[], 0, 0)));
    assert map[][0 := 301] == map[0 := 301];
    var e := d.(closedBags := map[0 := 301]);
    Next(start, limit, d.(sweep := Stopping(301, map[], 0, 0)), Cleans, Go, e.(sweep := Unlocking(301, map[], 0)));
    assert [held][0 := site] == [site];
    Next(start, limit, e.(sweep := Unlocking(301, map[], 0)), Cleans, Go, Swept(site, a, b));
  }

  lemma SweepAt301(limit: int)
    requires limit > IN_TIME
    ensures Reaches(NewTransport(0, {1, 2}), limit, Swept(FREE.(lastSuccess := 211), Idle, Lock(0)))
  {
    var w, late := NewTransport(0, {1, 2}), FREE.(lastSuccess := 211);
    LateSuccess(limit);
    SweepLocks(w, limit, late, Idle, Lock(0));
    SweepStops(w, limit, late, Idle, Lock(0));
  }

  /** Thread 2 gets the lock once the cleaner is done, and finds nothing to resolve. */
  lemma SecondPrepares(limit: int)
    requires limit > IN_TIME
    ensures Reaches(NewTransport(0, {1, 2}), limit,
                    Swept(FREE.(lastSuccess := 211, mx := Some(ByThread(2))), Idle, Switch(0, 0, false)))
  {
    var w, late := NewTransport(0, {1, 2}), FREE.(lastSuccess := 211);
    var mine := late.(mx := Some(ByThread(2)));
    SweepAt301(limit);
    assert [late][0 := mine] == [mine];
    assert map[1 := Idle, 2 := Lock(0)][2 := Decide(0, 0)] == map[1 := Idle, 2 := Decide(0, 0)];
    Next(w, limit, Swept(late, Idle, Lock(0)), Runs(2), Go, Swept(mine, Idle, Decide(0, 0)));
    assert map[1 := Idle, 2 := Decide(0, 0)][2 := Switch(0, 0, false)] == map[1 := Idle, 2 := Switch(0, 0, false)];
    Next(w, limit, Swept(mine, Idle, Decide(0, 0)), Runs(2), Go, Swept(mine, Idle, Switch(0, 0, false)));
  }

  /** The bound is exact: with any longer one, a run exists in which prepare hands out a stopped bag. The success
      recorded 211 seconds after the stamp makes the site look fresh at clock 301, when it has just been swept. */
  lemma StoppedBagHandedOutLate(limit: int) returns (schedule: Schedule)
    requires limit > IN_TIME
    ensures var w := Exec(NewTransport(0, {1, 2}), limit, schedule);
            && w.Some? && 2 in w.value.threads && w.value.threads[2] == HandOut(0)
            && |w.value.sites| == 1 && HoldsClosedBag(w.value, 0)
  {
    var w := NewTransport(0, {1, 2});
    var mine := FREE.(lastSuccess := 211, mx := Some(ByThread(2)));
    var used := mine.(lastUsed := 301);
    SecondPrepares(limit);
    assert [mine][0 := used] == [used];
    assert map[1 := Idle, 2 := Switch(0, 0, false)][2 := HandOut(0)] == map[1 := Idle, 2 := HandOut(0)];
    Next(w, limit, Swept(mine, Idle, Switch(0, 0, false)), Runs(2), Go, Swept(used, Idle, HandOut(0)));
    schedule := ReachedByRun(w, limit, Swept(used, Idle, HandOut(0)));
  }
}
