/** The stamps of a streaming torrent body (proxyOrdered, proxy/transport/client.go) against the cleaner: as long as
    they come in time, nobody stops the bag. */
module BagInUse {
  import opened GoTypes
  import opened SiteLifecycle

  // ---------------------------------------------------------------- what a step does to one bag

  /** No site but i runs on bag b, and none will come to. */
  ghost predicate OnlyAt(w: World, i: SiteId, b: BagId) {
    && i < |w.sites| && b < w.bags
    && forall j: nat :: j < |w.sites| && w.sites[j].actor == Bag(b) ==> j == i
  }

  /** The cleaner is on its way to stop bag b. */
  predicate Doomed(w: World, b: BagId) {
    (w.sweep.Deleting? || w.sweep.Stopping?) && w.sweep.bag == b
  }

  /** A step leaves b where it is, and site i's LastUsed does not go back. */
  ghost predicate Steadily(w: World, n: World, i: SiteId, b: BagId) {
    && i < |w.sites| && OnlyAt(n, i, b) && w.now <= n.now && w.sites[i].lastUsed <= n.sites[i].lastUsed
  }

  lemma ThreadSteadily(w: World, limit: int, t: Thread, c: Choice, n: World, i: SiteId, b: BagId)
    requires t in w.threads && AtSite(w.threads[t]) && OnlyAt(w, i, b) && w.sites[i].lastUsed <= w.now
    requires w.threads[t].site < |w.sites| && SiteStep(w, limit, t, w.threads[t], c) == Some(n)
    ensures Steadily(w, n, i, b) && n.closedBags == w.closedBags && n.sweep == w.sweep
  {
    var k := w.threads[t].site;
    SiteStepActor(w, limit, t, c, n, k);
    forall j: nat | j < |n.sites| && n.sites[j].actor == Bag(b) ensures j == i {
      assert j != k ==> n.sites[j] == w.sites[j];
    }
  }

  /** What a thread's step at site k leaves alone: every other site, and the actor unless for one that is new to all. */
  predicate AtOwnSite(w: World, n: World, k: SiteId)
    requires k < |w.sites|
  {
    && |n.sites| == |w.sites| && n.sites == w.sites[k := n.sites[k]]
    && (n.sites[k].actor == w.sites[k].actor || !n.sites[k].actor.Bag? || n.sites[k].actor.bag == w.bags)
    && n.sites[k].lastUsed in {w.sites[k].lastUsed, w.now}
    && n.now == w.now && w.bags <= n.bags && n.closedBags == w.closedBags && n.sweep == w.sweep
  }

  lemma SiteStepActor(w: World, limit: int, t: Thread, c: Choice, n: World, k: SiteId)
    requires t in w.threads && AtSite(w.threads[t]) && w.threads[t].site == k < |w.sites|
    requires SiteStep(w, limit, t, w.threads[t], c) == Some(n)
    ensures AtOwnSite(w, n, k)
  {
    var pc := w.threads[t];
    if pc.Resolve? || pc.Install? || pc.Connect? {
      ReplacingActor(w, limit, t, c, n, k);
    } else if pc.DLock? || pc.DCheck? || pc.DClose? || pc.DDrop? {
      CallbackActor(w, limit, t, c, n, k);
    } else {
      TouchingActor(w, limit, t, c, n, k);
    }
  }

  lemma ReplacingActor(w: World, limit: int, t: Thread, c: Choice, n: World, k: SiteId)
    requires t in w.threads && AtSite(w.threads[t]) && w.threads[t].site == k < |w.sites|
    requires w.threads[t].Resolve? || w.threads[t].Install? || w.threads[t].Connect?
    requires SiteStep(w, limit, t, w.threads[t], c) == Some(n)
    ensures AtOwnSite(w, n, k)
  {
  }

  lemma CallbackActor(w: World, limit: int, t: Thread, c: Choice, n: World, k: SiteId)
    requires t in w.threads && AtSite(w.threads[t]) && w.threads[t].site == k < |w.sites|
    requires w.threads[t].DLock? || w.threads[t].DCheck? || w.threads[t].DClose? || w.threads[t].DDrop?
    requires SiteStep(w, limit, t, w.threads[t], c) == Some(n)
    ensures AtOwnSite(w, n, k)
  {
  }

  lemma TouchingActor(w: World, limit: int, t: Thread, c: Choice, n: World, k: SiteId)
    requires t in w.threads && AtSite(w.threads[t]) && w.threads[t].site == k < |w.sites|
    requires var pc := w.threads[t]; pc.Lock? || pc.Decide? || pc.StampSuccess? || pc.StampUsed? || pc.Switch?
                                     || pc.HandOut? || pc.Running? || pc.Unlock?
    requires SiteStep(w, limit, t, w.threads[t], c) == Some(n)
    ensures AtOwnSite(w, n, k)
  {
  }

  lemma TableSteadily(w: World, limit: int, t: Thread, c: Choice, n: World, i: SiteId, b: BagId)
    requires t in w.threads && !AtSite(w.threads[t]) && OnlyAt(w, i, b) && Step(w, limit, Runs(t), c) == Some(n)
    ensures Steadily(w, n, i, b) && n.closedBags == w.closedBags && n.sweep == w.sweep
  {
  }

  lemma ClockSteadily(w: World, limit: int, m: Mover, c: Choice, n: World, i: SiteId, b: BagId)
    requires (m.Ticks? || m.Streams?) && Step(w, limit, m, c) == Some(n) && OnlyAt(w, i, b)
    requires w.sites[i].lastUsed <= w.now
    ensures Steadily(w, n, i, b) && n.closedBags == w.closedBags && n.sweep == w.sweep
  {
  }

  /** The cleaner stops b only if it has found it idle, which it does only at site i. */
  lemma CleanerSteadily(w: World, c: Choice, n: World, i: SiteId, b: BagId)
    requires Inv(w) && CleanerStep(w, c) == Some(n) && OnlyAt(w, i, b) && !Doomed(w, b) && b !in w.closedBags
    requires w.now <= w.sites[i].lastUsed + IDLE_AFTER
    ensures Steadily(w, n, i, b) && !Doomed(n, b) && b !in n.closedBags
  {
    match w.sweep
    case Checking(_, _, _) => CheckSpares(w, c, n, i, b);
    case Sweeping(_, _) => PickSpares(w, c, n, i, b);
    case _ => RestSpares(w, c, n, i, b);
  }

  lemma CheckSpares(w: World, c: Choice, n: World, i: SiteId, b: BagId)
    requires Inv(w) && CleanerStep(w, c) == Some(n) && OnlyAt(w, i, b) && b !in w.closedBags && w.sweep.Checking?
    requires w.now <= w.sites[i].lastUsed + IDLE_AFTER
    ensures Steadily(w, n, i, b) && !Doomed(n, b) && b !in n.closedBags
  {
    assert SweepOk(w);
  }

  lemma PickSpares(w: World, c: Choice, n: World, i: SiteId, b: BagId)
    requires CleanerStep(w, c) == Some(n) && OnlyAt(w, i, b) && b !in w.closedBags && w.sweep.Sweeping?
    ensures Steadily(w, n, i, b) && !Doomed(n, b) && b !in n.closedBags
  {
  }

  lemma RestSpares(w: World, c: Choice, n: World, i: SiteId, b: BagId)
    requires CleanerStep(w, c) == Some(n) && OnlyAt(w, i, b) && !Doomed(w, b) && b !in w.closedBags
    requires !w.sweep.Checking? && !w.sweep.Sweeping?
    ensures Steadily(w, n, i, b) && !Doomed(n, b) && b !in n.closedBags
  {
  }

  // ---------------------------------------------------------------- a stream that stamps in time

  /** Along the schedule the clock is never more than bound past the stream's last stamp, which was at first the one
      its prepare left; own says which steps are the stream's stamps. */
  predicate InTime(w: World, limit: int, schedule: Schedule, own: seq<bool>, i: SiteId, last: int, bound: int)
    requires |own| == |schedule|
    decreases |schedule|
  {
    && w.now <= last + bound
    && (schedule == [] ||
        (&& (own[0] ==> schedule[0].0 == Streams(i))
         && match Step(w, limit, schedule[0].0, schedule[0].1)
            case None => false
            case Some(n) => InTime(n, limit, schedule[1..], own[1..], i, if own[0] then n.now else last, bound)))
  }

  lemma StepSpares(w: World, limit: int, m: Mover, c: Choice, n: World, i: SiteId, b: BagId)
    requires Inv(w) && Step(w, limit, m, c) == Some(n) && OnlyAt(w, i, b) && !Doomed(w, b) && b !in w.closedBags
    requires w.now <= w.sites[i].lastUsed + IDLE_AFTER
    ensures Steadily(w, n, i, b) && !Doomed(n, b) && b !in n.closedBags
  {
    assert SiteOk(w, i);
    match m
    case Ticks(_) => ClockSteadily(w, limit, m, c, n, i, b);
    case Streams(_) => ClockSteadily(w, limit, m, c, n, i, b);
    case Cleans => CleanerSteadily(w, c, n, i, b);
    case Runs(t) =>
      assert ThreadOk(w, t, w.threads[t]);
      if AtSite(w.threads[t]) {
        ThreadSteadily(w, limit, t, c, n, i, b);
      } else {
        TableSteadily(w, limit, t, c, n, i, b);
      }
  }

  lemma {:induction false} StampsSpare(w: World, limit: int, schedule: Schedule, own: seq<bool>, i: SiteId, last: int,
                                       b: BagId)
    requires Inv(w) && OnlyAt(w, i, b) && !Doomed(w, b) && b !in w.closedBags && last <= w.sites[i].lastUsed
    requires |own| == |schedule| && InTime(w, limit, schedule, own, i, last, IDLE_AFTER)
    ensures Exec(w, limit, schedule).Some? && b !in Exec(w, limit, schedule).value.closedBags
    decreases |schedule|
  {
    if schedule != [] {
      var (m, c) := schedule[0];
      var n := Step(w, limit, m, c).value;
      StepSpares(w, limit, m, c, n, i, b);
      StepKeeps(w, limit, m, c);
      assert own[0] ==> n.sites[i].lastUsed == n.now;
      StampsSpare(n, limit, schedule[1..], own[1..], i, if own[0] then n.now else last, b);
    }
  }

  /** A bag that a round trip is about to be handed is at its site alone, and nobody is about to stop it. */
  lemma HandedOutAlone(w: World, t: Thread, b: BagId)
    requires Inv(w) && t in w.threads && w.threads[t].HandOut? && w.threads[t].site < |w.sites|
    requires w.sites[w.threads[t].site].actor == Bag(b)
    ensures OnlyAt(w, w.threads[t].site, b) && !Doomed(w, b)
  {
    var i := w.threads[t].site;
    assert SiteOk(w, i) && ThreadOk(w, t, w.threads[t]);
    forall j: nat | j < |w.sites| && w.sites[j].actor == Bag(b) ensures j == i {
      assert i != j ==> Apart(w.sites[i], w.sites[j]);
    }
  }

  /** While a stream's stamps, from the one its prepare left on, are never more than 300 seconds apart, its bag is
      not stopped, whatever the others do. */
  lemma StreamKeepsBag(now: nat, threads: set<Thread>, limit: nat, before: Schedule, w: World, t: Thread, b: BagId,
                       schedule: Schedule, own: seq<bool>)
    requires limit <= IN_TIME && Exec(NewTransport(now, threads), limit, before) == Some(w)
    requires t in w.threads && w.threads[t].HandOut? && w.threads[t].site < |w.sites|
    requires var s := w.sites[w.threads[t].site];
             && s.actor == Bag(b) && |own| == |schedule|
             && InTime(w, limit, schedule, own, w.threads[t].site, s.lastUsed, IDLE_AFTER)
    ensures Exec(w, limit, schedule).Some? && b !in Exec(w, limit, schedule).value.closedBags
  {
    RunKeeps(NewTransport(now, threads), limit, before);
    NoStoppedBagHandedOut(now, threads, limit, before, t);
    HandedOutAlone(w, t, b);
    var i := w.threads[t].site;
    StampsSpare(w, limit, schedule, own, i, w.sites[i].lastUsed, b);
  }

  /** Bag 0 is about to be handed to thread 1 at clock 0, which stamped it. */
  const HANDED: World := Two(0, FREE.(mx := Some(ByThread(1))), 1, HandOut(0), Idle)

  lemma HandedOut(limit: int)
    ensures Reaches(NewTransport(0, {1, 2}), limit, HANDED)
  {
    var l := FREE.(mx := Some(ByThread(1)));
    FirstStamps(limit);
    TwoNext(limit, 0, l, 1, Switch(0, 0, true), Idle, 1, Go, l, 1, HandOut(0), Idle);
  }

  /** It waits for its first piece until clock 301. */
  lemma Unstamped(limit: int)
    ensures Reaches(HANDED, limit, Two(301, FREE, 1, Running(0, Bag(0), 0), Idle))
  {
    var r := Running(0, Bag(0), 0);
    ReachesItself(HANDED, limit);
    assert [FREE.(mx := Some(ByThread(1)))][0 := FREE] == [FREE];
    assert map[1 := HandOut(0), 2 := Idle][1 := r] == map[1 := r, 2 := Idle];
    Next(HANDED, limit, HANDED, Runs(1), Go, Two(0, FREE, 1, r, Idle));
    Next(HANDED, limit, Two(0, FREE, 1, r, Idle), Ticks(301), Go, Two(301, FREE, 1, r, Idle));
  }

  /** One second more is too long: a run in which a bag is handed out with a stamp of clock 0 and stopped at clock
      301, with the request it was handed to under way. */
  lemma UnstampedBagStopped(limit: int) returns (before: Schedule, schedule: Schedule)
    ensures Exec(NewTransport(0, {1, 2}), limit, before) == Some(HANDED) && HANDED.sites[0].lastUsed == 0
    ensures var run := Exec(HANDED, limit, schedule);
            && run.Some? && run.value.now == 301 && 0 in run.value.closedBags
            && 1 in run.value.threads && run.value.threads[1].Running?
  {
    var r := Running(0, Bag(0), 0);
    HandedOut(limit);
    Unstamped(limit);
    SweepLocks(HANDED, limit, FREE, r, Idle);
    SweepStops(HANDED, limit, FREE, r, Idle);
    before := ReachedByRun(NewTransport(0, {1, 2}), limit, HANDED);
    schedule := ReachedByRun(HANDED, limit, Swept(FREE, r, Idle));
  }
}
