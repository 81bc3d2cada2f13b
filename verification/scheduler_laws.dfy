/** Further laws of the scheduler: what became of a request stays that way, and shutdown gives back
    every slot that is not serving. */
module SchedulerLaws {
  import opened Scheduler
  import opened SchedulerSafety
  import opened SchedulerRuns

  // ---- Fates are final ----

  /** What had become of requests in s is still so in t. */
  ghost predicate SameFates(s: Sched, t: Sched) {
    forall id | id in s.place && Final(s.place[id]) :: id in t.place && t.place[id] == s.place[id]
  }

  /** The request has no final fate yet. */
  ghost predicate Open(s: Sched, id: nat) {
    id in s.place ==> !Final(s.place[id])
  }

  lemma HandIsOpen(s: Sched, hand: seq<Req>, at: Place, r: Req)
    requires Places(s, hand, at) && !Final(at) && r in hand
    ensures Open(s, r.id)
  {
    assert r.id in Ids(hand);
  }

  ghost predicate Holds(s: Sched, id: nat) {
    id in Ids(s.queued) || exists m :: m in s.active && id in Ids(s.active[m].waiters)
  }

  lemma HeldIsOpen(s: Sched, id: nat)
    requires Places(s, [], Pending) && Holds(s, id)
    ensures id in s.place && !Final(s.place[id])
  {
  }

  lemma OpenIsHeld(s: Sched, id: nat)
    requires Places(s, [], Pending) && id in s.place && !Final(s.place[id])
    ensures Holds(s, id)
  {
    assert Ids([]) == {};
  }

  lemma DroppedIsHeld(s: Sched, targets: set<string>, id: nat)
    requires id in Dropped(s, targets)
    ensures Holds(s, id)
  {
    DroppedFrom(s, targets, id);
  }

  lemma DropFates(s: Sched, t: Sched, targets: set<string>)
    requires Places(s, [], Pending) && t.place == Mark(s.place, Dropped(s, targets), Failed)
    ensures SameFates(s, t)
  {
    forall id | id in Dropped(s, targets)
      ensures Open(s, id)
    {
      DroppedIsHeld(s, targets, id);
      HeldIsOpen(s, id);
    }
  }

  lemma FatesTransitive(s: Sched, t: Sched, u: Sched)
    requires SameFates(s, t) && SameFates(t, u)
    ensures SameFates(s, u)
  {
  }

  lemma DrainOneFates(p: Params, s: Sched, r: Req, o: Obs)
    requires Open(s, r.id)
    ensures SameFates(s, DrainOne(p, s, r, o))
  {
  }

  lemma {:induction false} DrainFates(p: Params, s: Sched, pending: seq<Req>, obs: seq<Obs>, k: nat)
    requires k <= |pending| && Carrying(p, s.(queued := []), pending)
    ensures SameFates(s, Drain(p, s, pending, obs, k))
  {
    if k > 0 {
      DrainFates(p, s, pending, obs, k - 1);
      DrainCarries(p, s, pending, obs, k - 1);
      var before := Drain(p, s, pending, obs, k - 1);
      HandIsOpen(before, pending[k - 1..], Pending, pending[k - 1..][0]);
      DrainOneFates(p, before, pending[k - 1], Look(obs, k - 1));
    }
  }

  lemma DrainQueueFates(p: Params, s: Sched, obs: seq<Obs>)
    requires Carrying(p, s, [])
    ensures SameFates(s, DrainQueue(p, s, obs))
  {
    TakeQueueInHand(p, s);
    DrainFates(p, s, s.queued, obs, |s.queued|);
  }

  lemma {:induction false} SettleFates(p: Params, s: Sched, waiters: seq<Req>, m: string, ok: bool, grants: seq<bool>, k: nat)
    requires Settling(p, s, waiters, m) && k <= |waiters|
    ensures SameFates(s, Settle(s, waiters, ok, grants, k))
  {
    if k > 0 {
      SettleFates(p, s, waiters, m, ok, grants, k - 1);
      SettleKeeps(p, s, waiters, m, ok, grants, k - 1);
      var before := Settle(s, waiters, ok, grants, k - 1);
      HandIsOpen(before, waiters[k - 1..], Waiting(m), waiters[k - 1..][0]);
    }
  }

  lemma SwapDoneFates(p: Params, s: Sched, m: string, ok: bool, grants: seq<bool>, obs: seq<Obs>)
    requires Inv(p, s)
    ensures SameFates(s, OnSwapDone(p, s, m, ok, grants, obs))
  {
    if m in s.active {
      var waiters := s.active[m].waiters;
      var s1 := s.(active := s.active - {m});
      var s2 := Settle(s1, waiters, ok, grants, |waiters|);
      TakeSwap(p, s, m);
      SettleFates(p, s1, waiters, m, ok, grants, |waiters|);
      SettleKeeps(p, s1, waiters, m, ok, grants, |waiters|);
      assert waiters[|waiters|..] == [];
      SettledCarries(p, s2, m);
      DrainQueueFates(p, s2, obs);
      assert SameFates(s, s1);
      FatesTransitive(s, s1, s2);
      FatesTransitive(s, s2, OnSwapDone(p, s, m, ok, grants, obs));
    }
  }

  lemma ServeDoneFates(p: Params, s: Sched, m: string, obs: seq<Obs>)
    requires Inv(p, s) && Get(s.inFlight, m) > 0
    ensures SameFates(s, OnServeDone(p, s, m, obs))
  {
    var s1 := Served(s, m);
    ServedCarries(p, s, m);
    DrainQueueFates(p, s1, obs);
    assert SameFates(s, s1);
    FatesTransitive(s, s1, DrainQueue(p, s1, obs));
  }

  lemma CancelFates(p: Params, s: Sched, r: Req)
    requires Inv(p, s)
    ensures SameFates(s, OnCancel(s, r))
  {
    if Holds(s, r.id) {
      HeldIsOpen(s, r.id);
    }
    CancelMarksOne(s, r);
  }

  /** A cancelled request that is held nowhere changes nothing; no other request is touched. */
  lemma CancelMarksOne(s: Sched, r: Req)
    ensures var t := OnCancel(s, r);
      t.place == s.place || (Holds(s, r.id) && t.place == s.place[r.id := Gone])
  {
    if q :| q in s.queued && q.id == r.id {
      assert Holds(s, r.id);
    } else if m :| m in s.active && r.id in Ids(s.active[m].waiters) {
      assert Holds(s, r.id);
    }
  }

  lemma UnloadFates(p: Params, s: Sched, targets: set<string>, obs: seq<Obs>)
    requires Inv(p, s)
    ensures SameFates(s, OnUnload(p, s, targets, obs))
  {
    var t := Drop(s, targets);
    DropCarries(p, s, targets);
    DropFates(s, t, targets);
    DrainQueueFates(p, t, obs);
    FatesTransitive(s, t, DrainQueue(p, t, obs));
  }

  lemma RequestFates(p: Params, s: Sched, r: Req, admitted: bool, o: Obs)
    requires Places(s, [], Pending) && r.id >= s.seen
    ensures SameFates(s, OnRequest(p, s, r, admitted, o))
  {
    assert r.id !in s.place;
    RequestSplits(p, s, r, admitted, o);
  }

  lemma StepFates(p: Params, s: Sched, e: Event)
    requires Inv(p, s) && Enabled(s, e)
    ensures SameFates(s, Step(p, s, e))
  {
    match e
    case Request(r, admitted, o) => RequestFates(p, s, r, admitted, o);
    case Cancel(r) => CancelFates(p, s, r);
    case SwapDone(m, ok, grants, obs) => SwapDoneFates(p, s, m, ok, grants, obs);
    case ServeDone(m, obs) => ServeDoneFates(p, s, m, obs);
    case Unload(targets, obs) => UnloadFates(p, s, targets, obs);
  }

  lemma {:induction false} FatesOverRuns(p: Params, events: seq<Event>, k: nat)
    requires RunEnabled(p, NEW, events) && k <= |events|
    ensures SameFates(Run(p, NEW, events[..k]), Run(p, NEW, events))
    decreases |events|
  {
    if k == |events| {
      assert events[..k] == events;
    } else {
      var init := events[..|events| - 1];
      assert init[..k] == events[..k];
      FatesOverRuns(p, init, k);
      RunKeeps(p, init);
      StepFates(p, Run(p, NEW, init), events[|events| - 1]);
      FatesTransitive(Run(p, NEW, events[..k]), Run(p, NEW, init), Run(p, NEW, events));
    }
  }

  /** Over every run a request that was answered, served, refused or pruned keeps that fate and is
      never held again. */
  lemma AnsweredNeverReappears(p: Params, events: seq<Event>, k: nat, id: nat)
    requires RunEnabled(p, NEW, events) && k <= |events|
    requires id in Run(p, NEW, events[..k]).place && Final(Run(p, NEW, events[..k]).place[id])
    ensures var s := Run(p, NEW, events);
      id in s.place && s.place[id] == Run(p, NEW, events[..k]).place[id] && !Holds(s, id)
  {
    FatesOverRuns(p, events, k);
    RunKeeps(p, events);
    var s := Run(p, NEW, events);
    if Holds(s, id) {
      HeldIsOpen(s, id);
    }
  }

  /** Over every run a request is in the queue or in one swap's waiters, never both nor twice. */
  lemma OnePlaceEach(p: Params, events: seq<Event>, id: nat, m: string, n: string)
    requires RunEnabled(p, NEW, events)
    ensures var s := Run(p, NEW, events);
      && Distinct(s.queued)
      && (m in s.active ==> Distinct(s.active[m].waiters))
      && (m in s.active && id in Ids(s.active[m].waiters) ==> id !in Ids(s.queued))
      && (m in s.active && n in s.active && id in Ids(s.active[m].waiters) && id in Ids(s.active[n].waiters) ==> m == n)
  {
    RunKeeps(p, events);
    OnePlaceInState(Run(p, NEW, events), id, m, n);
  }

  lemma OnePlaceInState(s: Sched, id: nat, m: string, n: string)
    requires Places(s, [], Pending)
    ensures Distinct(s.queued) && (m in s.active ==> Distinct(s.active[m].waiters))
    ensures m in s.active && id in Ids(s.active[m].waiters) ==> id !in Ids(s.queued)
    ensures m in s.active && n in s.active && id in Ids(s.active[m].waiters) && id in Ids(s.active[n].waiters) ==> m == n
  {
    if m in s.active && id in Ids(s.active[m].waiters) {
      assert s.place[id] == Waiting(m);
      OnlyOneSwap(s, m, id);
    }
  }

  // ---- Shutdown ----

  /** Shutdown answers everybody it holds and keeps slots for those in flight only. */
  lemma ShutdownReleasesTheRest(p: Params, s: Sched, m: string)
    requires Inv(p, s)
    ensures var t := OnShutdown(s);
      && Get(t.reserved, m) == Get(s.inFlight, m)
      && t.inFlight == s.inFlight
      && (forall id | id in t.place :: Final(t.place[id]))
      && SameFates(s, t)
  {
    var t := OnShutdown(s);
    var all := s.active.Keys + set r | r in s.queued :: r.model;
    assert SlotsOf(p, s, [], m);
    assert Count([], m) == 0;
    DropFates(s, t, all);
    forall id | id in t.place
      ensures Final(t.place[id])
    {
      if id !in Dropped(s, all) {
        ShutdownDropsAllHeld(s, id);
      }
    }
  }

  lemma ShutdownDropsAllHeld(s: Sched, id: nat)
    requires Places(s, [], Pending) && id !in Dropped(s, s.active.Keys + set r | r in s.queued :: r.model)
    ensures id in s.place ==> Final(s.place[id])
  {
    if id in s.place && !Final(s.place[id]) {
      OpenIsHeld(s, id);
    }
  }
}
