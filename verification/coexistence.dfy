/** Which models are up together: the scheduler, its planner and the processes as one system.

    Processes come and go between the scheduler's events and in the middle of them. The goroutine
    of a swap first waits until what it evicts has stopped, then starts its target
    (internal/router/base.go); nothing else starts a process, and any process may stop at any
    time. The planner looks at the processes one by one, while they move. */
module Coexistence {
  import opened Names
  import opened Scheduler
  import opened SchedulerSafety
  import opened SchedulerRuns

  /** The live processes, the active swaps past their stopping phase, and the targets of swap
      goroutines that outlived their entry in the table. */
  datatype Procs = Procs(live: set<string>, stopped: set<string>, orphans: set<string>)

  /** How processes may change while these swaps are active. */
  ghost predicate Moves(active: map<string, Swap>, a: Procs, b: Procs) {
    && a.stopped <= b.stopped <= active.Keys
    && b.orphans <= a.orphans
    && b.live <= a.live + b.stopped + a.orphans
    && forall m | m in b.stopped - a.stopped :: Elems(active[m].evict) !! b.live
  }

  /** What the active swaps stop. */
  ghost function BeingStopped(active: map<string, Swap>): set<string> {
    set m, x | m in active && x in active[m].evict :: x
  }

  /** The live models and the swap targets, without those being stopped. */
  ghost function Staying(active: map<string, Swap>, live: set<string>): set<string> {
    (live + active.Keys) - BeingStopped(active)
  }

  type Fit = set<string> -> bool

  /** Removing what the planner evicts makes room for the target, beside any fitting part of what
      it was told is running. */
  ghost predicate MakesRoom(fits: Fit, plan: Planner) {
    forall t, r, x | x <= Elems(r) && fits(x) && (t in r ==> t in x) :: fits((x - Elems(plan(t, r))) + {t})
  }

  ghost predicate FitOk(fits: Fit) {
    fits({}) && forall x, y | y <= x && fits(x) :: fits(y)
  }

  ghost predicate Planned(p: Params, fits: Fit) {
    PlansWell(p.plan) && FitOk(fits) && MakesRoom(fits, p.plan)
  }

  // ---- What every run keeps ----

  ghost predicate Together(fits: Fit, active: map<string, Swap>, w: Procs) {
    && w.orphans == {}
    && w.stopped <= active.Keys
    && (forall m | m in w.stopped :: Elems(active[m].evict) !! w.live)
    && fits(Staying(active, w.live))
  }

  lemma TargetsAreNotStopped(s: Sched, m: string)
    requires Swaps(s) && m in s.active
    ensures Elems(s.active[m].evict) !! s.active.Keys
  {
    forall x | x in s.active[m].evict
      ensures x !in s.active
    {
      assert SwapOk(s, m);
      assert x in s.active && x != m ==> Apart(s, m, x);
    }
  }

  lemma MovesKeepTogether(fits: Fit, s: Sched, a: Procs, b: Procs)
    requires FitOk(fits) && Swaps(s) && Together(fits, s.active, a) && Moves(s.active, a, b)
    ensures Together(fits, s.active, b)
  {
    assert Staying(s.active, b.live) <= Staying(s.active, a.live);
    forall m | m in b.stopped
      ensures Elems(s.active[m].evict) !! b.live
    {
      TargetsAreNotStopped(s, m);
    }
  }

  /** The same swaps evict the same models. */
  ghost predicate SameEvictions(a: map<string, Swap>, b: map<string, Swap>) {
    a.Keys == b.Keys && forall m | m in a :: a[m].evict == b[m].evict
  }

  lemma SameEvictionsTogether(fits: Fit, a: map<string, Swap>, b: map<string, Swap>, w: Procs)
    requires SameEvictions(a, b) && Together(fits, a, w)
    ensures Together(fits, b, w)
  {
    assert BeingStopped(a) == BeingStopped(b);
  }

  // ---- Looking at the processes ----

  /** The processes after k moves of the path. */
  function At(w: Procs, path: seq<Procs>, k: nat): Procs
    requires k <= |path|
  {
    if k == 0 then w else path[k - 1]
  }

  ghost predicate Moving(active: map<string, Swap>, w: Procs, path: seq<Procs>) {
    forall k | 0 < k <= |path| :: Moves(active, At(w, path, k - 1), At(w, path, k))
  }

  /** Some moment of the path shows the model as it was read. */
  ghost predicate ReadOn(path: seq<Procs>, live: set<string>, m: string) {
    exists k :: 0 <= k < |path| && (m in path[k].live <==> m in live)
  }

  /** While processes move along the path every model is read once, each at a moment of its own. */
  ghost predicate Glance(active: map<string, Swap>, w: Procs, path: seq<Procs>, live: set<string>) {
    path != [] && Moving(active, w, path) && forall m :: ReadOn(path, live, m)
  }

  lemma {:induction false} PathTogether(fits: Fit, s: Sched, w: Procs, path: seq<Procs>, k: nat)
    requires FitOk(fits) && Swaps(s) && Together(fits, s.active, w) && Moving(s.active, w, path) && k <= |path|
    ensures Together(fits, s.active, At(w, path, k))
  {
    if k > 0 {
      PathTogether(fits, s, w, path, k - 1);
      MovesKeepTogether(fits, s, At(w, path, k - 1), At(w, path, k));
    }
  }

  /** Only swap targets come up on the way. */
  lemma {:induction false} OnlyTargetsStart(fits: Fit, s: Sched, w: Procs, path: seq<Procs>, i: nat, k: nat)
    requires FitOk(fits) && Swaps(s) && Together(fits, s.active, w) && Moving(s.active, w, path) && i <= k <= |path|
    ensures At(w, path, k).live <= At(w, path, i).live + s.active.Keys
    decreases k
  {
    if i < k {
      OnlyTargetsStart(fits, s, w, path, i, k - 1);
      PathTogether(fits, s, w, path, k - 1);
      assert Moves(s.active, At(w, path, k - 1), At(w, path, k));
    }
  }

  /** What was read differs from what was live at either end by swap targets at most. */
  ghost predicate Seen(active: map<string, Swap>, a: Procs, b: Procs, live: set<string>) {
    live <= a.live + active.Keys && b.live <= live + active.Keys
  }

  lemma GlanceSees(fits: Fit, s: Sched, w: Procs, path: seq<Procs>, live: set<string>)
    requires FitOk(fits) && Swaps(s) && Together(fits, s.active, w) && Glance(s.active, w, path, live)
    ensures Seen(s.active, w, At(w, path, |path|), live) && Together(fits, s.active, At(w, path, |path|))
  {
    PathTogether(fits, s, w, path, |path|);
    forall m | m in live
      ensures m in w.live + s.active.Keys
    {
      assert ReadOn(path, live, m);
      var k :| 0 <= k < |path| && m in path[k].live;
      OnlyTargetsStart(fits, s, w, path, 0, k + 1);
    }
    forall m | m in At(w, path, |path|).live
      ensures m in live + s.active.Keys
    {
      assert ReadOn(path, live, m);
      var k :| 0 <= k < |path| && (m in path[k].live <==> m in live);
      OnlyTargetsStart(fits, s, w, path, k + 1, |path|);
    }
  }

  /** A swap that collides with no other keeps what stays together fitting, although processes
      moved from a to b while its planner looked. */
  lemma StartTogether(p: Params, fits: Fit, s: Sched, a: Procs, w: Procs, live: set<string>, r: Req, evict: seq<string>)
    requires Planned(p, fits) && Together(fits, s.active, a) && Together(fits, s.active, w) && r.model !in s.active
    requires Seen(s.active, a, w, live)
    requires evict == p.plan(r.model, RunningSet(s.active, live, r.model))
    requires !Collides(r.model, evict, s.active)
    ensures Together(fits, Start(s, r, evict).active, w)
  {
    var t, running := r.model, RunningSet(s.active, live, r.model);
    var before, after := s.active, Start(s, r, evict).active;
    var x := Staying(before, live);
    SparedTarget(s, t, evict);
    assert before.Keys - {t} == before.Keys;
    assert x <= Staying(before, a.live);
    assert x <= Elems(running);
    assert t in running <==> t in Elems(running);
    assert fits((x - Elems(evict)) + {t});
    assert t !in evict;
    StayingAfterStart(before, after, w.live, t, evict);
    assert Staying(after, w.live) <= (x - Elems(evict)) + {t};
    forall m | m in w.stopped
      ensures Elems(after[m].evict) !! w.live
    {
      assert after[m] == before[m];
    }
  }

  lemma SparedTarget(s: Sched, t: string, evict: seq<string>)
    requires !Collides(t, evict, s.active) && t !in s.active
    ensures t !in BeingStopped(s.active)
  {
    NoCollisionSpares(s, t, evict);
  }

  lemma StayingAfterStart(before: map<string, Swap>, after: map<string, Swap>, live: set<string>, t: string, evict: seq<string>)
    requires t !in before && t !in BeingStopped(before) && t !in evict
    requires after.Keys == before.Keys + {t} && after[t].evict == evict
    requires forall m | m in before :: after[m] == before[m]
    ensures Staying(after, live) == (Staying(before, live) - Elems(evict)) + {t}
  {
    assert BeingStopped(after) == BeingStopped(before) + Elems(evict);
    assert t !in BeingStopped(after);
  }

  /** Handling one request, having looked at the processes on their way from a to w. */
  lemma TurnTogether(p: Params, fits: Fit, s: Sched, a: Procs, w: Procs, r: Req, o: Obs)
    requires Planned(p, fits) && Together(fits, s.active, a) && Together(fits, s.active, w)
    requires Seen(s.active, a, w, o.live)
    ensures Together(fits, DrainOne(p, s, r, o).active, w)
    ensures Together(fits, Handle(p, s, r, o).active, w)
  {
    if r.model in s.active {
      SameEvictionsTogether(fits, s.active, Join(s, r).active, w);
    } else {
      var evict := p.plan(r.model, RunningSet(s.active, o.live, r.model));
      if Decide(p, s, r.model, o) == Begin(evict) {
        StartTogether(p, fits, s, a, w, o.live, r, evict);
      }
    }
  }

  // ---- Draining while processes move ----

  /** The processes after k turns of a drain; ws[k] is their way during turn k. */
  function After(w: Procs, ws: seq<seq<Procs>>, k: nat): Procs
    requires k <= |ws|
  {
    if k == 0 then w else At(After(w, ws, k - 1), ws[k - 1], |ws[k - 1]|)
  }

  /** During each turn processes move, and the turn glances at them. */
  ghost predicate Interleaved(p: Params, s: Sched, pending: seq<Req>, obs: seq<Obs>, w: Procs, ws: seq<seq<Procs>>, k: nat)
    requires k <= |pending| == |ws|
  {
    k > 0 ==>
      && Interleaved(p, s, pending, obs, w, ws, k - 1)
      && Glance(Drain(p, s, pending, obs, k - 1).active, After(w, ws, k - 1), ws[k - 1], Look(obs, k - 1).live)
  }

  lemma {:induction false} DrainTogether(p: Params, fits: Fit, s: Sched, pending: seq<Req>, obs: seq<Obs>,
                                         w: Procs, ws: seq<seq<Procs>>, k: nat)
    requires Planned(p, fits) && k <= |pending| == |ws|
    requires Carrying(p, s.(queued := []), pending)
    requires Together(fits, s.active, w) && Interleaved(p, s, pending, obs, w, ws, k)
    ensures Together(fits, Drain(p, s, pending, obs, k).active, After(w, ws, k))
  {
    if k > 0 {
      DrainTogether(p, fits, s, pending, obs, w, ws, k - 1);
      DrainCarries(p, s, pending, obs, k - 1);
      var before := Drain(p, s, pending, obs, k - 1);
      GlanceSees(fits, before, After(w, ws, k - 1), ws[k - 1], Look(obs, k - 1).live);
      TurnTogether(p, fits, before, After(w, ws, k - 1), After(w, ws, k), pending[k - 1], Look(obs, k - 1));
    }
  }

  ghost predicate DrainsBeside(p: Params, s: Sched, obs: seq<Obs>, w: Procs, ws: seq<seq<Procs>>) {
    |ws| == |s.queued| && Interleaved(p, s, s.queued, obs, w, ws, |ws|)
  }

  lemma DrainQueueTogether(p: Params, fits: Fit, s: Sched, obs: seq<Obs>, w: Procs, ws: seq<seq<Procs>>)
    requires Planned(p, fits) && Carrying(p, s, [])
    requires Together(fits, s.active, w) && DrainsBeside(p, s, obs, w, ws)
    ensures Together(fits, DrainQueue(p, s, obs).active, After(w, ws, |ws|))
  {
    TakeQueueInHand(p, s);
    DrainTogether(p, fits, s, s.queued, obs, w, ws, |ws|);
  }

  // ---- The system ----

  datatype Sys = Sys(s: Sched, w: Procs)

  /** Either processes move by themselves, or the scheduler handles an event while they move. */
  datatype Happening = Elsewhere(w: Procs) | Handled(e: Event, ws: seq<seq<Procs>>)

  /** The tables when the drain of an event begins. */
  ghost function Undrained(s: Sched, e: Event): Sched {
    match e
    case SwapDone(m, ok, grants, _) =>
      if m in s.active then
        Settle(s.(active := s.active - {m}), s.active[m].waiters, ok, grants, |s.active[m].waiters|)
      else s
    case ServeDone(m, _) => Served(s, m)
    case Unload(targets, _) => Drop(s, targets)
    case _ => s
  }

  /** The swap goroutines when the drain of an event begins: one that reported is gone, and one
      whose entry is dropped carries on by itself. */
  function Leaving(s: Sched, w: Procs, e: Event): Procs {
    match e
    case SwapDone(m, _, _, _) => w.(stopped := w.stopped - {m})
    case Unload(targets, _) => w.(stopped := w.stopped - targets, orphans := w.orphans + (targets * s.active.Keys))
    case _ => w
  }

  ghost predicate Drains(s: Sched, e: Event) {
    match e
    case SwapDone(m, _, _, _) => m in s.active
    case ServeDone(m, _) => Get(Served(s, m).inFlight, m) <= 0
    case Unload(_, _) => true
    case _ => false
  }

  ghost function Observed(e: Event): seq<Obs> {
    match e
    case SwapDone(_, _, _, obs) => obs
    case ServeDone(_, obs) => obs
    case Unload(_, obs) => obs
    case _ => []
  }

  ghost predicate Can(p: Params, y: Sys, h: Happening) {
    match h
    case Elsewhere(w) => Moves(y.s.active, y.w, w)
    case Handled(e, ws) =>
      && Enabled(y.s, e)
      && (e.SwapDone? ==> e.m in y.w.stopped)
      && if Drains(y.s, e) then DrainsBeside(p, Undrained(y.s, e), Observed(e), Leaving(y.s, y.w, e), ws)
         else if e.Request? then |ws| == 1 && Glance(y.s.active, y.w, ws[0], e.o.live)
         else ws == []
  }

  /** No model is unloaded while a swap is starting it. */
  ghost predicate Careful(s: Sched, h: Happening) {
    h.Handled? && h.e.Unload? ==> h.e.targets !! s.active.Keys
  }

  ghost function Next(p: Params, y: Sys, h: Happening): Sys {
    match h
    case Elsewhere(w) => Sys(y.s, w)
    case Handled(e, ws) => Sys(Step(p, y.s, e), After(Leaving(y.s, y.w, e), ws, |ws|))
  }

  const FRESH := Sys(NEW, Procs({}, {}, {}))

  ghost function Outcome(p: Params, hs: seq<Happening>): Sys {
    if hs == [] then FRESH else Next(p, Outcome(p, hs[..|hs| - 1]), hs[|hs| - 1])
  }

  ghost predicate Possible(p: Params, hs: seq<Happening>) {
    hs != [] ==>
      && Possible(p, hs[..|hs| - 1])
      && Can(p, Outcome(p, hs[..|hs| - 1]), hs[|hs| - 1])
  }

  ghost predicate AllCareful(p: Params, hs: seq<Happening>) {
    hs != [] ==>
      && AllCareful(p, hs[..|hs| - 1])
      && Careful(Outcome(p, hs[..|hs| - 1]).s, hs[|hs| - 1])
  }

  // ---- Each event ----

  lemma RequestTogether(p: Params, fits: Fit, s: Sched, a: Procs, w: Procs, r: Req, admitted: bool, o: Obs)
    requires Planned(p, fits) && Together(fits, s.active, a) && Together(fits, s.active, w)
    requires Seen(s.active, a, w, o.live)
    ensures Together(fits, OnRequest(p, s, r, admitted, o).active, w)
  {
    RequestSplits(p, s, r, admitted, o);
    TurnTogether(p, fits, Admit(s, r), a, w, r, o);
  }

  lemma CancelTogether(fits: Fit, s: Sched, w: Procs, r: Req)
    requires Together(fits, s.active, w)
    ensures Together(fits, OnCancel(s, r).active, w)
  {
    SameEvictionsTogether(fits, s.active, OnCancel(s, r).active, w);
  }

  lemma BeingStoppedSplits(active: map<string, Swap>, m: string)
    requires m in active
    ensures BeingStopped(active) == BeingStopped(active - {m}) + Elems(active[m].evict)
  {
    var rest := active - {m};
    forall x | x in BeingStopped(active)
      ensures x in BeingStopped(rest) + Elems(active[m].evict)
    {
      var n :| n in active && x in active[n].evict;
      assert n != m ==> n in rest && x in rest[n].evict;
    }
    forall x | x in BeingStopped(rest) + Elems(active[m].evict)
      ensures x in BeingStopped(active)
    {
      assert x in Elems(active[m].evict) ==> x in active[m].evict;
    }
  }

  /** A swap that stopped what it evicts leaves nothing unaccounted for. */
  lemma DoneTogether(fits: Fit, s: Sched, w: Procs, m: string)
    requires FitOk(fits) && Swaps(s) && Together(fits, s.active, w) && m in w.stopped
    ensures Together(fits, s.active - {m}, w.(stopped := w.stopped - {m}))
  {
    TargetsAreNotStopped(s, m);
    var rest := s.active - {m};
    var gone := Elems(s.active[m].evict);
    assert gone !! w.live + s.active.Keys;
    BeingStoppedSplits(s.active, m);
    assert Staying(rest, w.live) <= Staying(s.active, w.live);
  }

  lemma {:induction false} SettleSameActive(s: Sched, waiters: seq<Req>, ok: bool, grants: seq<bool>, k: nat)
    requires k <= |waiters|
    ensures Settle(s, waiters, ok, grants, k).active == s.active
  {
    if k > 0 {
      SettleSameActive(s, waiters, ok, grants, k - 1);
    }
  }

  lemma UndrainedTogether(p: Params, fits: Fit, y: Sys, h: Happening)
    requires Planned(p, fits) && Inv(p, y.s) && Together(fits, y.s.active, y.w)
    requires h.Handled? && Can(p, y, h) && Careful(y.s, h) && Drains(y.s, h.e)
    ensures Together(fits, Undrained(y.s, h.e).active, Leaving(y.s, y.w, h.e))
  {
    var s := y.s;
    match h.e
    case SwapDone(m, ok, grants, _) =>
      DoneTogether(fits, s, y.w, m);
      SettleSameActive(s.(active := s.active - {m}), s.active[m].waiters, ok, grants, |s.active[m].waiters|);
    case ServeDone(_, _) =>
    case Unload(targets, _) =>
      assert s.active - targets == s.active;
      assert y.w.stopped - targets == y.w.stopped && targets * s.active.Keys == {};
  }

  lemma UndrainedCarries(p: Params, s: Sched, e: Event)
    requires Inv(p, s) && Enabled(s, e) && Drains(s, e)
    ensures Carrying(p, Undrained(s, e), [])
    ensures Step(p, s, e) == DrainQueue(p, Undrained(s, e), Observed(e))
  {
    match e
    case SwapDone(m, ok, grants, _) =>
      var waiters := s.active[m].waiters;
      var s1 := s.(active := s.active - {m});
      TakeSwap(p, s, m);
      SettleKeeps(p, s1, waiters, m, ok, grants, |waiters|);
      assert waiters[|waiters|..] == [];
      SettledCarries(p, Settle(s1, waiters, ok, grants, |waiters|), m);
    case ServeDone(m, _) =>
      ServedCarries(p, s, m);
    case Unload(targets, _) =>
      DropCarries(p, s, targets);
  }

  lemma HandledTogether(p: Params, fits: Fit, y: Sys, h: Happening)
    requires Planned(p, fits) && Inv(p, y.s) && Together(fits, y.s.active, y.w)
    requires h.Handled? && Can(p, y, h) && Careful(y.s, h)
    ensures Together(fits, Next(p, y, h).s.active, Next(p, y, h).w)
  {
    var e := h.e;
    if Drains(y.s, e) {
      UndrainedTogether(p, fits, y, h);
      UndrainedCarries(p, y.s, e);
      DrainQueueTogether(p, fits, Undrained(y.s, e), Observed(e), Leaving(y.s, y.w, e), h.ws);
    } else {
      match e
      case Request(r, admitted, o) =>
        GlanceSees(fits, y.s, y.w, h.ws[0], o.live);
        RequestTogether(p, fits, y.s, y.w, At(y.w, h.ws[0], |h.ws[0]|), r, admitted, o);
        assert After(y.w, h.ws, 0) == y.w;
      case Cancel(r) =>
        CancelTogether(fits, y.s, y.w, r);
      case ServeDone(_, _) =>
      case SwapDone(_, _, _, _) =>
    }
  }

  lemma {:induction false} SystemKeeps(p: Params, fits: Fit, hs: seq<Happening>)
    requires Planned(p, fits) && Possible(p, hs) && AllCareful(p, hs)
    ensures Inv(p, Outcome(p, hs).s) && Together(fits, Outcome(p, hs).s.active, Outcome(p, hs).w)
  {
    if hs == [] {
      NewIsInv(p);
      assert Staying(map[], {}) == {};
    } else {
      var init, h := hs[..|hs| - 1], hs[|hs| - 1];
      SystemKeeps(p, fits, init);
      var y := Outcome(p, init);
      match h
      case Elsewhere(w) =>
        MovesKeepTogether(fits, y.s, y.w, w);
      case Handled(e, _) =>
        StepKeeps(p, y.s, e);
        HandledTogether(p, fits, y, h);
    }
  }

  /** What a swap still has to stop. */
  ghost function StillStopping(active: map<string, Swap>, stopped: set<string>): set<string> {
    set m, x | m in active && m !in stopped && x in active[m].evict :: x
  }

  /** Over every run in which no model is unloaded while it is being started: the live models and
      the swap targets, without those being stopped, fit; and what is live and not still to be
      stopped fits. */
  lemma ModelsFitOverRuns(p: Params, fits: Fit, hs: seq<Happening>)
    requires Planned(p, fits) && Possible(p, hs) && AllCareful(p, hs)
    ensures var y := Outcome(p, hs);
      && fits(Staying(y.s.active, y.w.live))
      && fits(y.w.live - StillStopping(y.s.active, y.w.stopped))
  {
    SystemKeeps(p, fits, hs);
    var y := Outcome(p, hs);
    forall x | x in y.w.live - StillStopping(y.s.active, y.w.stopped)
      ensures x in Staying(y.s.active, y.w.live)
    {
      forall m | m in y.s.active
        ensures x !in y.s.active[m].evict
      {
        assert x in y.s.active[m].evict <==> x in Elems(y.s.active[m].evict);
      }
    }
    assert y.w.live - StillStopping(y.s.active, y.w.stopped) <= Staying(y.s.active, y.w.live);
  }
}
