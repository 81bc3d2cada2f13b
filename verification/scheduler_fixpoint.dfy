/** Draining twice is draining once, exactly under planners that never spare by a start what they
    would have evicted before it. */
module SchedulerFixpoint {
  import opened Names
  import opened ProcessState
  import opened Scheduler
  import opened SchedulerSafety

  /** More running models never mean fewer evictions. */
  ghost predicate Monotone(plan: Planner) {
    forall target, few, many | Elems(few) <= Elems(many) ::
      Elems(plan(target, few)) <= Elems(plan(target, many))
  }

  /** A world in which process states stand still: the observations of a drain all agree with it. */
  datatype World = World(known: set<string>, ready: map<string, ProcState>, live: set<string>)

  ghost predicate Agrees(w: World, m: string, o: Obs) {
    && o.known == (m in w.known)
    && (m in w.ready ==> o.state == w.ready[m])
    && o.live == w.live
  }

  ghost predicate AllAgree(w: World, pending: seq<Req>, obs: seq<Obs>) {
    |obs| == |pending| && forall k | 0 <= k < |obs| :: Agrees(w, pending[k].model, obs[k])
  }

  /** The model cannot be started or served now: it would disturb a swap or a busy model. */
  ghost predicate Blocked(p: Params, s: Sched, live: set<string>, m: string) {
    && m !in s.active
    && var evict := p.plan(m, RunningSet(s.active, live, m));
       Collides(m, evict, s.active) || Busy(evict, s.inFlight)
  }

  // ---- What a start may spare ----

  /** Where u starts while these models run, it does not spare x of t: if t would have stopped x
      before and u does not, then t still stops x, or collides with u's swap. */
  ghost predicate SparesOne(plan: Planner, t: string, u: string, live: set<string>, x: string) {
    var e, before, after := plan(u, Listing(live)), plan(t, Listing(live)), plan(t, Listing(live + {u}));
    x in before && x !in e ==> x in after || CollidesWith(t, after, u, e)
  }

  /** No start frees another model's way. */
  ghost predicate Spares(plan: Planner) {
    forall t, u, live, x | t != u :: SparesOne(plan, t, u, live, x)
  }

  lemma MonotoneSpares(plan: Planner)
    requires Monotone(plan)
    ensures Spares(plan)
  {
    forall t, u, live, x | t != u
      ensures SparesOne(plan, t, u, live, x)
    {
      var before, after := plan(t, Listing(live)), plan(t, Listing(live + {u}));
      assert Elems(before) <= Elems(after);
      assert x in before ==> x in Elems(before) && x in Elems(after);
    }
  }

  // ---- What is blocked stays blocked ----

  /** At least as many swaps, with the same evictions, and at least as many in flight. */
  ghost predicate Grown(s: Sched, t: Sched) {
    && (forall id | id in s.active :: id in t.active && t.active[id].evict == s.active[id].evict)
    && (forall m :: Get(s.inFlight, m) > 0 ==> Get(t.inFlight, m) > 0)
  }

  ghost predicate Hindered(s: Sched, m: string, evict: seq<string>) {
    Collides(m, evict, s.active) || Busy(evict, s.inFlight)
  }

  lemma HinderedStays(s: Sched, t: Sched, m: string, evict: seq<string>)
    requires Grown(s, t) && Hindered(s, m, evict)
    ensures Hindered(t, m, evict)
  {
    if Collides(m, evict, s.active) {
      var id :| id in s.active && id != m && CollidesWith(m, evict, id, s.active[id].evict);
      assert CollidesWith(m, evict, id, t.active[id].evict);
    }
  }

  lemma BlockedStays(p: Params, s: Sched, t: Sched, live: set<string>, m: string)
    requires Blocked(p, s, live, m) && Grown(s, t) && t.active.Keys == s.active.Keys
    ensures Blocked(p, t, live, m)
  {
    HinderedStays(s, t, m, p.plan(m, RunningSet(s.active, live, m)));
  }

  /** The start of u spares nothing of t that could be in its way: what is busy, or another model. */
  ghost predicate StartSpares(p: Params, s: Sched, live: set<string>, t: string, u: string) {
    forall x | Get(s.inFlight, x) > 0 || (x != t && x != u) :: SparesOne(p.plan, t, u, live + s.active.Keys, x)
  }

  lemma StartKeepsBlocked(p: Params, s: Sched, r: Req, live: set<string>, t: string)
    requires r.model !in s.active && t != r.model && Blocked(p, s, live, t) && StartSpares(p, s, live, t, r.model)
    requires !Hindered(s, r.model, p.plan(r.model, RunningSet(s.active, live, r.model)))
    ensures Blocked(p, Start(s, r, p.plan(r.model, RunningSet(s.active, live, r.model))), live, t)
  {
    var u, all := r.model, live + s.active.Keys;
    assert live + (s.active.Keys - {u}) == all && live + (s.active.Keys - {t}) == all;
    var e, before, after := p.plan(u, Listing(all)), p.plan(t, Listing(all)), p.plan(t, Listing(all + {u}));
    var next := Start(s, r, e);
    assert live + (next.active.Keys - {t}) == all + {u};
    StillHindered(p, s, r, live, t, e, before, after);
  }

  lemma StillHindered(p: Params, s: Sched, r: Req, live: set<string>, t: string,
                      e: seq<string>, before: seq<string>, after: seq<string>)
    requires r.model !in s.active && t !in s.active && t != r.model && StartSpares(p, s, live, t, r.model)
    requires e == p.plan(r.model, Listing(live + s.active.Keys)) && before == p.plan(t, Listing(live + s.active.Keys))
    requires after == p.plan(t, Listing(live + s.active.Keys + {r.model}))
    requires Hindered(s, t, before) && !Hindered(s, r.model, e)
    ensures Hindered(Start(s, r, e), t, after)
  {
    var next := Start(s, r, e);
    assert next.active[r.model].evict == e;
    if CollidesWith(t, after, r.model, e) {
    } else if x :| x in before && Get(s.inFlight, x) > 0 {
      assert SparesOne(p.plan, t, r.model, live + s.active.Keys, x);
      assert x !in e && x in after;
    } else {
      var id :| id in s.active && id != t && CollidesWith(t, before, id, s.active[id].evict);
      assert !CollidesWith(r.model, e, id, s.active[id].evict);
      assert SparesOne(p.plan, t, r.model, live + s.active.Keys, id);
      assert next.active[id] == s.active[id];
      if x :| x in before && x in s.active[id].evict && x != t {
        assert SparesOne(p.plan, t, r.model, live + s.active.Keys, x);
      }
      assert CollidesWith(t, after, id, next.active[id].evict);
    }
  }

  /** A turn for one request does not unblock another model. */
  lemma DrainOneKeepsBlocked(p: Params, s: Sched, r: Req, o: Obs, m: string)
    requires Blocked(p, s, o.live, m)
    requires m != r.model ==> StartSpares(p, s, o.live, m, r.model)
    ensures Blocked(p, DrainOne(p, s, r, o), o.live, m)
  {
    var t := DrainOne(p, s, r, o);
    var evict := p.plan(r.model, RunningSet(s.active, o.live, r.model));
    if o.known && r.model !in s.active && Decide(p, s, r.model, o) == Begin(evict) {
      StartKeepsBlocked(p, s, r, o.live, m);
    } else {
      OtherTurnsKeepKeys(p, s, r, o);
      BlockedStays(p, s, t, o.live, m);
    }
  }

  lemma OtherTurnsKeepKeys(p: Params, s: Sched, r: Req, o: Obs)
    requires !o.known || r.model in s.active || !Decide(p, s, r.model, o).Begin?
    ensures var t := DrainOne(p, s, r, o); Grown(s, t) && t.active.Keys == s.active.Keys
  {
  }

  lemma DrainOneLeavesBlocked(p: Params, s: Sched, r: Req, o: Obs)
    requires o.known && DrainOne(p, s, r, o).queued != s.queued
    ensures Blocked(p, DrainOne(p, s, r, o), o.live, r.model)
  {
  }

  /** Turn k does not spare anything of those that stayed queued before. */
  ghost predicate TurnSpares(p: Params, w: World, s: Sched, pending: seq<Req>, obs: seq<Obs>, k: nat)
    requires k < |pending|
  {
    var before := Drain(p, s, pending, obs, k);
    forall q | q in before.queued && q.model != pending[k].model :: StartSpares(p, before, w.live, q.model, pending[k].model)
  }

  /** After k turns, all that stayed queued is known and blocked. */
  lemma {:induction false} StayedAreBlocked(p: Params, w: World, s: Sched, pending: seq<Req>, obs: seq<Obs>, k: nat)
    requires AllAgree(w, pending, obs) && k <= |pending|
    requires forall j | 0 <= j < k :: TurnSpares(p, w, s, pending, obs, j)
    ensures AllBlocked(p, w, Drain(p, s, pending, obs, k))
  {
    if k > 0 {
      StayedAreBlocked(p, w, s, pending, obs, k - 1);
      var before := Drain(p, s, pending, obs, k - 1);
      var r, o := pending[k - 1], obs[k - 1];
      assert Agrees(w, r.model, o) && TurnSpares(p, w, s, pending, obs, k - 1);
      TurnKeepsAllBlocked(p, w, before, r, o);
    }
  }

  lemma TurnKeepsAllBlocked(p: Params, w: World, s: Sched, r: Req, o: Obs)
    requires AllBlocked(p, w, s) && Agrees(w, r.model, o)
    requires forall q | q in s.queued && q.model != r.model :: StartSpares(p, s, w.live, q.model, r.model)
    ensures AllBlocked(p, w, DrainOne(p, s, r, o))
  {
    var t := DrainOne(p, s, r, o);
    DrainOneQueue(p, s, r, o);
    forall q | q in t.queued
      ensures q.model in w.known && Blocked(p, t, w.live, q.model)
    {
      if q in s.queued {
        DrainOneKeepsBlocked(p, s, r, o, q.model);
      } else {
        DrainOneLeavesBlocked(p, s, r, o);
      }
    }
  }

  /** A blocked request is put back, whatever else is queued. */
  lemma BlockedWaits(p: Params, s: Sched, t: Sched, live: set<string>, r: Req, o: Obs)
    requires Blocked(p, s, live, r.model)
    requires o.known && o.live == live && t == s.(queued := t.queued)
    ensures DrainOne(p, t, r, o) == t.(queued := t.queued + [r])
  {
    assert Decide(p, t, r.model, o) == Wait;
  }

  ghost predicate AllBlocked(p: Params, w: World, s: Sched) {
    forall r | r in s.queued :: r.model in w.known && Blocked(p, s, w.live, r.model)
  }

  /** The request is put back, whatever else is queued. */
  ghost predicate Stays(p: Params, s: Sched, r: Req, o: Obs) {
    forall q :: DrainOne(p, s.(queued := q), r, o) == s.(queued := q + [r])
  }

  lemma BlockedStaysPut(p: Params, w: World, s: Sched, obs: seq<Obs>, k: nat)
    requires AllAgree(w, s.queued, obs) && AllBlocked(p, w, s) && k < |s.queued|
    ensures Stays(p, s, s.queued[k], Look(obs, k))
  {
    var r := s.queued[k];
    assert r in s.queued && Agrees(w, r.model, obs[k]);
    forall q
      ensures DrainOne(p, s.(queued := q), r, obs[k]) == s.(queued := q + [r])
    {
      BlockedWaits(p, s, s.(queued := q), w.live, r, obs[k]);
    }
  }

  lemma {:induction false} IdleDrain(p: Params, s: Sched, obs: seq<Obs>, k: nat)
    requires k <= |s.queued| && forall j | 0 <= j < |s.queued| :: Stays(p, s, s.queued[j], Look(obs, j))
    ensures Drain(p, s, s.queued, obs, k) == s.(queued := s.queued[..k])
  {
    if k > 0 {
      IdleDrain(p, s, obs, k - 1);
      var q := s.queued[..k - 1];
      assert Stays(p, s, s.queued[k - 1], Look(obs, k - 1));
      assert DrainOne(p, s.(queued := q), s.queued[k - 1], Look(obs, k - 1)) == s.(queued := q + [s.queued[k - 1]]);
      assert s.queued[..k] == q + [s.queued[k - 1]];
    }
  }

  lemma BlockedDrainIsIdle(p: Params, w: World, s: Sched, obs: seq<Obs>)
    requires AllAgree(w, s.queued, obs) && AllBlocked(p, w, s)
    ensures DrainQueue(p, s, obs) == s
  {
    forall j | 0 <= j < |s.queued|
      ensures Stays(p, s, s.queued[j], Look(obs, j))
    {
      BlockedStaysPut(p, w, s, obs, j);
    }
    IdleDrain(p, s, obs, |s.queued|);
    assert s.queued[..|s.queued|] == s.queued;
  }

  /** In a world that stands still, the drain leaves somebody queued whom a second one would not. */
  ghost predicate LeavesWork(p: Params, w: World, s: Sched, obs: seq<Obs>, again: seq<Obs>) {
    var t := DrainQueue(p, s, obs);
    AllAgree(w, s.queued, obs) && AllAgree(w, t.queued, again) && DrainQueue(p, t, again) != t
  }

  lemma SparingTurnsLeaveNoWork(p: Params, w: World, s: Sched, obs: seq<Obs>, again: seq<Obs>)
    requires AllAgree(w, s.queued, obs) ==> forall k | 0 <= k < |s.queued| :: TurnSpares(p, w, s, s.queued, obs, k)
    ensures !LeavesWork(p, w, s, obs, again)
  {
    var t := DrainQueue(p, s, obs);
    if AllAgree(w, s.queued, obs) && AllAgree(w, t.queued, again) {
      StayedAreBlocked(p, w, s, s.queued, obs, |s.queued|);
      BlockedDrainIsIdle(p, w, t, again);
    }
  }

  /** While processes stand still, a second drain changes nothing: one pass over the queue starts
      and serves all that can be, whatever order the queue is in. */
  lemma DrainReachesFixpoint(p: Params, w: World, s: Sched, obs: seq<Obs>, again: seq<Obs>)
    requires Monotone(p.plan) && Inv(p, s)
    requires AllAgree(w, s.queued, obs) && AllAgree(w, DrainQueue(p, s, obs).queued, again)
    ensures DrainQueue(p, DrainQueue(p, s, obs), again) == DrainQueue(p, s, obs)
  {
    MonotoneSpares(p.plan);
    SparingTurnsLeaveNoWork(p, w, s, obs, again);
  }

  // ---- Exactly when ----

  /** A drain from this state is final, whatever the world looks like. */
  ghost predicate IsFinal(p: Params, s: Sched) {
    forall w, obs, again :: !LeavesWork(p, w, s, obs, again)
  }

  /** Nothing is being swapped, x serves a request, and t and u are queued. */
  function TwoQueued(t: string, u: string, x: string): Sched {
    Sched(map[], Up(Up(Up(map[], x), t), u), map[x := 1], [Req(1, t), Req(2, u)],
          map[0 := Serving(x), 1 := Pending, 2 := Pending], 3)
  }

  function Idle(live: set<string>): Obs {
    Obs(true, Stopped, live, false)
  }

  /** t waits for x, u starts, and then t could start as well. */
  lemma SparingLeavesWork(p: Params, t: string, u: string, live: set<string>, x: string)
    requires t != u && !SparesOne(p.plan, t, u, live, x)
    ensures !IsFinal(p, TwoQueued(t, u, x))
  {
    var s := TwoQueued(t, u, x);
    var w := World({t, u}, map[t := Stopped, u := Stopped], live);
    FirstPass(p, t, u, live, x);
    SecondPass(p, t, u, live, x);
    assert LeavesWork(p, w, s, [Idle(live), Idle(live)], [Idle(live)]);
  }

  /** The tables after the first pass. */
  ghost function Passed(p: Params, t: string, u: string, live: set<string>, x: string): Sched {
    Start(TwoQueued(t, u, x).(queued := [Req(1, t)]), Req(2, u), p.plan(u, Listing(live)))
  }

  lemma FirstPass(p: Params, t: string, u: string, live: set<string>, x: string)
    requires t != u && !SparesOne(p.plan, t, u, live, x)
    ensures DrainQueue(p, TwoQueued(t, u, x), [Idle(live), Idle(live)]) == Passed(p, t, u, live, x)
  {
    var s, obs := TwoQueued(t, u, x), [Idle(live), Idle(live)];
    assert live + (s.active.Keys - {t}) == live && live + (s.active.Keys - {u}) == live;
    var start := s.(queued := []);
    assert Get(s.inFlight, x) > 0;
    assert Decide(p, start, t, obs[0]) == Wait;
    assert Drain(p, s, s.queued, obs, 1) == s.(queued := [Req(1, t)]);
    assert Decide(p, s.(queued := [Req(1, t)]), u, obs[1]) == Begin(p.plan(u, Listing(live)));
  }

  lemma SecondPass(p: Params, t: string, u: string, live: set<string>, x: string)
    requires t != u && !SparesOne(p.plan, t, u, live, x)
    ensures t in DrainQueue(p, Passed(p, t, u, live, x), [Idle(live)]).active && t !in Passed(p, t, u, live, x).active
  {
    var s := Passed(p, t, u, live, x);
    var start := s.(queued := []);
    var e, after := p.plan(u, Listing(live)), p.plan(t, Listing(live + {u}));
    assert live + (s.active.Keys - {t}) == live + {u};
    assert !Collides(t, after, s.active) && !Busy(after, s.inFlight);
    assert Decide(p, start, t, Idle(live)) == Begin(after);
    assert Drain(p, s, s.queued, [Idle(live)], 0) == start;
  }

  /** A drain is final from every state exactly if the planner spares nothing. */
  lemma DrainIsFinalExactly(p: Params)
    ensures (forall s :: IsFinal(p, s)) <==> Spares(p.plan)
  {
    if Spares(p.plan) {
      forall s, w, obs, again
        ensures !LeavesWork(p, w, s, obs, again)
      {
        SparingTurnsLeaveNoWork(p, w, s, obs, again);
      }
    } else {
      var t, u, live, x :| t != u && !SparesOne(p.plan, t, u, live, x);
      SparingLeavesWork(p, t, u, live, x);
    }
  }

  // ---- Exactly when, from the states that the scheduler keeps ----

  /** The planner spares nothing of a model that can be queued before another one. A model that
      is busy and queued as well has more than one slot. */
  ghost predicate SparesInOrder(p: Params) {
    forall t, u, live, x |
      && t != u && Get(p.priority, t) >= Get(p.priority, u)
      && (x == t || x == u ==> Limit(p, x) > 1) :: SparesOne(p.plan, t, u, live, x)
  }

  lemma {:induction false} CountHas(xs: seq<Req>, q: Req)
    requires q in xs
    ensures Count(xs, q.model) > 0
  {
    if q in xs[..|xs| - 1] {
      CountHas(xs[..|xs| - 1], q);
    }
  }

  lemma {:induction false} DrainedWerePending(p: Params, s: Sched, pending: seq<Req>, obs: seq<Obs>, k: nat, q: Req)
    requires k <= |pending| && q in Drain(p, s, pending, obs, k).queued
    ensures exists i :: 0 <= i < k && pending[i] == q
  {
    if k > 0 {
      DrainOneQueue(p, Drain(p, s, pending, obs, k - 1), pending[k - 1], Look(obs, k - 1));
      if q in Drain(p, s, pending, obs, k - 1).queued {
        DrainedWerePending(p, s, pending, obs, k - 1, q);
      }
    }
  }

  lemma BusyAndHeld(p: Params, s: Sched, hand: seq<Req>, x: string)
    requires Slots(p, s, hand) && Get(s.inFlight, x) > 0 && Count(s.queued, x) + Count(hand, x) > 0
    ensures Limit(p, x) > 1
  {
    assert SlotsOf(p, s, hand, x);
  }

  lemma TurnSparesInOrder(p: Params, w: World, s: Sched, obs: seq<Obs>, k: nat)
    requires Inv(p, s) && SparesInOrder(p) && k < |s.queued|
    ensures TurnSpares(p, w, s, s.queued, obs, k)
  {
    var pending := s.queued;
    var before, r := Drain(p, s, pending, obs, k), pending[k];
    TakeQueueInHand(p, s);
    DrainCarries(p, s, pending, obs, k);
    forall q | q in before.queued && q.model != r.model
      ensures StartSpares(p, before, w.live, q.model, r.model)
    {
      DrainedWerePending(p, s, pending, obs, k, q);
      var i :| 0 <= i < k && pending[i] == q;
      assert Before(p, pending[i], r);
      CountHas(before.queued, q);
      assert pending[k..][0] == r;
      CountHas(pending[k..], r);
      StartSparesHeld(p, before, pending[k..], w.live, q.model, r.model);
    }
  }

  lemma StartSparesHeld(p: Params, s: Sched, hand: seq<Req>, live: set<string>, t: string, u: string)
    requires SparesInOrder(p) && Slots(p, s, hand) && t != u && Get(p.priority, t) >= Get(p.priority, u)
    requires Count(s.queued, t) > 0 && Count(hand, u) > 0
    ensures StartSpares(p, s, live, t, u)
  {
    forall x | Get(s.inFlight, x) > 0 || (x != t && x != u)
      ensures SparesOne(p.plan, t, u, live + s.active.Keys, x)
    {
      if x == t || x == u {
        BusyAndHeld(p, s, hand, x);
      }
    }
  }

  lemma TwoQueuedSlots(p: Params, t: string, u: string, x: string)
    requires t != u && (forall m :: Limit(p, m) > 0) && (x == t || x == u ==> Limit(p, x) > 1)
    ensures Slots(p, TwoQueued(t, u, x), [])
  {
    var s := TwoQueued(t, u, x);
    forall m
      ensures SlotsOf(p, s, [], m)
    {
      assert s.queued == [Req(1, t)] + [Req(2, u)];
      CountCons(Req(1, t), [Req(2, u)], m);
      CountOne(Req(2, u), m);
    }
  }

  lemma TwoQueuedPlaces(t: string, u: string, x: string)
    ensures Places(TwoQueued(t, u, x), [], Pending)
  {
    var s := TwoQueued(t, u, x);
    assert s.queued[0] in s.queued && s.queued[1] in s.queued;
    assert Ids(s.queued) == {1, 2};
  }

  lemma TwoQueuedInv(p: Params, t: string, u: string, x: string)
    requires t != u && (forall m :: Limit(p, m) > 0) && (x == t || x == u ==> Limit(p, x) > 1)
    requires Get(p.priority, t) >= Get(p.priority, u)
    ensures Inv(p, TwoQueued(t, u, x))
  {
    TwoQueuedSlots(p, t, u, x);
    TwoQueuedPlaces(t, u, x);
  }

  /** With the limits that the scheduler's constructor sees to, a drain is final from every state
      that satisfies the invariant exactly if the planner spares nothing of a model with at least
      the priority of the one that starts. */
  lemma DrainIsFinalExactlyInOrder(p: Params)
    requires forall m :: Limit(p, m) > 0
    ensures (forall s | Inv(p, s) :: IsFinal(p, s)) <==> SparesInOrder(p)
  {
    if SparesInOrder(p) {
      forall s, w, obs, again | Inv(p, s)
        ensures !LeavesWork(p, w, s, obs, again)
      {
        forall k | 0 <= k < |s.queued|
          ensures TurnSpares(p, w, s, s.queued, obs, k)
        {
          TurnSparesInOrder(p, w, s, obs, k);
        }
        SparingTurnsLeaveNoWork(p, w, s, obs, again);
      }
    } else {
      var t, u, live, x :| t != u && Get(p.priority, t) >= Get(p.priority, u)
        && (x == t || x == u ==> Limit(p, x) > 1) && !SparesOne(p.plan, t, u, live, x);
      TwoQueuedInv(p, t, u, x);
      SparingLeavesWork(p, t, u, live, x);
    }
  }
}
