/** What each event does, said of the tables and the record of places alone: for every request,
    where it ends up and why there and nowhere else. */
module SchedulerOutcomes {
  import opened Names
  import opened ProcessState
  import opened Scheduler
  import opened SchedulerSafety
  import opened SchedulerRuns
  import opened SchedulerLaws

  // ---- What a model's swap would disturb ----

  /** It would stop another swap's target, be stopped by another, or stop a model that another one
      stops. */
  ghost predicate WouldCollide(s: Sched, m: string, evict: seq<string>) {
    exists id :: id in s.active && id != m &&
                 (id in evict || m in s.active[id].evict || exists x :: x in evict && x in s.active[id].evict)
  }

  ghost predicate WouldStopBusy(s: Sched, evict: seq<string>) {
    exists x :: x in evict && x in s.inFlight && s.inFlight[x] > 0
  }

  /** What the planner is told is running: live models and other swaps' targets, sorted, once each. */
  ghost predicate IsRunningList(s: Sched, m: string, live: set<string>, running: seq<string>) {
    Lists(running, live + (s.active.Keys - {m}))
  }

  // ---- Where a request in hand goes ----

  ghost predicate OthersKept(s: Sched, t: Sched, id: nat) {
    t.place.Keys == s.place.Keys + {id} && forall x | x in s.place && x != id :: t.place[x] == s.place[x]
  }

  ghost predicate GoesTo(s: Sched, t: Sched, id: nat, to: Place) {
    OthersKept(s, t, id) && t.place[id] == to
  }

  /** It is answered: nothing else changes. */
  ghost predicate Ends(s: Sched, t: Sched, r: Req, to: Place) {
    GoesTo(s, t, r.id, to) && t.active == s.active && t.queued == s.queued && t.inFlight == s.inFlight
  }

  /** It is served, and counted. */
  ghost predicate IsServed(s: Sched, t: Sched, r: Req) {
    && GoesTo(s, t, r.id, Serving(r.model)) && t.active == s.active && t.queued == s.queued
    && t.inFlight == s.inFlight[r.model := (if r.model in s.inFlight then s.inFlight[r.model] else 0) + 1]
  }

  /** It waits with those who wait for the swap of its model, as the last. */
  ghost predicate Joins(s: Sched, t: Sched, r: Req) {
    && r.model in s.active && GoesTo(s, t, r.id, Waiting(r.model)) && t.queued == s.queued && t.inFlight == s.inFlight
    && t.active.Keys == s.active.Keys
    && (forall n | n in s.active && n != r.model :: t.active[n] == s.active[n])
    && t.active[r.model] == Swap(s.active[r.model].modelID, s.active[r.model].evict, s.active[r.model].waiters + [r])
  }

  /** A swap of its model begins, for it alone. */
  ghost predicate Begins(s: Sched, t: Sched, r: Req, evict: seq<string>) {
    && GoesTo(s, t, r.id, Waiting(r.model)) && t.queued == s.queued && t.inFlight == s.inFlight
    && t.active == s.active[r.model := Swap(r.model, evict, [r])]
  }

  /** It is put somewhere into the queue. */
  ghost predicate Waits(s: Sched, t: Sched, r: Req) {
    && GoesTo(s, t, r.id, Pending) && t.active == s.active && t.inFlight == s.inFlight
    && exists k :: 0 <= k <= |s.queued| && t.queued == s.queued[..k] + [r] + s.queued[k..]
  }

  /** A request that was let in goes where what was seen says: to the swap of its model if there
      is one; to its model if that is ready and nothing has to be stopped or collides; into the
      queue if its swap would collide or stop a busy model; and otherwise its swap begins. */
  ghost predicate Meets(p: Params, s: Sched, r: Req, o: Obs, running: seq<string>, t: Sched) {
    var evict := p.plan(r.model, running);
    if r.model in s.active then Joins(s, t, r)
    else if o.state == Ready && evict == [] && !WouldCollide(s, r.model, evict) then
      if o.granted then IsServed(s, t, r) else Ends(s, t, r, Gone)
    else if WouldCollide(s, r.model, evict) || WouldStopBusy(s, evict) then Waits(s, t, r)
    else Begins(s, t, r, evict)
  }

  lemma SameReasons(s: Sched, m: string, evict: seq<string>)
    ensures WouldCollide(s, m, evict) <==> Collides(m, evict, s.active)
    ensures WouldStopBusy(s, evict) <==> Busy(evict, s.inFlight)
  {
    if WouldCollide(s, m, evict) {
      var id :| id in s.active && id != m &&
                (id in evict || m in s.active[id].evict || exists x :: x in evict && x in s.active[id].evict);
      assert CollidesWith(m, evict, id, s.active[id].evict);
    }
    if WouldStopBusy(s, evict) {
      var x :| x in evict && x in s.inFlight && s.inFlight[x] > 0;
      assert Get(s.inFlight, x) > 0;
    }
  }

  lemma TheRunningList(s: Sched, m: string, live: set<string>, running: seq<string>)
    requires IsRunningList(s, m, live, running)
    ensures RunningSet(s.active, live, m) == running
  {
    ListsUnique(running, RunningSet(s.active, live, m), live + (s.active.Keys - {m}));
  }

  // ---- A request arrives ----

  /** A request that arrives is refused if its model is unknown or has no slot left, forgotten if
      its caller has left, and else goes where what was seen says. */
  lemma ArrivalExactly(p: Params, s: Sched, r: Req, admitted: bool, o: Obs, running: seq<string>)
    requires Places(s, [], Pending) && r.id >= s.seen && IsRunningList(s, r.model, o.live, running)
    ensures var t := Step(p, s, Request(r, admitted, o));
      var taken := if r.model in s.reserved then s.reserved[r.model] else 0;
      var limit := if r.model in p.limits then p.limits[r.model] else 10;
      if !o.known || taken >= limit then Ends(s, t, r, Rejected)
      else if !admitted then Ends(s, t, r, Gone)
      else Meets(p, s, r, o, running, t)
  {
    assert r.id !in s.place;
    if o.known && Get(s.reserved, r.model) < Limit(p, r.model) && admitted {
      ArrivalMeets(p, s, r, o, running);
    }
  }

  lemma ArrivalMeets(p: Params, s: Sched, r: Req, o: Obs, running: seq<string>)
    requires o.known && Get(s.reserved, r.model) < Limit(p, r.model)
    requires r.id !in s.place && IsRunningList(s, r.model, o.live, running)
    ensures Meets(p, s, r, o, running, OnRequest(p, s, r, true, o))
  {
    var evict := p.plan(r.model, running);
    var s1 := s.(seen := r.id + 1, reserved := Up(s.reserved, r.model));
    TheRunningList(s, r.model, o.live, running);
    SameReasons(s, r.model, evict);
    if r.model in s.active {
      JoinJoins(s, s1, r);
    } else {
      match Decide(p, s1, r.model, o)
      case Serve => GrantServes(s, s1, r, o.granted);
      case Wait => EnqueueWaits(p, s, s1, r);
      case Begin(_) => StartBegins(s, s1, r, evict);
    }
  }

  /** An arriving request waits for a reason: it is put into the queue only if, by what was seen,
      its swap would collide with another or would stop a model with requests in flight. One that
      was let in and neither served nor dropped nor queued waits for a swap of its own model. */
  lemma EveryWaitHasItsReason(p: Params, s: Sched, r: Req, admitted: bool, o: Obs, running: seq<string>)
    requires Places(s, [], Pending) && r.id >= s.seen && IsRunningList(s, r.model, o.live, running)
    ensures var t := Step(p, s, Request(r, admitted, o)); var evict := p.plan(r.model, running);
      && r.id in t.place
      && (r in t.queued ==> r.model !in s.active && (WouldCollide(s, r.model, evict) || WouldStopBusy(s, evict)))
      && (t.place[r.id] !in {Rejected, Gone, Serving(r.model)} && r !in t.queued ==>
            r.model in t.active && r in t.active[r.model].waiters)
  {
    ArrivalExactly(p, s, r, admitted, o, running);
    forall q | q in s.queued
      ensures q.id < s.seen
    {
      assert q.id in Ids(s.queued);
    }
  }

  /** s1 is s but for the slots and the numbers given out. */
  ghost predicate SameTables(s: Sched, s1: Sched) {
    s1.active == s.active && s1.queued == s.queued && s1.inFlight == s.inFlight && s1.place == s.place
  }

  lemma JoinJoins(s: Sched, s1: Sched, r: Req)
    requires SameTables(s, s1) && r.model in s.active
    ensures Joins(s, Join(s1, r), r)
  {
  }

  lemma GrantServes(s: Sched, s1: Sched, r: Req, granted: bool)
    requires SameTables(s, s1)
    ensures if granted then IsServed(s, Grant(s1, r, granted), r) else Ends(s, Grant(s1, r, granted), r, Gone)
  {
  }

  lemma StartBegins(s: Sched, s1: Sched, r: Req, evict: seq<string>)
    requires SameTables(s, s1)
    ensures Begins(s, Start(s1, r, evict), r, evict)
  {
  }

  lemma EnqueueWaits(p: Params, s: Sched, s1: Sched, r: Req)
    requires SameTables(s, s1)
    ensures Waits(s, Enqueue(p, s1, r), r)
  {
    var k := QueuePlace(p, s.queued, r.model);
    assert Enqueue(p, s1, r).queued == s.queued[..k] + [r] + s.queued[k..];
  }

  // ---- The queue is drained ----

  /** In its turn a request whose model is unknown fails, and any other goes where what was seen
      says; one that is put back comes behind those that were put back before. */
  ghost predicate TurnMeets(p: Params, s: Sched, r: Req, o: Obs, t: Sched) {
    if !o.known then Ends(s, t, r, Failed)
    else forall running | IsRunningList(s, r.model, o.live, running) ::
           Meets(p, s, r, o, running, t) && (t.queued == s.queued || t.queued == s.queued + [r])
  }

  lemma TurnExactly(p: Params, s: Sched, r: Req, o: Obs)
    requires r.id in s.place && s.place[r.id] == Pending
    ensures TurnMeets(p, s, r, o, DrainOne(p, s, r, o))
  {
    if o.known {
      forall running | IsRunningList(s, r.model, o.live, running)
        ensures Meets(p, s, r, o, running, DrainOne(p, s, r, o))
      {
        TurnMeetsList(p, s, r, o, running);
      }
      DrainOneQueue(p, s, r, o);
    }
  }

  lemma TurnMeetsList(p: Params, s: Sched, r: Req, o: Obs, running: seq<string>)
    requires r.id in s.place && s.place[r.id] == Pending && o.known && IsRunningList(s, r.model, o.live, running)
    ensures Meets(p, s, r, o, running, DrainOne(p, s, r, o))
  {
    var evict := p.plan(r.model, running);
    TheRunningList(s, r.model, o.live, running);
    SameReasons(s, r.model, evict);
    if r.model in s.active {
      JoinJoins(s, s, r);
    } else {
      match Decide(p, s, r.model, o)
      case Serve => GrantServes(s, s, r, o.granted);
      case Wait => PutBackWaits(s, r);
      case Begin(_) => StartBegins(s, s, r, evict);
    }
  }

  lemma PutBackWaits(s: Sched, r: Req)
    requires r.id in s.place && s.place[r.id] == Pending
    ensures Waits(s, s.(queued := s.queued + [r]), r)
  {
    assert s.queued[..|s.queued|] + [r] + s.queued[|s.queued|..] == s.queued + [r];
  }

  /** What turn k of a drain sees; one that the list does not cover sees nothing. */
  function Sight(obs: seq<Obs>, k: nat): Obs {
    if k < |obs| then obs[k] else Obs(false, Stopped, {}, false)
  }

  ghost predicate TurnAt(p: Params, s: Sched, obs: seq<Obs>, states: seq<Sched>, k: nat) {
    k < |s.queued| && k + 1 < |states| && TurnMeets(p, states[k], s.queued[k], Sight(obs, k), states[k + 1])
  }

  /** The requests of the queue get their turns one after another, each once and in order. */
  ghost predicate Turns(p: Params, s: Sched, obs: seq<Obs>, states: seq<Sched>) {
    && |states| == |s.queued| + 1 && states[0] == s.(queued := [])
    && forall k | 0 <= k < |s.queued| :: TurnAt(p, s, obs, states, k)
  }

  ghost predicate DrainMeets(p: Params, s: Sched, obs: seq<Obs>, t: Sched) {
    exists states: seq<Sched> :: Turns(p, s, obs, states) && states[|s.queued|] == t
  }

  ghost function Stages(p: Params, s: Sched, obs: seq<Obs>): (states: seq<Sched>)
    ensures |states| == |s.queued| + 1
  {
    seq(|s.queued| + 1, k requires 0 <= k <= |s.queued| => Drain(p, s, s.queued, obs, k))
  }

  lemma StageIsTurn(p: Params, s: Sched, obs: seq<Obs>, k: nat)
    requires Carrying(p, s.(queued := []), s.queued) && k < |s.queued|
    ensures TurnAt(p, s, obs, Stages(p, s, obs), k)
  {
    var before := Drain(p, s, s.queued, obs, k);
    DrainCarries(p, s, s.queued, obs, k);
    assert s.queued[k..][0] == s.queued[k];
    InHandIsPending(before, s.queued[k..]);
    TurnExactly(p, before, s.queued[k], Sight(obs, k));
  }

  lemma InHandIsPending(s: Sched, hand: seq<Req>)
    requires Places(s, hand, Pending) && hand != []
    ensures hand[0].id in s.place && s.place[hand[0].id] == Pending
  {
    assert hand[0].id in Ids(hand);
  }

  /** A drain is a turn for each request of the queue. */
  lemma DrainExactly(p: Params, s: Sched, obs: seq<Obs>)
    requires Carrying(p, s, [])
    ensures DrainMeets(p, s, obs, DrainQueue(p, s, obs))
  {
    TakeQueueInHand(p, s);
    var states := Stages(p, s, obs);
    forall k | 0 <= k < |s.queued|
      ensures TurnAt(p, s, obs, states, k)
    {
      StageIsTurn(p, s, obs, k);
    }
    assert Turns(p, s, obs, states);
  }

  // ---- A swap reports ----

  function Granted(grants: seq<bool>, n: nat): nat {
    if n == 0 then 0 else Granted(grants, n - 1) + if n - 1 < |grants| && grants[n - 1] then 1 else 0
  }

  /** How a waiter of a finished swap ends. */
  function Answered(m: string, ok: bool, grants: seq<bool>, i: nat): Place {
    if !ok then Failed else if i < |grants| && grants[i] then Serving(m) else Gone
  }

  /** The first k of these waiters have their answers; nothing else happened to the tables. */
  ghost predicate Settled(s: Sched, t: Sched, ws: seq<Req>, m: string, ok: bool, grants: seq<bool>, k: nat) {
    && k <= |ws| && t.active == s.active && t.queued == s.queued
    && (forall i | 0 <= i < k :: ws[i].id in t.place && t.place[ws[i].id] == Answered(m, ok, grants, i))
    && (forall id | id in s.place && id !in Ids(ws[..k]) :: id in t.place && t.place[id] == s.place[id])
    && (forall n :: Get(t.inFlight, n) == Get(s.inFlight, n) + if n == m && ok then Granted(grants, k) else 0)
  }

  lemma {:induction false} SettleExactly(s: Sched, ws: seq<Req>, m: string, ok: bool, grants: seq<bool>, k: nat)
    requires Distinct(ws) && (forall w | w in ws :: w.model == m) && k <= |ws|
    ensures Settled(s, Settle(s, ws, ok, grants, k), ws, m, ok, grants, k)
  {
    if k > 0 {
      SettleExactly(s, ws, m, ok, grants, k - 1);
      var before, w := Settle(s, ws, ok, grants, k - 1), ws[k - 1];
      assert w in ws;
      SettledNext(s, before, ws, m, ok, grants, k);
    }
  }

  lemma SettledNext(s: Sched, before: Sched, ws: seq<Req>, m: string, ok: bool, grants: seq<bool>, k: nat)
    requires 0 < k <= |ws| && Distinct(ws) && Settled(s, before, ws, m, ok, grants, k - 1) && ws[k - 1].model == m
    ensures var w, granted := ws[k - 1], k - 1 < |grants| && grants[k - 1];
      Settled(s, if ok then Grant(before, w, granted) else Leave(before, w, Failed), ws, m, ok, grants, k)
  {
    var w, granted := ws[k - 1], k - 1 < |grants| && grants[k - 1];
    var t := if ok then Grant(before, w, granted) else Leave(before, w, Failed);
    SettledPlaces(s, before, t, ws, m, ok, grants, k);
    SettledCounts(s, before, t, m, ok, granted, Granted(grants, k - 1));
  }

  lemma SettledPlaces(s: Sched, before: Sched, t: Sched, ws: seq<Req>, m: string, ok: bool, grants: seq<bool>, k: nat)
    requires 0 < k <= |ws| && Distinct(ws) && Settled(s, before, ws, m, ok, grants, k - 1)
    requires t.place == before.place[ws[k - 1].id := Answered(m, ok, grants, k - 1)]
    ensures forall i | 0 <= i < k :: ws[i].id in t.place && t.place[ws[i].id] == Answered(m, ok, grants, i)
    ensures forall id | id in s.place && id !in Ids(ws[..k]) :: id in t.place && t.place[id] == s.place[id]
  {
    var w := ws[k - 1];
    assert ws[..k] == ws[..k - 1] + [w];
    IdsConcat(ws[..k - 1], [w]);
    IdsOne(w);
    forall i | 0 <= i < k
      ensures ws[i].id in t.place && t.place[ws[i].id] == Answered(m, ok, grants, i)
    {
      assert i < k - 1 ==> ws[i].id != w.id;
    }
  }

  lemma SettledCounts(s: Sched, before: Sched, t: Sched, m: string, ok: bool, granted: bool, n: nat)
    requires forall x :: Get(before.inFlight, x) == Get(s.inFlight, x) + if x == m && ok then n else 0
    requires t.inFlight == if ok && granted then Up(before.inFlight, m) else before.inFlight
    ensures forall x :: Get(t.inFlight, x) == Get(s.inFlight, x) + if x == m && ok then n + (if granted then 1 else 0) else 0
  {
    forall x
      ensures Get(t.inFlight, x) == Get(before.inFlight, x) + if x == m && ok && granted then 1 else 0
    {
    }
  }

  /** When a swap reports, those who waited for it get their answers in turn, the swap is taken off
      the table, and then the queue is drained. A report that no swap in the table belongs to is
      ignored. */
  lemma SwapDoneExactly(p: Params, s: Sched, m: string, ok: bool, grants: seq<bool>, obs: seq<Obs>)
    requires Inv(p, s)
    ensures var t := Step(p, s, SwapDone(m, ok, grants, obs));
      if m !in s.active then t == s
      else exists u :: Settled(s.(active := s.active - {m}), u, s.active[m].waiters, m, ok, grants, |s.active[m].waiters|)
                       && DrainMeets(p, u, obs, t)
  {
    if m in s.active {
      var ws, s1 := s.active[m].waiters, s.(active := s.active - {m});
      TakeSwap(p, s, m);
      SettleKeeps(p, s1, ws, m, ok, grants, |ws|);
      assert ws[|ws|..] == [];
      var u := Settle(s1, ws, ok, grants, |ws|);
      SettledCarries(p, u, m);
      SettleExactly(s1, ws, m, ok, grants, |ws|);
      DrainExactly(p, u, obs);
    }
  }

  // ---- A request was served ----

  /** One request fewer of m is in flight. */
  ghost predicate Reported(s: Sched, t: Sched, m: string) {
    && t.active == s.active && t.queued == s.queued && t.place == s.place
    && forall n :: Get(t.inFlight, n) == Get(s.inFlight, n) - if n == m then 1 else 0
  }

  /** The end of a request is counted; the queue is drained when it was the model's last, and only
      then. */
  lemma ServeDoneExactly(p: Params, s: Sched, m: string, obs: seq<Obs>)
    requires Inv(p, s) && Get(s.inFlight, m) > 0
    ensures var t := Step(p, s, ServeDone(m, obs));
      exists u :: Reported(s, u, m) && if Get(s.inFlight, m) > 1 then t == u else DrainMeets(p, u, obs, t)
  {
    var u := Served(s, m);
    ServedCarries(p, s, m);
    assert Reported(s, u, m);
    DrainExactly(p, u, obs);
  }

  // ---- A caller left ----

  /** The request is gone from the one list that held it, and nothing else changed. */
  ghost predicate Forgotten(s: Sched, t: Sched, id: nat) {
    && GoesTo(s, t, id, Gone) && t.inFlight == s.inFlight && t.active.Keys == s.active.Keys
    && TakenFrom(s.queued, t.queued, id)
    && forall n | n in s.active :: LeftSwap(s.active[n], t.active[n], id)
  }

  ghost predicate LeftSwap(before: Swap, after: Swap, id: nat) {
    after.modelID == before.modelID && after.evict == before.evict && TakenFrom(before.waiters, after.waiters, id)
  }

  /** A request that is held is taken out of the one list that holds it and forgotten; nothing else
      changes. One that is held nowhere changes nothing. */
  lemma CancelExactly(p: Params, s: Sched, r: Req)
    requires Inv(p, s)
    ensures var t := Step(p, s, Cancel(r));
      if Holds(s, r.id) then Forgotten(s, t, r.id) else t == s
  {
    if q :| q in s.queued && q.id == r.id {
      CancelForgetsQueued(s, r, q);
    } else if m :| m in s.active && r.id in Ids(s.active[m].waiters) {
      OnlyOneSwap(s, m, r.id);
      CancelForgetsWaiter(s, r, m);
    }
  }

  lemma CancelForgetsQueued(s: Sched, r: Req, q: Req)
    requires Places(s, [], Pending) && q in s.queued && q.id == r.id
    ensures Holds(s, r.id) && Forgotten(s, OnCancel(s, r), r.id)
  {
    assert q.id in Ids(s.queued);
    OnlyOne(s.queued, q, r.id);
    WithoutTakes(s.queued, r.id);
    forall n | n in s.active
      ensures LeftSwap(s.active[n], s.active[n], r.id)
    {
      assert r.id !in Ids(s.active[n].waiters);
      NothingTaken(s.active[n].waiters, r.id);
    }
  }

  lemma CancelForgetsWaiter(s: Sched, r: Req, m: string)
    requires Places(s, [], Pending) && m in s.active && r.id in Ids(s.active[m].waiters)
    requires forall q | q in s.queued :: q.id != r.id
    requires forall n | n in s.active && r.id in Ids(s.active[n].waiters) :: n == m
    ensures Holds(s, r.id) && Forgotten(s, OnCancel(s, r), r.id)
  {
    var t := OnCancel(s, r);
    NothingTaken(s.queued, r.id);
    forall n | n in s.active
      ensures LeftSwap(s.active[n], t.active[n], r.id)
    {
      if n == m {
        WithoutTakes(s.active[m].waiters, r.id);
      } else {
        assert r.id !in Ids(s.active[n].waiters);
        NothingTaken(s.active[n].waiters, r.id);
      }
    }
  }

  /** after is before without the request of this identity, in the same order. */
  ghost predicate TakenFrom(before: seq<Req>, after: seq<Req>, id: nat) {
    Subsequence(after, before) && forall x :: x in after <==> x in before && x.id != id
  }

  lemma WithoutTakes(xs: seq<Req>, id: nat)
    ensures TakenFrom(xs, Without(xs, id), id)
  {
    WithoutIsSubsequence(xs, id);
  }

  lemma NothingTaken(xs: seq<Req>, id: nat)
    requires forall x | x in xs :: x.id != id
    ensures TakenFrom(xs, xs, id)
  {
    SubsequenceOfSelf(xs);
  }

  // ---- Models are unloaded ----

  /** What was held for the targets is answered with an error and gone, and so are their swaps. */
  ghost predicate Unloaded(s: Sched, t: Sched, targets: set<string>) {
    && t.inFlight == s.inFlight
    && (forall n :: n in t.active <==> n in s.active && n !in targets)
    && (forall n | n in t.active :: t.active[n] == s.active[n])
    && Subsequence(t.queued, s.queued) && (forall x :: x in t.queued <==> x in s.queued && x.model !in targets)
    && t.place.Keys == s.place.Keys
    && forall id | id in s.place ::
         t.place[id] ==
         if (exists r :: r in s.queued && r.id == id && r.model in targets) || (s.place[id].Waiting? && s.place[id].model in targets)
         then Failed else s.place[id]
  }

  lemma UnloadExactly(p: Params, s: Sched, targets: set<string>, obs: seq<Obs>)
    requires Inv(p, s)
    ensures var t := Step(p, s, Unload(targets, obs));
      exists u :: Unloaded(s, u, targets) && DrainMeets(p, u, obs, t)
  {
    var u := Drop(s, targets);
    DropCarries(p, s, targets);
    NotForIsSubsequence(s.queued, targets);
    DropExactly(s, targets);
    DrainExactly(p, u, obs);
  }

  lemma DropExactly(s: Sched, targets: set<string>)
    requires Places(s, [], Pending)
    ensures Unloaded(s, Drop(s, targets), targets)
  {
    NotForIsSubsequence(s.queued, targets);
    DroppedIds(s, targets);
    assert Drop(s, targets).place.Keys == s.place.Keys;
    forall id | id in s.place
      ensures id in Dropped(s, targets) <==>
              (exists r :: r in s.queued && r.id == id && r.model in targets)
              || (s.place[id].Waiting? && s.place[id].model in targets)
    {
      DroppedExactly(s, targets, id);
    }
  }

  lemma DroppedExactly(s: Sched, targets: set<string>, id: nat)
    requires Places(s, [], Pending) && id in s.place
    ensures id in Dropped(s, targets) <==>
            (exists r :: r in s.queued && r.id == id && r.model in targets)
            || (s.place[id].Waiting? && s.place[id].model in targets)
  {
    if id in Dropped(s, targets) {
      if !(exists r :: r in s.queued && r.id == id && r.model in targets) {
        var m, w :| m in targets && m in s.active && w in s.active[m].waiters && w.id == id;
        assert id in Ids(s.active[m].waiters);
      }
    }
    if s.place[id].Waiting? && s.place[id].model in targets {
      assert id !in Ids([]);
      var w :| w in s.active[s.place[id].model].waiters && w.id == id;
    }
  }
}
