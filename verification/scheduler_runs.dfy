/** The scheduler's invariant over whole runs: swap completion, serve completion, cancellation,
    unload, and the main theorems. */
module SchedulerRuns {
  import opened Scheduler
  import opened SchedulerSafety

  // ---- A swap is done ----

  /** The waiters of a swap that was taken off the table, still to be answered. */
  ghost predicate Settling(p: Params, s: Sched, hand: seq<Req>, m: string) {
    && Slots(p, s, hand) && Manned(s) && Peaceful(p, s) && Places(s, hand, Waiting(m))
    && m !in s.active && (PlansWell(p.plan) ==> Spared(s, m))
    && forall w | w in hand :: w.model == m
  }

  lemma TakeSwap(p: Params, s: Sched, m: string)
    requires Carrying(p, s, []) && m in s.active
    ensures Settling(p, s.(active := s.active - {m}), s.active[m].waiters, m)
  {
    var t := s.(active := s.active - {m});
    TakeSwapSlots(p, s, m);
    TakeSwapPlaces(s, m);
    if PlansWell(p.plan) {
      FewerSwaps(s, t);
      forall n | n in t.active
        ensures m !in t.active[n].evict
      {
        assert Apart(s, n, m);
      }
    }
  }

  lemma TakeSwapSlots(p: Params, s: Sched, m: string)
    requires Slots(p, s, []) && m in s.active && Manned(s)
    ensures Slots(p, s.(active := s.active - {m}), s.active[m].waiters)
  {
    var hand := s.active[m].waiters;
    forall n
      ensures SlotsOf(p, s.(active := s.active - {m}), hand, n)
    {
      assert SlotsOf(p, s, [], n);
      CountAllOneModel(hand, m, n);
    }
  }

  lemma TakeSwapPlaces(s: Sched, m: string)
    requires Places(s, [], Pending) && m in s.active
    ensures Places(s.(active := s.active - {m}), s.active[m].waiters, Waiting(m))
  {
    var hand := s.active[m].waiters;
    assert forall id | id in Ids(hand) :: s.place[id] == Waiting(m);
  }

  lemma FewerSwaps(s: Sched, t: Sched)
    requires Swaps(s) && t.inFlight == s.inFlight
    requires forall m | m in t.active :: m in s.active && t.active[m] == s.active[m]
    ensures Swaps(t)
  {
    forall m | m in t.active
      ensures SwapOk(t, m)
    {
      assert SwapOk(s, m);
    }
    forall m, n | m in t.active && n in t.active && m != n
      ensures Apart(t, m, n)
    {
      assert Apart(s, m, n);
    }
  }

  lemma SettleOne(p: Params, s: Sched, w: Req, rest: seq<Req>, m: string, ok: bool, granted: bool)
    requires Settling(p, s, [w] + rest, m)
    ensures Settling(p, if ok then Grant(s, w, granted) else Leave(s, w, Failed), rest, m)
  {
    var t := if ok then Grant(s, w, granted) else Leave(s, w, Failed);
    assert ([w] + rest)[0] == w && w.model == m;
    assert forall x | x in rest :: x in [w] + rest;
    var to := if ok then (if granted then Serving(w.model) else Gone) else Failed;
    if ok && granted {
      GrantSlots(p, s, w, rest, granted);
      if PlansWell(p.plan) {
        GrantSwaps(s, w, granted);
      }
    } else {
      LeaveSlots(p, s, w, rest, to);
      SamePeace(p, s, t);
    }
    AnswerPlaces(s, t, w, rest, Waiting(m), to);
  }

  lemma {:induction false} SettleKeeps(p: Params, s: Sched, waiters: seq<Req>, m: string, ok: bool, grants: seq<bool>, k: nat)
    requires Settling(p, s, waiters, m) && k <= |waiters|
    ensures Settling(p, Settle(s, waiters, ok, grants, k), waiters[k..], m)
    ensures Settle(s, waiters, ok, grants, k).queued == s.queued
  {
    if k == 0 {
      assert waiters[0..] == waiters;
    } else {
      SettleKeeps(p, s, waiters, m, ok, grants, k - 1);
      assert waiters[k - 1..] == [waiters[k - 1]] + waiters[k..];
      SettleOne(p, Settle(s, waiters, ok, grants, k - 1), waiters[k - 1], waiters[k..], m, ok,
                k - 1 < |grants| && grants[k - 1]);
    }
  }

  lemma SettledCarries(p: Params, s: Sched, m: string)
    requires Settling(p, s, [], m)
    ensures Carrying(p, s, [])
  {
  }

  lemma SwapDoneKeeps(p: Params, s: Sched, m: string, ok: bool, grants: seq<bool>, obs: seq<Obs>)
    requires Inv(p, s)
    ensures Inv(p, OnSwapDone(p, s, m, ok, grants, obs))
    ensures Subsequence(OnSwapDone(p, s, m, ok, grants, obs).queued, s.queued)
  {
    if m !in s.active {
      SubsequenceOfSelf(s.queued);
    } else {
      var waiters := s.active[m].waiters;
      var s1 := s.(active := s.active - {m});
      TakeSwap(p, s, m);
      SettleKeeps(p, s1, waiters, m, ok, grants, |waiters|);
      assert waiters[|waiters|..] == [];
      SettledCarries(p, Settle(s1, waiters, ok, grants, |waiters|), m);
      DrainQueueKeeps(p, Settle(s1, waiters, ok, grants, |waiters|), obs);
    }
  }

  lemma {:induction false} SubsequenceOfSelf<T(!new)>(xs: seq<T>)
    ensures Subsequence(xs, xs)
  {
    if xs != [] {
      SubsequenceOfSelf(xs[..|xs| - 1]);
    }
  }

  // ---- A request was served ----

  function Served(s: Sched, m: string): Sched {
    s.(inFlight := Down(s.inFlight, m), reserved := Down(s.reserved, m))
  }

  lemma ServedSlots(p: Params, s: Sched, m: string)
    requires Slots(p, s, []) && Get(s.inFlight, m) > 0
    ensures Slots(p, Served(s, m), [])
  {
    forall n
      ensures SlotsOf(p, Served(s, m), [], n)
    {
      assert SlotsOf(p, s, [], n);
      assert SlotsOf(p, s, [], m);
    }
  }

  lemma ServedCarries(p: Params, s: Sched, m: string)
    requires Carrying(p, s, []) && Get(s.inFlight, m) > 0
    ensures Carrying(p, Served(s, m), [])
  {
    ServedSlots(p, s, m);
    ServedPlaces(s, m);
    if PlansWell(p.plan) {
      ServedSwaps(s, m);
    }
  }

  lemma ServedSwaps(s: Sched, m: string)
    requires Swaps(s) && Get(s.inFlight, m) > 0
    ensures Swaps(Served(s, m))
  {
    forall n | n in Served(s, m).active
      ensures SwapOk(Served(s, m), n)
    {
      assert SwapOk(s, n);
    }
    forall a, b | a in s.active && b in s.active && a != b
      ensures Apart(Served(s, m), a, b)
    {
      assert Apart(s, a, b);
    }
  }

  lemma ServedPlaces(s: Sched, m: string)
    requires Places(s, [], Pending)
    ensures Places(Served(s, m), [], Pending)
  {
  }

  lemma ServeDoneKeeps(p: Params, s: Sched, m: string, obs: seq<Obs>)
    requires Inv(p, s) && Get(s.inFlight, m) > 0
    ensures Inv(p, OnServeDone(p, s, m, obs))
    ensures Subsequence(OnServeDone(p, s, m, obs).queued, s.queued)
  {
    var s1 := Served(s, m);
    ServedCarries(p, s, m);
    if Get(s1.inFlight, m) <= 0 {
      DrainQueueKeeps(p, s1, obs);
    } else {
      SubsequenceOfSelf(s.queued);
    }
  }

  // ---- A caller left ----

  /** Taking a held request out of its list leaves it in hand. */
  lemma CancelQueued(p: Params, s: Sched, q: Req)
    requires Carrying(p, s, []) && q in s.queued
    ensures Carrying(p, s.(queued := Without(s.queued, q.id)), [q])
  {
    var t := s.(queued := Without(s.queued, q.id));
    CancelQueuedSlots(p, s, q);
    SamePeace(p, s, t);
    CancelQueuedPlaces(s, q);
  }

  lemma CancelQueuedSlots(p: Params, s: Sched, q: Req)
    requires Slots(p, s, []) && Distinct(s.queued) && q in s.queued
    ensures Slots(p, s.(queued := Without(s.queued, q.id)), [q])
  {
    forall m
      ensures SlotsOf(p, s.(queued := Without(s.queued, q.id)), [q], m)
    {
      assert SlotsOf(p, s, [], m);
      CountWithout(s.queued, q, m);
      CountOne(q, m);
    }
  }

  lemma CancelQueuedPlaces(s: Sched, q: Req)
    requires Places(s, [], Pending) && q in s.queued
    ensures Places(s.(queued := Without(s.queued, q.id)), [q], Pending)
  {
    WithoutIsSubsequence(s.queued, q.id);
    SubsequenceDistinct(Without(s.queued, q.id), s.queued);
    IdsOne(q);
    assert q.id in Ids(s.queued);
    ShorterQueuePlaces(s, s.(queued := Without(s.queued, q.id)), q);
  }

  lemma ShorterQueuePlaces(s: Sched, t: Sched, q: Req)
    requires Places(s, [], Pending) && q.id in Ids(s.queued) && Ids([q]) == {q.id}
    requires t == s.(queued := t.queued) && Distinct(t.queued) && Ids(t.queued) == Ids(s.queued) - {q.id}
    ensures Places(t, [q], Pending)
  {
    assert s.place[q.id] == Pending;
  }

  /** The waiter w of the swap of m, taken out; it is recorded as pending while in hand. */
  function Unwait(s: Sched, m: string, w: Req): Sched
    requires m in s.active
  {
    var sw := s.active[m];
    s.(active := s.active[m := sw.(waiters := Without(sw.waiters, w.id))], place := s.place[w.id := Pending])
  }

  lemma UnwaitSlots(p: Params, s: Sched, m: string, w: Req)
    requires Slots(p, s, []) && m in s.active && Manned(s) && Distinct(s.active[m].waiters) && w in s.active[m].waiters
    ensures Slots(p, Unwait(s, m, w), [w])
  {
    var ws := s.active[m].waiters;
    WithoutIsSubsequence(ws, w.id);
    CountAllOneModel(ws, m, m);
    CountAllOneModel(Without(ws, w.id), m, m);
    CountWithout(ws, w, m);
    forall n
      ensures SlotsOf(p, Unwait(s, m, w), [w], n)
    {
      assert SlotsOf(p, s, [], n);
      CountOne(w, n);
    }
  }

  lemma UnwaitSwaps(s: Sched, m: string, w: Req)
    requires Swaps(s) && m in s.active
    ensures Swaps(Unwait(s, m, w))
  {
    var t := Unwait(s, m, w);
    forall n | n in t.active
      ensures SwapOk(t, n)
    {
      assert SwapOk(s, n);
    }
    forall a, b | a in t.active && b in t.active && a != b
      ensures Apart(t, a, b)
    {
      assert Apart(s, a, b);
    }
  }

  lemma UnwaitPlaces(s: Sched, m: string, w: Req)
    requires Places(s, [], Pending) && m in s.active && w in s.active[m].waiters
    ensures Places(Unwait(s, m, w), [w], Pending)
  {
    var ws := s.active[m].waiters;
    WithoutIsSubsequence(ws, w.id);
    SubsequenceDistinct(Without(ws, w.id), ws);
    IdsOne(w);
    assert w.id in Ids(ws);
    OnlyOneSwap(s, m, w.id);
    ShorterWaitersPlaces(s, Unwait(s, m, w), m, w);
  }

  /** t is s without the waiter w of the swap of m, which is in hand. */
  ghost predicate TakenOut(s: Sched, t: Sched, m: string, w: Req) {
    && t.queued == s.queued && t.seen == s.seen && t.place == s.place[w.id := Pending]
    && m in s.active && w.id in s.place && s.place[w.id] == Waiting(m)
    && t.active.Keys == s.active.Keys
    && forall n | n in t.active ::
         Distinct(t.active[n].waiters) && Ids(t.active[n].waiters) == Ids(s.active[n].waiters) - {w.id}
  }

  lemma ShorterWaitersPlaces(s: Sched, t: Sched, m: string, w: Req)
    requires Places(s, [], Pending) && m in s.active && w.id in Ids(s.active[m].waiters)
    requires forall n | n in s.active && w.id in Ids(s.active[n].waiters) :: n == m
    requires t.queued == s.queued && t.seen == s.seen && t.place == s.place[w.id := Pending]
    requires t.active.Keys == s.active.Keys && forall n | n in s.active && n != m :: t.active[n] == s.active[n]
    requires Distinct(t.active[m].waiters) && Ids(t.active[m].waiters) == Ids(s.active[m].waiters) - {w.id}
    requires Ids([w]) == {w.id}
    ensures Places(t, [w], Pending)
  {
    assert s.place[w.id] == Waiting(m);
    ShorterWaiters(s, t, m, w);
    TakenOutPlaces(s, t, m, w);
  }

  lemma TakenOutPlaces(s: Sched, t: Sched, m: string, w: Req)
    requires Places(s, [], Pending) && TakenOut(s, t, m, w) && Ids([w]) == {w.id}
    ensures Places(t, [w], Pending)
  {
    forall n, id | n in t.active && id in Ids(t.active[n].waiters)
      ensures id in t.place && t.place[id] == Waiting(n) && id !in Ids([w])
    {
      assert id in Ids(s.active[n].waiters) && id != w.id;
    }
    forall id | id in t.place && t.place[id].Waiting?
      ensures t.place[id].model in t.active && id in Ids(t.active[t.place[id].model].waiters)
    {
      assert id != w.id && t.place[id] == s.place[id];
    }
  }

  lemma ShorterWaiters(s: Sched, t: Sched, m: string, w: Req)
    requires Places(s, [], Pending) && m in s.active
    requires forall n | n in s.active && w.id in Ids(s.active[n].waiters) :: n == m
    requires t.active.Keys == s.active.Keys && forall n | n in s.active && n != m :: t.active[n] == s.active[n]
    requires Distinct(t.active[m].waiters) && Ids(t.active[m].waiters) == Ids(s.active[m].waiters) - {w.id}
    ensures forall n | n in t.active :: Distinct(t.active[n].waiters) && Ids(t.active[n].waiters) == Ids(s.active[n].waiters) - {w.id}
  {
    forall n | n in t.active
      ensures Distinct(t.active[n].waiters) && Ids(t.active[n].waiters) == Ids(s.active[n].waiters) - {w.id}
    {
      if n != m {
        assert w.id !in Ids(s.active[n].waiters);
      }
    }
  }

  lemma CancelWaiter(p: Params, s: Sched, m: string, w: Req)
    requires Carrying(p, s, []) && m in s.active && w in s.active[m].waiters
    ensures w.model == m
    ensures Carrying(p, Unwait(s, m, w), [w])
  {
    UnwaitSlots(p, s, m, w);
    if PlansWell(p.plan) {
      UnwaitSwaps(s, m, w);
    }
    UnwaitPlaces(s, m, w);
    WithoutIsSubsequence(s.active[m].waiters, w.id);
  }

  lemma CancelQueuedKeeps(p: Params, s: Sched, q: Req)
    requires Inv(p, s) && q in s.queued
    ensures var t := Leave(s.(queued := Without(s.queued, q.id)), q, Gone);
      Inv(p, t) && Subsequence(t.queued, s.queued)
  {
    CancelQueued(p, s, q);
    assert [q] + [] == [q];
    LeaveCarries(p, s.(queued := Without(s.queued, q.id)), q, [], Gone);
    WithoutIsSubsequence(s.queued, q.id);
    SubsequenceInOrder(p, Without(s.queued, q.id), s.queued);
  }

  lemma CancelWaiterKeeps(p: Params, s: Sched, m: string, w: Req)
    requires Inv(p, s) && m in s.active && w in s.active[m].waiters
    ensures w.model == m && Inv(p, Leave(Unwait(s, m, w), w, Gone))
  {
    CancelWaiter(p, s, m, w);
    assert [w] + [] == [w];
    LeaveCarries(p, Unwait(s, m, w), w, [], Gone);
  }

  lemma CancelKeeps(p: Params, s: Sched, r: Req)
    requires Inv(p, s)
    ensures Inv(p, OnCancel(s, r))
    ensures Subsequence(OnCancel(s, r).queued, s.queued)
  {
    SubsequenceOfSelf(s.queued);
    if q :| q in s.queued && q.id == r.id {
      OnlyOne(s.queued, q, r.id);
      CancelQueuedKeeps(p, s, q);
    } else if m :| m in s.active && r.id in Ids(s.active[m].waiters) {
      OnlyOneSwap(s, m, r.id);
      var w :| w in s.active[m].waiters && w.id == r.id;
      CancelWaiterKeeps(p, s, m, w);
      CancelIsUnwait(s, m, w, r);
    }
  }

  lemma CancelIsUnwait(s: Sched, m: string, w: Req, r: Req)
    requires m in s.active && w == Req(r.id, m) && r.id in Ids(s.active[m].waiters)
    requires forall q | q in s.queued :: q.id != r.id
    requires forall n | n in s.active && r.id in Ids(s.active[n].waiters) :: n == m
    ensures OnCancel(s, r) == Leave(Unwait(s, m, w), w, Gone)
  {
    PlaceTwice(s.place, w.id, Pending, Gone);
  }

  /** q is the only request of its identity in the list. */
  ghost predicate SameId(xs: seq<Req>, q: Req, id: nat) {
    forall x | x in xs && x.id == id :: x == q
  }

  lemma OnlyOne(xs: seq<Req>, q: Req, id: nat)
    requires Distinct(xs) && q in xs && q.id == id
    ensures SameId(xs, q, id)
  {
  }

  lemma OnlyOneSwap(s: Sched, m: string, id: nat)
    requires Places(s, [], Pending) && m in s.active && id in Ids(s.active[m].waiters)
    ensures forall n | n in s.active && id in Ids(s.active[n].waiters) :: n == m
  {
    forall n | n in s.active && id in Ids(s.active[n].waiters)
      ensures n == m
    {
      assert s.place[id] == Waiting(n) && s.place[id] == Waiting(m);
    }
  }

  // ---- Models are unloaded ----

  lemma DropCarries(p: Params, s: Sched, targets: set<string>)
    requires Carrying(p, s, [])
    ensures Carrying(p, Drop(s, targets), [])
  {
    var t := Drop(s, targets);
    forall m
      ensures SlotsOf(p, t, [], m)
    {
      assert SlotsOf(p, s, [], m);
      CountNotFor(s.queued, targets, m);
    }
    if PlansWell(p.plan) {
      FewerSwaps(s, t);
    }
    NotForIsSubsequence(s.queued, targets);
    SubsequenceDistinct(t.queued, s.queued);
    DropPlaces(s, targets);
  }

  /** Exactly the identities held for the targets are dropped. */
  lemma DroppedIds(s: Sched, targets: set<string>)
    requires Places(s, [], Pending)
    ensures forall r | r in s.queued :: r.id in Dropped(s, targets) <==> r.model in targets
    ensures forall m, id | m in s.active && id in Ids(s.active[m].waiters) :: id in Dropped(s, targets) <==> m in targets
    ensures forall id | id in Dropped(s, targets) :: id in s.place
  {
    forall r | r in s.queued
      ensures r.id in Dropped(s, targets) <==> r.model in targets
    {
      DroppedQueued(s, targets, r);
    }
    forall m, id | m in s.active && id in Ids(s.active[m].waiters)
      ensures id in Dropped(s, targets) <==> m in targets
    {
      DroppedWaiter(s, targets, m, id);
    }
    forall id | id in Dropped(s, targets)
      ensures id in s.place
    {
      DroppedFrom(s, targets, id);
    }
  }

  lemma DroppedQueued(s: Sched, targets: set<string>, r: Req)
    requires Places(s, [], Pending) && r in s.queued
    ensures r.id in Dropped(s, targets) <==> r.model in targets
  {
    assert r.id in Ids(s.queued);
    OnlyOne(s.queued, r, r.id);
    assert forall m, w | m in s.active && w in s.active[m].waiters :: w.id in Ids(s.active[m].waiters);
  }

  lemma DroppedWaiter(s: Sched, targets: set<string>, m: string, id: nat)
    requires Places(s, [], Pending) && m in s.active && id in Ids(s.active[m].waiters)
    ensures id in Dropped(s, targets) <==> m in targets
  {
    assert s.place[id] == Waiting(m) && id !in Ids(s.queued);
    OnlyOneSwap(s, m, id);
    if id in Dropped(s, targets) {
      DroppedFrom(s, targets, id);
    }
    var w :| w in s.active[m].waiters && w.id == id;
  }

  /** What is dropped was queued or waited for a target. */
  lemma DroppedFrom(s: Sched, targets: set<string>, id: nat)
    requires id in Dropped(s, targets)
    ensures id in Ids(s.queued) || exists m :: m in targets && m in s.active && id in Ids(s.active[m].waiters)
  {
    if r :| r in s.queued && r.model in targets && r.id == id {
    } else {
      var m, r :| m in targets && m in s.active && r in s.active[m].waiters && r.id == id;
      assert id in Ids(s.active[m].waiters);
    }
  }

  lemma DropPlaces(s: Sched, targets: set<string>)
    requires Places(s, [], Pending)
    requires Distinct(NotFor(s.queued, targets))
    ensures Places(Drop(s, targets), [], Pending)
  {
    var t := Drop(s, targets);
    DroppedIds(s, targets);
    NotForIsSubsequence(s.queued, targets);
    forall id | id in Ids(t.queued)
      ensures id in Ids(s.queued) && id !in Dropped(s, targets)
    {
      var r :| r in t.queued && r.id == id;
      assert r in s.queued;
    }
    forall id | id in t.place && t.place[id] == Pending
      ensures id in Ids(t.queued)
    {
      assert id in Ids(s.queued);
      var r :| r in s.queued && r.id == id;
      assert r in t.queued;
    }
  }

  lemma UnloadKeeps(p: Params, s: Sched, targets: set<string>, obs: seq<Obs>)
    requires Inv(p, s)
    ensures Inv(p, OnUnload(p, s, targets, obs))
    ensures Subsequence(OnUnload(p, s, targets, obs).queued, NotFor(s.queued, targets))
  {
    DropCarries(p, s, targets);
    NotForIsSubsequence(s.queued, targets);
    SubsequenceInOrder(p, NotFor(s.queued, targets), s.queued);
    DrainQueueKeeps(p, Drop(s, targets), obs);
  }

  // ---- Whole runs ----

  lemma StepKeeps(p: Params, s: Sched, e: Event)
    requires Inv(p, s) && Enabled(s, e)
    ensures Inv(p, Step(p, s, e))
  {
    match e
    case Request(r, admitted, o) => RequestKeeps(p, s, r, admitted, o);
    case Cancel(r) => CancelKeeps(p, s, r);
    case SwapDone(m, ok, grants, obs) => SwapDoneKeeps(p, s, m, ok, grants, obs);
    case ServeDone(m, obs) => ServeDoneKeeps(p, s, m, obs);
    case Unload(targets, obs) => UnloadKeeps(p, s, targets, obs);
  }

  lemma {:induction false} RunKeeps(p: Params, events: seq<Event>)
    requires RunEnabled(p, NEW, events)
    ensures Inv(p, Run(p, NEW, events))
  {
    if events == [] {
      NewIsInv(p);
    } else {
      var init := events[..|events| - 1];
      RunKeeps(p, init);
      StepKeeps(p, Run(p, NEW, init), events[|events| - 1]);
    }
  }

  /** Slot conservation over every run: a model's reserved slots are its requests in flight, in
      the queue and waiting for its swap, and never more than its limit. */
  lemma SlotsAreConserved(p: Params, events: seq<Event>, m: string)
    requires RunEnabled(p, NEW, events)
    ensures var s := Run(p, NEW, events);
      && Get(s.reserved, m) == Get(s.inFlight, m) + Count(s.queued, m) + Waiters(s.active, m)
      && Get(s.inFlight, m) >= 0
      && (Get(s.reserved, m) == 0 || Get(s.reserved, m) <= Limit(p, m))
  {
    RunKeeps(p, events);
    assert SlotsOf(p, Run(p, NEW, events), [], m);
    assert Count([], m) == 0;
  }

  /** Over every run, a model that is being stopped serves nobody, is stopped by one swap only,
      and is not being started. */
  lemma BusyModelsAreNeverEvicted(p: Params, events: seq<Event>, m: string, x: string)
    requires PlansWell(p.plan) && RunEnabled(p, NEW, events)
    requires m in Run(p, NEW, events).active && x in Run(p, NEW, events).active[m].evict
    ensures var s := Run(p, NEW, events);
      && Get(s.inFlight, x) == 0
      && x !in s.active
      && forall n | n in s.active && x in s.active[n].evict :: n == m
  {
    RunKeeps(p, events);
    var s := Run(p, NEW, events);
    assert SwapOk(s, m);
    assert SlotsOf(p, s, [], x);
    assert forall n | n in s.active && n != m :: Apart(s, m, n);
  }

  /** Over every run the queue is sorted by falling priority, and by arrival among equals. */
  lemma QueueIsAlwaysInOrder(p: Params, events: seq<Event>)
    requires RunEnabled(p, NEW, events)
    ensures InOrder(p, Run(p, NEW, events).queued)
  {
    RunKeeps(p, events);
  }

  // ---- Nobody is stranded ----

  ghost predicate Positive(inFlight: map<string, int>) {
    forall m | m in inFlight :: inFlight[m] > 0
  }

  /** Where somebody is queued, a swap or a request is under way. */
  ghost predicate Stirring(s: Sched) {
    Positive(s.inFlight) && (s.queued != [] ==> s.active != map[] || s.inFlight != map[])
  }

  lemma {:induction false} DrainStirs(p: Params, s: Sched, pending: seq<Req>, obs: seq<Obs>, k: nat)
    requires Positive(s.inFlight) && k <= |pending|
    ensures Stirring(Drain(p, s, pending, obs, k))
  {
    if k > 0 {
      DrainStirs(p, s, pending, obs, k - 1);
    }
  }

  lemma {:induction false} SettleIsPositive(s: Sched, waiters: seq<Req>, ok: bool, grants: seq<bool>, k: nat)
    requires Positive(s.inFlight) && k <= |waiters|
    ensures Positive(Settle(s, waiters, ok, grants, k).inFlight)
  {
    if k > 0 {
      SettleIsPositive(s, waiters, ok, grants, k - 1);
    }
  }

  lemma CancelStirs(s: Sched, r: Req)
    requires Stirring(s)
    ensures Stirring(OnCancel(s, r))
  {
    if q :| q in s.queued && q.id == r.id {
    } else if m :| m in s.active && r.id in Ids(s.active[m].waiters) {
      assert m in OnCancel(s, r).active;
    }
  }

  lemma StepStirs(p: Params, s: Sched, e: Event)
    requires Stirring(s) && Enabled(s, e)
    ensures Stirring(Step(p, s, e))
  {
    match e
    case Request(_, _, _) =>
    case Cancel(r) => CancelStirs(s, r);
    case SwapDone(m, ok, grants, obs) =>
      if m in s.active {
        var waiters := s.active[m].waiters;
        var s1 := s.(active := s.active - {m});
        SettleIsPositive(s1, waiters, ok, grants, |waiters|);
        var s2 := Settle(s1, waiters, ok, grants, |waiters|);
        DrainStirs(p, s2, s2.queued, obs, |s2.queued|);
      }
    case ServeDone(m, obs) =>
      DrainStirs(p, Served(s, m), s.queued, obs, |s.queued|);
    case Unload(targets, obs) =>
      DrainStirs(p, Drop(s, targets), NotFor(s.queued, targets), obs, |NotFor(s.queued, targets)|);
  }

  lemma {:induction false} RunStirs(p: Params, events: seq<Event>)
    requires RunEnabled(p, NEW, events)
    ensures Stirring(Run(p, NEW, events))
  {
    if events != [] {
      var init := events[..|events| - 1];
      RunStirs(p, init);
      StepStirs(p, Run(p, NEW, init), events[|events| - 1]);
    }
  }

  /** Over every run, under any planner and any settings, whenever somebody is queued a swap is
      active or a request is in flight, whose end drains the queue again. */
  lemma NobodyIsStranded(p: Params, events: seq<Event>)
    requires RunEnabled(p, NEW, events)
    ensures var s := Run(p, NEW, events);
      s.queued != [] ==> s.active != map[] || exists m :: Get(s.inFlight, m) > 0
  {
    RunStirs(p, events);
    var s := Run(p, NEW, events);
    if s.inFlight != map[] {
      var m :| m in s.inFlight;
      assert Get(s.inFlight, m) > 0;
    }
  }
}
