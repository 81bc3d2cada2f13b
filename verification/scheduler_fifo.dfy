/** The FIFO scheduler as the object it is (internal/router/scheduler/fifo.go): tables updated in
    place by event methods.

    What the Effects interface answers is arbitrary, and may differ from call to call. Each event
    method returns, as ghost, the event it saw, and is proved to take the tables exactly where the
    state machine's Step takes them; the invariant of all runs then holds after each call. The
    precondition of Release is the condition under which it does not panic. */
module SchedulerFIFO {
  import opened Names
  import opened ProcessState
  import opened Scheduler
  import opened SchedulerSafety
  import opened SchedulerRuns

  // ---- Looking through lists and tables ----

  method ContainsString(xs: seq<string>, s: string) returns (b: bool)
    ensures b <==> s in xs
  {
    for i := 0 to |xs|
      invariant s !in xs[..i]
    {
      if xs[i] == s {
        return true;
      }
    }
    return false;
  }

  method SlicesOverlap(xs: seq<string>, ys: seq<string>) returns (b: bool)
    ensures b <==> exists x :: x in xs && x in ys
  {
    for i := 0 to |xs|
      invariant forall x | x in xs[..i] :: x !in ys
    {
      var c := ContainsString(ys, xs[i]);
      if c {
        return true;
      }
    }
    return false;
  }

  method CollidesWithOne(target: string, evict: seq<string>, id: string, others: seq<string>) returns (b: bool)
    ensures b <==> CollidesWith(target, evict, id, others)
  {
    b := ContainsString(evict, id);
    if !b {
      b := ContainsString(others, target);
    }
    if !b {
      b := SlicesOverlap(evict, others);
    }
  }

  method CollidesWithActive(target: string, evict: seq<string>, active: map<string, Swap>) returns (b: bool)
    ensures b <==> Collides(target, evict, active)
  {
    var todo := active.Keys;
    while todo != {}
      invariant todo <= active.Keys
      invariant forall id | id in active.Keys - todo && id != target :: !CollidesWith(target, evict, id, active[id].evict)
      decreases |todo|
    {
      var id :| id in todo;
      todo := todo - {id};
      if id == target {
        continue;
      }
      var c := CollidesWithOne(target, evict, id, active[id].evict);
      if c {
        return true;
      }
    }
    return false;
  }

  method ConflictsWithInFlight(evict: seq<string>, inFlight: map<string, int>) returns (b: bool)
    ensures b <==> Busy(evict, inFlight)
  {
    for i := 0 to |evict|
      invariant forall m | m in evict[..i] :: Get(inFlight, m) <= 0
    {
      if Get(inFlight, evict[i]) > 0 {
        return true;
      }
    }
    return false;
  }

  /** Adds what is not there yet. */
  method AddAll(out: seq<string>, ids: set<string>) returns (xs: seq<string>)
    requires NoDup(out)
    ensures NoDup(xs) && Elems(xs) == Elems(out) + ids
  {
    xs := out;
    var todo := ids;
    while todo != {}
      invariant NoDup(xs) && todo <= ids
      invariant Elems(xs) + todo == Elems(out) + ids
      decreases |todo|
    {
      var id :| id in todo;
      xs := AddOne(xs, id);
      todo := todo - {id};
    }
  }

  method AddOne(out: seq<string>, id: string) returns (xs: seq<string>)
    requires NoDup(out)
    ensures NoDup(xs) && Elems(xs) == Elems(out) + {id}
  {
    xs := out;
    if id !in out {
      ElemsAppend(out, [id]);
      assert Elems([id]) == {id};
      xs := out + [id];
    }
  }

  method SortedRunningSet(active: map<string, Swap>, live: set<string>, exclude: string) returns (xs: seq<string>)
    ensures xs == RunningSet(active, live, exclude)
  {
    xs := AddAll([], live);
    xs := AddAll(xs, active.Keys - {exclude});
    var s := live + (active.Keys - {exclude});
    assert Elems(xs) == s;
    SortLists(xs);
    xs := Sort(xs);
    ListsUnique(xs, Listing(s), s);
  }

  // ---- The accounts determine the reserved slots ----

  lemma SlotsDetermineReserved(p: Params, s: Sched, t: Sched, hand: seq<Req>)
    requires Slots(p, s, hand) && Slots(p, t, hand)
    requires s.active == t.active && s.inFlight == t.inFlight && s.queued == t.queued
    ensures s.reserved == t.reserved
  {
    forall m
      ensures (m in s.reserved <==> m in t.reserved) && (m in s.reserved ==> s.reserved[m] == t.reserved[m])
    {
      assert SlotsOf(p, s, hand, m) && SlotsOf(p, t, hand, m);
    }
  }

  /** Whoever is in hand has a slot. */
  lemma InHandIsReserved(p: Params, s: Sched, r: Req, rest: seq<Req>)
    requires Slots(p, s, [r] + rest)
    ensures Get(s.reserved, r.model) > 0
  {
    assert SlotsOf(p, s, [r] + rest, r.model);
    CountCons(r, rest, r.model);
    assert r.model in s.inFlight ==> s.inFlight[r.model] > 0;
  }

  lemma ReservedIsNatural(p: Params, s: Sched, m: string)
    requires Slots(p, s, [])
    ensures Get(s.reserved, m) >= 0
  {
    assert SlotsOf(p, s, [], m);
  }

  function WithSlot(s: Sched, m: string): Sched {
    s.(reserved := Up(s.reserved, m))
  }

  /** The tables after a request was refused, or its caller had gone, or it was handled. */
  ghost predicate DecidedOn(p: Params, s: Sched, r: Req, admitted: bool, o: Obs, t: Sched) {
    var full := Get(s.reserved, r.model) >= Limit(p, r.model);
    if admitted then
      o.known && !full && t == Handle(p, WithSlot(s.(seen := r.id + 1), r.model), r, o)
    else
      t == s.(seen := r.id + 1, place := s.place[r.id := if !o.known || full then Rejected else Gone])
  }

  lemma DecidedIsRequest(p: Params, s: Sched, r: Req, admitted: bool, o: Obs, t: Sched)
    requires DecidedOn(p, s, r, admitted, o, t)
    ensures t == Scheduler.OnRequest(p, s, r, admitted, o)
  {
  }

  lemma HeadOf(xs: seq<Req>, k: nat)
    requires k < |xs|
    ensures xs[k..] == [xs[k]] + xs[k + 1..]
    ensures xs[..k + 1] == xs[..k] + [xs[k]]
  {
  }

  lemma DrainPrefix(p: Params, s: Sched, pending: seq<Req>, obs: seq<Obs>, o: Obs, k: nat)
    requires |obs| == k < |pending|
    ensures Drain(p, s, pending, obs + [o], k + 1) == DrainOne(p, Drain(p, s, pending, obs, k), pending[k], o)
  {
    DrainReadsPrefix(p, s, pending, obs, obs + [o], k);
  }

  lemma {:induction false} DrainReadsPrefix(p: Params, s: Sched, pending: seq<Req>, obs: seq<Obs>, more: seq<Obs>, k: nat)
    requires k <= |pending| && k <= |obs| <= |more| && forall j | 0 <= j < k :: obs[j] == more[j]
    ensures Drain(p, s, pending, more, k) == Drain(p, s, pending, obs, k)
  {
    if k > 0 {
      DrainReadsPrefix(p, s, pending, obs, more, k - 1);
      assert Look(obs, k - 1) == Look(more, k - 1);
    }
  }

  // ---- What pruning does ----

  /** What a pruning loop carries along. */
  datatype Filtering = Filtering(kept: seq<Req>, reserved: map<string, int>, place: map<nat, Place>)

  /** After the first k entries. */
  function Filtered(xs: seq<Req>, id: nat, reserved: map<string, int>, place: map<nat, Place>, k: nat): Filtering
    requires k <= |xs|
  {
    if k == 0 then Filtering([], reserved, place)
    else
      var f := Filtered(xs, id, reserved, place, k - 1);
      var x := xs[k - 1];
      if x.id == id then f.(reserved := Down(f.reserved, x.model), place := f.place[id := Gone])
      else f.(kept := f.kept + [x])
  }

  /** Up to the one entry of this identity, nothing is given back. */
  lemma {:induction false} FilteredBefore(xs: seq<Req>, id: nat, reserved: map<string, int>, place: map<nat, Place>, k: nat)
    requires k <= |xs| && forall j | 0 <= j < k :: xs[j].id != id
    ensures Filtered(xs, id, reserved, place, k) == Filtering(xs[..k], reserved, place)
  {
    if k > 0 {
      FilteredBefore(xs, id, reserved, place, k - 1);
      HeadOf(xs, k - 1);
    }
  }

  lemma {:induction false} FilteredKept(xs: seq<Req>, id: nat, reserved: map<string, int>, place: map<nat, Place>, k: nat)
    requires k <= |xs|
    ensures Filtered(xs, id, reserved, place, k).kept == Without(xs[..k], id)
  {
    if k > 0 {
      FilteredKept(xs, id, reserved, place, k - 1);
      HeadOf(xs, k - 1);
      assert xs[..k][..k - 1] == xs[..k - 1];
    }
  }

  /** From the one entry of this identity on, nothing more is given back. */
  lemma {:induction false} FilteredAfter(xs: seq<Req>, id: nat, reserved: map<string, int>, place: map<nat, Place>, i: nat, k: nat)
    requires Distinct(xs) && i < k <= |xs| && xs[i].id == id
    ensures var f := Filtered(xs, id, reserved, place, k);
      f.reserved == Down(reserved, xs[i].model) && f.place == place[id := Gone]
  {
    if k == i + 1 {
      FilteredBefore(xs, id, reserved, place, i);
    } else {
      FilteredAfter(xs, id, reserved, place, i, k - 1);
    }
  }

  /** Filtering removes the request and gives back the slot it held, once. */
  lemma FilteredAll(xs: seq<Req>, id: nat, reserved: map<string, int>, place: map<nat, Place>)
    requires Distinct(xs)
    ensures var f := Filtered(xs, id, reserved, place, |xs|);
      && f.kept == Without(xs, id)
      && (id !in Ids(xs) ==> f == Filtering(xs, reserved, place))
      && forall q | q in xs && q.id == id :: f.reserved == Down(reserved, q.model) && f.place == place[id := Gone]
  {
    FilteredKept(xs, id, reserved, place, |xs|);
    assert xs[..|xs|] == xs;
    if id !in Ids(xs) {
      forall j | 0 <= j < |xs|
        ensures xs[j].id != id
      {
        assert xs[j] in xs;
      }
      FilteredBefore(xs, id, reserved, place, |xs|);
    }
    forall q | q in xs && q.id == id
      ensures var f := Filtered(xs, id, reserved, place, |xs|);
        f.reserved == Down(reserved, q.model) && f.place == place[id := Gone]
    {
      var i :| 0 <= i < |xs| && xs[i] == q;
      FilteredAfter(xs, id, reserved, place, i, |xs|);
    }
  }

  lemma SwapFiltered(xs: seq<Req>, m: string, id: nat, reserved: map<string, int>, place: map<nat, Place>)
    requires Distinct(xs) && forall w | w in xs :: w.model == m
    ensures Filtered(xs, id, reserved, place, |xs|) ==
      if id in Ids(xs) then Filtering(Without(xs, id), Down(reserved, m), place[id := Gone])
      else Filtering(Without(xs, id), reserved, place)
  {
    FilteredAll(xs, id, reserved, place);
    if id in Ids(xs) {
      var q :| q in xs && q.id == id;
      assert Filtered(xs, id, reserved, place, |xs|).reserved == Down(reserved, q.model);
    } else {
      assert forall w | w in xs :: w.id in Ids(xs);
      WithoutAbsent(xs, id);
    }
  }

  lemma QueueFiltered(s: Sched, id: nat)
    requires Distinct(s.queued)
    ensures var f := Filtered(s.queued, id, s.reserved, s.place, |s.queued|);
      QueuePruned(s, id) == s.(queued := f.kept, reserved := f.reserved, place := f.place)
  {
    FilteredAll(s.queued, id, s.reserved, s.place);
    if q :| q in s.queued && q.id == id {
      OnlyOne(s.queued, q, id);
    }
  }

  lemma QueuedAreReserved(p: Params, s: Sched, id: nat)
    requires Carrying(p, s, [])
    ensures forall q | q in s.queued && q.id == id :: Get(s.reserved, q.model) > 0
  {
    forall q | q in s.queued && q.id == id
      ensures Get(s.reserved, q.model) > 0
    {
      QueuedIsReserved(p, s, q);
    }
  }

  /** The queue without the request, whose slot is given back. */
  ghost function QueuePruned(s: Sched, id: nat): Sched {
    if q :| q in s.queued && q.id == id then
      s.(queued := Without(s.queued, id), reserved := Down(s.reserved, q.model), place := s.place[id := Gone])
    else s
  }

  lemma QueuedIsReserved(p: Params, s: Sched, q: Req)
    requires Carrying(p, s, []) && q in s.queued
    ensures Get(s.reserved, q.model) > 0
  {
    CancelQueued(p, s, q);
    assert [q] + [] == [q];
    InHandIsReserved(p, s.(queued := Without(s.queued, q.id)), q, []);
  }

  function Pruned(sw: Swap, id: nat): Swap {
    sw.(waiters := Without(sw.waiters, id))
  }

  /** The tables without the waiter, whose slot is given back. */
  ghost function WaitersPruned(s: Sched, id: nat): Sched {
    if m :| m in s.active && id in Ids(s.active[m].waiters) then
      Leave(s.(active := s.active[m := Pruned(s.active[m], id)]), Req(id, m), Gone)
    else s
  }

  lemma WaiterIsReserved(p: Params, s: Sched, m: string)
    requires Slots(p, s, []) && m in s.active
    ensures s.active[m].waiters != [] ==> Get(s.reserved, m) > 0
  {
    assert SlotsOf(p, s, [], m);
    assert Count([], m) == 0;
  }

  /** t is s with the waiters of the swaps outside todo pruned, and their slot given back. */
  ghost predicate PrunedBut(s: Sched, t: Sched, todo: set<string>, id: nat) {
    && t.queued == s.queued && t.inFlight == s.inFlight && t.seen == s.seen
    && todo <= s.active.Keys && t.active.Keys == s.active.Keys
    && (forall n | n in todo :: t.active[n] == s.active[n])
    && (forall n | n in s.active.Keys - todo :: t.active[n] == Pruned(s.active[n], id))
    && (NoneWaits(s, s.active.Keys - todo, id) ==> t.reserved == s.reserved && t.place == s.place)
    && (forall n | n in s.active.Keys - todo && id in Ids(s.active[n].waiters) ::
          t.reserved == Down(s.reserved, n) && t.place == s.place[id := Gone])
  }

  ghost predicate NoneWaits(s: Sched, among: set<string>, id: nat)
    requires among <= s.active.Keys
  {
    forall n | n in among :: id !in Ids(s.active[n].waiters)
  }

  /** t with one more swap pruned. */
  ghost predicate PrunesSwap(t: Sched, u: Sched, m: string, id: nat)
    requires m in t.active
  {
    && u.queued == t.queued && u.inFlight == t.inFlight && u.seen == t.seen
    && u.active == t.active[m := Pruned(t.active[m], id)]
    && if id in Ids(t.active[m].waiters)
       then u.reserved == Down(t.reserved, m) && u.place == t.place[id := Gone]
       else u.reserved == t.reserved && u.place == t.place
  }

  lemma NothingPruned(s: Sched, id: nat)
    ensures PrunedBut(s, s, s.active.Keys, id)
  {
  }

  lemma PruneStep(s: Sched, t: Sched, u: Sched, todo: set<string>, m: string, id: nat)
    requires Places(s, [], Pending) && PrunedBut(s, t, todo, id) && m in todo && PrunesSwap(t, u, m, id)
    ensures PrunedBut(s, u, todo - {m}, id)
  {
    if id in Ids(s.active[m].waiters) {
      OnlyOneSwap(s, m, id);
      assert NoneWaits(s, s.active.Keys - todo, id);
    } else {
      assert NoneWaits(s, s.active.Keys - (todo - {m}), id) ==> NoneWaits(s, s.active.Keys - todo, id);
    }
  }

  lemma ReadyToPrune(p: Params, s: Sched, t: Sched, todo: set<string>, m: string, id: nat)
    requires Inv(p, s) && PrunedBut(s, t, todo, id) && m in todo
    ensures t.active[m] == s.active[m] && Distinct(s.active[m].waiters)
    ensures forall w | w in s.active[m].waiters :: w.model == m
    ensures id in Ids(s.active[m].waiters) ==> Get(t.reserved, m) > 0
  {
    WaiterIsReserved(p, s, m);
    if id in Ids(s.active[m].waiters) {
      OnlyOneSwap(s, m, id);
      assert NoneWaits(s, s.active.Keys - todo, id);
    }
  }

  lemma PrunedHolder(s: Sched, t: Sched, m: string, id: nat)
    requires Places(s, [], Pending) && PrunedBut(s, t, {}, id) && m in s.active && id in Ids(s.active[m].waiters)
    ensures t == WaitersPruned(s, id)
  {
    OnlyOneSwap(s, m, id);
    PrunedOnlyHolder(s.active, t.active, m, id);
    assert m in s.active.Keys - {};
  }

  lemma PrunedOnlyHolder(before: map<string, Swap>, after: map<string, Swap>, m: string, id: nat)
    requires m in before && after.Keys == before.Keys
    requires forall n | n in before :: after[n] == Pruned(before[n], id)
    requires forall n | n in before && id in Ids(before[n].waiters) :: n == m
    ensures after == before[m := Pruned(before[m], id)]
  {
    forall n | n in before && n != m
      ensures after[n] == before[n]
    {
      WithoutAbsent(before[n].waiters, id);
    }
  }

  lemma PrunedNone(s: Sched, t: Sched, id: nat)
    requires PrunedBut(s, t, {}, id) && NoneWaits(s, s.active.Keys, id)
    ensures t == WaitersPruned(s, id)
  {
    assert s.active.Keys - {} == s.active.Keys;
    forall n | n in s.active
      ensures t.active[n] == s.active[n]
    {
      WithoutAbsent(s.active[n].waiters, id);
    }
    assert t.active == s.active;
  }

  lemma PrunedAll(s: Sched, t: Sched, id: nat)
    requires Places(s, [], Pending) && PrunedBut(s, t, {}, id)
    ensures t == WaitersPruned(s, id)
  {
    if m :| m in s.active && id in Ids(s.active[m].waiters) {
      PrunedHolder(s, t, m, id);
    } else {
      PrunedNone(s, t, id);
    }
  }

  lemma QueuePrunedIsCancelled(p: Params, s: Sched, q: Req, id: nat)
    requires Inv(p, s) && q in s.queued && q.id == id
    ensures QueuePruned(s, id) == Leave(s.(queued := Without(s.queued, id)), q, Gone)
    ensures Inv(p, QueuePruned(s, id)) && NoneWaits(QueuePruned(s, id), s.active.Keys, id)
  {
    QueuePrunedIs(s, q, id);
    CancelQueuedKeeps(p, s, q);
    GoneWaitsNowhere(QueuePruned(s, id), id);
  }

  lemma QueuePrunedIs(s: Sched, q: Req, id: nat)
    requires Distinct(s.queued) && q in s.queued && q.id == id
    ensures QueuePruned(s, id) == Leave(s.(queued := Without(s.queued, id)), q, Gone)
  {
    OnlyOne(s.queued, q, id);
  }

  lemma GoneWaitsNowhere(t: Sched, id: nat)
    requires Places(t, [], Pending) && id in t.place && t.place[id] == Gone
    ensures NoneWaits(t, t.active.Keys, id)
  {
  }

  /** Pruning the queue and then the waiters removes the one place there is. */
  lemma PrunedIsCancelled(p: Params, s: Sched, r: Req)
    requires Inv(p, s)
    ensures Inv(p, QueuePruned(s, r.id))
    ensures WaitersPruned(QueuePruned(s, r.id), r.id) == OnCancel(s, r)
  {
    if q :| q in s.queued && q.id == r.id {
      OnlyOne(s.queued, q, r.id);
      QueuePrunedIsCancelled(p, s, q, r.id);
    } else if m :| m in s.active && r.id in Ids(s.active[m].waiters) {
      OnlyOneSwap(s, m, r.id);
    }
  }

  lemma SettlePrefix(s: Sched, waiters: seq<Req>, ok: bool, grants: seq<bool>, granted: bool, k: nat)
    requires |grants| == k < |waiters|
    ensures var t := Settle(s, waiters, ok, grants, k);
      Settle(s, waiters, ok, grants + [granted], k + 1) ==
      if ok then Grant(t, waiters[k], granted) else Leave(t, waiters[k], Failed)
  {
    SettleReadsPrefix(s, waiters, ok, grants, grants + [granted], k);
  }

  lemma {:induction false} SettleReadsPrefix(s: Sched, waiters: seq<Req>, ok: bool, grants: seq<bool>, more: seq<bool>, k: nat)
    requires k <= |waiters| && k <= |grants| <= |more| && forall j | 0 <= j < k :: grants[j] == more[j]
    ensures Settle(s, waiters, ok, more, k) == Settle(s, waiters, ok, grants, k)
  {
    if k > 0 {
      SettleReadsPrefix(s, waiters, ok, grants, more, k - 1);
    }
  }

  // ---- What unloading does ----

  function Fail(place: map<nat, Place>, ids: set<nat>): map<nat, Place> {
    Mark(place, ids, Failed)
  }

  lemma FailMore(place: map<nat, Place>, a: set<nat>, b: set<nat>)
    ensures Fail(Fail(place, a), b) == Fail(place, a + b)
  {
  }

  lemma FailOne(place: map<nat, Place>, a: set<nat>, id: nat)
    ensures Fail(place, a)[id := Failed] == Fail(place, a + {id})
  {
  }

  lemma {:induction false} SettleFrame(s: Sched, waiters: seq<Req>, grants: seq<bool>, k: nat)
    requires k <= |waiters|
    ensures var t := Settle(s, waiters, false, grants, k);
      t == s.(reserved := t.reserved, place := t.place)
  {
    if k > 0 {
      SettleFrame(s, waiters, grants, k - 1);
    }
  }

  lemma {:induction false} SettleFails(s: Sched, waiters: seq<Req>, grants: seq<bool>, k: nat)
    requires k <= |waiters|
    ensures Settle(s, waiters, false, grants, k).place == Fail(s.place, Ids(waiters[..k]))
  {
    if k == 0 {
      assert Ids(waiters[..0]) == {};
    } else {
      SettleFails(s, waiters, grants, k - 1);
      HeadOf(waiters, k - 1);
      IdsConcat(waiters[..k - 1], [waiters[k - 1]]);
      IdsOne(waiters[k - 1]);
      FailOne(s.place, Ids(waiters[..k - 1]), waiters[k - 1].id);
    }
  }

  ghost function WaiterIds(s: Sched, targets: set<string>): set<nat> {
    set m, r | m in targets && m in s.active && r in s.active[m].waiters :: r.id
  }

  ghost function QueuedIds(xs: seq<Req>, targets: set<string>): set<nat> {
    set r | r in xs && r.model in targets :: r.id
  }

  /** t is s without the targets' swaps, whose waiters were turned away. */
  ghost predicate SwapsGone(p: Params, s: Sched, t: Sched, targets: set<string>) {
    && Carrying(p, t, [])
    && t == s.(active := s.active - targets, reserved := t.reserved, place := Fail(s.place, WaiterIds(s, targets)))
  }

  lemma NoSwapsGone(p: Params, s: Sched, targets: set<string>)
    requires Carrying(p, s, [])
    ensures SwapsGone(p, s, s, targets - targets)
  {
    assert targets - targets == {};
    assert WaiterIds(s, {}) == {};
    assert Fail(s.place, {}) == s.place;
    assert s.active - {} == s.active;
  }

  lemma SwapGone(p: Params, s: Sched, t: Sched, targets: set<string>, id: string, grants: seq<bool>)
    requires SwapsGone(p, s, t, targets) && id in t.active
    requires Settling(p, t.(active := t.active - {id}), t.active[id].waiters, id)
    ensures SwapsGone(p, s, Settle(t.(active := t.active - {id}), t.active[id].waiters, false, grants, |t.active[id].waiters|), targets + {id})
  {
    var ws := t.active[id].waiters;
    var t1 := t.(active := t.active - {id});
    SettleKeeps(p, t1, ws, id, false, grants, |ws|);
    assert ws[|ws|..] == [] && ws[..|ws|] == ws;
    SettledCarries(p, Settle(t1, ws, false, grants, |ws|), id);
    SettleFails(t1, ws, grants, |ws|);
    SettleFrame(t1, ws, grants, |ws|);
    SwapGoneTables(p, s, t, targets, id);
  }

  lemma SwapGoneTables(p: Params, s: Sched, t: Sched, targets: set<string>, id: string)
    requires SwapsGone(p, s, t, targets) && id in t.active
    ensures t.active - {id} == s.active - (targets + {id})
    ensures Fail(t.place, Ids(t.active[id].waiters)) == Fail(s.place, WaiterIds(s, targets + {id}))
  {
    var ws := t.active[id].waiters;
    FailMore(s.place, WaiterIds(s, targets), Ids(ws));
    assert ws == s.active[id].waiters;
    assert WaiterIds(s, targets + {id}) == WaiterIds(s, targets) + Ids(ws);
  }

  lemma AbsentSwapGone(p: Params, s: Sched, t: Sched, targets: set<string>, id: string)
    requires SwapsGone(p, s, t, targets) && id !in t.active
    ensures SwapsGone(p, s, t, targets + {id})
  {
    assert id in s.active ==> id in targets;
    assert WaiterIds(s, targets + {id}) == WaiterIds(s, targets);
    assert s.active - (targets + {id}) == s.active - targets;
  }

  /** The first k queued requests were looked at, those for the targets turned away. */
  ghost predicate QueueGone(p: Params, t: Sched, u: Sched, targets: set<string>, k: nat) {
    && k <= |t.queued| && Carrying(p, u, t.queued[k..])
    && u == t.(queued := NotFor(t.queued[..k], targets), reserved := u.reserved,
               place := Fail(t.place, QueuedIds(t.queued[..k], targets)))
  }

  lemma NoQueueGone(p: Params, t: Sched, targets: set<string>)
    requires Carrying(p, t.(queued := []), t.queued)
    ensures QueueGone(p, t, t.(queued := []), targets, 0)
  {
    assert t.queued[0..] == t.queued;
    assert QueuedIds([], targets) == {};
    assert Fail(t.place, {}) == t.place;
  }

  lemma QueueGoneTarget(p: Params, t: Sched, u: Sched, targets: set<string>, k: nat)
    requires QueueGone(p, t, u, targets, k) && k < |t.queued| && t.queued[k].model in targets
    ensures QueueGone(p, t, Leave(u, t.queued[k], Failed), targets, k + 1)
  {
    var r := t.queued[k];
    var xs, ys := t.queued[..k], t.queued[..k + 1];
    HeadOf(t.queued, k);
    assert ys[..k] == xs;
    LeaveCarries(p, u, r, t.queued[k + 1..], Failed);
    assert QueuedIds(ys, targets) == QueuedIds(xs, targets) + {r.id};
    FailOne(t.place, QueuedIds(xs, targets), r.id);
    assert NotFor(ys, targets) == NotFor(xs, targets);
  }

  lemma QueueGoneOther(p: Params, t: Sched, u: Sched, targets: set<string>, k: nat)
    requires QueueGone(p, t, u, targets, k) && k < |t.queued| && t.queued[k].model !in targets
    ensures QueueGone(p, t, u.(queued := u.queued + [t.queued[k]]), targets, k + 1)
  {
    var r := t.queued[k];
    var xs, ys := t.queued[..k], t.queued[..k + 1];
    HeadOf(t.queued, k);
    assert ys[..k] == xs;
    QueueCarries(p, u, r, t.queued[k + 1..], |u.queued|);
    WaitIsQueued(u, r, t.queued[k + 1..]);
    assert QueuedIds(ys, targets) == QueuedIds(xs, targets);
    assert NotFor(ys, targets) == NotFor(xs, targets) + [r];
  }

  lemma {:induction false} SettleElsewhere(s: Sched, active: map<string, Swap>, waiters: seq<Req>, ok: bool, grants: seq<bool>, k: nat)
    requires k <= |waiters|
    ensures Settle(s.(active := active), waiters, ok, grants, k) == Settle(s, waiters, ok, grants, k).(active := active)
  {
    if k > 0 {
      SettleElsewhere(s, active, waiters, ok, grants, k - 1);
    }
  }

  lemma AllSwapsGone(p: Params, s: Sched, t: Sched, all: set<string>)
    requires SwapsGone(p, s, t, s.active.Keys) && s.active.Keys <= all
    ensures SwapsGone(p, s, t, all) && t.active == map[]
  {
    assert WaiterIds(s, all) == WaiterIds(s, s.active.Keys);
    assert s.active - all == s.active - s.active.Keys == map[];
  }

  lemma {:induction false} CountAbsent(xs: seq<Req>, m: string)
    requires forall r | r in xs :: r.model != m
    ensures Count(xs, m) == 0
  {
    if xs != [] {
      CountAbsent(xs[..|xs| - 1], m);
    }
  }

  lemma DroppingAllGivesBackAll(s: Sched)
    ensures var all := s.active.Keys + set r | r in s.queued :: r.model;
      Drop(s, all).reserved == OnShutdown(s).reserved
  {
    var all := s.active.Keys + set r | r in s.queued :: r.model;
    forall m
      ensures Freed(s, all, m) == Waiters(s.active, m) + Count(s.queued, m)
    {
      if m !in all {
        CountAbsent(s.queued, m);
      }
    }
  }

  /** u is t after its whole queue was turned away, with the lists forgotten. */
  lemma ShutIsShutdown(p: Params, s: Sched, t: Sched, now: Sched, all: set<string>)
    requires Inv(p, s) && all == s.active.Keys + set r | r in s.queued :: r.model
    requires SwapsGone(p, s, t, all) && QueueGone(p, t, now.(active := map[], queued := []), all, |t.queued|)
    requires now.active == s.active && now.queued == s.queued
    ensures now == OnShutdown(s)
  {
    DroppedAll(p, s, now.(active := map[], queued := []), all);
    DroppingAllGivesBackAll(s);
  }

  lemma DroppedAll(p: Params, s: Sched, u: Sched, targets: set<string>)
    requires Inv(p, s)
    requires exists t :: SwapsGone(p, s, t, targets) && QueueGone(p, t, u, targets, |t.queued|)
    ensures u == Drop(s, targets) && Carrying(p, u, [])
    ensures InOrder(p, u.queued)
  {
    var t :| SwapsGone(p, s, t, targets) && QueueGone(p, t, u, targets, |t.queued|);
    var xs := s.queued;
    assert xs[..|xs|] == xs && xs[|xs|..] == [];
    FailMore(s.place, WaiterIds(s, targets), QueuedIds(xs, targets));
    assert Dropped(s, targets) == WaiterIds(s, targets) + QueuedIds(xs, targets);
    DropCarries(p, s, targets);
    SlotsDetermineReserved(p, u, Drop(s, targets), []);
    NotForIsSubsequence(xs, targets);
    SubsequenceInOrder(p, NotFor(xs, targets), xs);
  }

  class FIFO {
    const limits: map<string, int>
    const priority: map<string, int>
    const planner: Planner

    var active: map<string, Swap>
    var reserved: map<string, int>
    var inFlight: map<string, int>
    var queued: seq<Req>

    ghost var place: map<nat, Place>
    ghost var seen: nat

    ghost function Settings(): Params {
      Params(limits, priority, planner)
    }

    ghost function Tables(): Sched
      reads this
    {
      Sched(active, reserved, inFlight, queued, place, seen)
    }

    ghost predicate Valid()
      reads this
    {
      Inv(Settings(), Tables())
    }

    /** A configured limit of zero or less means the default. */
    constructor (configured: map<string, int>, priority: map<string, int>, planner: Planner)
      ensures Valid() && Tables() == NEW
      ensures Settings().priority == priority && Settings().plan == planner
      ensures forall m ::
        Limit(Settings(), m) == (if m in configured && configured[m] > 0 then configured[m] else DEFAULT_CONCURRENCY_LIMIT)
    {
      var limits: map<string, int> := map[];
      var todo := configured.Keys;
      while todo != {}
        invariant todo <= configured.Keys && limits.Keys == configured.Keys - todo
        invariant forall m | m in limits ::
          limits[m] == if configured[m] > 0 then configured[m] else DEFAULT_CONCURRENCY_LIMIT
        decreases |todo|
      {
        var id :| id in todo;
        limits := limits[id := if configured[id] > 0 then configured[id] else DEFAULT_CONCURRENCY_LIMIT];
        todo := todo - {id};
      }
      this.limits := limits;
      this.priority := priority;
      this.planner := planner;
      active, reserved, inFlight, queued := map[], map[], map[], [];
      place, seen := map[], 0;
      new;
      NewIsInv(Settings());
    }

    // ---- Effects, which may answer anything ----

    method ModelState(m: string) returns (known: bool, state: ProcState) {
      known, state := *, *;
    }

    method RunningModels() returns (live: set<string>) {
      live := *;
    }

    /** Whether the caller was there to take the handler. */
    method GrantServe(r: Req) returns (granted: bool) {
      granted := *;
    }

    /** Whether the caller was there to hear that it was admitted. */
    method SendAdmission(r: Req) returns (sent: bool) {
      sent := *;
    }

    // ---- Bookkeeping ----

    method Release(m: string)
      requires Get(reserved, m) > 0
      modifies this`reserved
      ensures reserved == Down(old(reserved), m)
    {
      reserved := reserved[m := reserved[m] - 1];
      if reserved[m] == 0 {
        reserved := reserved - {m};
      }
    }

    method GrantError(r: Req)
      requires Get(reserved, r.model) > 0
      modifies this`reserved, this`place
      ensures Tables() == Leave(old(Tables()), r, Failed)
    {
      Release(r.model);
      place := place[r.id := Failed];
    }

    method GrantHandler(r: Req) returns (ghost granted: bool)
      requires Get(reserved, r.model) > 0
      modifies this`reserved, this`inFlight, this`place
      ensures Tables() == Grant(old(Tables()), r, granted)
    {
      var taken := GrantServe(r);
      granted := taken;
      if taken {
        inFlight := inFlight[r.model := Get(inFlight, r.model) + 1];
        place := place[r.id := Serving(r.model)];
      } else {
        Release(r.model);
        place := place[r.id := Gone];
      }
    }

    method Enqueue(r: Req)
      modifies this`queued, this`place
      ensures Tables() == Scheduler.Enqueue(Settings(), old(Tables()), r)
    {
      var p := Get(priority, r.model);
      var i := |queued|;
      for j := 0 to |queued|
        invariant i == |queued|
        invariant forall k | 0 <= k < j :: Get(priority, queued[k].model) >= p
      {
        if Get(priority, queued[j].model) < p {
          i := j;
          break;
        }
      }
      assert i == QueuePlace(Settings(), queued, r.model);
      queued := queued[..i] + [r] + queued[i..];
      place := place[r.id := Pending];
    }

    method StartSwap(r: Req, evict: seq<string>)
      modifies this`active, this`place
      ensures Tables() == Start(old(Tables()), r, evict)
    {
      active := active[r.model := Swap(r.model, evict, [r])];
      place := place[r.id := Waiting(r.model)];
    }

    method JoinSwap(r: Req)
      requires r.model in active
      modifies this`active, this`place
      ensures Tables() == Join(old(Tables()), r)
    {
      var sw := active[r.model];
      active := active[r.model := sw.(waiters := sw.waiters + [r])];
      place := place[r.id := Waiting(r.model)];
    }

    /** The decision tree both for new requests and for queued ones. */
    method Judge(m: string, state: ProcState) returns (v: Verdict, ghost o: Obs)
      ensures o.known && o.state == state
      ensures v == Decide(Settings(), Tables(), m, o)
      ensures !o.granted
    {
      var live := RunningModels();
      var running := SortedRunningSet(active, live, m);
      o := Obs(true, state, live, false);
      var evict := planner(m, running);
      var collides := CollidesWithActive(m, evict, active);
      if state == Ready && |evict| == 0 && !collides {
        return Serve, o;
      }
      if collides {
        return Wait, o;
      }
      var busy := ConflictsWithInFlight(evict, inFlight);
      if busy {
        return Wait, o;
      }
      return Begin(evict), o;
    }

    // ---- Events ----

    method OnRequest(r: Req) returns (ghost e: Event)
      requires Valid() && r.id >= seen
      modifies this
      ensures e.Request? && e.r == r
      ensures Tables() == Step(Settings(), old(Tables()), e)
      ensures Valid()
    {
      ghost var s := Tables();
      ReservedIsNatural(Settings(), s, r.model);
      ghost var admitted, o := Decided(r);
      e := Request(r, admitted, o);
      DecidedIsRequest(Settings(), s, r, admitted, o, Tables());
      StepKeeps(Settings(), s, e);
    }

    /** The decision tree of OnRequest. */
    method Decided(r: Req) returns (ghost admitted: bool, ghost o: Obs)
      requires Get(reserved, r.model) >= 0
      modifies this
      ensures DecidedOn(Settings(), old(Tables()), r, admitted, o, Tables())
    {
      seen := r.id + 1;
      var known, state := ModelState(r.model);
      admitted, o := false, Obs(known, state, {}, false);
      if !known {
        place := place[r.id := Rejected];
        return;
      }
      var ok := Admit(r);
      if ok {
        admitted := true;
        o := Settle(r, state);
      }
    }

    /** A slot is taken, unless the model has none left or the caller is gone. */
    method Admit(r: Req) returns (admitted: bool)
      requires Get(reserved, r.model) >= 0
      modifies this`reserved, this`place
      ensures admitted ==> Get(old(reserved), r.model) < Limit(Settings(), r.model)
      ensures admitted ==> Tables() == WithSlot(old(Tables()), r.model) && Get(reserved, r.model) > 0
      ensures !admitted ==> Tables() == old(Tables()).(
        place := old(place)[r.id := if Get(old(reserved), r.model) >= Limit(Settings(), r.model) then Rejected else Gone])
    {
      admitted := false;
      if Get(reserved, r.model) >= (if r.model in limits then limits[r.model] else DEFAULT_CONCURRENCY_LIMIT) {
        place := place[r.id := Rejected];
        return;
      }
      var sent := SendAdmission(r);
      if !sent {
        place := place[r.id := Gone];
        return;
      }
      reserved := reserved[r.model := Get(reserved, r.model) + 1];
      admitted := true;
    }

    /** An admitted request joins the swap of its model, or is decided on. */
    method Settle(r: Req, state: ProcState) returns (ghost o: Obs)
      requires Get(reserved, r.model) > 0
      modifies this
      ensures o.known
      ensures Tables() == Handle(Settings(), old(Tables()), r, o)
    {
      o := Obs(true, state, {}, false);
      if r.model in active {
        JoinSwap(r);
      } else {
        o := Dispatch(r, state);
      }
    }

    /** A model with no swap of its own: serve, wait, or start one. */
    method Dispatch(r: Req, state: ProcState) returns (ghost o: Obs)
      requires r.model !in active && Get(reserved, r.model) > 0
      modifies this
      ensures o.known
      ensures Tables() == Handle(Settings(), old(Tables()), r, o)
    {
      var v, look := Judge(r.model, state);
      o := look;
      match v
      case Serve =>
        ghost var granted := GrantHandler(r);
        o := o.(granted := granted);
      case Wait =>
        Enqueue(r);
      case Begin(evict) =>
        StartSwap(r, evict);
    }

    // ---- Draining ----

    method DrainQueue() returns (ghost obs: seq<Obs>)
      requires Carrying(Settings(), Tables(), [])
      modifies this
      ensures Tables() == Scheduler.DrainQueue(Settings(), old(Tables()), obs)
    {
      obs := [];
      if |queued| == 0 {
        return;
      }
      ghost var s := Tables();
      var pending := queued;
      queued := [];
      TakeQueueInHand(Settings(), s);
      for k := 0 to |pending|
        invariant pending == s.queued && |obs| == k
        invariant Tables() == Drain(Settings(), s, pending, obs, k)
      {
        ghost var before := Tables();
        DrainCarries(Settings(), s, pending, obs, k);
        HeadOf(pending, k);
        ghost var o := DrainTurn(pending[k], pending[k + 1..]);
        DrainPrefix(Settings(), s, pending, obs, o, k);
        obs := obs + [o];
      }
    }

    /** One request of the queue gets its turn; one that has to stay is put back at the end of
        those that stayed. */
    method DrainTurn(r: Req, ghost rest: seq<Req>) returns (ghost o: Obs)
      requires Carrying(Settings(), Tables(), [r] + rest)
      modifies this
      ensures Tables() == DrainOne(Settings(), old(Tables()), r, o)
    {
      InHandIsReserved(Settings(), Tables(), r, rest);
      var known, state := ModelState(r.model);
      o := Obs(known, state, {}, false);
      if !known {
        GrantError(r);
        return;
      }
      if r.model in active {
        JoinSwap(r);
        return;
      }
      var v, o1 := Judge(r.model, state);
      o := o1;
      match v
      case Serve =>
        ghost var granted := GrantHandler(r);
        o := o.(granted := granted);
      case Wait =>
        queued := queued + [r];
      case Begin(evict) =>
        StartSwap(r, evict);
    }

    // ---- A caller leaves ----

    method OnCancel(r: Req) returns (ghost e: Event)
      requires Valid()
      modifies this
      ensures e == Cancel(r)
      ensures Tables() == Step(Settings(), old(Tables()), e)
      ensures Valid()
    {
      e := Cancel(r);
      ghost var s := Tables();
      StepKeeps(Settings(), s, e);
      PrunedIsCancelled(Settings(), s, r);
      PruneQueue(r.id);
      PruneWaiters(r.id);
    }

    method PruneQueue(id: nat)
      requires Valid()
      modifies this`queued, this`reserved, this`place
      ensures Tables() == QueuePruned(old(Tables()), id)
    {
      ghost var s := Tables();
      QueuedAreReserved(Settings(), s, id);
      queued := FilterOut(queued, id);
      QueueFiltered(s, id);
    }

    /** The list without the request; every removal gives its slot back. */
    method FilterOut(xs: seq<Req>, id: nat) returns (kept: seq<Req>)
      requires Distinct(xs)
      requires forall q | q in xs && q.id == id :: Get(reserved, q.model) > 0
      modifies this`reserved, this`place
      ensures Filtering(kept, reserved, place) == Filtered(xs, id, old(reserved), old(place), |xs|)
    {
      kept := [];
      for k := 0 to |xs|
        invariant Filtering(kept, reserved, place) == Filtered(xs, id, old(reserved), old(place), k)
      {
        if xs[k].id == id {
          FilteredBefore(xs, id, old(reserved), old(place), k);
          Release(xs[k].model);
          place := place[id := Gone];
        } else {
          kept := kept + [xs[k]];
        }
      }
    }

    /** Every swap's waiters without the request, wherever it is. */
    method PruneWaiters(id: nat)
      requires Valid()
      modifies this`active, this`reserved, this`place
      ensures Tables() == WaitersPruned(old(Tables()), id)
    {
      ghost var s := Tables();
      var todo := active.Keys;
      NothingPruned(s, id);
      while todo != {}
        invariant PrunedBut(s, Tables(), todo, id)
        decreases |todo|
      {
        var m :| m in todo;
        ghost var t := Tables();
        ReadyToPrune(Settings(), s, t, todo, m, id);
        PruneSwap(m, id);
        PruneStep(s, t, Tables(), todo, m, id);
        todo := todo - {m};
      }
      PrunedAll(s, Tables(), id);
    }

    method PruneSwap(m: string, id: nat)
      requires m in active && Distinct(active[m].waiters)
      requires forall w | w in active[m].waiters :: w.model == m
      requires id in Ids(active[m].waiters) ==> Get(reserved, m) > 0
      modifies this`active, this`reserved, this`place
      ensures PrunesSwap(old(Tables()), Tables(), m, id)
    {
      var sw := active[m];
      var filtered := FilterOut(sw.waiters, id);
      SwapFiltered(sw.waiters, m, id, old(reserved), old(place));
      active := active[m := sw.(waiters := filtered)];
    }

    // ---- A swap is done ----

    method OnSwapDone(m: string, ok: bool) returns (ghost e: Event)
      requires Valid()
      modifies this
      ensures e.SwapDone? && e.m == m && e.ok == ok
      ensures Tables() == Step(Settings(), old(Tables()), e)
      ensures Valid()
    {
      ghost var s := Tables();
      e := SwapDone(m, ok, [], []);
      if m in active {
        var sw := active[m];
        TakeSwap(Settings(), s, m);
        active := active - {m};
        ghost var s1 := Tables();
        ghost var grants := AnswerWaiters(sw.waiters, m, ok, active);
        SettleKeeps(Settings(), s1, sw.waiters, m, ok, grants, |sw.waiters|);
        assert sw.waiters[|sw.waiters|..] == [];
        SettledCarries(Settings(), Tables(), m);
        ghost var obs := DrainQueue();
        e := SwapDone(m, ok, grants, obs);
      }
      StepKeeps(Settings(), s, e);
    }

    /** The waiters of a finished swap get a handler, or its error. The other swaps are those of
        the table or, while the table is given up, the ones not dealt with yet. */
    method AnswerWaiters(waiters: seq<Req>, m: string, ok: bool, ghost others: map<string, Swap>)
      returns (ghost grants: seq<bool>)
      requires Settling(Settings(), Tables().(active := others), waiters, m)
      modifies this`reserved, this`inFlight, this`place
      ensures Tables() == Scheduler.Settle(old(Tables()), waiters, ok, grants, |waiters|)
    {
      ghost var s := Tables();
      grants := [];
      for k := 0 to |waiters|
        invariant |grants| == k
        invariant active == s.active && queued == s.queued && seen == s.seen
        invariant Tables() == Scheduler.Settle(s, waiters, ok, grants, k)
      {
        SettleKeeps(Settings(), s.(active := others), waiters, m, ok, grants, k);
        SettleElsewhere(s, others, waiters, ok, grants, k);
        HeadOf(waiters, k);
        InHandIsReserved(Settings(), Tables().(active := others), waiters[k], waiters[k + 1..]);
        ghost var granted := AnswerWaiter(waiters[k], ok);
        SettlePrefix(s, waiters, ok, grants, granted, k);
        grants := grants + [granted];
      }
    }

    method AnswerWaiter(w: Req, ok: bool) returns (ghost granted: bool)
      requires Get(reserved, w.model) > 0
      modifies this`reserved, this`inFlight, this`place
      ensures Tables() == if ok then Grant(old(Tables()), w, granted) else Leave(old(Tables()), w, Failed)
    {
      granted := false;
      if ok {
        granted := GrantHandler(w);
      } else {
        GrantError(w);
      }
    }

    // ---- A handler is done ----

    method OnServeDone(m: string) returns (ghost e: Event)
      requires Valid() && Get(inFlight, m) > 0
      modifies this
      ensures e.ServeDone? && e.m == m
      ensures Tables() == Step(Settings(), old(Tables()), e)
      ensures Valid()
    {
      ghost var s := Tables();
      assert SlotsOf(Settings(), s, [], m);
      ServedCarries(Settings(), s, m);
      ghost var obs := Finished(m);
      e := ServeDone(m, obs);
      ServeDoneKeeps(Settings(), s, m, obs);
    }

    /** One request fewer is in flight; the last one lets the queue move. */
    method Finished(m: string) returns (ghost obs: seq<Obs>)
      requires Get(inFlight, m) > 0 && Get(reserved, m) > 0
      requires Carrying(Settings(), Served(Tables(), m), [])
      modifies this
      ensures Tables() == Scheduler.OnServeDone(Settings(), old(Tables()), m, obs)
    {
      ghost var s := Tables();
      inFlight := inFlight[m := Get(inFlight, m) - 1];
      Release(m);
      obs := [];
      if inFlight[m] <= 0 {
        inFlight := inFlight - {m};
        assert Tables() == Served(s, m);
        obs := DrainQueue();
      }
    }

    // ---- Models are unloaded ----

    /** The processes have stopped when this returns; the tables do not record that. */
    method StopProcesses(targets: seq<string>) {
    }

    method OnUnload(targets: seq<string>) returns (ghost e: Event)
      requires Valid()
      modifies this
      ensures e.Unload? && e.targets == Elems(targets)
      ensures Tables() == Step(Settings(), old(Tables()), e)
      ensures Valid()
    {
      ghost var s := Tables();
      var targetSet: set<string> := {};
      for i := 0 to |targets|
        invariant targetSet == Elems(targets[..i])
      {
        assert targets[..i + 1] == targets[..i] + [targets[i]];
        targetSet := targetSet + {targets[i]};
      }
      assert targets[..|targets|] == targets;
      UnloadSwaps(targetSet);
      UnloadQueue(s, targetSet);
      DroppedAll(Settings(), s, Tables(), targetSet);
      StopProcesses(targets);
      ghost var obs := DrainQueue();
      e := Unload(targetSet, obs);
      StepKeeps(Settings(), s, e);
    }

    /** The waiters of the targets' swaps are turned away, and the swaps forgotten. */
    method UnloadSwaps(targets: set<string>)
      requires Valid()
      modifies this`active, this`reserved, this`inFlight, this`place
      ensures SwapsGone(Settings(), old(Tables()), Tables(), targets)
    {
      ghost var s := Tables();
      var todo := targets;
      NoSwapsGone(Settings(), s, targets);
      while todo != {}
        invariant todo <= targets
        invariant SwapsGone(Settings(), s, Tables(), targets - todo)
        decreases |todo|
      {
        var id :| id in todo;
        UnloadSwap(s, targets - todo, id);
        assert targets - (todo - {id}) == (targets - todo) + {id};
        todo := todo - {id};
      }
      assert targets - {} == targets;
    }

    method UnloadSwap(ghost s: Sched, ghost gone: set<string>, id: string)
      requires SwapsGone(Settings(), s, Tables(), gone)
      modifies this`active, this`reserved, this`inFlight, this`place
      ensures SwapsGone(Settings(), s, Tables(), gone + {id})
    {
      ghost var t := Tables();
      if id in active {
        var sw := active[id];
        TakeSwap(Settings(), t, id);
        active := active - {id};
        ghost var grants := AnswerWaiters(sw.waiters, id, false, active);
        SwapGone(Settings(), s, t, gone, id, grants);
      } else {
        AbsentSwapGone(Settings(), s, t, gone, id);
      }
    }

    /** Queued requests for the targets are turned away; the others keep their order. */
    method UnloadQueue(ghost s: Sched, targets: set<string>)
      requires SwapsGone(Settings(), s, Tables(), targets)
      modifies this`queued, this`reserved, this`place
      ensures QueueGone(Settings(), old(Tables()), Tables(), targets, |old(queued)|)
    {
      ghost var t := Tables();
      var pending := queued;
      queued := [];
      TakeQueueInHand(Settings(), t);
      NoQueueGone(Settings(), t, targets);
      for k := 0 to |pending|
        invariant pending == t.queued && active == t.active && inFlight == t.inFlight && seen == t.seen
        invariant QueueGone(Settings(), t, Tables(), targets, k)
      {
        ghost var u := Tables();
        HeadOf(pending, k);
        InHandIsReserved(Settings(), u, pending[k], pending[k + 1..]);
        if pending[k].model in targets {
          QueueGoneTarget(Settings(), t, u, targets, k);
          GrantError(pending[k]);
        } else {
          QueueGoneOther(Settings(), t, u, targets, k);
          queued := queued + [pending[k]];
        }
      }
    }

    // ---- Shutdown ----

    /** Everybody still held is turned away. The lists are left as they are: nothing comes after. */
    method OnShutdown()
      requires Valid()
      modifies this`reserved, this`inFlight, this`place
      ensures Tables() == Scheduler.OnShutdown(old(Tables()))
    {
      ghost var s := Tables();
      ShutSwaps();
      ghost var all := s.active.Keys + set r | r in s.queued :: r.model;
      ghost var t := Forgetting(s.active.Keys);
      AllSwapsGone(Settings(), s, t, all);
      ShutQueue(t, all);
      ShutIsShutdown(Settings(), s, t, Tables(), all);
    }

    method ShutSwaps()
      requires Carrying(Settings(), Tables(), [])
      modifies this`reserved, this`inFlight, this`place
      ensures SwapsGone(Settings(), old(Tables()), Forgetting(active.Keys), active.Keys)
    {
      ghost var s := Tables();
      var todo := active.Keys;
      NoSwapsGone(Settings(), s, todo);
      while todo != {}
        invariant todo <= active.Keys && active == s.active && queued == s.queued
        invariant SwapsGone(Settings(), s, Forgetting(active.Keys - todo), active.Keys - todo)
        decreases |todo|
      {
        var id :| id in todo;
        ShutSwap(s, active.Keys - todo, id);
        assert active.Keys - (todo - {id}) == (active.Keys - todo) + {id};
        todo := todo - {id};
      }
      assert active.Keys - {} == active.Keys;
    }

    /** The tables as if the swaps of these models were gone. */
    ghost function Forgetting(gone: set<string>): Sched
      reads this
    {
      Tables().(active := active - gone)
    }

    method ShutSwap(ghost s: Sched, ghost gone: set<string>, id: string)
      requires active == s.active && queued == s.queued && id in active && id !in gone
      requires SwapsGone(Settings(), s, Forgetting(gone), gone)
      modifies this`reserved, this`inFlight, this`place
      ensures SwapsGone(Settings(), s, Forgetting(gone + {id}), gone + {id})
    {
      ghost var t := Forgetting(gone);
      var sw := active[id];
      TakeSwap(Settings(), t, id);
      ghost var others := t.active - {id};
      ghost var was := Tables();
      ghost var grants := AnswerWaiters(sw.waiters, id, false, others);
      SettleElsewhere(was, others, sw.waiters, false, grants, |sw.waiters|);
      SwapGone(Settings(), s, t, gone, id, grants);
      assert active - (gone + {id}) == others;
    }

    method ShutQueue(ghost t: Sched, ghost all: set<string>)
      requires t == Tables().(active := map[]) && Carrying(Settings(), t, [])
      requires forall r | r in queued :: r.model in all
      modifies this`reserved, this`place
      ensures QueueGone(Settings(), t, Tables().(active := map[], queued := []), all, |queued|)
    {
      TakeQueueInHand(Settings(), t);
      NoQueueGone(Settings(), t, all);
      for k := 0 to |queued|
        invariant QueueGone(Settings(), t, Tables().(active := map[], queued := []), all, k)
      {
        ghost var u := Tables().(active := map[], queued := []);
        HeadOf(queued, k);
        InHandIsReserved(Settings(), u, queued[k], queued[k + 1..]);
        QueueGoneTarget(Settings(), t, u, all, k);
        GrantError(queued[k]);
      }
    }
  }
}
