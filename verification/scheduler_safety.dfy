/** What every run of the scheduler keeps.

    Each part of the invariant is shown for the handling of one request, with the requests that
    are still to be handled "in hand", then for whole events, then for whole runs. */
module SchedulerSafety {
  import opened Scheduler

  // ---- Counting ----

  lemma {:induction false} CountConcat(xs: seq<Req>, ys: seq<Req>, m: string)
    ensures Count(xs + ys, m) == Count(xs, m) + Count(ys, m)
  {
    if ys == [] {
      assert xs + ys == xs;
    } else {
      var init := ys[..|ys| - 1];
      CountConcat(xs, init, m);
      assert (xs + ys)[..|xs + ys| - 1] == xs + init;
    }
  }

  lemma CountOne(r: Req, m: string)
    ensures Count([r], m) == if r.model == m then 1 else 0
  {
    assert [r][..0] == [];
    assert Count([], m) == 0;
  }

  lemma CountCons(r: Req, rest: seq<Req>, m: string)
    ensures Count([r] + rest, m) == Count(rest, m) + if r.model == m then 1 else 0
  {
    CountConcat([r], rest, m);
    CountOne(r, m);
  }

  lemma {:induction false} CountAllOneModel(xs: seq<Req>, n: string, m: string)
    requires forall r | r in xs :: r.model == n
    ensures Count(xs, m) == if m == n then |xs| else 0
  {
    if xs != [] {
      CountAllOneModel(xs[..|xs| - 1], n, m);
    }
  }

  lemma {:induction false} CountNotFor(xs: seq<Req>, targets: set<string>, m: string)
    ensures Count(NotFor(xs, targets), m) == if m in targets then 0 else Count(xs, m)
  {
    if xs != [] {
      CountNotFor(xs[..|xs| - 1], targets, m);
      CountConcat(NotFor(xs[..|xs| - 1], targets), [xs[|xs| - 1]], m);
      CountOne(xs[|xs| - 1], m);
    }
  }

  lemma {:induction false} CountWithout(xs: seq<Req>, q: Req, m: string)
    requires Distinct(xs) && q in xs
    ensures Count(xs, m) == Count(Without(xs, q.id), m) + if q.model == m then 1 else 0
  {
    var init := xs[..|xs| - 1];
    var last := xs[|xs| - 1];
    assert xs == init + [last];
    assert Distinct(init) by {
      assert forall i :: 0 <= i < |init| ==> init[i] == xs[i];
    }
    CountConcat(Without(init, q.id), [last], m);
    CountOne(last, m);
    if last.id == q.id {
      assert last == q;
      assert forall i :: 0 <= i < |init| ==> xs[i].id != last.id;
      WithoutAbsent(init, q.id);
    } else {
      CountWithout(init, q, m);
    }
  }

  lemma {:induction false} WithoutAbsent(xs: seq<Req>, id: nat)
    requires forall r | r in xs :: r.id != id
    ensures Without(xs, id) == xs
  {
    if xs != [] {
      WithoutAbsent(xs[..|xs| - 1], id);
      assert xs == xs[..|xs| - 1] + [xs[|xs| - 1]];
    }
  }

  /** No identity occurs twice. */
  ghost predicate Distinct(xs: seq<Req>) {
    forall i, j :: 0 <= i < |xs| && 0 <= j < |xs| && xs[i].id == xs[j].id ==> i == j
  }

  // ---- Conservation of slots ----

  /** Every slot is accounted for: a request of m in flight, in the queue, waiting for m's swap,
      or in hand. */
  ghost predicate SlotsOf(p: Params, s: Sched, hand: seq<Req>, m: string) {
    && Get(s.reserved, m) == Get(s.inFlight, m) + Count(s.queued, m) + Waiters(s.active, m) + Count(hand, m)
    && (m in s.reserved ==> 0 < s.reserved[m] <= Limit(p, m))
    && (m in s.inFlight ==> s.inFlight[m] > 0)
  }

  ghost predicate Slots(p: Params, s: Sched, hand: seq<Req>) {
    forall m :: SlotsOf(p, s, hand, m)
  }

  lemma LeaveSlots(p: Params, s: Sched, r: Req, rest: seq<Req>, to: Place)
    requires Slots(p, s, [r] + rest)
    ensures Slots(p, Leave(s, r, to), rest)
  {
    forall m
      ensures SlotsOf(p, Leave(s, r, to), rest, m)
    {
      assert SlotsOf(p, s, [r] + rest, m);
      CountCons(r, rest, m);
    }
  }

  lemma GrantSlots(p: Params, s: Sched, r: Req, rest: seq<Req>, granted: bool)
    requires Slots(p, s, [r] + rest)
    ensures Slots(p, Grant(s, r, granted), rest)
  {
    if granted {
      forall m
        ensures SlotsOf(p, Grant(s, r, granted), rest, m)
      {
        assert SlotsOf(p, s, [r] + rest, m);
        CountCons(r, rest, m);
      }
    } else {
      LeaveSlots(p, s, r, rest, Gone);
    }
  }

  lemma JoinSlots(p: Params, s: Sched, r: Req, rest: seq<Req>)
    requires Slots(p, s, [r] + rest) && r.model in s.active
    ensures Slots(p, Join(s, r), rest)
  {
    forall m
      ensures SlotsOf(p, Join(s, r), rest, m)
    {
      assert SlotsOf(p, s, [r] + rest, m);
      CountCons(r, rest, m);
    }
  }

  lemma StartSlots(p: Params, s: Sched, r: Req, rest: seq<Req>, evict: seq<string>)
    requires Slots(p, s, [r] + rest) && r.model !in s.active
    ensures Slots(p, Start(s, r, evict), rest)
  {
    forall m
      ensures SlotsOf(p, Start(s, r, evict), rest, m)
    {
      assert SlotsOf(p, s, [r] + rest, m);
      CountCons(r, rest, m);
    }
  }

  /** Wherever in the queue the request goes. */
  lemma QueueSlots(p: Params, s: Sched, r: Req, rest: seq<Req>, k: nat, place: map<nat, Place>)
    requires Slots(p, s, [r] + rest) && k <= |s.queued|
    ensures Slots(p, s.(queued := s.queued[..k] + [r] + s.queued[k..], place := place), rest)
  {
    var t := s.(queued := s.queued[..k] + [r] + s.queued[k..], place := place);
    forall m
      ensures SlotsOf(p, t, rest, m)
    {
      assert SlotsOf(p, s, [r] + rest, m);
      CountCons(r, rest, m);
      CountConcat(s.queued[..k] + [r], s.queued[k..], m);
      CountConcat(s.queued[..k], [r], m);
      CountOne(r, m);
      CountConcat(s.queued[..k], s.queued[k..], m);
      assert s.queued == s.queued[..k] + s.queued[k..];
    }
  }

  // ---- Swaps ----

  /** Every swap is listed under its model, and requests for that model wait for it. */
  ghost predicate Manned(s: Sched) {
    forall m | m in s.active :: ManFor(s.active[m], m)
  }

  ghost predicate ManFor(sw: Swap, m: string) {
    sw.modelID == m && forall w | w in sw.waiters :: w.model == m
  }

  // ---- Swaps do not disturb each other or busy models ----

  ghost predicate SwapOk(s: Sched, m: string)
    requires m in s.active
  {
    && m !in s.active[m].evict
    && (forall x | x in s.active[m].evict :: Get(s.inFlight, x) <= 0)
  }

  ghost predicate Apart(s: Sched, m: string, n: string)
    requires m in s.active && n in s.active
  {
    && n !in s.active[m].evict
    && (forall x | x in s.active[m].evict :: x !in s.active[n].evict)
  }

  /** A busy model is in no evict set; evict sets are disjoint; no target is in an evict set. */
  ghost predicate Swaps(s: Sched) {
    && (forall m | m in s.active :: SwapOk(s, m))
    && (forall m, n | m in s.active && n in s.active && m != n :: Apart(s, m, n))
  }

  /** Under a planner that evicts running models only and never its target, swaps are kept so. */
  ghost predicate Peaceful(p: Params, s: Sched) {
    PlansWell(p.plan) ==> Swaps(s)
  }

  /** No active swap is stopping the model. */
  ghost predicate Spared(s: Sched, model: string) {
    forall m | m in s.active :: model !in s.active[m].evict
  }

  lemma GrantSwaps(s: Sched, r: Req, granted: bool)
    requires Swaps(s) && Spared(s, r.model)
    ensures Swaps(Grant(s, r, granted))
  {
    var t := Grant(s, r, granted);
    forall m | m in t.active
      ensures SwapOk(t, m)
    {
      assert SwapOk(s, m);
    }
    forall m, n | m in t.active && n in t.active && m != n
      ensures Apart(t, m, n)
    {
      assert Apart(s, m, n);
    }
  }

  lemma JoinSwaps(s: Sched, r: Req)
    requires Swaps(s) && r.model in s.active
    ensures Swaps(Join(s, r))
  {
    var t := Join(s, r);
    forall m | m in t.active
      ensures SwapOk(t, m)
    {
      assert SwapOk(s, m);
    }
    forall m, n | m in t.active && n in t.active && m != n
      ensures Apart(t, m, n)
    {
      assert Apart(s, m, n);
    }
  }

  lemma StartSwaps(s: Sched, r: Req, evict: seq<string>)
    requires Swaps(s) && r.model !in s.active && r.model !in evict
    requires !Collides(r.model, evict, s.active) && !Busy(evict, s.inFlight)
    ensures Swaps(Start(s, r, evict))
  {
    var t := Start(s, r, evict);
    forall m | m in t.active
      ensures SwapOk(t, m)
    {
      if m != r.model {
        assert SwapOk(s, m);
      }
    }
    forall m, n | m in t.active && n in t.active && m != n
      ensures Apart(t, m, n)
    {
      if m == r.model {
        assert !CollidesWith(r.model, evict, n, s.active[n].evict);
      } else if n == r.model {
        assert !CollidesWith(r.model, evict, m, s.active[m].evict);
      } else {
        assert Apart(s, m, n);
      }
    }
  }

  lemma NoCollisionSpares(s: Sched, m: string, evict: seq<string>)
    requires !Collides(m, evict, s.active) && m !in s.active
    ensures Spared(s, m)
  {
    forall n | n in s.active
      ensures m !in s.active[n].evict
    {
      assert !CollidesWith(m, evict, n, s.active[n].evict);
    }
  }

  // ---- One place per request ----

  /** The lists and the record of places agree, so no identity is in two lists, and one that was
      answered or pruned is in none. Requests in hand are recorded at `at`. */
  ghost predicate Places(s: Sched, hand: seq<Req>, at: Place) {
    && Distinct(s.queued) && Distinct(hand)
    && (forall m | m in s.active :: Distinct(s.active[m].waiters))
    && (forall id | id in Ids(s.queued) :: id in s.place && s.place[id] == Pending && id !in Ids(hand))
    && (forall id | id in Ids(hand) :: id in s.place && s.place[id] == at)
    && (forall m, id | m in s.active && id in Ids(s.active[m].waiters) ::
          id in s.place && s.place[id] == Waiting(m) && id !in Ids(hand))
    && (forall id | id in s.place && s.place[id] == Pending :: id in Ids(s.queued) || id in Ids(hand))
    && (forall id | id in s.place && s.place[id].Waiting? ::
          || id in Ids(hand)
          || (s.place[id].model in s.active && id in Ids(s.active[s.place[id].model].waiters)))
    && (forall id | id in s.place :: id < s.seen)
  }

  lemma IdsConcat(xs: seq<Req>, ys: seq<Req>)
    ensures Ids(xs + ys) == Ids(xs) + Ids(ys)
  {
  }

  lemma DistinctRest(r: Req, rest: seq<Req>)
    requires Distinct([r] + rest)
    ensures Distinct(rest) && r.id !in Ids(rest)
    ensures Ids([r] + rest) == {r.id} + Ids(rest)
  {
    var all := [r] + rest;
    forall i | 0 <= i < |rest|
      ensures all[i + 1] == rest[i] && rest[i].id != r.id
    {
      assert all[0] == r;
    }
    IdsConcat([r], rest);
    IdsOne(r);
  }

  lemma IdsOne(r: Req)
    ensures Ids([r]) == {r.id}
  {
    assert r in [r];
  }

  lemma DistinctSnoc(xs: seq<Req>, r: Req)
    requires Distinct(xs) && r.id !in Ids(xs)
    ensures Distinct(xs + [r]) && Ids(xs + [r]) == Ids(xs) + {r.id}
  {
    assert forall x | x in xs :: x.id in Ids(xs);
    IdsConcat(xs, [r]);
    IdsOne(r);
  }

  /** A request in hand gets an answer, or its caller is gone. */
  lemma AnswerPlaces(s: Sched, t: Sched, r: Req, rest: seq<Req>, at: Place, to: Place)
    requires Places(s, [r] + rest, at)
    requires Final(to)
    requires t.queued == s.queued && t.active == s.active && t.seen == s.seen && t.place == s.place[r.id := to]
    ensures Places(t, rest, at)
  {
    DistinctRest(r, rest);
  }

  lemma JoinPlaces(s: Sched, r: Req, rest: seq<Req>)
    requires Places(s, [r] + rest, Pending) && r.model in s.active
    ensures Places(Join(s, r), rest, Pending)
  {
    DistinctRest(r, rest);
    var ws := s.active[r.model].waiters;
    assert r.id !in Ids(ws);
    DistinctSnoc(ws, r);
  }

  lemma StartPlaces(s: Sched, r: Req, rest: seq<Req>, evict: seq<string>)
    requires Places(s, [r] + rest, Pending) && r.model !in s.active
    ensures Places(Start(s, r, evict), rest, Pending)
  {
    DistinctRest(r, rest);
    IdsOne(r);
  }

  lemma DistinctInsert(xs: seq<Req>, k: nat, r: Req)
    requires Distinct(xs) && r.id !in Ids(xs) && k <= |xs|
    ensures Distinct(xs[..k] + [r] + xs[k..]) && Ids(xs[..k] + [r] + xs[k..]) == Ids(xs) + {r.id}
  {
    var ys := xs[..k] + [r] + xs[k..];
    forall i, j | 0 <= i < |ys| && 0 <= j < |ys| && ys[i].id == ys[j].id
      ensures i == j
    {
      assert forall x | x in xs :: x.id in Ids(xs);
      assert i != k ==> ys[i] == xs[if i < k then i else i - 1];
      assert j != k ==> ys[j] == xs[if j < k then j else j - 1];
    }
    IdsConcat(xs[..k] + [r], xs[k..]);
    IdsConcat(xs[..k], [r]);
    IdsConcat(xs[..k], xs[k..]);
    assert xs == xs[..k] + xs[k..];
    IdsOne(r);
  }

  lemma QueuePlaces(s: Sched, r: Req, rest: seq<Req>, k: nat)
    requires Places(s, [r] + rest, Pending) && k <= |s.queued|
    ensures Places(s.(queued := s.queued[..k] + [r] + s.queued[k..], place := s.place[r.id := Pending]), rest, Pending)
  {
    DistinctRest(r, rest);
    DistinctInsert(s.queued, k, r);
  }

  // ---- Queue order ----

  /** Strictly higher priority, or the same and earlier arrival. */
  ghost predicate Before(p: Params, a: Req, b: Req) {
    var x, y := Get(p.priority, a.model), Get(p.priority, b.model);
    x > y || (x == y && a.id < b.id)
  }

  ghost predicate InOrder(p: Params, xs: seq<Req>) {
    forall i, j :: 0 <= i < j < |xs| ==> Before(p, xs[i], xs[j])
  }

  /** xs is ys with some elements left out. */
  ghost predicate Subsequence<T(!new)>(xs: seq<T>, ys: seq<T>) {
    xs == [] ||
    (ys != [] &&
     (Subsequence(xs, ys[..|ys| - 1])
      || (xs[|xs| - 1] == ys[|ys| - 1] && Subsequence(xs[..|xs| - 1], ys[..|ys| - 1]))))
  }

  lemma SubsequenceSnoc<T(!new)>(xs: seq<T>, ys: seq<T>, y: T)
    requires Subsequence(xs, ys)
    ensures Subsequence(xs, ys + [y]) && Subsequence(xs + [y], ys + [y])
  {
    assert (ys + [y])[..|ys|] == ys && (xs + [y])[..|xs|] == xs;
  }

  lemma {:induction false} WithoutIsSubsequence(xs: seq<Req>, id: nat)
    ensures Subsequence(Without(xs, id), xs)
    ensures Ids(Without(xs, id)) == Ids(xs) - {id}
    ensures forall r :: r in Without(xs, id) <==> r in xs && r.id != id
  {
    if xs != [] {
      var init := xs[..|xs| - 1];
      var last := xs[|xs| - 1];
      WithoutIsSubsequence(init, id);
      assert xs == init + [last];
      SubsequenceSnoc(Without(init, id), init, last);
      IdsConcat(init, [last]);
      IdsOne(last);
      IdsConcat(Without(init, id), [last]);
    }
  }

  lemma {:induction false} NotForIsSubsequence(xs: seq<Req>, targets: set<string>)
    ensures Subsequence(NotFor(xs, targets), xs)
    ensures forall r :: r in NotFor(xs, targets) <==> r in xs && r.model !in targets
  {
    if xs != [] {
      var init := xs[..|xs| - 1];
      var last := xs[|xs| - 1];
      NotForIsSubsequence(init, targets);
      assert xs == init + [last];
      SubsequenceSnoc(NotFor(init, targets), init, last);
    }
  }

  /** A subsequence of a queue in order is in order, and repeats nothing. */
  lemma {:induction false} SubsequenceInOrder(p: Params, xs: seq<Req>, ys: seq<Req>)
    requires Subsequence(xs, ys) && InOrder(p, ys)
    ensures InOrder(p, xs) && forall r | r in xs :: r in ys
    decreases |ys|
  {
    if xs != [] {
      var yi := ys[..|ys| - 1];
      assert InOrder(p, yi);
      if Subsequence(xs, yi) {
        SubsequenceInOrder(p, xs, yi);
      } else {
        var xi := xs[..|xs| - 1];
        SubsequenceInOrder(p, xi, yi);
        assert xs == xi + [xs[|xs| - 1]];
        forall i | 0 <= i < |xi|
          ensures Before(p, xs[i], xs[|xs| - 1])
        {
          assert xi[i] in yi;
          var k :| 0 <= k < |yi| && yi[k] == xi[i];
          assert Before(p, ys[k], ys[|ys| - 1]);
        }
      }
    }
  }

  lemma {:induction false} SubsequenceDistinct(xs: seq<Req>, ys: seq<Req>)
    requires Subsequence(xs, ys) && Distinct(ys)
    ensures Distinct(xs) && forall r | r in xs :: r in ys
    decreases |ys|
  {
    if xs != [] {
      var yi := ys[..|ys| - 1];
      var last := ys[|ys| - 1];
      assert ys == yi + [last];
      assert forall i :: 0 <= i < |yi| ==> yi[i] == ys[i] && yi[i].id != last.id;
      assert Distinct(yi);
      if Subsequence(xs, yi) {
        SubsequenceDistinct(xs, yi);
      } else {
        var xi := xs[..|xs| - 1];
        SubsequenceDistinct(xi, yi);
        assert xs == xi + [last];
        assert last.id !in Ids(xi);
        DistinctSnoc(xi, last);
      }
    }
  }

  lemma EnqueueInOrder(p: Params, xs: seq<Req>, r: Req)
    requires InOrder(p, xs) && forall q | q in xs :: q.id < r.id
    ensures var k := QueuePlace(p, xs, r.model); InOrder(p, xs[..k] + [r] + xs[k..])
  {
    var k := QueuePlace(p, xs, r.model);
    var ys := xs[..k] + [r] + xs[k..];
    forall i, j | 0 <= i < j < |ys|
      ensures Before(p, ys[i], ys[j])
    {
      if i == k {
        assert ys[j] == xs[j - 1];
        if j - 1 > k {
          assert Before(p, xs[k], xs[j - 1]);
        }
      } else if j == k {
        assert ys[i] == xs[i] && xs[i] in xs;
      } else {
        assert ys[i] == xs[if i < k then i else i - 1];
        assert ys[j] == xs[if j < k then j else j - 1];
      }
    }
  }

  // ---- The whole invariant ----

  ghost predicate Inv(p: Params, s: Sched) {
    && Carrying(p, s, [])
    && InOrder(p, s.queued)
  }

  lemma NewIsInv(p: Params)
    ensures Inv(p, NEW)
  {
    forall m
      ensures SlotsOf(p, NEW, [], m)
    {
    }
  }

  // ---- Handling the request in hand ----

  /** The tables are in order, with some requests still in hand. */
  ghost predicate Carrying(p: Params, s: Sched, hand: seq<Req>) {
    Slots(p, s, hand) && Manned(s) && Peaceful(p, s) && Places(s, hand, Pending)
  }

  lemma LeaveCarries(p: Params, s: Sched, r: Req, rest: seq<Req>, to: Place)
    requires Carrying(p, s, [r] + rest) && to in {Failed, Gone}
    ensures Carrying(p, Leave(s, r, to), rest)
  {
    LeaveSlots(p, s, r, rest, to);
    AnswerPlaces(s, Leave(s, r, to), r, rest, Pending, to);
    SamePeace(p, s, Leave(s, r, to));
  }

  lemma SamePeace(p: Params, s: Sched, t: Sched)
    requires Peaceful(p, s) && t.active == s.active && t.inFlight == s.inFlight
    ensures Peaceful(p, t)
  {
    if PlansWell(p.plan) {
      SameSwaps(s, t);
    }
  }

  lemma SameSwaps(s: Sched, t: Sched)
    requires Swaps(s) && t.active == s.active && t.inFlight == s.inFlight
    ensures Swaps(t)
  {
    forall m | m in t.active
      ensures SwapOk(t, m)
    {
      assert SwapOk(s, m);
    }
    forall m, n | m in t.active && n in t.active && m != n
      ensures Apart(t, m, n)
    {
      assert Apart(s, m, n);
    }
  }

  lemma GrantCarries(p: Params, s: Sched, r: Req, rest: seq<Req>, granted: bool)
    requires Carrying(p, s, [r] + rest) && (PlansWell(p.plan) ==> Spared(s, r.model))
    ensures Carrying(p, Grant(s, r, granted), rest)
  {
    if granted {
      GrantSlots(p, s, r, rest, granted);
      if PlansWell(p.plan) {
        GrantSwaps(s, r, granted);
      }
      AnswerPlaces(s, Grant(s, r, granted), r, rest, Pending, Serving(r.model));
    } else {
      LeaveCarries(p, s, r, rest, Gone);
    }
  }

  lemma JoinCarries(p: Params, s: Sched, r: Req, rest: seq<Req>)
    requires Carrying(p, s, [r] + rest) && r.model in s.active
    ensures Carrying(p, Join(s, r), rest)
  {
    assert forall x | x in [r] :: x.model == r.model;
    JoinSlots(p, s, r, rest);
    if PlansWell(p.plan) {
      JoinSwaps(s, r);
    }
    JoinPlaces(s, r, rest);
  }

  lemma StartCarries(p: Params, s: Sched, r: Req, rest: seq<Req>, evict: seq<string>)
    requires Carrying(p, s, [r] + rest) && r.model !in s.active && (PlansWell(p.plan) ==> r.model !in evict)
    requires !Collides(r.model, evict, s.active) && !Busy(evict, s.inFlight)
    ensures Carrying(p, Start(s, r, evict), rest)
  {
    StartSlots(p, s, r, rest, evict);
    if PlansWell(p.plan) {
      StartSwaps(s, r, evict);
    }
    StartPlaces(s, r, rest, evict);
  }

  lemma QueueCarries(p: Params, s: Sched, r: Req, rest: seq<Req>, k: nat)
    requires Carrying(p, s, [r] + rest) && k <= |s.queued|
    ensures Carrying(p, s.(queued := s.queued[..k] + [r] + s.queued[k..], place := s.place[r.id := Pending]), rest)
  {
    var t := s.(queued := s.queued[..k] + [r] + s.queued[k..], place := s.place[r.id := Pending]);
    QueueSlots(p, s, r, rest, k, s.place[r.id := Pending]);
    QueuePlaces(s, r, rest, k);
    SamePeace(p, s, t);
  }

  // ---- Draining ----

  lemma DrainOneCarries(p: Params, s: Sched, r: Req, rest: seq<Req>, o: Obs)
    requires Carrying(p, s, [r] + rest)
    ensures Carrying(p, DrainOne(p, s, r, o), rest)
  {
    if !o.known {
      LeaveCarries(p, s, r, rest, Failed);
    } else if r.model in s.active {
      JoinCarries(p, s, r, rest);
    } else {
      var evict := p.plan(r.model, RunningSet(s.active, o.live, r.model));
      match Decide(p, s, r.model, o)
      case Serve =>
        NoCollisionSpares(s, r.model, evict);
        GrantCarries(p, s, r, rest, o.granted);
      case Wait =>
        QueueCarries(p, s, r, rest, |s.queued|);
        WaitIsQueued(s, r, rest);
      case Begin(_) =>
        StartCarries(p, s, r, rest, evict);
    }
  }

  lemma WaitIsQueued(s: Sched, r: Req, rest: seq<Req>)
    requires Places(s, [r] + rest, Pending)
    ensures s.(queued := s.queued + [r]) ==
            s.(queued := s.queued[..|s.queued|] + [r] + s.queued[|s.queued|..], place := s.place[r.id := Pending])
  {
    DistinctRest(r, rest);
    assert r.id in Ids([r] + rest);
    assert s.place[r.id := Pending] == s.place;
    assert s.queued[..|s.queued|] + [r] + s.queued[|s.queued|..] == s.queued + [r];
  }

  /** One turn leaves the queue as it was or appends the request. */
  lemma DrainOneQueue(p: Params, s: Sched, r: Req, o: Obs)
    ensures var t := DrainOne(p, s, r, o);
      t.queued == s.queued || t == s.(queued := s.queued + [r])
  {
  }

  lemma {:induction false} DrainCarries(p: Params, s: Sched, pending: seq<Req>, obs: seq<Obs>, k: nat)
    requires k <= |pending| && Carrying(p, s.(queued := []), pending)
    ensures Carrying(p, Drain(p, s, pending, obs, k), pending[k..])
  {
    if k == 0 {
      assert pending[0..] == pending;
    } else {
      DrainCarries(p, s, pending, obs, k - 1);
      assert pending[k - 1..] == [pending[k - 1]] + pending[k..];
      DrainOneCarries(p, Drain(p, s, pending, obs, k - 1), pending[k - 1], pending[k..], Look(obs, k - 1));
    }
  }

  /** The drained queue is a subsequence of the old one. */
  lemma {:induction false} DrainIsSubsequence(p: Params, s: Sched, pending: seq<Req>, obs: seq<Obs>, k: nat)
    requires k <= |pending|
    ensures Subsequence(Drain(p, s, pending, obs, k).queued, pending[..k])
  {
    if k > 0 {
      DrainIsSubsequence(p, s, pending, obs, k - 1);
      var before := Drain(p, s, pending, obs, k - 1);
      DrainOneQueue(p, before, pending[k - 1], Look(obs, k - 1));
      SubsequenceSnoc(before.queued, pending[..k - 1], pending[k - 1]);
      assert pending[..k] == pending[..k - 1] + [pending[k - 1]];
    }
  }

  /** A drain restores the invariant and leaves a subsequence of the queue. */
  lemma DrainQueueKeeps(p: Params, s: Sched, obs: seq<Obs>)
    requires Carrying(p, s, []) && InOrder(p, s.queued)
    ensures Inv(p, DrainQueue(p, s, obs))
    ensures Subsequence(DrainQueue(p, s, obs).queued, s.queued)
  {
    var pending := s.queued;
    TakeQueueInHand(p, s);
    DrainCarries(p, s, pending, obs, |pending|);
    DrainIsSubsequence(p, s, pending, obs, |pending|);
    assert pending[|pending|..] == [] && pending[..|pending|] == pending;
    SubsequenceInOrder(p, DrainQueue(p, s, obs).queued, pending);
  }

  lemma TakeQueueInHand(p: Params, s: Sched)
    requires Carrying(p, s, [])
    ensures Carrying(p, s.(queued := []), s.queued)
  {
    var empty := s.(queued := []);
    forall m
      ensures SlotsOf(p, empty, s.queued, m)
    {
      assert SlotsOf(p, s, [], m);
    }
    SamePeace(p, s, empty);
  }

  // ---- A request ----

  /** What OnRequest does with an admitted request. */
  ghost function Handle(p: Params, s: Sched, r: Req, o: Obs): Sched {
    if r.model in s.active then Join(s, r)
    else
      match Decide(p, s, r.model, o)
      case Serve => Grant(s, r, o.granted)
      case Wait => Enqueue(p, s, r)
      case Begin(evict) => Start(s, r, evict)
  }

  /** The state with the admitted request in hand. */
  function Admit(s: Sched, r: Req): Sched {
    s.(seen := r.id + 1, reserved := Up(s.reserved, r.model), place := s.place[r.id := Pending])
  }

  /** OnRequest either records that the request was not admitted, or admits and handles it. */
  lemma RequestSplits(p: Params, s: Sched, r: Req, admitted: bool, o: Obs)
    ensures var t := OnRequest(p, s, r, admitted, o);
      if o.known && Get(s.reserved, r.model) < Limit(p, r.model) && admitted
      then t == Handle(p, Admit(s, r), r, o)
      else t == Refuse(s, r, Rejected) || t == Refuse(s, r, Gone)
  {
    if o.known && Get(s.reserved, r.model) < Limit(p, r.model) && admitted {
      PlaceTwice(s.place, r.id, Pending, Serving(r.model));
      PlaceTwice(s.place, r.id, Pending, Gone);
      PlaceTwice(s.place, r.id, Pending, Pending);
      PlaceTwice(s.place, r.id, Pending, Waiting(r.model));
    }
  }

  lemma PlaceTwice(place: map<nat, Place>, id: nat, a: Place, b: Place)
    ensures place[id := a][id := b] == place[id := b]
  {
  }

  function Refuse(s: Sched, r: Req, to: Place): Sched {
    s.(seen := r.id + 1, place := s.place[r.id := to])
  }

  lemma RefuseKeeps(p: Params, s: Sched, r: Req, to: Place)
    requires Inv(p, s) && r.id >= s.seen && to in {Rejected, Gone}
    ensures Inv(p, Refuse(s, r, to))
  {
    var t := Refuse(s, r, to);
    SameSlots(p, s, t);
    SamePeace(p, s, t);
    assert r.id !in s.place;
  }

  lemma SameSlots(p: Params, s: Sched, t: Sched)
    requires Slots(p, s, [])
    requires t.active == s.active && t.reserved == s.reserved && t.inFlight == s.inFlight && t.queued == s.queued
    ensures Slots(p, t, [])
  {
    forall m
      ensures SlotsOf(p, t, [], m)
    {
      assert SlotsOf(p, s, [], m);
    }
  }

  lemma AdmitCarries(p: Params, s: Sched, r: Req)
    requires Carrying(p, s, []) && r.id >= s.seen && Get(s.reserved, r.model) < Limit(p, r.model)
    ensures Carrying(p, Admit(s, r), [r])
  {
    AdmitSlots(p, s, r);
    SamePeace(p, s, Admit(s, r));
    AdmitPlaces(s, r);
  }

  lemma AdmitSlots(p: Params, s: Sched, r: Req)
    requires Slots(p, s, []) && Get(s.reserved, r.model) < Limit(p, r.model)
    ensures Slots(p, Admit(s, r), [r])
  {
    forall m
      ensures SlotsOf(p, Admit(s, r), [r], m)
    {
      assert SlotsOf(p, s, [], m);
      CountOne(r, m);
    }
  }

  lemma AdmitPlaces(s: Sched, r: Req)
    requires Places(s, [], Pending) && r.id >= s.seen
    ensures Places(Admit(s, r), [r], Pending)
  {
    IdsOne(r);
    assert r.id !in s.place;
  }

  lemma HandleCarries(p: Params, s: Sched, r: Req, o: Obs)
    requires o.known && Carrying(p, s, [r])
    ensures Carrying(p, Handle(p, s, r, o), [])
  {
    assert [r] + [] == [r];
    if r.model in s.active {
      JoinCarries(p, s, r, []);
    } else {
      var evict := p.plan(r.model, RunningSet(s.active, o.live, r.model));
      match Decide(p, s, r.model, o)
      case Serve =>
        NoCollisionSpares(s, r.model, evict);
        GrantCarries(p, s, r, [], o.granted);
      case Wait =>
        QueueCarries(p, s, r, [], QueuePlace(p, s.queued, r.model));
      case Begin(_) =>
        StartCarries(p, s, r, [], evict);
    }
  }

  lemma HandleKeepsOrder(p: Params, s: Sched, r: Req, o: Obs)
    requires InOrder(p, s.queued) && forall q | q in s.queued :: q.id < r.id
    ensures InOrder(p, Handle(p, s, r, o).queued)
  {
    EnqueueInOrder(p, s.queued, r);
  }

  lemma RequestKeeps(p: Params, s: Sched, r: Req, admitted: bool, o: Obs)
    requires Inv(p, s) && r.id >= s.seen
    ensures Inv(p, OnRequest(p, s, r, admitted, o))
  {
    RequestSplits(p, s, r, admitted, o);
    if o.known && Get(s.reserved, r.model) < Limit(p, r.model) && admitted {
      AdmitCarries(p, s, r);
      HandleCarries(p, Admit(s, r), r, o);
      forall q | q in s.queued
        ensures q.id < r.id
      {
        assert q.id in Ids(s.queued);
      }
      HandleKeepsOrder(p, Admit(s, r), r, o);
    } else {
      RefuseKeeps(p, s, r, Rejected);
      RefuseKeeps(p, s, r, Gone);
    }
  }
}
