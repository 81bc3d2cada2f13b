/** The callers' side: every granted handler reports its end once (internal/router/base.go).

    The scheduler counts requests in flight per model and takes a report for a model on trust. Here
    reports come from handlers that were granted and have not reported yet. The counts are then the
    numbers of such handlers, so a report always finds a count to take from, and the theorems on
    all runs hold for every run of callers. */
module SchedulerHandlers {
  import opened Scheduler
  import opened SchedulerSafety
  import opened SchedulerRuns
  import opened SchedulerLaws

  /** The handlers granted for a model that have not reported. */
  ghost function Handlers(s: Sched, done: set<nat>, m: string): set<nat> {
    set id | id in s.place && s.place[id] == Serving(m) && id !in done
  }

  ghost predicate CountedOf(s: Sched, done: set<nat>, m: string) {
    |Handlers(s, done, m)| == Get(s.inFlight, m)
  }

  ghost predicate Counted(s: Sched, done: set<nat>) {
    && (forall id | id in done :: id in s.place && s.place[id].Serving?)
    && forall m :: CountedOf(s, done, m)
  }

  /** The same requests are served, and counted so. */
  ghost predicate SameServed(s: Sched, t: Sched) {
    && t.inFlight == s.inFlight
    && (forall id | id in s.place && s.place[id].Serving? :: id in t.place && t.place[id] == s.place[id])
    && (forall id | id in t.place && t.place[id].Serving? :: id in s.place && s.place[id] == t.place[id])
  }

  lemma SameServedCounted(s: Sched, t: Sched, done: set<nat>)
    requires SameServed(s, t) && Counted(s, done)
    ensures Counted(t, done)
  {
    forall m
      ensures CountedOf(t, done, m)
    {
      assert CountedOf(s, done, m);
      assert Handlers(t, done, m) == Handlers(s, done, m);
    }
  }

  lemma GrantCounted(s: Sched, r: Req, granted: bool, done: set<nat>)
    requires Counted(s, done) && Open(s, r.id)
    ensures Counted(Grant(s, r, granted), done)
  {
    var t := Grant(s, r, granted);
    if granted {
      forall m
        ensures CountedOf(t, done, m)
      {
        OneMoreHandler(s, r, done, m);
      }
    } else {
      SameServedCounted(s, t, done);
    }
  }

  lemma OneMoreHandler(s: Sched, r: Req, done: set<nat>, m: string)
    requires CountedOf(s, done, m) && Open(s, r.id) && r.id !in done
    ensures CountedOf(Grant(s, r, true), done, m)
  {
    var before, after := Handlers(s, done, m), Handlers(Grant(s, r, true), done, m);
    assert r.id !in before;
    assert after == if m == r.model then before + {r.id} else before;
  }

  lemma DrainOneCounted(p: Params, s: Sched, r: Req, o: Obs, done: set<nat>)
    requires Counted(s, done) && Open(s, r.id)
    ensures Counted(DrainOne(p, s, r, o), done)
  {
    GrantCounted(s, r, o.granted, done);
    if DrainOne(p, s, r, o) != Grant(s, r, o.granted) {
      SameServedCounted(s, DrainOne(p, s, r, o), done);
    }
  }

  lemma {:induction false} DrainCounted(p: Params, s: Sched, pending: seq<Req>, obs: seq<Obs>, k: nat, done: set<nat>)
    requires k <= |pending| && Carrying(p, s.(queued := []), pending) && Counted(s, done)
    ensures Counted(Drain(p, s, pending, obs, k), done)
  {
    if k == 0 {
      SameServedCounted(s, s.(queued := []), done);
    } else {
      DrainCounted(p, s, pending, obs, k - 1, done);
      DrainCarries(p, s, pending, obs, k - 1);
      var before := Drain(p, s, pending, obs, k - 1);
      HandIsOpen(before, pending[k - 1..], Pending, pending[k - 1..][0]);
      DrainOneCounted(p, before, pending[k - 1], Look(obs, k - 1), done);
    }
  }

  lemma DrainQueueCounted(p: Params, s: Sched, obs: seq<Obs>, done: set<nat>)
    requires Carrying(p, s, []) && Counted(s, done)
    ensures Counted(DrainQueue(p, s, obs), done)
  {
    TakeQueueInHand(p, s);
    DrainCounted(p, s, s.queued, obs, |s.queued|, done);
  }

  lemma {:induction false} SettleCounted(p: Params, s: Sched, waiters: seq<Req>, m: string, ok: bool, grants: seq<bool>, k: nat, done: set<nat>)
    requires Settling(p, s, waiters, m) && k <= |waiters| && Counted(s, done)
    ensures Counted(Settle(s, waiters, ok, grants, k), done)
  {
    if k > 0 {
      SettleCounted(p, s, waiters, m, ok, grants, k - 1, done);
      SettleKeeps(p, s, waiters, m, ok, grants, k - 1);
      var before := Settle(s, waiters, ok, grants, k - 1);
      var w := waiters[k - 1];
      HandIsOpen(before, waiters[k - 1..], Waiting(m), waiters[k - 1..][0]);
      if ok {
        GrantCounted(before, w, k - 1 < |grants| && grants[k - 1], done);
      } else {
        SameServedCounted(before, Leave(before, w, Failed), done);
      }
    }
  }

  lemma SwapDoneCounted(p: Params, s: Sched, m: string, ok: bool, grants: seq<bool>, obs: seq<Obs>, done: set<nat>)
    requires Inv(p, s) && Counted(s, done)
    ensures Counted(OnSwapDone(p, s, m, ok, grants, obs), done)
  {
    if m in s.active {
      var waiters := s.active[m].waiters;
      var s1 := s.(active := s.active - {m});
      var s2 := Settle(s1, waiters, ok, grants, |waiters|);
      TakeSwap(p, s, m);
      SameServedCounted(s, s1, done);
      SettleCounted(p, s1, waiters, m, ok, grants, |waiters|, done);
      SettleKeeps(p, s1, waiters, m, ok, grants, |waiters|);
      assert waiters[|waiters|..] == [];
      SettledCarries(p, s2, m);
      DrainQueueCounted(p, s2, obs, done);
    }
  }

  /** A report takes one handler from the count. */
  lemma ServedCounted(s: Sched, id: nat, done: set<nat>)
    requires Counted(s, done) && id in s.place && s.place[id].Serving? && id !in done
    ensures Get(s.inFlight, s.place[id].model) > 0
    ensures Counted(Served(s, s.place[id].model), done + {id})
  {
    var m := s.place[id].model;
    var t := Served(s, m);
    assert CountedOf(s, done, m) && id in Handlers(s, done, m);
    forall n
      ensures CountedOf(t, done + {id}, n)
    {
      assert CountedOf(s, done, n);
      if n == m {
        assert Handlers(t, done + {id}, n) == Handlers(s, done, n) - {id};
      } else {
        assert Handlers(t, done + {id}, n) == Handlers(s, done, n);
      }
    }
  }

  lemma ServeDoneCounted(p: Params, s: Sched, id: nat, obs: seq<Obs>, done: set<nat>)
    requires Inv(p, s) && Counted(s, done) && id in s.place && s.place[id].Serving? && id !in done
    ensures Counted(OnServeDone(p, s, s.place[id].model, obs), done + {id})
  {
    var m := s.place[id].model;
    ServedCounted(s, id, done);
    ServedCarries(p, s, m);
    DrainQueueCounted(p, Served(s, m), obs, done + {id});
  }

  lemma CancelCounted(p: Params, s: Sched, r: Req, done: set<nat>)
    requires Inv(p, s) && Counted(s, done)
    ensures Counted(OnCancel(s, r), done)
  {
    CancelMarksOne(s, r);
    if Holds(s, r.id) {
      HeldIsOpen(s, r.id);
    }
    SameServedCounted(s, OnCancel(s, r), done);
  }

  lemma DropCounted(s: Sched, targets: set<string>, done: set<nat>)
    requires Places(s, [], Pending) && Counted(s, done)
    ensures Counted(Drop(s, targets), done)
  {
    DropFates(s, Drop(s, targets), targets);
    SameServedCounted(s, Drop(s, targets), done);
  }

  lemma RequestCounted(p: Params, s: Sched, r: Req, admitted: bool, o: Obs, done: set<nat>)
    requires Places(s, [], Pending) && r.id >= s.seen && Counted(s, done)
    ensures Counted(OnRequest(p, s, r, admitted, o), done)
  {
    assert r.id !in s.place;
    RequestSplits(p, s, r, admitted, o);
    if o.known && Get(s.reserved, r.model) < Limit(p, r.model) && admitted {
      SameServedCounted(s, Admit(s, r), done);
      HandleCounted(p, Admit(s, r), r, o, done);
    } else {
      SameServedCounted(s, Refuse(s, r, Rejected), done);
      SameServedCounted(s, Refuse(s, r, Gone), done);
    }
  }

  lemma HandleCounted(p: Params, s: Sched, r: Req, o: Obs, done: set<nat>)
    requires Counted(s, done) && Open(s, r.id)
    ensures Counted(Handle(p, s, r, o), done)
  {
    GrantCounted(s, r, o.granted, done);
    if Handle(p, s, r, o) != Grant(s, r, o.granted) {
      SameServedCounted(s, Handle(p, s, r, o), done);
    }
  }

  // ---- Runs of callers ----

  /** What the run loop can receive: a handler's report, or any other event. */
  datatype Call = Report(id: nat, obs: seq<Obs>) | Other(e: Event)

  datatype Callers = Callers(s: Sched, done: set<nat>)

  function Received(s: Sched, c: Call): Event {
    match c
    case Report(id, obs) => ServeDone(if id in s.place && s.place[id].Serving? then s.place[id].model else "", obs)
    case Other(e) => e
  }

  /** A handler reports if it was granted, and once. */
  ghost predicate CanCall(y: Callers, c: Call) {
    match c
    case Report(id, _) => id in y.s.place && y.s.place[id].Serving? && id !in y.done
    case Other(e) => !e.ServeDone? && Enabled(y.s, e)
  }

  ghost function AfterCall(p: Params, y: Callers, c: Call): Callers {
    Callers(Step(p, y.s, Received(y.s, c)), if c.Report? then y.done + {c.id} else y.done)
  }

  ghost function RunCalls(p: Params, calls: seq<Call>): Callers {
    if calls == [] then Callers(NEW, {}) else AfterCall(p, RunCalls(p, calls[..|calls| - 1]), calls[|calls| - 1])
  }

  ghost predicate CallsPossible(p: Params, calls: seq<Call>) {
    calls != [] ==>
      && CallsPossible(p, calls[..|calls| - 1])
      && CanCall(RunCalls(p, calls[..|calls| - 1]), calls[|calls| - 1])
  }

  /** The events that the scheduler sees of a run of callers. */
  ghost function Events(p: Params, calls: seq<Call>): seq<Event> {
    if calls == [] then []
    else
      var init := calls[..|calls| - 1];
      Events(p, init) + [Received(RunCalls(p, init).s, calls[|calls| - 1])]
  }

  lemma CallKeeps(p: Params, y: Callers, c: Call)
    requires Inv(p, y.s) && Counted(y.s, y.done) && CanCall(y, c)
    ensures Enabled(y.s, Received(y.s, c))
    ensures Counted(AfterCall(p, y, c).s, AfterCall(p, y, c).done)
  {
    match c
    case Report(id, obs) =>
      ServedCounted(y.s, id, y.done);
      ServeDoneCounted(p, y.s, id, obs, y.done);
    case Other(e) =>
      match e
      case Request(r, admitted, o) => RequestCounted(p, y.s, r, admitted, o, y.done);
      case Cancel(r) => CancelCounted(p, y.s, r, y.done);
      case SwapDone(m, ok, grants, obs) => SwapDoneCounted(p, y.s, m, ok, grants, obs, y.done);
      case Unload(targets, obs) =>
        DropCarries(p, y.s, targets);
        DropCounted(y.s, targets, y.done);
        DrainQueueCounted(p, Drop(y.s, targets), obs, y.done);
  }

  lemma NothingServed(m: string)
    ensures CountedOf(NEW, {}, m)
  {
    assert Handlers(NEW, {}, m) == {};
  }

  /** Every run of callers is a run of the scheduler in which each event could be received: a
      report never finds a count of nought. So what is proved of all such runs holds here. And
      requests in flight are exactly the granted handlers that have not reported. */
  lemma {:induction false} CallersAreRuns(p: Params, calls: seq<Call>)
    requires CallsPossible(p, calls)
    ensures RunEnabled(p, NEW, Events(p, calls)) && Run(p, NEW, Events(p, calls)) == RunCalls(p, calls).s
    ensures Counted(RunCalls(p, calls).s, RunCalls(p, calls).done)
  {
    if calls == [] {
      forall m
        ensures CountedOf(NEW, {}, m)
      {
        NothingServed(m);
      }
    } else {
      var init, c := calls[..|calls| - 1], calls[|calls| - 1];
      CallersAreRuns(p, init);
      RunKeeps(p, Events(p, init));
      CallKeeps(p, RunCalls(p, init), c);
      var es := Events(p, calls);
      assert es[..|es| - 1] == Events(p, init);
    }
  }
}
