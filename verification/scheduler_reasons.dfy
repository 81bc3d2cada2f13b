/** Why a request ends as it does: nobody is handed to a model that was not seen ready or just
    swapped in, turned away without cause, or dropped while it is there. */
module SchedulerReasons {
  import opened ProcessState
  import opened Scheduler
  import opened SchedulerSafety
  import opened SchedulerRuns
  import opened SchedulerLaws

  /** What a look at the outside justifies for a request of model m. */
  ghost predicate LookReason(o: Obs, m: string, to: Place) {
    match to
    case Serving(n) => n == m && o.known && o.state == Ready && o.granted
    case Gone => o.known && o.state == Ready && !o.granted
    case Failed => !o.known
    case _ => false
  }

  /** One of the first k pending requests is this one, and its turn justifies the end. */
  ghost predicate TurnReason(pending: seq<Req>, obs: seq<Obs>, k: nat, id: nat, to: Place)
    requires k <= |pending|
  {
    exists j :: 0 <= j < k && pending[j].id == id && LookReason(Look(obs, j), pending[j].model, to)
  }

  /** What the report of a swap of m justifies for one that waits for m. Reports name the model
      only, so after an unload it may be an earlier swap than the one the request joined. */
  ghost predicate SwapReason(m: string, ok: bool, to: Place) {
    match to
    case Serving(n) => ok && n == m
    case Gone => ok
    case Failed => !ok
    case _ => false
  }

  /** The request ends here with this fate. */
  ghost predicate EndsAs(s: Sched, t: Sched, id: nat, to: Place) {
    Open(s, id) && Final(to) && id in t.place && t.place[id] == to
  }

  ghost predicate Reason(p: Params, s: Sched, e: Event, id: nat, to: Place) {
    match e
    case Request(r, admitted, o) =>
      && id == r.id
      && (if !o.known || Get(s.reserved, r.model) >= Limit(p, r.model) then to == Rejected
          else if !admitted then to == Gone
          else LookReason(o, r.model, to))
    case Cancel(r) => id == r.id && to == Gone && Holds(s, id)
    case SwapDone(m, ok, _, obs) =>
      || (id in s.place && s.place[id] == Waiting(m) && SwapReason(m, ok, to))
      || TurnReason(s.queued, obs, |s.queued|, id, to)
    case ServeDone(_, obs) => TurnReason(s.queued, obs, |s.queued|, id, to)
    case Unload(targets, obs) =>
      || (to == Failed && id in Dropped(s, targets))
      || TurnReason(NotFor(s.queued, targets), obs, |NotFor(s.queued, targets)|, id, to)
  }

  lemma DrainOneReason(p: Params, s: Sched, r: Req, o: Obs, id: nat, to: Place)
    requires EndsAs(s, DrainOne(p, s, r, o), id, to)
    ensures id == r.id && LookReason(o, r.model, to)
  {
    assert DrainOne(p, s, r, o).place == s.place || DrainOne(p, s, r, o).place == s.place[r.id := to];
  }

  lemma {:induction false} DrainReason(p: Params, s: Sched, pending: seq<Req>, obs: seq<Obs>, k: nat, id: nat, to: Place)
    requires k <= |pending| && EndsAs(s, Drain(p, s, pending, obs, k), id, to)
    requires Carrying(p, s.(queued := []), pending)
    ensures TurnReason(pending, obs, k, id, to)
  {
    if k > 0 {
      var before := Drain(p, s, pending, obs, k - 1);
      if Open(before, id) {
        DrainOneReason(p, before, pending[k - 1], Look(obs, k - 1), id, to);
      } else {
        DrainCarries(p, s, pending, obs, k - 1);
        HandIsOpen(before, pending[k - 1..], Pending, pending[k - 1..][0]);
        DrainOneFates(p, before, pending[k - 1], Look(obs, k - 1));
        DrainReason(p, s, pending, obs, k - 1, id, to);
        var j :| 0 <= j < k - 1 && pending[j].id == id && LookReason(Look(obs, j), pending[j].model, to);
      }
    }
  }

  lemma DrainQueueReason(p: Params, s: Sched, obs: seq<Obs>, id: nat, to: Place)
    requires Carrying(p, s, []) && EndsAs(s, DrainQueue(p, s, obs), id, to)
    ensures TurnReason(s.queued, obs, |s.queued|, id, to)
  {
    TakeQueueInHand(p, s);
    DrainReason(p, s, s.queued, obs, |s.queued|, id, to);
  }

  /** What the next answer of a swap does to the record. */
  lemma SettleNext(s: Sched, waiters: seq<Req>, ok: bool, grants: seq<bool>, k: nat)
    requires 0 < k <= |waiters|
    ensures var t, u, w := Settle(s, waiters, ok, grants, k - 1), Settle(s, waiters, ok, grants, k), waiters[k - 1];
      u.place == t.place[w.id := if !ok then Failed else if k - 1 < |grants| && grants[k - 1] then Serving(w.model) else Gone]
  {
  }

  lemma {:induction false} SettleReason(p: Params, s: Sched, waiters: seq<Req>, m: string, ok: bool, grants: seq<bool>, k: nat,
                                        id: nat, to: Place)
    requires Settling(p, s, waiters, m) && k <= |waiters| && EndsAs(s, Settle(s, waiters, ok, grants, k), id, to)
    ensures id in s.place && s.place[id] == Waiting(m) && SwapReason(m, ok, to)
  {
    if k > 0 {
      SettleNext(s, waiters, ok, grants, k);
      var w := waiters[k - 1];
      if id == w.id {
        assert w in waiters && w.id in Ids(waiters);
      } else {
        SettleReason(p, s, waiters, m, ok, grants, k - 1, id, to);
      }
    }
  }

  lemma SwapDoneReason(p: Params, s: Sched, m: string, ok: bool, grants: seq<bool>, obs: seq<Obs>, id: nat, to: Place)
    requires Inv(p, s) && EndsAs(s, OnSwapDone(p, s, m, ok, grants, obs), id, to)
    ensures Reason(p, s, SwapDone(m, ok, grants, obs), id, to)
  {
    if m in s.active {
      var waiters := s.active[m].waiters;
      var s1 := s.(active := s.active - {m});
      var s2 := Settle(s1, waiters, ok, grants, |waiters|);
      TakeSwap(p, s, m);
      SettleKeeps(p, s1, waiters, m, ok, grants, |waiters|);
      assert waiters[|waiters|..] == [];
      SettledCarries(p, s2, m);
      DrainQueueFates(p, s2, obs);
      if Open(s2, id) {
        DrainQueueReason(p, s2, obs, id, to);
      } else {
        SettleReason(p, s1, waiters, m, ok, grants, |waiters|, id, to);
      }
    }
  }

  lemma UnloadReason(p: Params, s: Sched, targets: set<string>, obs: seq<Obs>, id: nat, to: Place)
    requires Inv(p, s) && EndsAs(s, OnUnload(p, s, targets, obs), id, to)
    ensures Reason(p, s, Unload(targets, obs), id, to)
  {
    DropCarries(p, s, targets);
    DrainQueueFates(p, Drop(s, targets), obs);
    if Open(Drop(s, targets), id) {
      DrainQueueReason(p, Drop(s, targets), obs, id, to);
    } else {
      assert id in Dropped(s, targets);
    }
  }

  lemma RequestReason(p: Params, s: Sched, r: Req, admitted: bool, o: Obs, id: nat, to: Place)
    requires Places(s, [], Pending) && r.id >= s.seen && EndsAs(s, OnRequest(p, s, r, admitted, o), id, to)
    ensures Reason(p, s, Request(r, admitted, o), id, to)
  {
    RequestSplits(p, s, r, admitted, o);
    if o.known && Get(s.reserved, r.model) < Limit(p, r.model) && admitted {
      HandleReason(p, Admit(s, r), r, o, id, to);
    }
  }

  lemma HandleReason(p: Params, s: Sched, r: Req, o: Obs, id: nat, to: Place)
    requires o.known && EndsAs(s, Handle(p, s, r, o), id, to)
    ensures id == r.id && LookReason(o, r.model, to)
  {
    assert Handle(p, s, r, o).place == s.place[r.id := Handle(p, s, r, o).place[r.id]];
  }

  /** In every state a request ends only for its own reason. It is served by a model that was seen
      ready, or while it waited for a swap of its model a swap of that model reported success; it is
      turned away because its model is unknown or unloaded or a swap of it reported failure; it is
      dropped because its caller left or did not take the handler; and it is refused because its
      model is unknown or has no slot left. */
  lemma EveryEndHasItsReason(p: Params, s: Sched, e: Event, id: nat, to: Place)
    requires Inv(p, s) && Enabled(s, e) && EndsAs(s, Step(p, s, e), id, to)
    ensures Reason(p, s, e, id, to)
  {
    match e
    case Request(r, admitted, o) => RequestReason(p, s, r, admitted, o, id, to);
    case Cancel(r) => CancelMarksOne(s, r);
    case SwapDone(m, ok, grants, obs) => SwapDoneReason(p, s, m, ok, grants, obs, id, to);
    case ServeDone(m, obs) =>
      ServedCarries(p, s, m);
      if Get(Served(s, m).inFlight, m) <= 0 {
        DrainQueueReason(p, Served(s, m), obs, id, to);
      }
    case Unload(targets, obs) => UnloadReason(p, s, targets, obs, id, to);
  }
}
