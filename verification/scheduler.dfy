/** The FIFO scheduler (internal/router/scheduler/fifo.go) as a state machine.

    A step takes one event of the router's run loop to the next state. What the scheduler reads
    from outside during an event - process states, the live set, whether a caller was still there
    - comes with the event, as a list of observations, so a step is a function and every possible
    behaviour of the outside world is some choice of observations. */
module Scheduler {
  import opened Names
  import opened ProcessState

  /** A request. The identity stands for its response channel; channels are numbered in the
      order in which their requests reach the scheduler. */
  datatype Req = Req(id: nat, model: string)

  datatype Swap = Swap(modelID: string, evict: seq<string>, waiters: seq<Req>)

  /** Where a request has got to. */
  datatype Place =
    | Pending                 // in the queue
    | Waiting(model: string)  // waiting for the swap of a model
    | Serving(model: string)  // handed to its model
    | Failed                  // answered with an error
    | Gone                    // its caller left
    | Rejected                // not admitted

  /** What becomes of a request in the end, as far as the scheduler is concerned. */
  predicate Final(to: Place) {
    !to.Pending? && !to.Waiting?
  }

  /** place and seen record the history of requests; the scheduler itself does not keep them. */
  datatype Sched = Sched(
    active: map<string, Swap>,
    reserved: map<string, int>,
    inFlight: map<string, int>,
    queued: seq<Req>,
    place: map<nat, Place>,
    seen: nat)

  const NEW := Sched(map[], map[], map[], [], map[], 0)

  type Planner = (string, seq<string>) -> seq<string>

  /** The scheduler's settings: concurrency limits, priorities and eviction policy. */
  datatype Params = Params(limits: map<string, int>, priority: map<string, int>, plan: Planner)

  /** What one look at the outside world showed: whether the router has the model, its process
      state, the live processes, and whether a grant was picked up. */
  datatype Obs = Obs(known: bool, state: ProcState, live: set<string>, granted: bool)

  const DEFAULT_CONCURRENCY_LIMIT := 10

  function Get(m: map<string, int>, k: string): int {
    if k in m then m[k] else 0
  }

  function Up(m: map<string, int>, k: string): map<string, int> {
    m[k := Get(m, k) + 1]
  }

  function Down(m: map<string, int>, k: string): map<string, int> {
    if Get(m, k) == 1 then m - {k} else m[k := Get(m, k) - 1]
  }

  function Limit(p: Params, m: string): int {
    if m in p.limits then p.limits[m] else DEFAULT_CONCURRENCY_LIMIT
  }

  // ---- Deciding about one request ----

  /** A new swap cannot run beside one of the active ones. */
  ghost predicate Collides(target: string, evict: seq<string>, active: map<string, Swap>) {
    exists id :: id in active && id != target && CollidesWith(target, evict, id, active[id].evict)
  }

  /** It would stop the other's target, be stopped by it, or stop a model that it stops too. */
  ghost predicate CollidesWith(target: string, evict: seq<string>, id: string, others: seq<string>) {
    id in evict || target in others || exists x :: x in evict && x in others
  }

  ghost predicate Busy(evict: seq<string>, inFlight: map<string, int>) {
    exists m :: m in evict && Get(inFlight, m) > 0
  }

  /** The live models and the targets of the other swaps, sorted. */
  ghost function RunningSet(active: map<string, Swap>, live: set<string>, exclude: string): seq<string> {
    Listing(live + (active.Keys - {exclude}))
  }

  datatype Verdict = Serve | Wait | Begin(evict: seq<string>)

  ghost function Decide(p: Params, s: Sched, m: string, o: Obs): Verdict {
    var evict := p.plan(m, RunningSet(s.active, o.live, m));
    if o.state == Ready && evict == [] && !Collides(m, evict, s.active) then Serve
    else if Collides(m, evict, s.active) || Busy(evict, s.inFlight) then Wait
    else Begin(evict)
  }

  // ---- What happens to one request ----

  /** The slot of a request that will not be served is given back. */
  function Leave(s: Sched, r: Req, to: Place): Sched {
    s.(reserved := Down(s.reserved, r.model), place := s.place[r.id := to])
  }

  function Grant(s: Sched, r: Req, granted: bool): Sched {
    if granted then s.(inFlight := Up(s.inFlight, r.model), place := s.place[r.id := Serving(r.model)])
    else Leave(s, r, Gone)
  }

  function Join(s: Sched, r: Req): Sched
    requires r.model in s.active
  {
    var sw := s.active[r.model];
    s.(active := s.active[r.model := sw.(waiters := sw.waiters + [r])], place := s.place[r.id := Waiting(r.model)])
  }

  function Start(s: Sched, r: Req, evict: seq<string>): Sched {
    s.(active := s.active[r.model := Swap(r.model, evict, [r])], place := s.place[r.id := Waiting(r.model)])
  }

  /** Before the first queued request of strictly lower priority. */
  function QueuePlace(p: Params, queued: seq<Req>, m: string): (k: nat)
    ensures k <= |queued|
    ensures forall i | 0 <= i < k :: Get(p.priority, queued[i].model) >= Get(p.priority, m)
    ensures k < |queued| ==> Get(p.priority, queued[k].model) < Get(p.priority, m)
  {
    if queued == [] || Get(p.priority, queued[0].model) < Get(p.priority, m) then 0
    else 1 + QueuePlace(p, queued[1..], m)
  }

  function Enqueue(p: Params, s: Sched, r: Req): Sched {
    var k := QueuePlace(p, s.queued, r.model);
    s.(queued := s.queued[..k] + [r] + s.queued[k..], place := s.place[r.id := Pending])
  }

  // ---- Draining the queue ----

  ghost function DrainOne(p: Params, s: Sched, r: Req, o: Obs): Sched {
    if !o.known then Leave(s, r, Failed)
    else if r.model in s.active then Join(s, r)
    else
      match Decide(p, s, r.model, o)
      case Serve => Grant(s, r, o.granted)
      case Wait => s.(queued := s.queued + [r])
      case Begin(evict) => Start(s, r, evict)
  }

  function Look(obs: seq<Obs>, k: nat): Obs {
    if k < |obs| then obs[k] else Obs(false, Stopped, {}, false)
  }

  /** After the first k pending requests; the queue holds those that stayed. */
  ghost function Drain(p: Params, s: Sched, pending: seq<Req>, obs: seq<Obs>, k: nat): Sched
    requires k <= |pending|
  {
    if k == 0 then s.(queued := [])
    else DrainOne(p, Drain(p, s, pending, obs, k - 1), pending[k - 1], Look(obs, k - 1))
  }

  ghost function DrainQueue(p: Params, s: Sched, obs: seq<Obs>): Sched {
    Drain(p, s, s.queued, obs, |s.queued|)
  }

  // ---- Events ----

  datatype Event =
    | Request(r: Req, admitted: bool, o: Obs)
    | Cancel(r: Req)
    | SwapDone(m: string, ok: bool, grants: seq<bool>, obs: seq<Obs>)
    | ServeDone(m: string, obs: seq<Obs>)
    | Unload(targets: set<string>, obs: seq<Obs>)

  ghost function OnRequest(p: Params, s: Sched, r: Req, admitted: bool, o: Obs): Sched {
    var s0 := s.(seen := r.id + 1);
    if !o.known || Get(s.reserved, r.model) >= Limit(p, r.model) then s0.(place := s.place[r.id := Rejected])
    else if !admitted then s0.(place := s.place[r.id := Gone])
    else
      var s1 := s0.(reserved := Up(s.reserved, r.model));
      if r.model in s.active then Join(s1, r)
      else
        match Decide(p, s1, r.model, o)
        case Serve => Grant(s1, r, o.granted)
        case Wait => Enqueue(p, s1, r)
        case Begin(evict) => Start(s1, r, evict)
  }

  function Ids(xs: seq<Req>): set<nat> {
    set r | r in xs :: r.id
  }

  /** The list without the request of this identity. */
  function Without(xs: seq<Req>, id: nat): seq<Req> {
    if xs == [] then []
    else
      var last := xs[|xs| - 1];
      var rest := Without(xs[..|xs| - 1], id);
      if last.id == id then rest else rest + [last]
  }

  /** A request is held in one place at most, so one removal is all there is to do. */
  ghost function OnCancel(s: Sched, r: Req): Sched {
    if q :| q in s.queued && q.id == r.id then
      Leave(s.(queued := Without(s.queued, r.id)), q, Gone)
    else if m :| m in s.active && r.id in Ids(s.active[m].waiters) then
      var sw := s.active[m];
      Leave(s.(active := s.active[m := sw.(waiters := Without(sw.waiters, r.id))]), Req(r.id, m), Gone)
    else s
  }

  /** The waiters of a finished swap get their answers. */
  function Settle(s: Sched, waiters: seq<Req>, ok: bool, grants: seq<bool>, k: nat): Sched
    requires k <= |waiters|
  {
    if k == 0 then s
    else
      var t := Settle(s, waiters, ok, grants, k - 1);
      if ok then Grant(t, waiters[k - 1], k - 1 < |grants| && grants[k - 1]) else Leave(t, waiters[k - 1], Failed)
  }

  ghost function OnSwapDone(p: Params, s: Sched, m: string, ok: bool, grants: seq<bool>, obs: seq<Obs>): Sched {
    if m !in s.active then s
    else
      var waiters := s.active[m].waiters;
      DrainQueue(p, Settle(s.(active := s.active - {m}), waiters, ok, grants, |waiters|), obs)
  }

  ghost function OnServeDone(p: Params, s: Sched, m: string, obs: seq<Obs>): Sched {
    var s1 := s.(inFlight := Down(s.inFlight, m), reserved := Down(s.reserved, m));
    if Get(s1.inFlight, m) <= 0 then DrainQueue(p, s1, obs) else s1
  }

  function Count(xs: seq<Req>, m: string): nat {
    if xs == [] then 0
    else Count(xs[..|xs| - 1], m) + if xs[|xs| - 1].model == m then 1 else 0
  }

  function Waiters(active: map<string, Swap>, m: string): nat {
    if m in active then |active[m].waiters| else 0
  }

  /** The requests for models outside the targets. */
  function NotFor(xs: seq<Req>, targets: set<string>): seq<Req> {
    if xs == [] then []
    else
      var last := xs[|xs| - 1];
      var rest := NotFor(xs[..|xs| - 1], targets);
      if last.model in targets then rest else rest + [last]
  }

  /** How many slots for m are given back when the targets are unloaded. */
  function Freed(s: Sched, targets: set<string>, m: string): nat {
    if m in targets then Waiters(s.active, m) + Count(s.queued, m) else 0
  }

  /** The identities that an unload of the targets answers with an error. */
  ghost function Dropped(s: Sched, targets: set<string>): set<nat> {
    (set r | r in s.queued && r.model in targets :: r.id)
    + (set m, r | m in targets && m in s.active && r in s.active[m].waiters :: r.id)
  }

  function GiveBack(reserved: map<string, int>, freed: string -> int): map<string, int> {
    map m | m in reserved && reserved[m] != freed(m) :: reserved[m] - freed(m)
  }

  function Mark(place: map<nat, Place>, ids: set<nat>, to: Place): map<nat, Place> {
    map id | id in place.Keys + ids :: if id in ids then to else place[id]
  }

  /** Everything held for the targets is answered; nothing else changes. */
  ghost function Drop(s: Sched, targets: set<string>): Sched {
    s.(active := s.active - targets,
       queued := NotFor(s.queued, targets),
       reserved := GiveBack(s.reserved, m => Freed(s, targets, m)),
       place := Mark(s.place, Dropped(s, targets), Failed))
  }

  ghost function OnUnload(p: Params, s: Sched, targets: set<string>, obs: seq<Obs>): Sched {
    DrainQueue(p, Drop(s, targets), obs)
  }

  ghost function Step(p: Params, s: Sched, e: Event): Sched {
    match e
    case Request(r, admitted, o) => OnRequest(p, s, r, admitted, o)
    case Cancel(r) => OnCancel(s, r)
    case SwapDone(m, ok, grants, obs) => OnSwapDone(p, s, m, ok, grants, obs)
    case ServeDone(m, obs) => OnServeDone(p, s, m, obs)
    case Unload(targets, obs) => OnUnload(p, s, targets, obs)
  }

  /** When the run loop can receive an event: a request brings a new channel, and a handler that
      finishes was granted before. */
  ghost predicate Enabled(s: Sched, e: Event) {
    match e
    case Request(r, _, _) => r.id >= s.seen
    case ServeDone(m, _) => Get(s.inFlight, m) > 0
    case _ => true
  }

  /** The state after a run of events. */
  ghost function Run(p: Params, s: Sched, events: seq<Event>): Sched {
    if events == [] then s else Step(p, Run(p, s, events[..|events| - 1]), events[|events| - 1])
  }

  ghost predicate RunEnabled(p: Params, s: Sched, events: seq<Event>) {
    events != [] ==>
      && RunEnabled(p, s, events[..|events| - 1])
      && Enabled(Run(p, s, events[..|events| - 1]), events[|events| - 1])
  }

  /** OnShutdown answers everything it holds, but leaves the lists as they are. */
  ghost function OnShutdown(s: Sched): Sched {
    s.(reserved := GiveBack(s.reserved, m => Waiters(s.active, m) + Count(s.queued, m)),
       place := Mark(s.place, Dropped(s, s.active.Keys + set r | r in s.queued :: r.model), Failed))
  }

  // ---- Planner contract ----

  /** A planner evicts running models only, and never its target. */
  ghost predicate PlansWell(plan: Planner) {
    forall target, running :: forall m | m in plan(target, running) :: m in running && m != target
  }
}
