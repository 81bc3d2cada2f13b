/** The in-flight request tracker, its bounded outbox and its publisher
    (internal/server/inflight.go), and the list that a client keeps from what is published
    (ui-svelte/src/stores/api.ts).

    The program's shared variables are a lock, a channel and two atomic flags, so a state is what
    they hold together with where each goroutine is, and a step is one access to them. Request
    contents are left aside: the claims are about request ids. */
module InflightOutbox {
  datatype Event = Snapshot(ids: set<nat>) | Upsert(id: nat) | Remove(id: nat)

  /** What an event does to a set of ids. */
  function Apply(view: set<nat>, e: Event): set<nat> {
    match e
    case Snapshot(ids) => ids
    case Upsert(id) => view + {id}
    case Remove(id) => view - {id}
  }

  function Fold(view: set<nat>, es: seq<Event>): set<nat> {
    if es == [] then view else Apply(Fold(view, es[..|es| - 1]), es[|es| - 1])
  }

  /** Where the goroutine that holds the tracker's lock is, in enqueueLocked. */
  datatype Lock =
    | Free
    | Overflowing  // the outbox was full; the flag is not set yet
    | Waking       // about to start a publisher

  /** Where a publisher is. */
  datatype Phase =
    | Looping              // at the select of publishUpdates
    | Holding(e: Event)    // took an update, about to publish it
    | Checking             // about to swap needsSnapshot
    | Discarding           // emptying the outbox
    | Reading              // about to read the tracker
    | HoldingAll(e: Event) // about to publish what it read
    | Leaving              // found the outbox empty, about to clear publisherRunning
    | Rechecking           // cleared it, about to look at the outbox again
    | Retrying             // found something, about to claim publisherRunning back

  datatype Tracker = Tracker(
    size: nat,
    ids: set<nat>,
    updates: seq<Event>,
    needsSnapshot: bool,
    running: bool,
    lock: Lock,
    publishers: map<nat, Phase>,
    spawned: nat,
    view: set<nat>)

  function New(size: nat): Tracker {
    Tracker(size, {}, [], false, false, Free, map[], 0, {})
  }

  datatype Step =
    | Change(e: Event)  // Add, Remove, SetResponseHeaders, AddResponseBytes or emitPending, up to the select
    | Raise             // set the flag after an overflow
    | Wake              // startPublisher, and unlock
    | Publisher(p: nat) // the next step of publisher p

  ghost predicate Can(t: Tracker, s: Step) {
    match s
    case Change(e) =>
      && t.lock == Free
      && (e.Upsert? || (e.Remove? && e.id in t.ids))
    case Raise => t.lock == Overflowing
    case Wake => t.lock == Waking
    case Publisher(p) => p in t.publishers && (t.publishers[p] == Reading ==> t.lock == Free)
  }

  /** A change of the tracker, and the update about it, which goes into the outbox if there is room. */
  function Changed(t: Tracker, e: Event): Tracker {
    var t1 := t.(ids := Apply(t.ids, e));
    if |t.updates| < t.size then t1.(updates := t.updates + [e], lock := Waking) else t1.(lock := Overflowing)
  }

  function Woken(t: Tracker): Tracker {
    if t.running then t.(lock := Free)
    else t.(running := true, publishers := t.publishers[t.spawned := Looping], spawned := t.spawned + 1, lock := Free)
  }

  function Goes(t: Tracker, p: nat, to: Phase): Tracker {
    t.(publishers := t.publishers[p := to])
  }

  function Ends(t: Tracker, p: nat): Tracker {
    t.(publishers := t.publishers - {p})
  }

  function Published(t: Tracker, p: nat): Tracker
    requires p in t.publishers
  {
    match t.publishers[p]
    case Looping =>
      if t.updates == [] then Goes(t, p, Leaving)
      else Goes(t, p, Holding(t.updates[0])).(updates := t.updates[1..])
    case Holding(e) => Goes(t, p, Checking).(view := Apply(t.view, e))
    case Checking => Goes(t, p, if t.needsSnapshot then Discarding else Looping).(needsSnapshot := false)
    case Discarding =>
      if t.updates == [] then Goes(t, p, Reading) else t.(updates := t.updates[1..])
    case Reading => Goes(t, p, HoldingAll(Snapshot(t.ids)))
    case HoldingAll(e) => Goes(t, p, Checking).(view := Apply(t.view, e))
    case Leaving => Goes(t, p, Rechecking).(running := false)
    case Rechecking => if t.updates == [] then Ends(t, p) else Goes(t, p, Retrying)
    case Retrying => if t.running then Ends(t, p) else Goes(t, p, Looping).(running := true)
  }

  ghost function Next(t: Tracker, s: Step): Tracker {
    match s
    case Change(e) => Changed(t, e)
    case Raise => t.(needsSnapshot := true, lock := Waking)
    case Wake => Woken(t)
    case Publisher(p) => if p in t.publishers then Published(t, p) else t
  }

  ghost function Run(t: Tracker, steps: seq<Step>): Tracker {
    if steps == [] then t else Next(Run(t, steps[..|steps| - 1]), steps[|steps| - 1])
  }

  ghost predicate Possible(t: Tracker, steps: seq<Step>) {
    steps != [] ==>
      Possible(t, steps[..|steps| - 1]) && Can(Run(t, steps[..|steps| - 1]), steps[|steps| - 1])
  }

  // ---- Folding ----

  lemma FoldSnoc(view: set<nat>, es: seq<Event>, e: Event)
    ensures Fold(view, es + [e]) == Apply(Fold(view, es), e)
  {
    assert (es + [e])[..|es|] == es;
  }

  lemma {:induction false} FoldCons(view: set<nat>, e: Event, es: seq<Event>)
    ensures Fold(view, [e] + es) == Fold(Apply(view, e), es)
  {
    if es == [] {
      assert [e] + es == [] + [e];
      FoldSnoc(view, [], e);
    } else {
      var init := es[..|es| - 1];
      FoldCons(view, e, init);
      assert ([e] + es)[..|es|] == [e] + init;
    }
  }

  /** The views agree but for this id. */
  ghost predicate SameBut(a: set<nat>, b: set<nat>, id: nat) {
    forall k | k != id :: k in a <==> k in b
  }

  lemma {:induction false} FoldKeepsTheRest(a: set<nat>, b: set<nat>, es: seq<Event>, id: nat)
    requires SameBut(a, b, id)
    ensures SameBut(Fold(a, es), Fold(b, es), id)
  {
    if es != [] {
      FoldKeepsTheRest(a, b, es[..|es| - 1], id);
    }
  }

  /** Updates that lead to the tracker's own state still do when one more change is appended,
      even for a client that has already seen it. */
  lemma ReplayIsHarmless(ids: set<nat>, es: seq<Event>, e: Event)
    requires Fold(ids, es) == ids && !e.Snapshot?
    ensures Fold(Apply(ids, e), es + [e]) == Apply(ids, e)
  {
    FoldSnoc(Apply(ids, e), es, e);
    FoldKeepsTheRest(ids, Apply(ids, e), es, e.id);
  }

  // ---- The invariant ----

  /** This publisher owns publisherRunning. */
  predicate Active(ph: Phase) {
    !ph.Rechecking? && !ph.Retrying?
  }

  /** One publisher is active while publisherRunning is set, and none while it is clear. */
  ghost predicate OneOwner(t: Tracker) {
    && (forall p | p in t.publishers :: p < t.spawned)
    && (forall p, q | p in t.publishers && q in t.publishers && Active(t.publishers[p]) && Active(t.publishers[q]) :: p == q)
    && (t.running <==> exists p :: p in t.publishers && Active(t.publishers[p]))
  }

  /** A change was dropped, and no snapshot was begun for it yet. */
  predicate Behind(t: Tracker) {
    t.needsSnapshot || t.lock == Overflowing
  }

  predicate Recovering(ph: Phase) {
    ph.Discarding? || ph.Reading? || ph.HoldingAll?
  }

  /** The publisher's share in bringing the view up to date, when nothing was dropped. */
  ghost predicate OnTrack(t: Tracker, ph: Phase) {
    match ph
    case Holding(e) => !e.Snapshot? && Fold(Apply(t.view, e), t.updates) == t.ids
    case Discarding => true
    case Reading => Fold(t.ids, t.updates) == t.ids
    case HoldingAll(e) => e.Snapshot? && Fold(e.ids, t.updates) == t.ids
    case Rechecking => true
    case Retrying => true
    case _ => Fold(t.view, t.updates) == t.ids
  }

  ghost predicate Consistent(t: Tracker) {
    !Behind(t) ==>
      && (forall p | p in t.publishers :: OnTrack(t, t.publishers[p]))
      && (!t.running ==> Fold(t.view, t.updates) == t.ids)
  }

  /** An update in the outbox will be seen: a publisher is active, about to be started, or about
      to look again. */
  ghost predicate NothingLeftBehind(t: Tracker) {
    t.updates != [] ==>
      t.running || t.lock == Waking || exists p :: p in t.publishers && !Active(t.publishers[p])
  }

  ghost predicate Bounded(t: Tracker) {
    |t.updates| <= t.size && forall e | e in t.updates :: !e.Snapshot?
  }

  ghost predicate Inv(t: Tracker) {
    OneOwner(t) && Consistent(t) && NothingLeftBehind(t) && Bounded(t)
  }

  lemma NewIsInv(size: nat)
    ensures Inv(New(size))
  {
  }

  // ---- One owner ----

  lemma WakeKeepsOwner(t: Tracker)
    requires OneOwner(t)
    ensures OneOwner(Woken(t))
  {
    var u := Woken(t);
    if !t.running {
      assert t.spawned in u.publishers && Active(u.publishers[t.spawned]);
    } else {
      var p :| p in t.publishers && Active(t.publishers[p]);
      assert p in u.publishers && Active(u.publishers[p]);
    }
  }

  lemma PublisherKeepsOwner(t: Tracker, p: nat)
    requires OneOwner(t) && p in t.publishers
    ensures OneOwner(Published(t, p))
  {
    var u := Published(t, p);
    if t.running && !Active(t.publishers[p]) {
      var q :| q in t.publishers && Active(t.publishers[q]);
      assert q in u.publishers && Active(u.publishers[q]);
    } else if u.running {
      assert p in u.publishers && Active(u.publishers[p]);
    }
  }

  // ---- The view stays on track ----

  lemma ChangeKeepsTrack(t: Tracker, e: Event, ph: Phase)
    requires OnTrack(t, ph) && !e.Snapshot? && |t.updates| < t.size
    ensures OnTrack(Changed(t, e), ph)
  {
    match ph
    case Holding(h) => FoldSnoc(Apply(t.view, h), t.updates, e);
    case Reading => ReplayIsHarmless(t.ids, t.updates, e);
    case HoldingAll(h) => FoldSnoc(h.ids, t.updates, e);
    case _ => FoldSnoc(t.view, t.updates, e);
  }

  lemma ChangeConsistent(t: Tracker, e: Event)
    requires Consistent(t) && Can(t, Change(e))
    ensures Consistent(Changed(t, e))
  {
    var u := Changed(t, e);
    if !Behind(u) {
      forall p | p in u.publishers
        ensures OnTrack(u, u.publishers[p])
      {
        ChangeKeepsTrack(t, e, t.publishers[p]);
      }
      FoldSnoc(t.view, t.updates, e);
    }
  }

  /** The publisher's own step. */
  lemma PublisherOnTrack(t: Tracker, p: nat)
    requires p in t.publishers && OnTrack(t, t.publishers[p])
    requires t.publishers[p].Checking? ==> !t.needsSnapshot
    requires t.publishers[p].Retrying? && !t.running ==> Fold(t.view, t.updates) == t.ids
    requires forall e | e in t.updates :: !e.Snapshot?
    ensures p in Published(t, p).publishers ==> OnTrack(Published(t, p), Published(t, p).publishers[p])
  {
    if t.updates != [] {
      FoldCons(t.view, t.updates[0], t.updates[1..]);
      assert t.updates == [t.updates[0]] + t.updates[1..];
      assert t.updates[0] in t.updates;
    }
  }

  /** A publisher's step leaves what the others need alone, or there are no others that need it. */
  lemma OthersOnTrack(t: Tracker, p: nat, q: nat)
    requires OneOwner(t) && p in t.publishers && q in t.publishers && p != q && OnTrack(t, t.publishers[q])
    ensures OnTrack(Published(t, p), t.publishers[q])
  {
    if Active(t.publishers[q]) {
      assert !Active(t.publishers[p]);
    }
  }

  lemma PublisherConsistent(t: Tracker, p: nat)
    requires Inv(t) && p in t.publishers
    ensures Consistent(Published(t, p))
  {
    var u := Published(t, p);
    if !Behind(u) {
      if t.needsSnapshot {
        assert t.publishers[p].Checking?;
        assert u.publishers[p] == Discarding;
        forall q | q in u.publishers && q != p
          ensures OnTrack(u, u.publishers[q])
        {
          assert !Active(t.publishers[q]);
        }
        assert t.running;
      } else {
        forall q | q in u.publishers
          ensures OnTrack(u, u.publishers[q])
        {
          if q == p {
            PublisherOnTrack(t, p);
          } else {
            OthersOnTrack(t, p, q);
          }
        }
        assert !u.running && !t.running ==> u.view == t.view && u.updates == t.updates by {
          assert Active(t.publishers[p]) ==> t.running;
        }
      }
    }
  }

  // ---- Nothing is left behind ----

  lemma ChangeLeavesNothing(t: Tracker, e: Event)
    requires NothingLeftBehind(t) && t.lock == Free
    ensures NothingLeftBehind(Changed(t, e))
  {
  }

  lemma WakeLeavesNothing(t: Tracker)
    requires OneOwner(t)
    ensures NothingLeftBehind(Woken(t))
  {
  }

  lemma PublisherLeavesNothing(t: Tracker, p: nat)
    requires OneOwner(t) && NothingLeftBehind(t) && p in t.publishers
    ensures NothingLeftBehind(Published(t, p))
  {
    var u := Published(t, p);
    if u.updates != [] && !u.running && u.lock != Waking {
      assert p in u.publishers && !Active(u.publishers[p]);
    }
  }

  // ---- Every run ----

  lemma StepKeeps(t: Tracker, s: Step)
    requires Inv(t) && Can(t, s)
    ensures Inv(Next(t, s))
  {
    match s
    case Change(e) =>
      ChangeConsistent(t, e);
      ChangeLeavesNothing(t, e);
    case Raise =>
    case Wake =>
      WakeKeepsOwner(t);
      WakeLeavesNothing(t);
    case Publisher(p) =>
      PublisherKeepsOwner(t, p);
      PublisherConsistent(t, p);
      PublisherLeavesNothing(t, p);
  }

  lemma {:induction false} RunFromKeeps(t: Tracker, steps: seq<Step>)
    requires Inv(t) && Possible(t, steps)
    ensures Inv(Run(t, steps))
  {
    if steps != [] {
      RunFromKeeps(t, steps[..|steps| - 1]);
      StepKeeps(Run(t, steps[..|steps| - 1]), steps[|steps| - 1]);
    }
  }

  lemma RunKeeps(size: nat, steps: seq<Step>)
    requires Possible(New(size), steps)
    ensures Inv(Run(New(size), steps))
  {
    NewIsInv(size);
    RunFromKeeps(New(size), steps);
  }

  /** Nothing is in the outbox or in a publisher's hand, no snapshot is owed or being made, and no
      change is about to be reported as dropped. */
  predicate Settled(t: Tracker) {
    && t.updates == [] && !Behind(t)
    && forall p | p in t.publishers :: !t.publishers[p].Holding? && !Recovering(t.publishers[p])
  }

  lemma SettledViewIsRight(t: Tracker)
    requires Inv(t) && Settled(t)
    ensures t.view == t.ids
  {
    if t.running {
      var p :| p in t.publishers && Active(t.publishers[p]);
      assert OnTrack(t, t.publishers[p]);
    }
  }

  /** Over every run and for every outbox size, a client that folds what is published holds
      exactly the tracker's ids whenever things are settled. */
  lemma ViewConverges(size: nat, steps: seq<Step>)
    requires Possible(New(size), steps) && Settled(Run(New(size), steps))
    ensures var t := Run(New(size), steps); t.view == t.ids
  {
    RunKeeps(size, steps);
    SettledViewIsRight(Run(New(size), steps));
  }

  predicate Publishing(ph: Phase) {
    ph.Holding? || ph.HoldingAll?
  }

  /** Over every run, at most one publisher is publishing. */
  lemma OnePublisherAtATime(size: nat, steps: seq<Step>, p: nat, q: nat)
    requires Possible(New(size), steps)
    ensures var t := Run(New(size), steps);
      p in t.publishers && q in t.publishers && Publishing(t.publishers[p]) && Publishing(t.publishers[q]) ==> p == q
  {
    RunKeeps(size, steps);
  }

  /** Over every run, when every goroutine is done the outbox is empty: no update waits for nobody. */
  lemma OutboxIsDrained(size: nat, steps: seq<Step>)
    requires Possible(New(size), steps)
    ensures var t := Run(New(size), steps);
      t.lock == Free && t.publishers == map[] ==> t.updates == []
  {
    RunKeeps(size, steps);
  }

  // ---- The flag can be left behind ----

  predicate Idle(t: Tracker) {
    t.lock == Free && t.publishers == map[]
  }

  /** At rest, the view is right unless a snapshot is still owed. */
  lemma IdleViewIsRight(size: nat, steps: seq<Step>)
    requires Possible(New(size), steps)
    ensures var t := Run(New(size), steps);
      Idle(t) && !t.needsSnapshot ==> t.view == t.ids
  {
    OutboxIsDrained(size, steps);
    if Settled(Run(New(size), steps)) {
      ViewConverges(size, steps);
    }
  }

  // ---- What is published ----

  /** What the step publishes. */
  function PublishedBy(t: Tracker, s: Step): seq<Event> {
    if s.Publisher? && s.p in t.publishers && Publishing(t.publishers[s.p]) then [t.publishers[s.p].e] else []
  }

  ghost function Trace(t: Tracker, steps: seq<Step>): seq<Event> {
    if steps == [] then []
    else Trace(t, steps[..|steps| - 1]) + PublishedBy(Run(t, steps[..|steps| - 1]), steps[|steps| - 1])
  }

  /** The changes that were made, in order. */
  ghost function Changes(steps: seq<Step>): seq<Event> {
    if steps == [] then []
    else
      var last := steps[|steps| - 1];
      Changes(steps[..|steps| - 1]) + if last.Change? then [last.e] else []
  }

  /** No snapshot is owed or on its way; and what was published, then what a publisher holds, then
      the outbox, are the changes made. */
  ghost predicate InOrder(t: Tracker, told: seq<Event>, made: seq<Event>) {
    && !Behind(t) && (forall p | p in t.publishers :: !Recovering(t.publishers[p]))
    && (forall p | p in t.publishers && t.publishers[p].Holding? :: told + [t.publishers[p].e] + t.updates == made)
    && ((forall p | p in t.publishers :: !t.publishers[p].Holding?) ==> told + t.updates == made)
  }

  lemma ChangeInOrder(t: Tracker, e: Event, told: seq<Event>, made: seq<Event>)
    requires InOrder(t, told, made) && |t.updates| < t.size
    ensures InOrder(Changed(t, e), told, made + [e])
  {
    forall p | p in t.publishers && t.publishers[p].Holding?
      ensures told + [t.publishers[p].e] + (t.updates + [e]) == made + [e]
    {
      assert told + [t.publishers[p].e] + (t.updates + [e]) == told + [t.publishers[p].e] + t.updates + [e];
    }
    assert told + (t.updates + [e]) == told + t.updates + [e];
  }

  lemma WakeInOrder(t: Tracker, told: seq<Event>, made: seq<Event>)
    requires InOrder(t, told, made) && OneOwner(t)
    ensures InOrder(Woken(t), told, made)
  {
    if forall p | p in Woken(t).publishers :: !Woken(t).publishers[p].Holding? {
      assert forall p | p in t.publishers :: Woken(t).publishers[p] == t.publishers[p];
    }
  }

  lemma TakeInOrder(t: Tracker, p: nat, told: seq<Event>, made: seq<Event>)
    requires InOrder(t, told, made) && OneOwner(t) && p in t.publishers && t.publishers[p].Looping? && t.updates != []
    ensures InOrder(Published(t, p), told, made)
  {
    assert forall q | q in t.publishers :: !t.publishers[q].Holding?;
    assert told + [t.updates[0]] + t.updates[1..] == told + t.updates;
    var u := Published(t, p);
    assert u.publishers[p] == Holding(t.updates[0]);
    assert forall q | q in u.publishers && q != p :: u.publishers[q] == t.publishers[q];
  }

  lemma TellInOrder(t: Tracker, p: nat, told: seq<Event>, made: seq<Event>)
    requires InOrder(t, told, made) && OneOwner(t) && p in t.publishers && t.publishers[p].Holding?
    ensures InOrder(Published(t, p), told + [t.publishers[p].e], made)
  {
    var u := Published(t, p);
    forall q | q in u.publishers
      ensures !u.publishers[q].Holding? && !Recovering(u.publishers[q])
    {
      assert q != p ==> u.publishers[q] == t.publishers[q];
    }
  }

  /** Any other step of a publisher takes nothing and holds nothing. */
  lemma OtherInOrder(t: Tracker, p: nat, told: seq<Event>, made: seq<Event>)
    requires InOrder(t, told, made) && OneOwner(t) && p in t.publishers && !t.publishers[p].Holding?
    requires t.publishers[p].Looping? ==> t.updates == []
    ensures InOrder(Published(t, p), told, made)
  {
    var u := Published(t, p);
    assert u.updates == t.updates;
    forall q
      ensures (q in u.publishers && u.publishers[q].Holding?) == (q in t.publishers && t.publishers[q].Holding?)
      ensures q in u.publishers && q != p ==> q in t.publishers && u.publishers[q] == t.publishers[q]
      ensures q in u.publishers ==> !Recovering(u.publishers[q])
    {
    }
  }

  lemma PublisherInOrder(t: Tracker, p: nat, told: seq<Event>, made: seq<Event>)
    requires InOrder(t, told, made) && OneOwner(t) && p in t.publishers
    ensures InOrder(Published(t, p), told + PublishedBy(t, Publisher(p)), made)
  {
    if t.publishers[p].Looping? && t.updates != [] {
      TakeInOrder(t, p, told, made);
      assert told + [] == told;
    } else if t.publishers[p].Holding? {
      TellInOrder(t, p, told, made);
    } else {
      OtherInOrder(t, p, told, made);
      assert told + [] == told;
    }
  }

  /** As long as the outbox never overflows, changes are published once each and in the order in
      which they were made, and nothing else is. */
  lemma {:induction false} ChangesAreToldInOrder(size: nat, steps: seq<Step>)
    requires Possible(New(size), steps) && !Run(New(size), steps).lock.Overflowing?
    requires forall s | s in steps :: !s.Raise?
    ensures InOrder(Run(New(size), steps), Trace(New(size), steps), Changes(steps))
  {
    if steps != [] {
      var init, s := steps[..|steps| - 1], steps[|steps| - 1];
      assert steps == init + [s];
      var t := Run(New(size), init);
      assert !t.lock.Overflowing?;
      ChangesAreToldInOrder(size, init);
      RunKeeps(size, init);
      var told, made := Trace(New(size), init), Changes(init);
      assert told + [] == told && made + [] == made;
      match s
      case Change(e) => ChangeInOrder(t, e, told, made);
      case Wake => WakeInOrder(t, told, made);
      case Publisher(p) => PublisherInOrder(t, p, told, made);
      case Raise =>
    }
  }

  /** So when every goroutine is done, what was published is just the changes. */
  lemma AtRestAllIsTold(size: nat, steps: seq<Step>)
    requires Possible(New(size), steps) && Idle(Run(New(size), steps))
    requires forall s | s in steps :: !s.Raise?
    ensures Trace(New(size), steps) == Changes(steps)
  {
    ChangesAreToldInOrder(size, steps);
    OutboxIsDrained(size, steps);
  }

  lemma {:induction false} FoldConcat(view: set<nat>, a: seq<Event>, b: seq<Event>)
    ensures Fold(view, a + b) == Fold(Fold(view, a), b)
  {
    if b == [] {
      assert a + b == a;
    } else {
      FoldConcat(view, a, b[..|b| - 1]);
      assert (a + b)[..|a + b| - 1] == a + b[..|b| - 1];
    }
  }

  /** The tracker with another client's view. */
  function Shown(t: Tracker, view: set<nat>): Tracker {
    t.(view := view)
  }

  /** What the client sees does not matter to the tracker; the client folds what is published. */
  lemma {:induction false} ViewFoldsTrace(t: Tracker, view: set<nat>, steps: seq<Step>)
    ensures Run(Shown(t, view), steps) == Shown(Run(t, steps), Fold(view, Trace(t, steps)))
    ensures Possible(Shown(t, view), steps) == Possible(t, steps)
  {
    if steps != [] {
      var init, s := steps[..|steps| - 1], steps[|steps| - 1];
      ViewFoldsTrace(t, view, init);
      StepShown(Run(t, init), Fold(view, Trace(t, init)), s);
      FoldConcat(view, Trace(t, init), PublishedBy(Run(t, init), s));
    }
  }

  lemma StepShown(t: Tracker, view: set<nat>, s: Step)
    ensures Next(Shown(t, view), s) == Shown(Next(t, s), Fold(view, PublishedBy(t, s)))
    ensures Can(Shown(t, view), s) == Can(t, s)
  {
    if PublishedBy(t, s) == [] {
      assert Fold(view, []) == view;
      QuietStepShown(t, view, s);
    } else {
      var e := t.publishers[s.p].e;
      FoldSnoc(view, [], e);
      assert [] + [e] == [e];
      assert Next(Shown(t, view), s) == Goes(t, s.p, Checking).(view := Apply(view, e));
    }
  }

  lemma QuietStepShown(t: Tracker, view: set<nat>, s: Step)
    requires PublishedBy(t, s) == []
    ensures Next(Shown(t, view), s) == Shown(Next(t, s), view)
  {
    if s.Publisher? && s.p in t.publishers {
      QuietPublisherShown(t, view, s.p, t.publishers[s.p]);
    }
  }

  lemma QuietPublisherShown(t: Tracker, view: set<nat>, p: nat, ph: Phase)
    requires p in t.publishers && t.publishers[p] == ph && !Publishing(ph)
    ensures Published(Shown(t, view), p) == Shown(Published(t, p), view)
  {
    match ph
    case Looping => assert t.updates != [] ==> Shown(t, view).updates[0] == t.updates[0];
    case Checking =>
    case Discarding =>
    case Reading =>
    case Leaving =>
    case Rechecking =>
    case Retrying =>
  }

  /** Events that have led to a set lead from that set to itself. */
  lemma {:induction false} FoldAgain(view: set<nat>, es: seq<Event>)
    ensures Fold(Fold(view, es), es) == Fold(view, es)
  {
    if es != [] {
      var init, e := es[..|es| - 1], es[|es| - 1];
      assert es == init + [e];
      FoldAgain(view, init);
      if !e.Snapshot? {
        ReplayIsHarmless(Fold(view, init), init, e);
      }
    }
  }

  /** Late events and the updates still to come lead from the tracker's ids back to them. */
  lemma LateIsHarmless(view: set<nat>, ids: set<nat>, late: seq<Event>, rest: seq<Event>)
    requires Fold(Fold(view, late), rest) == ids
    ensures Fold(Fold(ids, late), rest) == ids
  {
    FoldConcat(view, late, rest);
    FoldConcat(ids, late, rest);
    FoldAgain(view, late + rest);
  }

  /** A client that starts from the tracker's ids and then gets late what was published before is
      as good as one that was there from the start. */
  lemma JoinKeeps(t: Tracker, view: set<nat>, late: seq<Event>)
    requires Inv(t) && t.view == Fold(view, late)
    ensures Inv(Shown(t, Fold(t.ids, late)))
  {
    var u := Shown(t, Fold(t.ids, late));
    if !Behind(t) {
      forall p | p in t.publishers
        ensures OnTrack(u, t.publishers[p])
      {
        JoinOnTrack(t, view, late, t.publishers[p]);
      }
      if !t.running {
        LateIsHarmless(view, t.ids, late, t.updates);
      }
    }
    assert OneOwner(u) && NothingLeftBehind(u);
  }

  lemma JoinOnTrack(t: Tracker, view: set<nat>, late: seq<Event>, ph: Phase)
    requires OnTrack(t, ph) && t.view == Fold(view, late)
    ensures OnTrack(Shown(t, Fold(t.ids, late)), ph)
  {
    match ph
    case Holding(e) =>
      FoldCons(Fold(view, late), e, t.updates);
      FoldCons(Fold(t.ids, late), e, t.updates);
      LateIsHarmless(view, t.ids, late, [e] + t.updates);
    case Discarding =>
    case Reading =>
    case HoldingAll(_) =>
    case Rechecking =>
    case Retrying =>
    case _ => LateIsHarmless(view, t.ids, late, t.updates);
  }

  /** What was published on a run, with a part of it still on its way to a client. */
  ghost predicate Late(size: nat, before: seq<Step>, late: seq<Event>) {
    exists there :: there + late == Trace(New(size), before)
  }

  /** A client may join at any time. It gets the tracker's ids as they are at some moment, then
      late what was published before and had not reached it, then what is published from there on.
      Whenever things are settled it has seen exactly the tracker's ids. */
  lemma JoinerConverges(size: nat, before: seq<Step>, late: seq<Event>, steps: seq<Step>)
    requires Possible(New(size), before) && Late(size, before, late)
    requires Possible(Run(New(size), before), steps) && Settled(Run(Run(New(size), before), steps))
    ensures var t := Run(New(size), before);
      Fold({}, [Snapshot(t.ids)] + late + Trace(t, steps)) == Run(t, steps).ids
  {
    var t := Run(New(size), before);
    var there :| there + late == Trace(New(size), before);
    RunKeeps(size, before);
    ViewFoldsTrace(New(size), {}, before);
    FoldConcat({}, there, late);
    JoinKeeps(t, Fold({}, there), late);
    var joined := Fold(t.ids, late);
    ViewFoldsTrace(t, joined, steps);
    RunFromKeeps(Shown(t, joined), steps);
    SettledViewIsRight(Run(Shown(t, joined), steps));
    FoldConcat({}, [Snapshot(t.ids)] + late, Trace(t, steps));
    FoldConcat({}, [Snapshot(t.ids)], late);
    assert Fold({}, [Snapshot(t.ids)]) == t.ids;
  }

  // ---- A snapshot that is overtaken ----

  /** Some event says whether the id is there. */
  ghost predicate Touches(es: seq<Event>, id: nat) {
    exists e :: e in es && (e.Snapshot? || e.id == id)
  }

  /** What events do not touch they leave as it was; what they touch they leave alike for all. */
  lemma {:induction false} FoldById(a: set<nat>, b: set<nat>, es: seq<Event>, id: nat)
    ensures !Touches(es, id) ==> (id in Fold(a, es) <==> id in a)
    ensures Touches(es, id) ==> (id in Fold(a, es) <==> id in Fold(b, es))
  {
    if es != [] {
      var init, e := es[..|es| - 1], es[|es| - 1];
      FoldById(a, b, init, id);
      assert es == init + [e] && e in es;
      assert forall x :: x in es <==> x in init || x == e;
    }
  }

  /** From these ids the events lead to where they lead from others exactly if they touch every id
      on which these ids are wrong. */
  lemma FoldsRightExactly(view: set<nat>, ids: set<nat>, es: seq<Event>)
    ensures Fold(ids, es) == Fold(view, es) <==> forall id :: Touches(es, id) || (id in ids <==> id in Fold(view, es))
  {
    forall id
      ensures (id in Fold(ids, es) <==> id in Fold(view, es)) <==> Touches(es, id) || (id in ids <==> id in Fold(view, es))
    {
      FoldById(ids, view, es, id);
    }
  }

  lemma FoldSnapshot(view: set<nat>, there: seq<Event>, ids: set<nat>, after: seq<Event>)
    ensures Fold(view, there + [Snapshot(ids)] + after) == Fold(ids, after)
  {
    FoldConcat(view, there + [Snapshot(ids)], after);
    FoldSnoc(view, there, Snapshot(ids));
  }

  /** A client gets its snapshot between what was published before and after, whenever and of
      whatever it was read. When things are settled the client is right exactly if each id on which
      the snapshot is wrong, compared with the tracker now, is touched by what came after it. */
  lemma SnapshotConvergesExactly(size: nat, steps: seq<Step>, there: seq<Event>, ids: set<nat>, after: seq<Event>)
    requires Possible(New(size), steps) && Settled(Run(New(size), steps))
    requires there + after == Trace(New(size), steps)
    ensures var now := Run(New(size), steps).ids;
      Fold({}, there + [Snapshot(ids)] + after) == now <==>
      forall id :: Touches(after, id) || (id in ids <==> id in now)
  {
    ViewConverges(size, steps);
    ViewFoldsTrace(New(size), {}, steps);
    FoldConcat({}, there, after);
    FoldSnapshot({}, there, ids, after);
    FoldsRightExactly(Fold({}, there), ids, after);
  }

  /** A snapshot read at some moment of a run, of which some of what reached the client or was
      published since then has overtaken it. When things are settled the client is right exactly if
      each id that the overtaking events touch is touched again after the snapshot, or has ended as
      it was in the snapshot. */
  lemma JoinerConvergesExactly(size: nat, before: seq<Step>, late: seq<Event>, steps: seq<Step>,
                               overtaking: seq<Event>, after: seq<Event>)
    requires Possible(New(size), before) && Late(size, before, late)
    requires Possible(Run(New(size), before), steps) && Settled(Run(Run(New(size), before), steps))
    requires overtaking + after == late + Trace(Run(New(size), before), steps)
    ensures var t := Run(New(size), before); var now := Run(t, steps).ids;
      Fold({}, overtaking + [Snapshot(t.ids)] + after) == now <==>
      forall id | Touches(overtaking, id) :: Touches(after, id) || (id in t.ids <==> id in now)
  {
    var t := Run(New(size), before);
    JoinerConverges(size, before, late, steps);
    FoldAfterSnapshot(t.ids, late, Trace(t, steps));
    OvertakenExactly(t.ids, overtaking, after);
  }

  lemma FoldAfterSnapshot(ids: set<nat>, late: seq<Event>, rest: seq<Event>)
    ensures Fold({}, [Snapshot(ids)] + late + rest) == Fold(ids, late + rest)
  {
    assert [Snapshot(ids)] + late + rest == [] + [Snapshot(ids)] + (late + rest);
    FoldSnapshot({}, [], ids, late + rest);
  }

  /** The overtaking events are lost on the ids that nothing touches afterwards. */
  lemma OvertakenExactly(ids: set<nat>, overtaking: seq<Event>, after: seq<Event>)
    ensures var now := Fold(ids, overtaking + after);
      Fold({}, overtaking + [Snapshot(ids)] + after) == now <==>
      forall id | Touches(overtaking, id) :: Touches(after, id) || (id in ids <==> id in now)
  {
    var view := Fold(ids, overtaking);
    FoldConcat(ids, overtaking, after);
    FoldSnapshot({}, overtaking, ids, after);
    FoldsRightExactly(view, ids, after);
    forall id | !Touches(overtaking, id)
      ensures Touches(after, id) || (id in ids <==> id in Fold(view, after))
    {
      FoldById(ids, ids, overtaking, id);
      FoldById(view, ids, after, id);
    }
  }

  lemma OneMore(t: Tracker, steps: seq<Step>, s: Step) returns (more: seq<Step>)
    requires Possible(t, steps) && Can(Run(t, steps), s)
    ensures more == steps + [s] && Possible(t, more) && Run(t, more) == Next(Run(t, steps), s)
  {
    more := steps + [s];
    assert more[..|steps|] == steps;
  }
}

/** What can go wrong with the flag, and what puts it right again. */
module InflightRaces {
  import opened InflightOutbox

  function UpTo(k: nat): (ids: set<nat>)
    ensures forall i :: i in ids <==> 1 <= i <= k
  {
    if k == 0 then {} else UpTo(k - 1) + {k}
  }

  function Upserts(k: nat): (es: seq<Event>)
    ensures |es| == k
  {
    if k == 0 then [] else Upserts(k - 1) + [Upsert(k)]
  }

  lemma {:induction false} UpsertsAt(k: nat, i: nat)
    requires i < k
    ensures Upserts(k)[i] == Upsert(i + 1)
  {
    if i < k - 1 {
      UpsertsAt(k - 1, i);
    }
  }

  /** k changes are in the outbox, and the publisher started for the first has not moved. */
  function Filled(size: nat, k: nat): Tracker {
    Tracker(size, UpTo(k), Upserts(k), false, true, Free, map[0 := Looping], 1, {})
  }

  lemma {:induction false} OutboxFills(size: nat, k: nat) returns (steps: seq<Step>)
    requires 1 <= k <= size
    ensures Possible(New(size), steps) && Run(New(size), steps) == Filled(size, k)
  {
    var t := New(size);
    if k == 1 {
      FillsFirst(size);
      steps := OneMore(t, [], Change(Upsert(1)));
      steps := OneMore(t, steps, Wake);
    } else {
      FillsNext(size, k);
      steps := OutboxFills(size, k - 1);
      steps := OneMore(t, steps, Change(Upsert(k)));
      steps := OneMore(t, steps, Wake);
    }
  }

  lemma FillsFirst(size: nat)
    requires size > 0
    ensures Next(Next(New(size), Change(Upsert(1))), Wake) == Filled(size, 1)
  {
    assert Upserts(1) == [Upsert(1)] && UpTo(0) == {} && UpTo(1) == {1};
  }

  lemma FillsNext(size: nat, k: nat)
    requires 1 < k <= size
    ensures Changed(Filled(size, k - 1), Upsert(k)) == Filled(size, k).(lock := Waking)
    ensures Woken(Filled(size, k).(lock := Waking)) == Filled(size, k)
  {
  }

  /** One change too many was made, and its overflow is still being recorded; the publisher has
      published the first j and has looked at the flag too early. */
  function Early(size: nat, j: nat, phase: Phase): Tracker
    requires j <= size
  {
    Tracker(size, UpTo(size + 1), Upserts(size)[j..], false, true, Overflowing, map[0 := phase], 1, UpTo(j))
  }

  lemma {:induction false} PublisherLooksEarly(size: nat, j: nat) returns (steps: seq<Step>)
    requires 1 <= size && j <= size
    ensures Possible(New(size), steps) && Run(New(size), steps) == Early(size, j, Looping)
  {
    var t := New(size);
    if j == 0 {
      steps := OutboxFills(size, size);
      steps := OneMore(t, steps, Change(Upsert(size + 1)));
      assert UpTo(size + 1) == UpTo(size) + {size + 1} && UpTo(0) == {};
    } else {
      steps := PublisherLooksEarly(size, j - 1);
      TakesOne(size, j);
      PublishesHeld(size, j);
      LooksAtFlag(size, j);
      steps := OneMore(t, steps, Publisher(0));
      steps := OneMore(t, steps, Publisher(0));
      steps := OneMore(t, steps, Publisher(0));
    }
  }

  /** The publisher holds update j. */
  function Holds(size: nat, j: nat): Tracker
    requires 1 <= j <= size
  {
    Early(size, j - 1, Holding(Upsert(j))).(updates := Upserts(size)[j..])
  }

  lemma TakesOne(size: nat, j: nat)
    requires 1 <= j <= size
    ensures Published(Early(size, j - 1, Looping), 0) == Holds(size, j)
  {
    UpsertsAt(size, j - 1);
    var start := Early(size, j - 1, Looping);
    assert start.updates[0] == Upsert(j) && start.updates[1..] == Upserts(size)[j..];
  }

  lemma PublishesHeld(size: nat, j: nat)
    requires 1 <= j <= size
    ensures Published(Holds(size, j), 0) == Early(size, j, Checking)
  {
    assert UpTo(j) == UpTo(j - 1) + {j};
  }

  lemma LooksAtFlag(size: nat, j: nat)
    requires j <= size
    ensures Published(Early(size, j, Checking), 0) == Early(size, j, Looping)
  {
  }

  /** It finds the outbox empty and leaves. */
  lemma PublisherLeavesEarly(size: nat) returns (steps: seq<Step>)
    ensures Possible(New(size), steps)
    ensures Run(New(size), steps) ==
      Tracker(size, UpTo(size + 1), [], false, false, Overflowing, map[], if size == 0 then 0 else 1, UpTo(size))
  {
    var t := New(size);
    if size == 0 {
      steps := OneMore(t, [], Change(Upsert(1)));
      assert UpTo(1) == {1} && UpTo(0) == {};
    } else {
      steps := PublisherLooksEarly(size, size);
      LooksThenLeaves(size);
      steps := OneMore(t, steps, Publisher(0));
      steps := OneMore(t, steps, Publisher(0));
      steps := OneMore(t, steps, Publisher(0));
    }
  }

  lemma LooksThenLeaves(size: nat)
    ensures var t := Early(size, size, Looping);
      && Next(t, Publisher(0)) == Early(size, size, Leaving)
      && Next(Early(size, size, Leaving), Publisher(0)) == Early(size, size, Rechecking).(running := false)
      && Next(Early(size, size, Rechecking).(running := false), Publisher(0)) ==
         Tracker(size, UpTo(size + 1), [], false, false, Overflowing, map[], 1, UpTo(size))
  {
    assert Upserts(size)[size..] == [];
    assert map[0 := Rechecking] - {0} == map[];
  }

  /** The condition on the flag is needed, whatever the size of the outbox: the flag is then set
      after the publisher left, and the publisher started for it finds no update, so it never looks
      at the flag. Everything is at rest, with a client that misses a request. */
  lemma FlagIsLeftBehind(size: nat) returns (steps: seq<Step>)
    ensures Possible(New(size), steps)
    ensures var t := Run(New(size), steps);
      Idle(t) && t.updates == [] && t.needsSnapshot && t.view != t.ids
  {
    var t := New(size);
    var p := if size == 0 then 0 else 1;
    steps := PublisherLeavesEarly(size);
    steps := OneMore(t, steps, Raise);
    steps := OneMore(t, steps, Wake);
    assert Run(t, steps) == Missing(size, true, map[p := Looping]);
    LooksInVain(size, p);
    steps := OneMore(t, steps, Publisher(p));
    steps := OneMore(t, steps, Publisher(p));
    steps := OneMore(t, steps, Publisher(p));
    assert size + 1 in UpTo(size + 1) && size + 1 !in UpTo(size);
  }

  /** The last change was dropped, the flag says so, and the outbox is empty. */
  function Missing(size: nat, running: bool, publishers: map<nat, Phase>): Tracker {
    Tracker(size, UpTo(size + 1), [], true, running, Free, publishers, if size == 0 then 1 else 2, UpTo(size))
  }

  lemma LooksInVain(size: nat, p: nat)
    ensures Next(Missing(size, true, map[p := Looping]), Publisher(p)) == Missing(size, true, map[p := Leaving])
    ensures Next(Missing(size, true, map[p := Leaving]), Publisher(p)) == Missing(size, false, map[p := Rechecking])
    ensures Next(Missing(size, false, map[p := Rechecking]), Publisher(p)) == Missing(size, false, map[])
  {
    assert map[p := Looping][p := Leaving] == map[p := Leaving];
    assert map[p := Leaving][p := Rechecking] == map[p := Rechecking];
    assert map[p := Rechecking] - {p} == map[];
  }

  /** A joining client must not get its snapshot after something that was published since the
      snapshot was read. Here the snapshot is read at the very start, a request is added and
      published, and then the snapshot arrives: all is settled, and the client misses the request. */
  lemma OvertakenSnapshotMisses(size: nat) returns (steps: seq<Step>)
    requires size > 0
    ensures Possible(New(size), steps) && Settled(Run(New(size), steps))
    ensures Fold({}, Trace(New(size), steps) + [Snapshot(New(size).ids)]) != Run(New(size), steps).ids
  {
    var t := New(size);
    steps := OutboxFills(size, 1);
    steps := OneMore(t, steps, Publisher(0));
    steps := OneMore(t, steps, Publisher(0));
    steps := OneMore(t, steps, Publisher(0));
    assert Upserts(1) == [Upsert(1)];
    assert 1 in Run(t, steps).ids;
    FoldSnoc({}, Trace(t, steps), Snapshot({}));
  }

  /** From any rest with a snapshot owed, the next change of any kind brings the client up to date
      once its publisher has run. */
  lemma NextChangeRepairs(t: Tracker, e: Event) returns (steps: seq<Step>)
    requires Inv(t) && Idle(t) && t.needsSnapshot && t.size > 0 && Can(t, Change(e))
    ensures Possible(t, steps)
    ensures var u := Run(t, steps);
      Idle(u) && !u.needsSnapshot && u.ids == Apply(t.ids, e) && u.view == u.ids
  {
    var p := t.spawned;
    steps := RepairBegins(t, e);
    steps := OneMore(t, steps, Publisher(p));
    steps := OneMore(t, steps, Publisher(p));
    steps := OneMore(t, steps, Publisher(p));
    assert Run(t, steps) == Tracker(t.size, Apply(t.ids, e), [], false, true, Free, map[p := Checking], p + 1, Apply(t.ids, e));
    steps := OneMore(t, steps, Publisher(p));
    steps := OneMore(t, steps, Publisher(p));
    steps := OneMore(t, steps, Publisher(p));
    steps := OneMore(t, steps, Publisher(p));
    assert Run(t, steps).publishers == map[];
  }

  /** The change is published, and then the flag is found set. */
  lemma RepairBegins(t: Tracker, e: Event) returns (steps: seq<Step>)
    requires Inv(t) && Idle(t) && t.needsSnapshot && t.size > 0 && Can(t, Change(e))
    ensures Possible(t, steps)
    ensures Run(t, steps) ==
      Tracker(t.size, Apply(t.ids, e), [], false, true, Free, map[t.spawned := Discarding], t.spawned + 1, Apply(t.view, e))
  {
    var p := t.spawned;
    assert t.updates == [];
    steps := OneMore(t, [], Change(e));
    steps := OneMore(t, steps, Wake);
    assert Run(t, steps) == Tracker(t.size, Apply(t.ids, e), [e], true, true, Free, map[p := Looping], p + 1, t.view);
    steps := OneMore(t, steps, Publisher(p));
    steps := OneMore(t, steps, Publisher(p));
    steps := OneMore(t, steps, Publisher(p));
  }
}

/** The client's list of entries (ui-svelte/src/stores/api.ts). */
module InflightClient {
  import opened Names
  import InflightOutbox

  datatype Entry = Entry(id: nat, data: string)

  datatype Message = SnapshotOf(requests: Option<seq<Entry>>) | UpsertOf(request: Option<Entry>) | RemoveOf(id: nat)

  /** The first entry with this id, or the length of the list. */
  function FindIndex(entries: seq<Entry>, id: nat): (k: nat)
    ensures k <= |entries|
    ensures k < |entries| ==> entries[k].id == id
    ensures forall j | 0 <= j < k :: entries[j].id != id
  {
    if entries == [] || entries[0].id == id then 0 else 1 + FindIndex(entries[1..], id)
  }

  function Without(entries: seq<Entry>, id: nat): seq<Entry> {
    if entries == [] then []
    else
      var last := entries[|entries| - 1];
      var rest := Without(entries[..|entries| - 1], id);
      if last.id == id then rest else rest + [last]
  }

  /** The list after a message, before it is sorted. */
  function Reduce(current: seq<Entry>, m: Message): seq<Entry> {
    match m
    case SnapshotOf(requests) => if requests.Some? then requests.value else []
    case UpsertOf(None) => current
    case UpsertOf(Some(received)) =>
      var k := FindIndex(current, received.id);
      if k == |current| then current + [received] else current[k := received]
    case RemoveOf(id) => Without(current, id)
  }

  ghost function Ids(entries: seq<Entry>): set<nat> {
    set e | e in entries :: e.id
  }

  ghost predicate OnePerId(entries: seq<Entry>) {
    forall i, j :: 0 <= i < j < |entries| ==> entries[i].id != entries[j].id
  }

  /** The message carries what the tracker published; an empty snapshot may come without a list. */
  ghost predicate Carries(m: Message, e: InflightOutbox.Event) {
    match e
    case Snapshot(ids) =>
      && m.SnapshotOf?
      && if m.requests.Some? then OnePerId(m.requests.value) && Ids(m.requests.value) == ids else ids == {}
    case Upsert(id) => m.UpsertOf? && m.request.Some? && m.request.value.id == id
    case Remove(id) => m == RemoveOf(id)
  }

  lemma {:induction false} WithoutKeepsTheRest(entries: seq<Entry>, id: nat)
    ensures forall e :: e in Without(entries, id) <==> e in entries && e.id != id
    ensures OnePerId(entries) ==> OnePerId(Without(entries, id))
  {
    if entries != [] {
      var init, last := entries[..|entries| - 1], entries[|entries| - 1];
      assert entries == init + [last];
      WithoutKeepsTheRest(init, id);
      if OnePerId(entries) {
        forall e | e in init
          ensures e.id != last.id
        {
          var k :| 0 <= k < |init| && entries[k] == e;
        }
      }
    }
  }

  /** The list shows the ids that the event says, each once; an upsert shows what was received,
      and leaves the other entries as they are. */
  lemma ReduceRefinesApply(current: seq<Entry>, m: Message, e: InflightOutbox.Event)
    requires OnePerId(current) && Carries(m, e)
    ensures OnePerId(Reduce(current, m))
    ensures Ids(Reduce(current, m)) == InflightOutbox.Apply(Ids(current), e)
    ensures m.UpsertOf? ==> m.request.value in Reduce(current, m)
    ensures !m.SnapshotOf? ==> forall x | x in current :: x.id == e.id || x in Reduce(current, m)
  {
    var after := Reduce(current, m);
    match e
    case Snapshot(_) =>
    case Upsert(id) =>
      var k := FindIndex(current, id);
      var received := m.request.value;
      if k < |current| {
        assert after[k] == received;
        forall x | x in current
          ensures x.id == id || x in after
        {
          var j :| 0 <= j < |current| && current[j] == x;
          assert j != k ==> after[j] == x;
        }
        forall x | x in after
          ensures x == received || x in current
        {
          var j :| 0 <= j < |after| && after[j] == x;
          assert j != k ==> current[j] == x;
        }
        assert Ids(after) == Ids(current) + {id} by {
          assert received in after && current[k] in current;
        }
      } else {
        assert received in after;
      }
    case Remove(id) =>
      WithoutKeepsTheRest(current, id);
  }

  /** A snapshot replaces whatever was listed, and one without a list empties it; an upsert without
      an entry changes nothing; any other upsert changes or adds one entry, its own. */
  lemma MessagesShow(current: seq<Entry>, m: Message)
    ensures m.SnapshotOf? ==> forall x :: x in Reduce(current, m) <==> m.requests.Some? && x in m.requests.value
    ensures m.SnapshotOf? && m.requests.None? ==> |Reduce(current, m)| == 0
    ensures m.UpsertOf? && m.request.None? ==> Reduce(current, m) == current
    ensures m.UpsertOf? && m.request.Some? && m.request.value.id !in Ids(current) ==>
      |Reduce(current, m)| == |current| + 1 && current <= Reduce(current, m)
    ensures m.UpsertOf? && m.request.Some? && m.request.value.id in Ids(current) ==> |Reduce(current, m)| == |current|
    ensures m.RemoveOf? ==> forall x :: x in Reduce(current, m) <==> x in current && x.id != m.id
  {
    match m
    case SnapshotOf(_) =>
    case UpsertOf(None) =>
    case UpsertOf(Some(received)) =>
      if received.id in Ids(current) {
        var x :| x in current && x.id == received.id;
        var j :| 0 <= j < |current| && current[j] == x;
      } else {
        forall j | 0 <= j < |current|
          ensures current[j].id != received.id
        {
          assert current[j] in current;
        }
      }
    case RemoveOf(id) => WithoutKeepsTheRest(current, id);
  }

  /** lists[k + 1] is what the client keeps after message k, in whatever order it sorts it. */
  ghost predicate Keeps(lists: seq<seq<Entry>>, ms: seq<Message>) {
    && |lists| == |ms| + 1 && lists[0] == []
    && forall k | 0 <= k < |ms| :: multiset(lists[k + 1]) == multiset(Reduce(lists[k], ms[k]))
  }

  lemma SortedAlike(a: seq<Entry>, b: seq<Entry>)
    requires multiset(a) == multiset(b) && OnePerId(b)
    ensures Ids(a) == Ids(b) && OnePerId(a)
  {
    forall x
      ensures x in a <==> x in b
    {
      assert x in a <==> x in multiset(a);
      assert x in b <==> x in multiset(b);
    }
    forall i, j | 0 <= i < j < |a|
      ensures a[i].id != a[j].id
    {
      if a[i].id == a[j].id {
        assert a[i] in a && a[j] in a;
        var k :| 0 <= k < |b| && b[k] == a[i];
        var l :| 0 <= l < |b| && b[l] == a[j];
        assert k == l;
        TwiceCounted(a, i, j);
        OnceCounted(b, k);
      }
    }
  }

  lemma TwiceCounted(a: seq<Entry>, i: nat, j: nat)
    requires i < j < |a| && a[i] == a[j]
    ensures multiset(a)[a[i]] >= 2
  {
    assert a == a[..i] + [a[i]] + a[i + 1..j] + [a[j]] + a[j + 1..];
  }

  lemma OnceCounted(b: seq<Entry>, k: nat)
    requires OnePerId(b) && k < |b|
    ensures multiset(b)[b[k]] == 1
  {
    assert b == b[..k] + [b[k]] + b[k + 1..];
    assert b[k] !in b[..k] && b[k] !in b[k + 1..];
  }

  /** What a client that joins here gets. */
  ghost function Told(t: InflightOutbox.Tracker, late: seq<InflightOutbox.Event>, steps: seq<InflightOutbox.Step>)
    : seq<InflightOutbox.Event>
  {
    [InflightOutbox.Snapshot(t.ids)] + late + InflightOutbox.Trace(t, steps)
  }

  ghost predicate Tells(ms: seq<Message>, es: seq<InflightOutbox.Event>) {
    |es| == |ms| && forall k | 0 <= k < |ms| :: Carries(ms[k], es[k])
  }

  /** A client that keeps its list by the messages shows exactly the folded view. */
  lemma {:induction false} ClientShowsTheView(lists: seq<seq<Entry>>, ms: seq<Message>, es: seq<InflightOutbox.Event>)
    requires Keeps(lists, ms) && Tells(ms, es)
    ensures OnePerId(lists[|ms|]) && Ids(lists[|ms|]) == InflightOutbox.Fold({}, es)
    decreases |ms|
  {
    if ms != [] {
      var n := |ms| - 1;
      ClientShowsTheView(lists[..n + 1], ms[..n], es[..n]);
      ReduceRefinesApply(lists[n], ms[n], es[n]);
      SortedAlike(lists[n + 1], Reduce(lists[n], ms[n]));
    }
  }

  /** From the tracker to the list: over every run, a client that joined at any moment and keeps its
      list by the messages it gets, in whatever order it sorts it, lists exactly the tracker's
      requests, each once, whenever things are settled. */
  lemma ClientListConverges(size: nat, before: seq<InflightOutbox.Step>, late: seq<InflightOutbox.Event>,
                            steps: seq<InflightOutbox.Step>, lists: seq<seq<Entry>>, ms: seq<Message>)
    requires InflightOutbox.Possible(InflightOutbox.New(size), before) && InflightOutbox.Late(size, before, late)
    requires InflightOutbox.Possible(InflightOutbox.Run(InflightOutbox.New(size), before), steps)
    requires InflightOutbox.Settled(InflightOutbox.Run(InflightOutbox.Run(InflightOutbox.New(size), before), steps))
    requires Keeps(lists, ms) && Tells(ms, Told(InflightOutbox.Run(InflightOutbox.New(size), before), late, steps))
    ensures OnePerId(lists[|ms|])
    ensures Ids(lists[|ms|]) == InflightOutbox.Run(InflightOutbox.Run(InflightOutbox.New(size), before), steps).ids
  {
    InflightOutbox.JoinerConverges(size, before, late, steps);
    ClientShowsTheView(lists, ms, Told(InflightOutbox.Run(InflightOutbox.New(size), before), late, steps));
  }

  /** A client that got a snapshot of these ids between what was published before and after: when
      things are settled its list holds exactly the tracker's requests exactly if each id on which
      the snapshot is wrong by now is touched by what came after it. */
  lemma ClientListWithSnapshot(size: nat, steps: seq<InflightOutbox.Step>, there: seq<InflightOutbox.Event>,
                               ids: set<nat>, after: seq<InflightOutbox.Event>, lists: seq<seq<Entry>>, ms: seq<Message>)
    requires InflightOutbox.Possible(InflightOutbox.New(size), steps)
    requires InflightOutbox.Settled(InflightOutbox.Run(InflightOutbox.New(size), steps))
    requires there + after == InflightOutbox.Trace(InflightOutbox.New(size), steps)
    requires Keeps(lists, ms) && Tells(ms, there + [InflightOutbox.Snapshot(ids)] + after)
    ensures OnePerId(lists[|ms|])
    ensures var now := InflightOutbox.Run(InflightOutbox.New(size), steps).ids;
      Ids(lists[|ms|]) == now <==>
      forall id :: InflightOutbox.Touches(after, id) || (id in ids <==> id in now)
  {
    InflightOutbox.SnapshotConvergesExactly(size, steps, there, ids, after);
    ClientShowsTheView(lists, ms, there + [InflightOutbox.Snapshot(ids)] + after);
  }

  /** The same for a snapshot read at a moment of the run, which may be overtaken: settled, its list holds exactly the
      tracker's requests exactly if each id that the overtaking events touch is touched again
      after the snapshot, or has ended as it was in the snapshot. */
  lemma ClientListConvergesExactly(size: nat, before: seq<InflightOutbox.Step>, late: seq<InflightOutbox.Event>,
                                   steps: seq<InflightOutbox.Step>, overtaking: seq<InflightOutbox.Event>,
                                   after: seq<InflightOutbox.Event>, lists: seq<seq<Entry>>, ms: seq<Message>)
    requires InflightOutbox.Possible(InflightOutbox.New(size), before) && InflightOutbox.Late(size, before, late)
    requires InflightOutbox.Possible(InflightOutbox.Run(InflightOutbox.New(size), before), steps)
    requires InflightOutbox.Settled(InflightOutbox.Run(InflightOutbox.Run(InflightOutbox.New(size), before), steps))
    requires overtaking + after == late + InflightOutbox.Trace(InflightOutbox.Run(InflightOutbox.New(size), before), steps)
    requires Keeps(lists, ms)
    requires Tells(ms, overtaking + [InflightOutbox.Snapshot(InflightOutbox.Run(InflightOutbox.New(size), before).ids)] + after)
    ensures OnePerId(lists[|ms|])
    ensures var t := InflightOutbox.Run(InflightOutbox.New(size), before); var now := InflightOutbox.Run(t, steps).ids;
      Ids(lists[|ms|]) == now <==>
      forall id | InflightOutbox.Touches(overtaking, id) ::
        InflightOutbox.Touches(after, id) || (id in t.ids <==> id in now)
  {
    var t := InflightOutbox.Run(InflightOutbox.New(size), before);
    InflightOutbox.JoinerConvergesExactly(size, before, late, steps, overtaking, after);
    ClientShowsTheView(lists, ms, overtaking + [InflightOutbox.Snapshot(t.ids)] + after);
  }
}
