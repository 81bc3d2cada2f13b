/** The dispatcher's registry (internal/event/event.go): sorted arrays, searched by halving and
    replaced as a whole when a type is added. */
module EventRegistry {
  import opened Names

  /** Strictly rising. */
  ghost predicate Rising(keys: seq<nat>) {
    forall i, j :: 0 <= i < j < |keys| ==> keys[i] < keys[j]
  }

  /** What the arrays stand for. */
  ghost function Table(keys: seq<nat>, groups: seq<nat>): (t: map<nat, nat>)
    requires |keys| == |groups| && Rising(keys)
    ensures forall i | 0 <= i < |keys| :: keys[i] in t && t[keys[i]] == groups[i]
    ensures forall k | k in t :: k in keys
  {
    map k | k in keys :: groups[Position(keys, k)]
  }

  ghost function Position(keys: seq<nat>, k: nat): (i: nat)
    requires k in keys
    ensures i < |keys| && keys[i] == k
  {
    var i: nat :| i < |keys| && keys[i] == k;
    i
  }

  /** Two parallel arrays that are never changed once published. Groups are known by number. */
  class Registry {
    const keys: array<nat>
    const groups: array<nat>

    ghost predicate Valid()
      reads this, keys, groups
    {
      keys != groups && keys.Length == groups.Length && Rising(keys[..])
    }

    ghost function View(): map<nat, nat>
      requires Valid()
      reads this, keys, groups
    {
      Table(keys[..], groups[..])
    }

    constructor (keys: array<nat>, groups: array<nat>)
      requires keys != groups && keys.Length == groups.Length && Rising(keys[..])
      ensures this.keys == keys && this.groups == groups && Valid()
    {
      this.keys := keys;
      this.groups := groups;
    }

    /** The first position whose key is not below. */
    method Search(eventType: nat) returns (left: nat)
      requires Valid()
      ensures left <= keys.Length
      ensures forall i | 0 <= i < left :: keys[i] < eventType
      ensures forall i | left <= i < keys.Length :: eventType <= keys[i]
    {
      left := 0;
      var right := keys.Length;
      while left < right
        invariant 0 <= left <= right <= keys.Length
        invariant forall i | 0 <= i < left :: keys[i] < eventType
        invariant forall i | right <= i < keys.Length :: eventType <= keys[i]
      {
        var mid := left + (right - left) / 2;
        if keys[mid] < eventType {
          assert forall i | 0 <= i < mid :: keys[..][i] < keys[..][mid];
          left := mid + 1;
        } else {
          assert forall i | mid < i < keys.Length :: keys[..][mid] < keys[..][i];
          right := mid;
        }
      }
    }

    /** The binary search is a lookup in the table. */
    method FindGroup(eventType: nat) returns (group: Option<nat>)
      requires Valid()
      ensures group == if eventType in View() then Some(View()[eventType]) else None
    {
      var left := Search(eventType);
      if left < keys.Length && keys[left] == eventType {
        assert keys[..][left] == eventType;
        return Some(groups[left]);
      }
      assert forall i | left < i < keys.Length :: keys[..][left] < keys[..][i];
      return None;
    }

    /** A copy with one more entry at its place; this registry, which readers may still hold, is
        left alone. */
    method Inserted(eventType: nat, group: nat) returns (r: Registry)
      requires Valid() && eventType !in View()
      ensures fresh(r) && fresh(r.keys) && fresh(r.groups) && r.Valid()
      ensures r.View() == View()[eventType := group]
    {
      var idx := Search(eventType);
      NotThere(keys[..], groups[..], eventType, idx);
      assert keys[..][..idx] == keys[..idx] && keys[..][idx..] == keys[idx..];
      assert groups[..][..idx] == groups[..idx] && groups[..][idx..] == groups[idx..];
      var newKeys := InsertedInto(keys, idx, eventType);
      var newGroups := InsertedInto(groups, idx, group);
      InsertRises(keys[..], groups[..], idx, eventType, group);
      r := new Registry(newKeys, newGroups);
    }
  }

  lemma NotThere(keys: seq<nat>, groups: seq<nat>, eventType: nat, idx: nat)
    requires |keys| == |groups| && Rising(keys) && eventType !in Table(keys, groups)
    requires idx <= |keys| && forall i | idx <= i < |keys| :: eventType <= keys[i]
    ensures forall i | idx <= i < |keys| :: eventType < keys[i]
  {
  }

  method InsertedInto(before: array<nat>, idx: nat, x: nat) returns (a: array<nat>)
    requires idx <= before.Length
    ensures fresh(a) && a[..] == before[..idx] + [x] + before[idx..]
  {
    a := new nat[before.Length + 1];
    for i := 0 to idx
      invariant forall j | 0 <= j < i :: a[j] == before[j]
    {
      a[i] := before[i];
    }
    a[idx] := x;
    for i := idx to before.Length
      invariant forall j | 0 <= j < idx :: a[j] == before[j]
      invariant a[idx] == x
      invariant forall j | idx < j <= i :: a[j] == before[j - 1]
    {
      a[i + 1] := before[i];
    }
    assert a[..idx] == before[..idx];
    assert a[idx + 1..] == before[idx..];
    assert a[..] == a[..idx] + [a[idx]] + a[idx + 1..];
  }

  /** One more entry, at its place. */
  function With(xs: seq<nat>, idx: nat, x: nat): seq<nat>
    requires idx <= |xs|
  {
    xs[..idx] + [x] + xs[idx..]
  }

  lemma WithAt(xs: seq<nat>, idx: nat, x: nat)
    requires idx <= |xs|
    ensures |With(xs, idx, x)| == |xs| + 1 && With(xs, idx, x)[idx] == x
    ensures forall i | 0 <= i < |xs| :: With(xs, idx, x)[if i < idx then i else i + 1] == xs[i]
  {
  }

  lemma WithRises(keys: seq<nat>, idx: nat, eventType: nat)
    requires Rising(keys) && idx <= |keys|
    requires forall i | 0 <= i < idx :: keys[i] < eventType
    requires forall i | idx <= i < |keys| :: eventType < keys[i]
    ensures Rising(With(keys, idx, eventType))
  {
    var ks := With(keys, idx, eventType);
    forall i, j | 0 <= i < j < |ks|
      ensures ks[i] < ks[j]
    {
      assert i != idx ==> ks[i] == keys[if i < idx then i else i - 1];
      assert j != idx ==> ks[j] == keys[if j < idx then j else j - 1];
    }
  }

  ghost predicate SameAt(a: map<nat, nat>, b: map<nat, nat>, k: nat) {
    (k in a <==> k in b) && (k in a ==> a[k] == b[k])
  }

  lemma SameButOne(a: map<nat, nat>, b: map<nat, nat>, key: nat, value: nat)
    requires key in a && a[key] == value && forall k | k != key :: SameAt(a, b, k)
    ensures a == b[key := value]
  {
    forall k
      ensures k in a <==> k in b[key := value]
      ensures k in a ==> a[k] == b[key := value][k]
    {
      assert k != key ==> SameAt(a, b, k);
    }
  }

  /** Old entries keep their groups, and there is no key but the old ones and the new one. */
  lemma WithHolds(keys: seq<nat>, groups: seq<nat>, ks: seq<nat>, gs: seq<nat>, idx: nat, k: nat)
    requires |keys| == |groups| && Rising(keys) && |ks| == |gs| && Rising(ks)
    requires idx < |ks| == |keys| + 1 && k != ks[idx]
    requires forall i | 0 <= i < |keys| :: ks[if i < idx then i else i + 1] == keys[i]
    requires forall i | 0 <= i < |keys| :: gs[if i < idx then i else i + 1] == groups[i]
    ensures SameAt(Table(ks, gs), Table(keys, groups), k)
  {
    if k in ks {
      var j := Position(ks, k);
      var i := if j < idx then j else j - 1;
      assert keys[i] == ks[j] && groups[i] == gs[j];
    }
    if k in keys {
      var i := Position(keys, k);
      assert ks[if i < idx then i else i + 1] == k;
    }
  }

  lemma InsertRises(keys: seq<nat>, groups: seq<nat>, idx: nat, eventType: nat, group: nat)
    requires |keys| == |groups| && Rising(keys) && idx <= |keys|
    requires forall i | 0 <= i < idx :: keys[i] < eventType
    requires forall i | idx <= i < |keys| :: eventType < keys[i]
    ensures Rising(With(keys, idx, eventType))
    ensures Table(With(keys, idx, eventType), With(groups, idx, group)) == Table(keys, groups)[eventType := group]
  {
    var ks, gs := With(keys, idx, eventType), With(groups, idx, group);
    WithRises(keys, idx, eventType);
    WithAt(keys, idx, eventType);
    WithAt(groups, idx, group);
    assert ks[idx] in Table(ks, gs) && Table(ks, gs)[ks[idx]] == gs[idx];
    forall k | k != eventType
      ensures SameAt(Table(ks, gs), Table(keys, groups), k)
    {
      WithHolds(keys, groups, ks, gs, idx, k);
    }
    SameButOne(Table(ks, gs), Table(keys, groups), eventType, group);
  }

  /** The dispatcher: the registry pointer and how many groups were made. */
  class Dispatcher {
    var subs: Registry
    var made: nat
    var closed: bool

    ghost predicate Valid()
      reads this, subs, subs.keys, subs.groups
    {
      subs.Valid()
    }

    ghost function View(): map<nat, nat>
      requires Valid()
      reads this, subs, subs.keys, subs.groups
    {
      subs.View()
    }

    constructor ()
      ensures Valid() && View() == map[] && !closed
    {
      var keys, groups := new nat[0], new nat[0];
      var registry := new Registry(keys, groups);
      subs, made, closed := registry, 0, false;
      new;
      assert keys[..] == [];
    }

    /** The group that a new subscriber joins: the type's own, made now if there is none yet. The
        registry that was published before is not touched. */
    method SubscribeTo(eventType: nat) returns (group: nat)
      requires Valid() && !closed
      modifies this
      ensures Valid() && !closed
      ensures View() == (if eventType in old(View()) then old(View()) else old(View())[eventType := group])
      ensures eventType in View() && View()[eventType] == group
      ensures eventType !in old(View()) ==> group == old(made)
      ensures old(subs).Valid() && old(subs).View() == old(View())
    {
      var existing := subs.FindGroup(eventType);
      if existing.Some? {
        return existing.value;
      }
      group := made;
      made := made + 1;
      var registry := subs.Inserted(eventType, group);
      subs := registry;
    }

    method Publish(eventType: nat) returns (group: Option<nat>)
      requires Valid()
      ensures group == if eventType in View() then Some(View()[eventType]) else None
    {
      group := subs.FindGroup(eventType);
    }
  }
}

/** What a consumer was sent and not yet handled, and what it handled. */
module EventBacklog {
  /** Publishers append to the queue; the consumer works through pending. */
  datatype Backlog<T> = Backlog(queue: seq<T>, pending: seq<T>, handled: seq<T>) {
    /** Everything it was sent, in order. */
    function Received(): seq<T> {
      handled + pending + queue
    }

    function Sent(ev: T): (b: Backlog<T>)
      ensures b.Received() == Received() + [ev]
    {
      Backlog(queue + [ev], pending, handled)
    }

    /** The consumer takes the queue to work on. */
    function Taken(): (b: Backlog<T>)
      requires pending == []
      ensures b.Received() == Received()
    {
      assert handled + pending == handled;
      Backlog([], queue, handled)
    }

    function HandledOne(): (b: Backlog<T>)
      requires pending != []
      ensures b.Received() == Received() && b.handled == handled + [Received()[|handled|]]
    {
      assert pending == [pending[0]] + pending[1..];
      Backlog(queue, pending[1..], handled + [pending[0]])
    }
  }
}

/** The two buffers of a consumer: one that publishers append to, one that it works through. Each
    method does to the arrays what the matching function does to the backlog. */
module EventBuffers {
  import opened EventBacklog

  class Consumer<T(0)> {
    var queue: array<T>
    var queued: nat
    var pending: array<T>
    var taken: nat
    var next: nat
    var stop: bool

    ghost var handled: seq<T>

    ghost predicate Valid()
      reads this, queue, pending
    {
      queue != pending && queued <= queue.Length && next <= taken <= pending.Length
    }

    ghost function View(): Backlog<T>
      requires Valid()
      reads this, queue, pending
    {
      Backlog(queue[..queued], pending[next..taken], handled)
    }

    constructor (room: nat)
      ensures Valid() && View() == Backlog([], [], []) && !stop
      ensures fresh(queue) && fresh(pending)
    {
      queue := new T[room];
      pending := new T[2 * room];
      queued, taken, next, stop := 0, 0, 0, false;
      handled := [];
    }

    /** append: in place while there is room, into a larger array otherwise. */
    method Append(ev: T)
      requires Valid()
      modifies this`queue, this`queued, queue
      ensures Valid() && View() == old(View()).Sent(ev)
      ensures queue == old(queue) || fresh(queue)
    {
      if queued == queue.Length {
        var larger := new T[2 * queue.Length + 1];
        for i := 0 to queued
          invariant queue == old(queue) && queued == old(queued)
          invariant fresh(larger) && queue[..] == old(queue[..]) && pending[..] == old(pending[..])
          invariant larger[..i] == queue[..i]
        {
          larger[i] := queue[i];
        }
        queue := larger;
      }
      queue[queued] := ev;
      assert queue[..queued + 1] == queue[..queued] + [ev];
      queued := queued + 1;
    }

    /** The buffers change places once the one being worked through is finished; the finished one
        is used again from its start. No event is overwritten before it was handled. */
    method Swap()
      requires Valid() && next == taken && queued > 0
      modifies this`queue, this`queued, this`pending, this`taken, this`next
      ensures Valid() && View() == old(View()).Taken()
      ensures queue == old(pending) && pending == old(queue)
    {
      queue, pending := pending, queue;
      taken, queued, next := queued, 0, 0;
    }

    /** The next event is handled. */
    method Handle() returns (ev: T)
      requires Valid() && next < taken
      modifies this`next, this`handled
      ensures Valid() && View() == old(View()).HandledOne() && ev == old(View()).pending[0]
      ensures next == old(next) + 1
    {
      ev := pending[next];
      assert pending[next..taken] == [ev] + pending[next + 1..taken];
      next := next + 1;
      handled := handled + [ev];
    }

    /** One turn of Listen: false when the consumer ends, and then everything sent was handled. */
    method Turn() returns (goesOn: bool)
      requires Valid() && next == taken && (queued > 0 || stop)
      modifies this`queue, this`queued, this`pending, this`taken, this`next, this`handled
      ensures Valid() && View() == Backlog([], [], old(View().Received()))
      ensures goesOn <==> old(queued) > 0
    {
      assert View().pending == [];
      if queued == 0 {
        assert View().Received() == handled;
        return false;
      }
      Swap();
      while next < taken
        invariant Valid() && queued == 0 && View().Received() == old(View().Received())
        decreases taken - next
      {
        var ev := Handle();
      }
      assert View().Received() == handled;
      goesOn := true;
    }
  }
}

/** A subscriber group: who gets what, who sleeps and who is woken, over every run.

    Consumers and publishers share one condition variable. A step is what one of them does while
    it holds the lock, or the handling of one event outside it. */
module EventDelivery {
  import opened Names
  import opened EventBacklog

  /** What a consumer's goroutine is doing: about to look at its queue, asleep on the condition
      variable, working through what it took, or gone. */
  datatype Phase = Awake | Parked | Working | Done

  /** Its member time began at joined and, once it is removed, ended at left. */
  datatype Consumer<T> = Consumer(backlog: Backlog<T>, stop: bool, phase: Phase, joined: nat, left: nat)

  /** A call of Broadcast that has not returned. */
  datatype Call<T> = Call(ev: T, parked: bool)

  /** subs are the members. The log records what was broadcast. */
  datatype Group<T> = Group(
    maxQueue: int, subs: seq<nat>, consumers: map<nat, Consumer<T>>, made: nat,
    calls: map<nat, Call<T>>, called: nat, log: seq<T>)

  datatype Step<T> =
    | Add
    | Del(c: nat)
    | Publish(ev: T)  // a call of Broadcast begins
    | Offer(p: nat)   // it appends its event and returns, or finds a queue full and goes to sleep
    | Check(c: nat)   // the consumer takes its queue, or ends, or goes to sleep
    | Handle(c: nat)  // it handles one event
    | Finish(c: nat)  // it has handled all it took, and wakes everybody

  function New<T>(maxQueue: int): Group<T> {
    Group(maxQueue, [], map[], 0, map[], 0, [])
  }

  function MaxLen<T>(g: Group<T>, subs: seq<nat>): (n: nat)
    ensures forall c | c in subs && c in g.consumers :: |g.consumers[c].backlog.queue| <= n
    ensures n > 0 ==> exists c :: c in subs && c in g.consumers && |g.consumers[c].backlog.queue| == n
  {
    if subs == [] then 0
    else
      var rest := MaxLen(g, subs[..|subs| - 1]);
      var last := subs[|subs| - 1];
      if last in g.consumers && |g.consumers[last].backlog.queue| > rest then |g.consumers[last].backlog.queue| else rest
  }

  predicate Full<T>(g: Group<T>) {
    MaxLen(g, g.subs) >= g.maxQueue
  }

  predicate Can<T>(g: Group<T>, s: Step<T>) {
    match s
    case Add => true
    case Del(c) => c in g.consumers
    case Publish(_) => true
    case Offer(p) => p in g.calls && !g.calls[p].parked
    case Check(c) => c in g.consumers && g.consumers[c].phase == Awake
    case Handle(c) => c in g.consumers && g.consumers[c].phase == Working && g.consumers[c].backlog.pending != []
    case Finish(c) => c in g.consumers && g.consumers[c].phase == Working && g.consumers[c].backlog.pending == []
  }

  /** The list without the first entry c. */
  function Removed(subs: seq<nat>, c: nat): seq<nat> {
    if subs == [] then [] else if subs[0] == c then subs[1..] else [subs[0]] + Removed(subs[1..], c)
  }

  function Roused<T>(k: Consumer<T>): Consumer<T> {
    if k.phase == Parked then k.(phase := Awake) else k
  }

  /** Everybody who sleeps on the condition variable is woken. */
  function Wake<T>(g: Group<T>): Group<T> {
    g.(consumers := map c | c in g.consumers :: Roused(g.consumers[c]),
       calls := map p | p in g.calls :: g.calls[p].(parked := false))
  }

  /** Every member finds the event at the end of its queue. */
  function Sent<T>(g: Group<T>, ev: T): Group<T> {
    g.(consumers := map c | c in g.consumers ::
         if c in g.subs then g.consumers[c].(backlog := g.consumers[c].backlog.Sent(ev)) else g.consumers[c],
       log := g.log + [ev])
  }

  function Checked<T>(k: Consumer<T>): Consumer<T> {
    if k.backlog.queue != [] && k.backlog.pending == [] then k.(backlog := k.backlog.Taken(), phase := Working)
    else if k.stop then k.(phase := Done)
    else k.(phase := Parked)
  }

  /** A step that is not possible changes nothing. */
  function Next<T>(g: Group<T>, s: Step<T>): Group<T> {
    if !Can(g, s) then g
    else
      match s
      case Add =>
        g.(subs := g.subs + [g.made], made := g.made + 1,
           consumers := g.consumers[g.made := Consumer(Backlog([], [], []), false, Awake, |g.log|, |g.log|)])
      case Del(c) =>
        var k := g.consumers[c];
        g.(subs := Removed(g.subs, c),
           consumers := g.consumers[c := k.(stop := true, left := if k.stop then k.left else |g.log|)])
      case Publish(ev) => g.(calls := g.calls[g.called := Call(ev, false)], called := g.called + 1)
      case Offer(p) =>
        if Full(g) then g.(calls := g.calls[p := g.calls[p].(parked := true)])
        else Wake(Sent(g.(calls := g.calls - {p}), g.calls[p].ev))
      case Check(c) => g.(consumers := g.consumers[c := Checked(g.consumers[c])])
      case Handle(c) =>
        var k := g.consumers[c];
        g.(consumers := g.consumers[c := k.(backlog := k.backlog.HandledOne())])
      case Finish(c) => Wake(g.(consumers := g.consumers[c := g.consumers[c].(phase := Awake)]))
  }

  /** A member's queue holds as many events as the limit allows, or the limit allows none. */
  ghost predicate NoRoom<T>(g: Group<T>) {
    g.maxQueue <= 0 || exists c :: c in g.subs && c in g.consumers && |g.consumers[c].backlog.queue| >= g.maxQueue
  }

  /** A publisher that offers its event goes to sleep exactly when the queue of some member has
      reached the limit (or the limit is nought), and changes nothing else then. Otherwise its
      call is over, the event is the last of the log and of every member's queue, nobody else's
      queue changes, and nobody sleeps. */
  lemma OfferExactly<T>(g: Group<T>, p: nat)
    requires p in g.calls && !g.calls[p].parked
    ensures var h := Next(g, Offer(p));
      if NoRoom(g) then h == g.(calls := g.calls[p := Call(g.calls[p].ev, true)])
      else
        && h.subs == g.subs && h.maxQueue == g.maxQueue && h.log == g.log + [g.calls[p].ev]
        && h.calls.Keys == g.calls.Keys - {p} && h.consumers.Keys == g.consumers.Keys
        && (forall q | q in h.calls :: h.calls[q] == Call(g.calls[q].ev, false))
        && (forall c | c in g.consumers ::
              && h.consumers[c].backlog.queue ==
                   (if c in g.subs then g.consumers[c].backlog.queue + [g.calls[p].ev] else g.consumers[c].backlog.queue)
              && h.consumers[c].backlog.pending == g.consumers[c].backlog.pending
              && h.consumers[c].backlog.handled == g.consumers[c].backlog.handled
              && h.consumers[c].phase == (if g.consumers[c].phase == Parked then Awake else g.consumers[c].phase))
  {
    assert Full(g) <==> NoRoom(g) by {
      if MaxLen(g, g.subs) > 0 {
        var c :| c in g.subs && c in g.consumers && |g.consumers[c].backlog.queue| == MaxLen(g, g.subs);
      }
    }
  }

  /** The steps that wake everybody: the end of a turn, and an event that is broadcast. */
  predicate Wakes<T>(g: Group<T>, s: Step<T>) {
    Can(g, s) && (s.Finish? || (s.Offer? && !Full(g)))
  }

  // ---- Runs ----

  function Run<T>(g: Group<T>, steps: seq<Step<T>>): Group<T> {
    if steps == [] then g else Next(Run(g, steps[..|steps| - 1]), steps[|steps| - 1])
  }

  ghost predicate Possible<T>(g: Group<T>, steps: seq<Step<T>>) {
    steps != [] ==>
      Possible(g, steps[..|steps| - 1]) && Can(Run(g, steps[..|steps| - 1]), steps[|steps| - 1])
  }

  // ---- What every run keeps ----

  /** Where the consumer's member time ended, or the log so far. */
  function Until<T>(g: Group<T>, k: Consumer<T>): nat {
    if k.stop then k.left else |g.log|
  }

  /** The consumer was sent exactly what was broadcast during its member time. */
  ghost predicate InStep<T>(g: Group<T>, c: nat)
    requires c in g.consumers
  {
    var k := g.consumers[c];
    && c < g.made
    && (c in g.subs <==> !k.stop)
    && k.joined <= Until(g, k) <= |g.log|
    && k.backlog.Received() == g.log[k.joined..Until(g, k)]
    && |k.backlog.queue| <= (if g.maxQueue >= 0 then g.maxQueue else 0)
    && Placed(k)
  }

  /** A consumer sleeps only with nothing to do, and ends only with nothing left. */
  ghost predicate Placed<T>(k: Consumer<T>) {
    && (k.phase == Parked || k.phase == Done ==> k.backlog.queue == [])
    && (k.phase != Working ==> k.backlog.pending == [])
    && (k.phase == Done ==> k.stop)
  }

  /** The consumer has a turn to end. */
  ghost predicate Busy<T>(g: Group<T>, c: nat) {
    c in g.consumers &&
    var k := g.consumers[c];
    k.phase == Working || (k.phase == Awake && k.backlog.queue != [])
  }

  ghost predicate Blocked<T>(g: Group<T>, p: nat) {
    p in g.calls && g.calls[p].parked
  }

  /** Where somebody waits for room, some consumer has a turn to end. */
  ghost predicate RoomWillCome<T>(g: Group<T>) {
    forall p | Blocked(g, p) :: exists c :: Busy(g, c)
  }

  ghost predicate Inv<T>(g: Group<T>) {
    && NoDup(g.subs)
    && (forall c | c in g.subs :: c in g.consumers)
    && (forall c | c in g.consumers :: InStep(g, c))
    && (forall p | p in g.calls :: p < g.called)
    && (g.maxQueue > 0 ==> RoomWillCome(g))
  }

  lemma {:induction false} RemovedIs(subs: seq<nat>, c: nat)
    requires NoDup(subs)
    ensures NoDup(Removed(subs, c)) && forall x :: x in Removed(subs, c) <==> x in subs && x != c
  {
    if subs != [] {
      var rest := subs[1..];
      assert subs == [subs[0]] + rest;
      assert forall i :: 0 <= i < |rest| ==> rest[i] == subs[i + 1] && rest[i] != subs[0];
      RemovedIs(rest, c);
      var r := Removed(rest, c);
      assert forall i :: 0 <= i < |r| ==> r[i] in rest;
    }
  }

  /** Whoever was busy still is, unless everybody is woken. */
  lemma BusyStays<T>(g: Group<T>, s: Step<T>, c: nat)
    requires Busy(g, c) && !Wakes(g, s) && c < g.made && Placed(g.consumers[c])
    ensures Busy(Next(g, s), c)
  {
  }

  /** A publisher goes to sleep only when some member's queue is full. */
  lemma RoomKeeps<T>(g: Group<T>, s: Step<T>)
    requires Inv(g) && g.maxQueue > 0
    ensures RoomWillCome(Next(g, s))
  {
    var h := Next(g, s);
    forall p | Blocked(h, p)
      ensures exists c :: Busy(h, c)
    {
      if Wakes(g, s) {
        NobodyBlockedAfterWaking(g, s, p);
        assert false;
      } else if Blocked(g, p) {
        var c :| Busy(g, c);
        assert InStep(g, c);
        BusyStays(g, s, c);
      } else {
        var c :| c in g.subs && c in g.consumers && |g.consumers[c].backlog.queue| == MaxLen(g, g.subs);
        assert InStep(g, c);
        assert Busy(h, c);
      }
    }
  }

  lemma AddKeeps<T>(g: Group<T>)
    requires Inv(g)
    ensures Inv(Next(g, Add))
  {
    var h := Next(g, Add);
    forall c | c in h.consumers
      ensures InStep(h, c)
    {
      if c != g.made {
        assert InStep(g, c);
      }
    }
    assert g.made !in g.subs;
    if g.maxQueue > 0 {
      RoomKeeps(g, Step<T>.Add);
    }
  }

  lemma DelKeeps<T>(g: Group<T>, c: nat)
    requires Inv(g) && c in g.consumers
    ensures Inv(Next(g, Del(c)))
  {
    var h := Next(g, Del(c));
    RemovedIs(g.subs, c);
    forall x | x in h.consumers
      ensures InStep(h, x)
    {
      assert InStep(g, x);
    }
    if g.maxQueue > 0 {
      RoomKeeps(g, Step<T>.Del(c));
    }
  }

  /** An event goes to the members, and everybody is woken. */
  lemma SentToAll<T>(g: Group<T>, p: nat, c: nat)
    requires Can(g, Offer(p)) && !Full(g) && c in g.consumers
    ensures var h, k := Next(g, Offer(p)), g.consumers[c];
      h.consumers[c] == Roused(if c in g.subs then k.(backlog := k.backlog.Sent(g.calls[p].ev)) else k)
  {
  }

  lemma SentInStep<T>(g: Group<T>, p: nat, c: nat)
    requires Can(g, Offer(p)) && !Full(g) && c in g.consumers && InStep(g, c)
    ensures InStep(Next(g, Offer(p)), c)
  {
    var h, k := Next(g, Offer(p)), g.consumers[c];
    SentToAll(g, p, c);
    assert h.log == g.log + [g.calls[p].ev];
    if k.stop {
      assert h.log[k.joined..k.left] == g.log[k.joined..k.left];
    } else {
      assert h.log[k.joined..|h.log|] == g.log[k.joined..|g.log|] + [g.calls[p].ev];
    }
  }

  lemma NobodyBlockedAfterWaking<T>(g: Group<T>, s: Step<T>, p: nat)
    requires Wakes(g, s)
    ensures !Blocked(Next(g, s), p)
  {
  }

  lemma SentKeeps<T>(g: Group<T>, p: nat)
    requires Inv(g) && Can(g, Offer(p)) && !Full(g)
    ensures Inv(Next(g, Offer(p)))
  {
    var h := Next(g, Offer(p));
    assert h.subs == g.subs && h.consumers.Keys == g.consumers.Keys && h.called == g.called;
    assert h.calls.Keys <= g.calls.Keys;
    forall c | c in h.consumers
      ensures InStep(h, c)
    {
      SentInStep(g, p, c);
    }
    if g.maxQueue > 0 {
      RoomKeeps(g, Step<T>.Offer(p));
    }
  }

  lemma OneConsumerKeeps<T>(g: Group<T>, s: Step<T>)
    requires Inv(g) && Can(g, s) && (s.Check? || s.Handle? || s.Finish?)
    ensures Inv(Next(g, s))
  {
    var h := Next(g, s);
    forall c | c in h.consumers
      ensures InStep(h, c)
    {
      OwnInStep(g, s, c);
    }
    if g.maxQueue > 0 {
      RoomKeeps(g, s);
    }
  }

  lemma OwnInStep<T>(g: Group<T>, s: Step<T>, c: nat)
    requires Can(g, s) && (s.Check? || s.Handle? || s.Finish?)
    requires c in g.consumers && InStep(g, c)
    ensures InStep(Next(g, s), c)
  {
    var k, l := g.consumers[c], Next(g, s).consumers[c];
    assert l.backlog.Received() == k.backlog.Received() && |l.backlog.queue| <= |k.backlog.queue|;
  }

  lemma CallKeeps<T>(g: Group<T>, s: Step<T>)
    requires Inv(g) && Can(g, s) && (s.Publish? || (s.Offer? && Full(g)))
    ensures Inv(Next(g, s))
  {
    var h := Next(g, s);
    forall c | c in h.consumers
      ensures InStep(h, c)
    {
      assert InStep(g, c);
    }
    if g.maxQueue > 0 {
      RoomKeeps(g, s);
    }
  }

  lemma StepKeeps<T>(g: Group<T>, s: Step<T>)
    requires Inv(g) && Can(g, s)
    ensures Inv(Next(g, s)) && Next(g, s).maxQueue == g.maxQueue
  {
    match s
    case Add => AddKeeps(g);
    case Del(c) => DelKeeps(g, c);
    case Publish(_) => CallKeeps(g, s);
    case Offer(p) =>
      if Full(g) {
        CallKeeps(g, s);
      } else {
        SentKeeps(g, p);
      }
    case _ => OneConsumerKeeps(g, s);
  }

  lemma {:induction false} RunFromKeeps<T>(g: Group<T>, steps: seq<Step<T>>)
    requires Inv(g) && Possible(g, steps)
    ensures Inv(Run(g, steps)) && Run(g, steps).maxQueue == g.maxQueue
  {
    if steps != [] {
      var init, s := steps[..|steps| - 1], steps[|steps| - 1];
      RunFromKeeps(g, init);
      StepKeeps(Run(g, init), s);
    }
  }

  lemma RunKeeps<T>(maxQueue: int, steps: seq<Step<T>>)
    requires Possible(New(maxQueue), steps)
    ensures Inv(Run(New(maxQueue), steps)) && Run(New(maxQueue), steps).maxQueue == maxQueue
  {
    RunFromKeeps(New<T>(maxQueue), steps);
  }

  /** Over every run, what a consumer has handled is a first part of what was broadcast while it
      was a member, in that order; when it has ended it is all of it, events still queued at its
      removal included; one that sleeps has handled all that it was sent so far; and no queue is
      longer than the limit. */
  lemma EachHandlesItsEventsOnce<T>(maxQueue: int, steps: seq<Step<T>>, c: nat)
    requires Possible(New(maxQueue), steps) && c in Run(New(maxQueue), steps).consumers
    ensures var g := Run(New(maxQueue), steps); var k := g.consumers[c];
      && k.joined <= Until(g, k) <= |g.log|
      && k.backlog.handled <= g.log[k.joined..Until(g, k)]
      && (k.phase == Done || k.phase == Parked ==> k.backlog.handled == g.log[k.joined..Until(g, k)])
      && |k.backlog.queue| <= (if maxQueue >= 0 then maxQueue else 0)
  {
    RunKeeps(maxQueue, steps);
    HandledInOrder(Run(New(maxQueue), steps), c);
  }

  lemma HandledInOrder<T>(g: Group<T>, c: nat)
    requires c in g.consumers && InStep(g, c)
    ensures var k := g.consumers[c];
      && k.backlog.handled <= g.log[k.joined..Until(g, k)]
      && (k.phase == Done || k.phase == Parked ==> k.backlog.handled == g.log[k.joined..Until(g, k)])
  {
    var b := g.consumers[c].backlog;
    assert b.Received() == b.handled + (b.pending + b.queue);
  }

  // ---- Sleeping and waking ----

  /** Nothing on the way wakes the sleepers. */
  ghost predicate NoWake<T>(g: Group<T>, steps: seq<Step<T>>) {
    steps != [] ==>
      NoWake(g, steps[..|steps| - 1]) && !Wakes(Run(g, steps[..|steps| - 1]), steps[|steps| - 1])
  }

  predicate StepOf<T>(s: Step<T>, c: nat) {
    (s.Check? || s.Handle? || s.Finish?) && s.c == c
  }

  /** How many of the steps are the consumer's own. */
  function Own<T>(steps: seq<Step<T>>, c: nat): nat {
    if steps == [] then 0
    else Own(steps[..|steps| - 1], c) + if StepOf(steps[|steps| - 1], c) then 1 else 0
  }

  /** What a consumer that is not asleep does next. */
  function OwnStep<T>(k: Consumer<T>, c: nat): Step<T> {
    if k.phase == Awake then Check(c) else if k.backlog.pending != [] then Handle(c) else Finish(c)
  }

  lemma OneMore<T>(g: Group<T>, steps: seq<Step<T>>, s: Step<T>)
    ensures Run(g, steps + [s]) == Next(Run(g, steps), s)
    ensures Possible(g, steps) && Can(Run(g, steps), s) ==> Possible(g, steps + [s])
    ensures NoWake(g, steps) && !Wakes(Run(g, steps), s) ==> NoWake(g, steps + [s])
    ensures forall c :: Own(steps + [s], c) == Own(steps, c) + if StepOf(s, c) then 1 else 0
  {
    assert (steps + [s])[..|steps|] == steps;
  }

  // ---- Removed consumers ----

  /** How many steps a removed consumer that is not asleep has left. */
  function Left<T>(k: Consumer<T>): nat {
    var last := if k.backlog.queue == [] then 1 else |k.backlog.queue| + 3;
    match k.phase
    case Done => 0
    case Working => |k.backlog.pending| + 1 + last
    case _ => last
  }

  /** A removed consumer wakes up with the others and does not fall asleep again; of the steps it
      has left only its own take one away. */
  lemma RemovedStep<T>(g: Group<T>, s: Step<T>, c: nat)
    requires Can(g, s) && c in g.consumers && g.consumers[c].stop && InStep(g, c)
    ensures c in Next(g, s).consumers && Next(g, s).consumers[c].stop
    ensures Next(g, s).consumers[c].phase == Parked <==> g.consumers[c].phase == Parked && !Wakes(g, s)
    ensures g.consumers[c].phase != Parked ==>
              Left(Next(g, s).consumers[c]) + (if StepOf(s, c) then 1 else 0) == Left(g.consumers[c])
  {
    if Wakes(g, s) && s.Offer? {
      SentToAll(g, s.p, c);
    }
  }

  /** It sleeps for as long as nothing wakes the sleepers, and no longer. */
  lemma {:induction false} RemovedSleeps<T>(g: Group<T>, steps: seq<Step<T>>, c: nat)
    requires Inv(g) && Possible(g, steps) && c in g.consumers && g.consumers[c].stop
    ensures c in Run(g, steps).consumers && Run(g, steps).consumers[c].stop
    ensures Run(g, steps).consumers[c].phase == Parked <==> g.consumers[c].phase == Parked && NoWake(g, steps)
  {
    if steps != [] {
      var init := steps[..|steps| - 1];
      RemovedSleeps(g, init, c);
      RunFromKeeps(g, init);
      assert InStep(Run(g, init), c);
      RemovedStep(Run(g, init), steps[|steps| - 1], c);
    }
  }

  lemma NextIsPossible<T>(g: Group<T>, c: nat)
    requires c in g.consumers && g.consumers[c].phase != Parked
    ensures Left(g.consumers[c]) == 0 <==> g.consumers[c].phase == Done
    ensures g.consumers[c].phase != Done ==> Can(g, OwnStep(g.consumers[c], c))
  {
  }

  lemma {:induction false} LeftFalls<T>(g: Group<T>, steps: seq<Step<T>>, c: nat)
    requires Inv(g) && Possible(g, steps) && c in g.consumers && g.consumers[c].stop && g.consumers[c].phase != Parked
    ensures var h := Run(g, steps);
      && c in h.consumers && h.consumers[c].stop && h.consumers[c].phase != Parked
      && Own(steps, c) + Left(h.consumers[c]) == Left(g.consumers[c])
  {
    if steps != [] {
      var init := steps[..|steps| - 1];
      LeftFalls(g, init, c);
      RunFromKeeps(g, init);
      assert InStep(Run(g, init), c);
      RemovedStep(Run(g, init), steps[|steps| - 1], c);
    }
  }

  /** Once it is not asleep, a removed consumer ends after a fixed number of its own steps,
      whatever the others do in between, and it can always take the next one. */
  lemma {:induction false} RemovedFinishes<T>(g: Group<T>, steps: seq<Step<T>>, c: nat)
    requires Inv(g) && Possible(g, steps) && c in g.consumers && g.consumers[c].stop && g.consumers[c].phase != Parked
    ensures var h := Run(g, steps);
      && c in h.consumers && h.consumers[c].stop && h.consumers[c].phase != Parked
      && Own(steps, c) + Left(h.consumers[c]) == Left(g.consumers[c])
      && (Left(h.consumers[c]) == 0 <==> h.consumers[c].phase == Done)
      && (h.consumers[c].phase != Done ==> Can(h, OwnStep(h.consumers[c], c)))
  {
    LeftFalls(g, steps, c);
    RunFromKeeps(g, steps);
    NextIsPossible(Run(g, steps), c);
  }

  /** The consumer ends by its own steps, with the help of nobody. */
  ghost predicate EndsByItself<T(!new)>(g: Group<T>, c: nat) {
    exists more: seq<Step<T>> :: EndsBy(g, more, c)
  }

  ghost predicate EndsBy<T>(g: Group<T>, more: seq<Step<T>>, c: nat) {
    && Possible(g, more) && Own(more, c) == |more|
    && c in Run(g, more).consumers && Run(g, more).consumers[c].phase == Done
  }

  lemma {:induction false} GoesOn<T>(g: Group<T>, c: nat, n: nat) returns (more: seq<Step<T>>)
    requires Inv(g) && c in g.consumers && g.consumers[c].stop && g.consumers[c].phase != Parked
    requires n <= Left(g.consumers[c])
    ensures Possible(g, more) && Own(more, c) == |more| == n
  {
    more := [];
    if n > 0 {
      more := GoesOn(g, c, n - 1);
      RemovedFinishes(g, more, c);
      var s := OwnStep(Run(g, more).consumers[c], c);
      OneMore(g, more, s);
      more := more + [s];
    }
  }

  lemma {:induction false} SleeperTakesNoStep<T>(g: Group<T>, more: seq<Step<T>>, c: nat)
    requires Possible(g, more) && Own(more, c) == |more| && c in g.consumers && g.consumers[c].phase == Parked
    ensures more == []
  {
    if more != [] {
      OwnAtMost(more[..|more| - 1], c);
      SleeperTakesNoStep(g, more[..|more| - 1], c);
    }
  }

  lemma {:induction false} OwnAtMost<T>(steps: seq<Step<T>>, c: nat)
    ensures Own(steps, c) <= |steps|
  {
    if steps != [] {
      OwnAtMost(steps[..|steps| - 1], c);
    }
  }

  /** Del does not wake the consumer that it removes. Over every run: from the moment it is removed
      on, the consumer ends by its own steps exactly if it was not asleep then, or if something
      has woken the sleepers since. */
  lemma RemovedEndsExactlyIfWoken<T(!new)>(maxQueue: int, before: seq<Step<T>>, steps: seq<Step<T>>, c: nat)
    requires Possible(New(maxQueue), before) && Possible(Run(New(maxQueue), before), steps)
    requires c in Run(New(maxQueue), before).consumers && Run(New(maxQueue), before).consumers[c].stop
    ensures var g := Run(New(maxQueue), before);
      EndsByItself(Run(g, steps), c) <==> g.consumers[c].phase != Parked || !NoWake(g, steps)
  {
    var g := Run(New(maxQueue), before);
    RunKeeps(maxQueue, before);
    RunFromKeeps(g, steps);
    RemovedSleeps(g, steps, c);
    var h := Run(g, steps);
    if h.consumers[c].phase == Parked {
      forall more: seq<Step<T>> | Possible(h, more) && Own(more, c) == |more|
        ensures !EndsBy(h, more, c)
      {
        SleeperTakesNoStep(h, more, c);
      }
    } else {
      var more := GoesOn(h, c, Left(h.consumers[c]));
      RemovedFinishes(h, more, c);
      assert EndsBy(h, more, c);
    }
  }

  // ---- A removed consumer that never ends ----

  /** Nobody publishes and nobody has anything to do. */
  ghost predicate Quiet<T>(g: Group<T>) {
    g.calls == map[] && forall c | c in g.consumers :: Idle(g.consumers[c])
  }

  predicate Idle<T>(k: Consumer<T>) {
    k.phase != Working && k.backlog.queue == [] && k.backlog.pending == []
  }

  lemma {:induction false} QuietStays<T>(g: Group<T>, steps: seq<Step<T>>)
    requires Quiet(g) && Possible(g, steps) && forall s | s in steps :: !s.Publish?
    ensures Quiet(Run(g, steps)) && NoWake(g, steps)
  {
    if steps != [] {
      var init, s := steps[..|steps| - 1], steps[|steps| - 1];
      QuietStays(g, init);
      assert s in steps;
    }
  }

  /** A consumer that is removed while it sleeps stays for good unless something is published
      later: subscribe, let the consumer fall asleep, unsubscribe. Whatever happens then, other
      subscriptions and removals included, its goroutine sleeps on. */
  lemma RemovedSleeperStays<T(!new)>(maxQueue: int, steps: seq<Step<T>>)
    requires Possible(Run(New<T>(maxQueue), [Add, Check(0), Del(0)]), steps) && forall s | s in steps :: !s.Publish?
    ensures Possible(New<T>(maxQueue), [Add, Check(0), Del(0)])
    ensures var h := Run(Run(New<T>(maxQueue), [Add, Check(0), Del(0)]), steps);
      0 in h.consumers && h.consumers[0].stop && h.consumers[0].phase == Parked
  {
    var start := New<T>(maxQueue);
    OneMore(start, [], Step<T>.Add);
    OneMore(start, [] + [Step<T>.Add], Check(0));
    OneMore(start, [] + [Step<T>.Add] + [Check(0)], Del(0));
    assert [] + [Step<T>.Add] + [Check(0)] + [Del(0)] == [Add, Check(0), Del(0)];
    var g := Run(start, [Add, Check(0), Del(0)]);
    RunKeeps(maxQueue, [Step<T>.Add, Check(0), Del(0)]);
    QuietStays(g, steps);
    RemovedSleeps(g, steps, 0);
  }

  // ---- Publishers that wait for room ----

  /** How many steps a busy consumer has left until its turn ends. */
  function TurnLeft<T>(k: Consumer<T>): nat {
    if k.phase == Working then |k.backlog.pending| + 1 else |k.backlog.queue| + 2
  }

  lemma BusyStep<T>(g: Group<T>, s: Step<T>, c: nat)
    requires Inv(g) && Can(g, s) && Busy(g, c) && !Wakes(g, s)
    ensures Busy(Next(g, s), c)
    ensures TurnLeft(Next(g, s).consumers[c]) + (if StepOf(s, c) then 1 else 0) == TurnLeft(g.consumers[c])
  {
    assert InStep(g, c);
  }

  /** While nobody is woken, a busy consumer's own steps bring the end of its turn nearer, nothing
      else moves it away, and the consumer can always take its next step. */
  lemma {:induction false} TurnComesToItsEnd<T>(g: Group<T>, steps: seq<Step<T>>, c: nat)
    requires Inv(g) && Possible(g, steps) && NoWake(g, steps) && Busy(g, c)
    ensures var h := Run(g, steps);
      && Busy(h, c) && Own(steps, c) + TurnLeft(h.consumers[c]) == TurnLeft(g.consumers[c])
      && TurnLeft(h.consumers[c]) > 0
      && Can(h, OwnStep(h.consumers[c], c))
      && (Wakes(h, OwnStep(h.consumers[c], c)) <==> TurnLeft(h.consumers[c]) == 1)
  {
    if steps == [] {
      assert InStep(g, c);
    } else {
      var init := steps[..|steps| - 1];
      TurnComesToItsEnd(g, init, c);
      RunFromKeeps(g, init);
      BusyStep(Run(g, init), steps[|steps| - 1], c);
      RunFromKeeps(g, steps);
      assert InStep(Run(g, steps), c);
    }
  }

  /** The consumer works up to the last step of its turn. */
  lemma {:induction false} WorksOn<T>(g: Group<T>, c: nat, n: nat) returns (more: seq<Step<T>>)
    requires Inv(g) && Busy(g, c) && n < TurnLeft(g.consumers[c])
    ensures Possible(g, more) && NoWake(g, more) && Own(more, c) == |more| == n
  {
    more := [];
    if n > 0 {
      more := WorksOn(g, c, n - 1);
      TurnComesToItsEnd(g, more, c);
      var s := OwnStep(Run(g, more).consumers[c], c);
      OneMore(g, more, s);
      more := more + [s];
    }
  }

  /** Backpressure never blocks for good. Over every run, with room for an event at all, a
      publisher that waits for room waits for the end of some consumer's turn. That consumer gets
      there by a fixed number of its own steps, whatever the others do meanwhile, unless everybody
      is woken before; and left alone it wakes the publisher. */
  lemma BlockedPublisherIsWoken<T(!new)>(maxQueue: int, before: seq<Step<T>>, p: nat) returns (c: nat, more: seq<Step<T>>)
    requires maxQueue > 0 && Possible(New(maxQueue), before) && Blocked(Run(New(maxQueue), before), p)
    ensures var g := Run(New(maxQueue), before);
      && Busy(g, c)
      && (forall steps: seq<Step<T>> | Possible(g, steps) && NoWake(g, steps) :: Own(steps, c) < TurnLeft(g.consumers[c]))
      && Possible(g, more) && Own(more, c) == |more| == TurnLeft(g.consumers[c])
      && p in Run(g, more).calls && !Blocked(Run(g, more), p)
  {
    var g := Run(New(maxQueue), before);
    RunKeeps(maxQueue, before);
    c :| Busy(g, c);
    forall steps: seq<Step<T>> | Possible(g, steps) && NoWake(g, steps)
      ensures Own(steps, c) < TurnLeft(g.consumers[c])
    {
      TurnComesToItsEnd(g, steps, c);
    }
    var work := WorksOn(g, c, TurnLeft(g.consumers[c]) - 1);
    TurnComesToItsEnd(g, work, c);
    StillCalling(g, work, p);
    var h := Run(g, work);
    var last := OwnStep(h.consumers[c], c);
    OneMore(g, work, last);
    NobodyBlockedAfterWaking(h, last, p);
    more := work + [last];
  }

  lemma {:induction false} StillCalling<T>(g: Group<T>, steps: seq<Step<T>>, p: nat)
    requires Inv(g) && Possible(g, steps) && NoWake(g, steps) && p in g.calls
    ensures p in Run(g, steps).calls
  {
    if steps != [] {
      StillCalling(g, steps[..|steps| - 1], p);
      RunFromKeeps(g, steps[..|steps| - 1]);
    }
  }

  /** Nothing was broadcast, and nobody has anything to do. */
  ghost predicate Stuck<T>(g: Group<T>) {
    && g.log == []
    && forall c | c in g.consumers :: Idle(g.consumers[c]) && g.consumers[c].backlog.handled == []
  }

  /** With a limit of nought nothing is ever broadcast, and a publisher that once fell asleep
      sleeps for good: the queues count as full even when there is no subscriber. */
  lemma {:induction false} NoRoomStopsAll<T>(maxQueue: int, steps: seq<Step<T>>, k: nat, p: nat)
    requires maxQueue <= 0 && Possible(New(maxQueue), steps) && k <= |steps|
    ensures Stuck(Run(New(maxQueue), steps)) && Run(New(maxQueue), steps).maxQueue == maxQueue
    ensures Blocked(Run(New(maxQueue), steps[..k]), p) ==> Blocked(Run(New(maxQueue), steps), p)
    decreases |steps|
  {
    if steps != [] {
      var init, s := steps[..|steps| - 1], steps[|steps| - 1];
      NoRoomStopsAll(maxQueue, init, if k < |steps| then k else 0, p);
      if k == |steps| {
        assert steps[..k] == steps;
      } else {
        assert init[..k] == steps[..k];
      }
      RunKeeps(maxQueue, init);
      StuckStays(Run(New(maxQueue), init), s, p);
    }
  }

  lemma StuckStays<T>(g: Group<T>, s: Step<T>, p: nat)
    requires g.maxQueue <= 0 && Stuck(g) && (Blocked(g, p) ==> p < g.called)
    ensures Stuck(Next(g, s)) && Next(g, s).maxQueue == g.maxQueue
    ensures Blocked(g, p) ==> Blocked(Next(g, s), p)
  {
    assert s.Offer? ==> Full(g);
  }
}
