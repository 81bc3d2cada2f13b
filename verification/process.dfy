module ProcessState {
  datatype ProcState = Stopped | Starting | Ready | Stopping | Shutdown
}

/** The run loop of one upstream process (internal/process/process_command.go).

    The loop is the only writer of its fields. Every request has a response channel with room for
    one answer; a channel is known by the number of its request, and `sent` holds what was put
    into it. Sending a second answer would block the loop, so Respond requires an empty channel.
    A child process is known by its number; `alive` holds the children that have not exited. */
module ProcessLoop {
  import opened Names
  import opened ProcessState

  datatype Answer =
    | Fine         // no error
    | Refused      // not to be started in this state
    | StartFailed
    | StartAborted
    | Exited       // the child exited by itself
    | WasStopped
    | WasShutDown

  /** What doStart hands to the loop. */
  datatype StartResult = Started(child: nat) | Failed

  /** What one turn of the health check finds. */
  datatype Poll = Poll(cancelled: bool, exited: bool, healthy: bool)

  /** How a start goes: whether it is configured and its command can be launched, whether it is
      cancelled by then, whether health is checked, and what is found until the deadline. */
  datatype Course = Course(configured: bool, launched: bool, cancelled: bool, unchecked: bool, polls: seq<Poll>)

  /** The poll finds the child healthy, and nothing before it or in it ends the start. */
  predicate HealthyAt(polls: seq<Poll>, cancellable: bool, k: nat) {
    && k < |polls| && polls[k].healthy
    && forall j | 0 <= j <= k :: !polls[j].exited && !(polls[j].cancelled && cancellable)
  }

  /** The start succeeds: health is not checked, or found before anything ends the start. */
  predicate Succeeds(c: Course, cancellable: bool) {
    && c.configured && c.launched && !(c.cancelled && cancellable)
    && (c.unchecked || exists k :: 0 <= k < |c.polls| && HealthyAt(c.polls, cancellable, k))
  }

  /** How the wait for doStart ends. */
  datatype Ending = Result | StopCame | ParentGone

  /** The channels after the same answer was put into each of these. */
  function Told(sent: map<nat, Answer>, ids: set<nat>, a: Answer): map<nat, Answer> {
    map id | id in sent.Keys + ids :: if id in ids then a else sent[id]
  }

  lemma ToldMore(sent: map<nat, Answer>, ids: set<nat>, id: nat, a: Answer)
    ensures Told(sent, ids, a)[id := a] == Told(sent, ids + {id}, a)
    ensures Told(sent, {}, a) == sent
  {
  }

  /** The channel of a parked Run caller after it was told, if there is one. */
  function Ran(sent: map<nat, Answer>, run: Option<nat>, a: Answer): map<nat, Answer> {
    if run.Some? then sent[run.value := a] else sent
  }

  /** An answer, once given, stays the only one. */
  ghost predicate Extends(before: map<nat, Answer>, after: map<nat, Answer>) {
    forall id | id in before :: id in after && after[id] == before[id]
  }

  // ---- The books: who asked, who was answered, who is parked ----

  datatype Kind = Start | Stop | Wait

  datatype Books = Books(
    sent: map<nat, Answer>,
    parked: seq<nat>,
    run: Option<nat>,
    kinds: map<nat, Kind>,
    requests: nat)

  /** A request that was received has exactly one answer, or is parked in exactly one place, or is
      being handled; any other number is nowhere. */
  ghost predicate Kept(b: Books, hand: set<nat>, id: nat) {
    && (if id in b.kinds then id < b.requests && Places(b, hand, id) == 1 else Places(b, hand, id) == 0)
    && (id in b.parked ==> b.kinds[id] == Wait)
    && (b.run == Some(id) ==> b.kinds[id] == Start)
  }

  /** In how many places the request is. */
  ghost function Places(b: Books, hand: set<nat>, id: nat): nat {
    (if id in b.sent then 1 else 0) + (if id in hand then 1 else 0)
    + (if id in b.parked then 1 else 0) + (if b.run == Some(id) then 1 else 0)
  }

  ghost predicate Balanced(b: Books, hand: set<nat>) {
    NoDup(b.parked) && forall id :: Kept(b, hand, id)
  }

  // ---- What the loop does to the books ----

  function Receive(b: Books, kind: Kind): Books {
    b.(kinds := b.kinds[b.requests := kind], requests := b.requests + 1)
  }

  function Respond(b: Books, id: nat, a: Answer): Books {
    b.(sent := b.sent[id := a])
  }

  /** Everybody waiting for readiness is told. */
  function Notify(b: Books, a: Answer): Books {
    b.(sent := Told(b.sent, Elems(b.parked), a), parked := [])
  }

  /** The parked caller of Run is told. */
  function RespondRun(b: Books, a: Answer): Books {
    b.(sent := Ran(b.sent, b.run, a), run := None)
  }

  /** The loop ends, or the child did. */
  function AllOver(b: Books, a: Answer): Books {
    RespondRun(Notify(b, a), a)
  }

  function AfterWait(b: Books, ready: bool): Books {
    var b1 := Receive(b, Wait);
    if ready then Respond(b1, b.requests, Fine) else b1.(parked := b1.parked + [b.requests])
  }

  function AfterStop(b: Books, toreDown: bool): Books {
    var b1 := Receive(b, Stop);
    Respond(RespondRun(if toreDown then Notify(b1, WasStopped) else b1, Fine), b.requests, Fine)
  }

  /** The start with this id has its result: the caller hears of it now or, with block, later. */
  function AfterReady(b: Books, id: nat, block: bool): Books {
    if block then Notify(b, Fine).(run := Some(id)) else Respond(Notify(b, Fine), id, Fine)
  }

  function AfterFailure(b: Books, id: nat): Books {
    Respond(Notify(b, StartFailed), id, StartFailed)
  }

  /** A stop came during the start with this id; it is answered last. */
  function AfterAbort(b: Books, id: nat): Books {
    Respond(Respond(Notify(Receive(b, Stop), StartAborted), id, StartAborted), b.requests, Fine)
  }

  lemma NotifyBalances(b: Books, hand: set<nat>, a: Answer)
    requires Balanced(b, hand)
    ensures Balanced(Notify(b, a), hand) && Extends(b.sent, Notify(b, a).sent)
  {
    forall id
      ensures Kept(Notify(b, a), hand, id) && (id in b.sent ==> Notify(b, a).sent[id] == b.sent[id])
    {
      assert Kept(b, hand, id);
      assert id in b.parked <==> id in Elems(b.parked);
    }
  }

  lemma RespondBalances(b: Books, hand: set<nat>, id: nat, a: Answer)
    requires Balanced(b, hand) && id in hand
    ensures Balanced(Respond(b, id, a), hand - {id}) && Extends(b.sent, Respond(b, id, a).sent)
  {
    assert Kept(b, hand, id);
    forall x
      ensures Kept(Respond(b, id, a), hand - {id}, x)
    {
      assert Kept(b, hand, x);
    }
  }

  lemma RespondRunBalances(b: Books, hand: set<nat>, a: Answer)
    requires Balanced(b, hand)
    ensures Balanced(RespondRun(b, a), hand) && Extends(b.sent, RespondRun(b, a).sent)
  {
    forall id
      ensures Kept(RespondRun(b, a), hand, id) && (id in b.sent ==> RespondRun(b, a).sent[id] == b.sent[id])
    {
      assert Kept(b, hand, id);
    }
  }

  lemma AllOverBalances(b: Books, hand: set<nat>, a: Answer)
    requires Balanced(b, hand)
    ensures Balanced(AllOver(b, a), hand) && Extends(b.sent, AllOver(b, a).sent)
  {
    NotifyBalances(b, hand, a);
    RespondRunBalances(Notify(b, a), hand, a);
  }

  lemma ReceiveBalances(b: Books, hand: set<nat>, kind: Kind)
    requires Balanced(b, hand)
    ensures Balanced(Receive(b, kind), hand + {b.requests})
  {
    assert Kept(b, hand, b.requests);
    forall id
      ensures Kept(Receive(b, kind), hand + {b.requests}, id)
    {
      assert Kept(b, hand, id);
    }
  }

  /** The request in hand is parked. */
  lemma ParkBalances(b: Books, hand: set<nat>, id: nat)
    requires Balanced(b, hand) && id in hand && id in b.kinds && b.kinds[id] == Wait
    ensures Balanced(b.(parked := b.parked + [id]), hand - {id})
  {
    assert Kept(b, hand, id);
    forall x
      ensures Kept(b.(parked := b.parked + [id]), hand - {id}, x)
    {
      assert Kept(b, hand, x);
    }
  }

  lemma ParkRunBalances(b: Books, hand: set<nat>, id: nat)
    requires Balanced(b, hand) && id in hand && id in b.kinds && b.kinds[id] == Start && b.run.None?
    ensures Balanced(b.(run := Some(id)), hand - {id})
  {
    assert Kept(b, hand, id);
    forall x
      ensures Kept(b.(run := Some(id)), hand - {id}, x)
    {
      assert Kept(b, hand, x);
    }
  }

  lemma AfterWaitBalances(b: Books, ready: bool)
    requires Balanced(b, {})
    ensures Balanced(AfterWait(b, ready), {}) && Extends(b.sent, AfterWait(b, ready).sent)
  {
    ReceiveBalances(b, {}, Wait);
    assert {} + {b.requests} - {b.requests} == {};
    if ready {
      RespondBalances(Receive(b, Wait), {} + {b.requests}, b.requests, Fine);
    } else {
      ParkBalances(Receive(b, Wait), {} + {b.requests}, b.requests);
    }
  }

  lemma AfterStopBalances(b: Books, toreDown: bool)
    requires Balanced(b, {})
    ensures Balanced(AfterStop(b, toreDown), {}) && Extends(b.sent, AfterStop(b, toreDown).sent)
  {
    var hand := {} + {b.requests};
    ReceiveBalances(b, {}, Stop);
    var b1 := Receive(b, Stop);
    NotifyBalances(b1, hand, WasStopped);
    var b2 := if toreDown then Notify(b1, WasStopped) else b1;
    RespondRunBalances(b2, hand, Fine);
    RespondBalances(RespondRun(b2, Fine), hand, b.requests, Fine);
    assert hand - {b.requests} == {};
  }

  lemma AfterReadyBalances(b: Books, id: nat, block: bool)
    requires Balanced(b, {id}) && id in b.kinds && b.kinds[id] == Start && b.run.None?
    ensures Balanced(AfterReady(b, id, block), {}) && Extends(b.sent, AfterReady(b, id, block).sent)
  {
    NotifyBalances(b, {id}, Fine);
    assert {id} - {id} == {};
    if block {
      ParkRunBalances(Notify(b, Fine), {id}, id);
    } else {
      RespondBalances(Notify(b, Fine), {id}, id, Fine);
    }
  }

  lemma AfterFailureBalances(b: Books, id: nat)
    requires Balanced(b, {id})
    ensures Balanced(AfterFailure(b, id), {}) && Extends(b.sent, AfterFailure(b, id).sent)
  {
    NotifyBalances(b, {id}, StartFailed);
    RespondBalances(Notify(b, StartFailed), {id}, id, StartFailed);
    assert {id} - {id} == {};
  }

  lemma AfterAbortBalances(b: Books, id: nat)
    requires Balanced(b, {id})
    ensures Balanced(AfterAbort(b, id), {}) && Extends(b.sent, AfterAbort(b, id).sent)
  {
    var hand := {id} + {b.requests};
    assert Kept(b, {id}, id);
    ReceiveBalances(b, {id}, Stop);
    NotifyBalances(Receive(b, Stop), hand, StartAborted);
    var b2 := Notify(Receive(b, Stop), StartAborted);
    RespondBalances(b2, hand, id, StartAborted);
    RespondBalances(Respond(b2, id, StartAborted), hand - {id}, b.requests, Fine);
    assert hand - {id} - {b.requests} == {};
  }

  /** No channel that the loop is about to send to holds an answer already. */
  lemma RoomToAnswer(b: Books, hand: set<nat>)
    requires Balanced(b, hand)
    ensures NoDup(b.parked)
    ensures Elems(b.parked) + hand + RunSet(b.run) !! b.sent.Keys
    ensures RunSet(b.run) !! Elems(b.parked) && hand !! Elems(b.parked) && hand !! RunSet(b.run)
  {
    forall id
      ensures Places(b, hand, id) <= 1 && (id in b.parked <==> id in Elems(b.parked))
    {
      assert Kept(b, hand, id);
    }
  }

  function RunSet(run: Option<nat>): set<nat> {
    if run.Some? then {run.value} else {}
  }

  class ProcessCommand {
    var state: ProcState
    var cmd: Option<nat>
    var cmdDone: Option<nat>
    var cmdCancel: Option<nat>
    var handler: Option<nat>
    var readyWaiters: seq<nat>
    var runResp: Option<nat>

    // The response channels and the requests received so far.
    var sent: map<nat, Answer>
    var requests: nat
    ghost var kinds: map<nat, Kind>

    // The operating system's side.
    var children: nat
    ghost var alive: set<nat>

    // ---- What the loop keeps ----

    /** Ready, with a child and a handler for it, or Stopped with neither. */
    ghost predicate Settled()
      reads this
    {
      && (state == Stopped || state == Ready)
      && (state == Ready <==> cmd.Some?) && handler == cmd && cmdDone == cmd && cmdCancel == cmd
      && (cmd.Some? ==> cmd.value < children)
      && (readyWaiters != [] ==> state == Stopped)
      && (runResp.Some? ==> state == Ready)
      && alive <= (if cmd.Some? then {cmd.value} else {})
    }

    ghost function TheBooks(): Books
      reads this
    {
      Books(sent, readyWaiters, runResp, kinds, requests)
    }

    ghost predicate Accounted(hand: set<nat>)
      reads this
    {
      Balanced(TheBooks(), hand)
    }

    ghost predicate Rest()
      reads this
    {
      Settled() && Accounted({})
    }

    /** The loop has ended. Only start requests in `released` have no answer: their callers leave
        by the parent context. Nobody is parked and no child is left. */
    ghost predicate Ended(released: set<nat>)
      reads this
    {
      && state == Shutdown && cmd.None? && handler.None? && alive == {}
      && readyWaiters == [] && runResp.None?
      && Accounted(released) && forall id | id in released :: id in kinds && kinds[id] == Start
    }

    constructor ()
      ensures Rest() && state == Stopped && TheBooks() == Books(map[], [], None, map[], 0)
    {
      state := Stopped;
      cmd, cmdDone, cmdCancel, handler, runResp := None, None, None, None, None;
      readyWaiters, sent, requests, children := [], map[], 0, 0;
      kinds, alive := map[], {};
    }

    // ---- The operating system ----

    /** Any child may exit at any time. */
    method TimePasses()
      modifies this`alive
      ensures alive <= old(alive)
    {
      ghost var left :| left <= alive;
      alive := left;
    }

    /** Receiving from cmdDone: the child has exited. */
    method AwaitExit(child: nat)
      modifies this`alive
      ensures alive <= old(alive) - {child}
    {
      TimePasses();
      alive := alive - {child};
    }

    /** The child is signalled, given time, killed if need be, and waited for. Without a cancel
        function nothing is done. */
    method KillProcess(cancel: Option<nat>, done: Option<nat>)
      requires cancel == done
      modifies this`alive
      ensures alive <= old(alive) - (if done.Some? then {done.value} else {})
    {
      if cancel.None? {
        return;
      }
      var inTime: bool := *;
      if inTime {
        AwaitExit(done.value);
        return;
      }
      TimePasses();
      AwaitExit(done.value);
    }

    method StartChild() returns (child: nat)
      requires forall c | c in alive :: c < children
      modifies this`children, this`alive
      ensures child == old(children) && children == old(children) + 1
      ensures alive == old(alive) + {child}
    {
      child := children;
      children := children + 1;
      alive := alive + {child};
    }

    method Abort(child: nat) returns (res: StartResult)
      modifies this`alive
      ensures res.Failed? && alive <= old(alive) - {child}
    {
      KillProcess(Some(child), Some(child));
      res := Failed;
    }

    /** Starts a child and polls its health until the deadline. No child survives unless it is
        handed over. */
    method DoStart(course: Course, cancellable: bool) returns (res: StartResult)
      requires forall c | c in alive :: c < children
      modifies this`children, this`alive
      ensures res.Started? <==> Succeeds(course, cancellable)
      ensures old(children) <= children
      ensures res.Failed? ==> alive <= old(alive)
      ensures res.Started? ==> old(children) <= res.child < children && alive <= old(alive) + {res.child}
    {
      if !course.configured || !course.launched {
        return Failed;
      }
      var child := StartChild();
      if course.cancelled && cancellable {
        res := Abort(child);
        return;
      }
      if course.unchecked {
        return Started(child);
      }
      for i := 0 to |course.polls|
        invariant alive <= old(alive) + {child}
        invariant children == old(children) + 1
        invariant forall j | 0 <= j < i ::
          !course.polls[j].exited && !(course.polls[j].cancelled && cancellable) && !course.polls[j].healthy
      {
        TimePasses();
        if course.polls[i].cancelled && cancellable {
          res := Abort(child);
          return;
        }
        if course.polls[i].exited {
          AwaitExit(child);
          return Failed;
        }
        if course.polls[i].healthy {
          assert HealthyAt(course.polls, cancellable, i);
          return Started(child);
        }
      }
      res := Abort(child);
    }

    // ---- Answering: the channels have room ----

    method Answer(id: nat, a: Answer)
      requires id !in sent
      modifies this`sent
      ensures TheBooks() == Respond(old(TheBooks()), id, a)
    {
      sent := sent[id := a];
    }

    /** Everybody waiting for readiness is told. The send does not wait for room, and never has to. */
    method NotifyWaiters(a: Answer)
      requires NoDup(readyWaiters) && Elems(readyWaiters) !! sent.Keys
      modifies this`sent, this`readyWaiters
      ensures TheBooks() == Notify(old(TheBooks()), a)
    {
      ToldMore(sent, {}, 0, a);
      for k := 0 to |readyWaiters|
        invariant readyWaiters == old(readyWaiters)
        invariant sent == Told(old(sent), Elems(readyWaiters[..k]), a)
      {
        var w := readyWaiters[k];
        ElemsAppend(readyWaiters[..k], [w]);
        assert readyWaiters[..k + 1] == readyWaiters[..k] + [w];
        assert Elems([w]) == {w};
        assert w in Elems(readyWaiters);
        ToldMore(old(sent), Elems(readyWaiters[..k]), w, a);
        if w !in sent {
          sent := sent[w := a];
        } else {
          assert false;
        }
      }
      assert readyWaiters[..|readyWaiters|] == readyWaiters;
      readyWaiters := [];
    }

    method AnswerRun(a: Answer)
      requires RunSet(runResp) !! sent.Keys
      modifies this`sent, this`runResp
      ensures TheBooks() == RespondRun(old(TheBooks()), a)
    {
      if runResp.Some? {
        sent := sent[runResp.value := a];
        runResp := None;
      }
    }

    // ---- The cases of the select ----

    /** The parent context was cancelled. */
    method OnParentDone()
      requires Rest()
      modifies this
      ensures Ended({}) && TheBooks() == AllOver(old(TheBooks()), WasShutDown)
    {
      RoomToAnswer(TheBooks(), {});
      AllOverBalances(TheBooks(), {}, WasShutDown);
      state := Shutdown;
      if cmd.Some? {
        handler := None;
        KillProcess(cmdCancel, cmdDone);
        cmd, cmdDone, cmdCancel := None, None, None;
      }
      NotifyWaiters(WasShutDown);
      AnswerRun(WasShutDown);
    }

    /** The child exited by itself. */
    method OnCmdDone()
      requires Rest() && cmdDone.Some?
      modifies this
      ensures Rest() && state == Stopped && alive == {}
      ensures TheBooks() == AllOver(old(TheBooks()), Exited)
    {
      RoomToAnswer(TheBooks(), {});
      AllOverBalances(TheBooks(), {}, Exited);
      AwaitExit(cmdDone.value);
      cmd, cmdDone, cmdCancel := None, None, None;
      handler := None;
      state := Stopped;
      NotifyWaiters(Exited);
      AnswerRun(Exited);
    }

    /** Somebody waits for readiness: answered when ready, parked otherwise. */
    method OnWaitReady()
      requires Rest()
      modifies this
      ensures Rest() && state == old(state) && cmd == old(cmd)
      ensures TheBooks() == AfterWait(old(TheBooks()), state == Ready)
    {
      RoomToAnswer(TheBooks(), {});
      AfterWaitBalances(TheBooks(), state == Ready);
      ghost var b := TheBooks();
      var id := requests;
      requests := requests + 1;
      kinds := kinds[id := Wait];
      NewIsUnanswered(b);
      if state == Ready {
        Answer(id, Fine);
      } else if state == Shutdown {
        assert false;
      } else {
        readyWaiters := readyWaiters + [id];
      }
    }

    /** A stop: the child is gone when it is answered. A stop with nothing to stop leaves those
        waiting for readiness alone. */
    method OnStop()
      requires Rest()
      modifies this
      ensures Rest() && state == Stopped && alive == {}
      ensures TheBooks() == AfterStop(old(TheBooks()), old(cmd).Some?)
    {
      ghost var b := TheBooks();
      AfterStopBalances(b, cmd.Some?);
      StopFindsRoom(b, cmd.Some?);
      var id := requests;
      requests := requests + 1;
      kinds := kinds[id := Stop];
      var toreDown := TearDown();
      if toreDown {
        NotifyWaiters(WasStopped);
      }
      AnswerRun(Fine);
      Answer(id, Fine);
      assert TheBooks() == AfterStop(b, toreDown);
    }

    /** The child is killed, if there is one. */
    method TearDown() returns (toreDown: bool)
      requires Settled()
      modifies this`state, this`cmd, this`cmdDone, this`cmdCancel, this`handler, this`alive
      ensures toreDown == old(cmd).Some?
      ensures state == Stopped && cmd.None? && cmdDone.None? && cmdCancel.None? && handler.None? && alive == {}
    {
      toreDown := cmd.Some?;
      if cmd.Some? {
        state := Stopping;
        KillProcess(cmdCancel, cmdDone);
        cmd, cmdDone, cmdCancel := None, None, None;
        handler := None;
      }
      state := Stopped;
    }

    /** A start, whose caller wants to hear of its end (block) or only of its success. */
    method OnStart(block: bool, course: Course) returns (how: Ending)
      requires Rest()
      modifies this
      ensures StartHandled(old(TheBooks()), old(state), block, how, TheBooks(), state)
      ensures StartTold(old(TheBooks()), old(state), block, how, TheBooks(), state)
      ensures old(state) == Stopped && how == Result ==> (state == Ready <==> Succeeds(course, false))
      ensures if how == ParentGone then Ended({old(requests)}) else Rest()
      ensures how == StopCame || state == Stopped ==> alive == {}
      ensures old(state) == Ready ==> state == Ready && cmd == old(cmd)
      ensures old(state) == Stopped && state == Ready ==> cmd.value >= old(children)
    {
      ghost var b := TheBooks();
      ReceiveBalances(b, {}, Start);
      NewIsUnanswered(b);
      var id := requests;
      how := Result;
      requests := requests + 1;
      kinds := kinds[id := Start];
      assert {} + {id} == {id} && {id} - {id} == {};
      if !block {
        if state == Ready {
          RespondBalances(TheBooks(), {id}, id, Fine);
          Answer(id, Fine);
          StartTells(b, old(state), block, how, TheBooks(), state);
          return;
        }
        if state == Shutdown {
          assert false;
        }
      }
      if state != Stopped {
        RespondBalances(TheBooks(), {id}, id, Refused);
        Answer(id, Refused);
        StartTells(b, old(state), block, how, TheBooks(), state);
        return;
      }
      state := Starting;
      how := *;
      match how {
        case Result => FinishStart(id, block, course);
        case StopCame => StopMidStart(id);
        case ParentGone => ParentGoneMidStart(id);
      }
      StartTells(b, old(state), block, how, TheBooks(), state);
    }

    /** A start is under way: nothing else is, and its request is not answered yet. */
    ghost predicate UnderWay(id: nat)
      reads this
    {
      && state == Starting && Accounted({id}) && id in kinds && kinds[id] == Start
      && cmd.None? && cmdDone.None? && cmdCancel.None? && handler.None? && runResp.None? && alive == {}
    }

    /** doStart finished on its own. */
    method FinishStart(id: nat, block: bool, course: Course)
      requires UnderWay(id)
      modifies this
      ensures Rest() && (state == Ready <==> Succeeds(course, false))
      ensures state == Ready ==> cmd.value >= old(children) && TheBooks() == AfterReady(old(TheBooks()), id, block)
      ensures state == Stopped ==> alive == {} && TheBooks() == AfterFailure(old(TheBooks()), id)
    {
      var res := DoStart(course, false);
      match res
      case Started(child) =>
        cmd, cmdDone, cmdCancel := Some(child), Some(child), Some(child);
        handler := Some(child);
        state := Ready;
        TellReady(id, block);
      case Failed =>
        state := Stopped;
        TellFailed(id);
    }

    method TellReady(id: nat, block: bool)
      requires Accounted({id}) && id in kinds && kinds[id] == Start && runResp.None?
      modifies this`sent, this`readyWaiters, this`runResp
      ensures Accounted({}) && TheBooks() == AfterReady(old(TheBooks()), id, block)
    {
      ghost var b := TheBooks();
      RoomToAnswer(b, {id});
      AfterReadyBalances(b, id, block);
      NotifyWaiters(Fine);
      if block {
        runResp := Some(id);
      } else {
        Answer(id, Fine);
      }
    }

    method TellFailed(id: nat)
      requires Accounted({id}) && id in kinds && kinds[id] == Start
      modifies this`sent, this`readyWaiters
      ensures Accounted({}) && TheBooks() == AfterFailure(old(TheBooks()), id)
    {
      ghost var b := TheBooks();
      RoomToAnswer(b, {id});
      AfterFailureBalances(b, id);
      NotifyWaiters(StartFailed);
      Answer(id, StartFailed);
    }

    /** A stop arrives while doStart runs: what was started is torn down before it is answered. */
    method StopMidStart(id: nat)
      requires UnderWay(id)
      modifies this
      ensures Rest() && state == Stopped && alive == {}
      ensures TheBooks() == AfterAbort(old(TheBooks()), id)
    {
      ghost var b := TheBooks();
      AfterAbortBalances(b, id);
      AbortFindsRoom(b, id);
      var stop := requests;
      requests := requests + 1;
      kinds := kinds[stop := Stop];
      ReapStart();
      state := Stopped;
      NotifyWaiters(StartAborted);
      Answer(id, StartAborted);
      Answer(stop, Fine);
    }

    /** doStart was cancelled; if it had finished first, its child is killed. */
    method ReapStart()
      requires alive == {}
      modifies this`children, this`alive
      ensures alive == {} && children >= old(children)
    {
      var course: Course := *;
      var res := DoStart(course, true);
      if res.Started? {
        KillProcess(Some(res.child), Some(res.child));
      }
    }

    /** The parent context is cancelled while doStart runs. */
    method ParentGoneMidStart(id: nat)
      requires UnderWay(id)
      modifies this
      ensures Ended({id}) && TheBooks() == AllOver(old(TheBooks()), WasShutDown)
    {
      RoomToAnswer(TheBooks(), {id});
      AllOverBalances(TheBooks(), {id}, WasShutDown);
      state := Shutdown;
      ReapStart();
      NotifyWaiters(WasShutDown);
      AnswerRun(WasShutDown);
    }

    /** The loop, for any number of rounds and any order of what the select picks. Answers are
        never changed. When the loop ends, each stop it received has its one answer, each start
        has one but for at most one that was under way, nobody waits for readiness any more, and
        no child is left. */
    method Loop(rounds: nat) returns (ended: bool, ghost released: set<nat>)
      requires Rest()
      modifies this
      ensures if ended then Ended(released) && |released| <= 1 else Rest()
      ensures Extends(old(sent), sent)
    {
      ended, released := false, {};
      for k := 0 to rounds
        invariant Rest() && !ended
        invariant Extends(old(sent), sent)
      {
        TimePassesBetween();
        ended, released := Round();
        if ended {
          return;
        }
      }
    }

    /** One round of the loop. */
    method Round() returns (ended: bool, ghost released: set<nat>)
      requires Rest()
      modifies this
      ensures if ended then Ended(released) && |released| <= 1 else Rest()
      ensures Extends(old(sent), sent)
    {
      ended, released := false, {};
      ghost var b := TheBooks();
      var pick: nat := *;
      if pick == 0 {
        AllOverBalances(b, {}, WasShutDown);
        OnParentDone();
        ended := true;
      } else if pick == 1 && cmdDone.Some? {
        AllOverBalances(b, {}, Exited);
        OnCmdDone();
      } else if pick == 2 {
        AfterWaitBalances(b, state == Ready);
        OnWaitReady();
      } else if pick == 3 {
        AfterStopBalances(b, cmd.Some?);
        OnStop();
      } else {
        ended, released := StartRound();
      }
    }

    method StartRound() returns (ended: bool, ghost released: set<nat>)
      requires Rest()
      modifies this
      ensures if ended then Ended(released) && |released| <= 1 else Rest()
      ensures Extends(old(sent), sent)
    {
      ghost var b, st := TheBooks(), state;
      var block: bool := *;
      var course: Course := *;
      var how := OnStart(block, course);
      StartedExtends(b, st, block, how, TheBooks(), state);
      ended := how == ParentGone;
      released := if ended then {b.requests} else {};
    }

    /** The child may exit while the loop waits. */
    method TimePassesBetween()
      requires Rest()
      modifies this`alive
      ensures Rest()
    {
      TimePasses();
    }
  }

  // ---- Reading the books ----

  lemma NewIsUnanswered(b: Books)
    requires Balanced(b, {})
    ensures b.requests !in b.sent
  {
    assert Kept(b, {}, b.requests);
  }

  /** After the messages before it, each send of a stop finds an empty channel. */
  lemma StopFindsRoom(b: Books, toreDown: bool)
    requires Balanced(b, {})
    ensures NoDup(b.parked) && Elems(b.parked) !! b.sent.Keys
    ensures var b1 := if toreDown then Notify(Receive(b, Stop), WasStopped) else Receive(b, Stop);
      RunSet(b1.run) !! b1.sent.Keys && b.requests !in RespondRun(b1, Fine).sent
  {
    var hand := {} + {b.requests};
    ReceiveBalances(b, {}, Stop);
    var b1 := Receive(b, Stop);
    NotifyBalances(b1, hand, WasStopped);
    RoomToAnswer(b1, hand);
    var b2 := if toreDown then Notify(b1, WasStopped) else b1;
    RoomToAnswer(b2, hand);
    RespondRunBalances(b2, hand, Fine);
    RoomToAnswer(RespondRun(b2, Fine), hand);
  }

  lemma AbortFindsRoom(b: Books, id: nat)
    requires Balanced(b, {id})
    ensures NoDup(b.parked) && Elems(b.parked) !! b.sent.Keys
    ensures var b1 := Notify(Receive(b, Stop), StartAborted);
      id !in b1.sent && b.requests !in Respond(b1, id, StartAborted).sent
  {
    var hand := {id} + {b.requests};
    assert Kept(b, {id}, id);
    RoomToAnswer(b, {id});
    ReceiveBalances(b, {id}, Stop);
    NotifyBalances(Receive(b, Stop), hand, StartAborted);
    RoomToAnswer(Notify(Receive(b, Stop), StartAborted), hand);
  }

  /** What a start request does to the books and the state. */
  ghost predicate StartHandled(b: Books, st: ProcState, block: bool, how: Ending, after: Books, now: ProcState) {
    var b1, id := Receive(b, Start), b.requests;
    match how
    case Result =>
      if st == Ready then now == Ready && after == Respond(b1, id, if block then Refused else Fine)
      else if now == Ready then after == AfterReady(b1, id, block)
      else now == Stopped && after == AfterFailure(b1, id)
    case StopCame => st == Stopped && now == Stopped && after == AfterAbort(b1, id)
    case ParentGone => st == Stopped && now == Shutdown && after == AllOver(b1, WasShutDown)
  }

  lemma StartedExtends(b: Books, st: ProcState, block: bool, how: Ending, after: Books, now: ProcState)
    requires Balanced(b, {}) && StartHandled(b, st, block, how, after, now) && (st == Stopped ==> b.run.None?)
    requires st == Stopped || st == Ready
    ensures Extends(b.sent, after.sent)
  {
    var b1, id := Receive(b, Start), b.requests;
    ReceiveBalances(b, {}, Start);
    NewIsUnanswered(b);
    assert {} + {id} == {id};
    match how
    case Result =>
      if st == Stopped {
        AfterReadyBalances(b1, id, block);
        AfterFailureBalances(b1, id);
      }
    case StopCame => AfterAbortBalances(b1, id);
    case ParentGone => AllOverBalances(b1, {id}, WasShutDown);
  }

  // ---- What the books mean for the callers ----

  /** At rest and at the end, with some starts released: every stop received has its answer;
      whoever waits for readiness has one or is parked; a start has one, or is that of the one
      parked caller of Run, or is released. Never two of these. */
  lemma EveryoneIsAccountedFor(b: Books, released: set<nat>, id: nat)
    requires Balanced(b, released) && (forall x | x in released :: x in b.kinds && b.kinds[x] == Start)
    requires id in b.kinds
    ensures match b.kinds[id]
      case Stop => id in b.sent && id !in b.parked && b.run != Some(id)
      case Wait => (id in b.sent <==> id !in b.parked) && b.run != Some(id)
      case Start => (id in b.sent <==> id !in released && b.run != Some(id)) && id !in b.parked
  {
    assert Kept(b, released, id);
  }

  /** A stop is told that all is well, and so is the caller of Run that it ends; when there was
      something to stop, nobody waiting for readiness is left behind, and otherwise they are left
      alone. Nobody else hears anything. */
  lemma StopTellsExactly(b: Books, toreDown: bool, id: nat)
    requires Balanced(b, {}) && id !in b.sent
    ensures var after := AfterStop(b, toreDown);
      && after.sent[b.requests] == Fine
      && after.parked == (if toreDown then [] else b.parked)
      && (id in after.sent <==> id == b.requests || b.run == Some(id) || (toreDown && id in b.parked))
      && (b.run == Some(id) ==> after.sent[id] == Fine)
      && (toreDown && id in b.parked ==> after.sent[id] == WasStopped)
  {
    assert Kept(b, {}, id) && Kept(b, {}, b.requests);
    assert id in b.parked <==> id in Elems(b.parked);
  }

  /** Answers given before stay, and of the others x hears this. */
  ghost predicate Hears(b: Books, after: Books, x: nat, said: Option<Answer>) {
    && Extends(b.sent, after.sent)
    && (x !in b.sent ==> if said.Some? then x in after.sent && after.sent[x] == said.value else x !in after.sent)
  }

  /** A start that leaves the process ready tells everybody waiting for that, and its own caller
      too if that wants to hear of success only; the caller of Run is parked without an answer. */
  lemma ReadyTellsExactly(b: Books, id: nat, block: bool, x: nat)
    requires Balanced(b, {id}) && id in b.kinds && b.kinds[id] == Start && b.run.None?
    ensures var after := AfterReady(b, id, block);
      && after.parked == [] && after.run == (if block then Some(id) else None)
      && Hears(b, after, x, if x in b.parked || (x == id && !block) then Some(Fine) else None)
  {
    AfterReadyBalances(b, id, block);
    assert Kept(b, {id}, x) && Kept(b, {id}, id);
    assert x in b.parked <==> x in Elems(b.parked);
  }

  /** A start that fails tells everybody waiting for readiness and its caller so. */
  lemma FailureTellsExactly(b: Books, id: nat, x: nat)
    requires Balanced(b, {id})
    ensures var after := AfterFailure(b, id);
      && after.parked == [] && after.run == b.run
      && Hears(b, after, x, if x in b.parked || x == id then Some(StartFailed) else None)
  {
    AfterFailureBalances(b, id);
    assert Kept(b, {id}, x) && Kept(b, {id}, id);
    assert x in b.parked <==> x in Elems(b.parked);
  }

  /** Who waits for readiness is told at once that all is well when the process is ready, and is
      parked as the last one otherwise; nobody else hears anything. */
  lemma WaitTellsExactly(b: Books, ready: bool, x: nat)
    requires Balanced(b, {})
    ensures var after := AfterWait(b, ready);
      && after.parked == (if ready then b.parked else b.parked + [b.requests]) && after.run == b.run
      && Hears(b, after, x, if ready && x == b.requests then Some(Fine) else None)
  {
    AfterWaitBalances(b, ready);
    assert Kept(b, {}, b.requests);
  }

  /** When the child exits by itself or the loop ends, everybody parked hears of just that. */
  lemma OverTellsExactly(b: Books, hand: set<nat>, a: Answer, x: nat)
    requires Balanced(b, hand)
    ensures var after := AllOver(b, a);
      && after.parked == [] && after.run == None
      && Hears(b, after, x, if x in b.parked || b.run == Some(x) then Some(a) else None)
  {
    AllOverBalances(b, hand, a);
    assert Kept(b, hand, x);
    assert x in b.parked <==> x in Elems(b.parked);
  }

  /** What a start tells: its caller hears of success at once unless it waits for the end (block),
      of failure and of an abort at once, and is turned away while the process runs; everybody who
      waits for readiness hears how the start went; nobody else hears anything, but for a stop that
      came in the middle, which is told that all is well. */
  ghost function HeardOfStart(b: Books, st: ProcState, block: bool, how: Ending, now: ProcState, x: nat): Option<Answer> {
    var id, stop := b.requests, b.requests + 1;
    if st == Ready then
      if x == id then Some(if block then Refused else Fine) else None
    else
      match how
      case Result =>
        if now == Ready then if x in b.parked || (x == id && !block) then Some(Fine) else None
        else if x in b.parked || x == id then Some(StartFailed) else None
      case StopCame =>
        if x in b.parked || x == id then Some(StartAborted) else if x == stop then Some(Fine) else None
      case ParentGone => if x in b.parked || b.run == Some(x) then Some(WasShutDown) else None
  }

  ghost predicate StartTold(b: Books, st: ProcState, block: bool, how: Ending, after: Books, now: ProcState) {
    forall x: nat :: Hears(b, after, x, HeardOfStart(b, st, block, how, now, x))
  }

  lemma StartTellsOne(b: Books, st: ProcState, block: bool, how: Ending, after: Books, now: ProcState, x: nat)
    requires Balanced(b, {}) && StartHandled(b, st, block, how, after, now)
    requires st == Stopped || (st == Ready && how == Result)
    requires st == Stopped ==> b.run.None?
    ensures Hears(b, after, x, HeardOfStart(b, st, block, how, now, x))
  {
    var b1, id := Receive(b, Start), b.requests;
    ReceiveBalances(b, {}, Start);
    NewIsUnanswered(b);
    assert {} + {id} == {id};
    StartedExtends(b, st, block, how, after, now);
    if st == Stopped {
      match how
      case Result =>
        if now == Ready {
          ReadyTellsExactly(b1, id, block, x);
        } else {
          FailureTellsExactly(b1, id, x);
        }
      case StopCame =>
        if x !in b1.sent {
          AbortTellsExactly(b1, id, x);
        }
      case ParentGone => OverTellsExactly(b1, {id}, WasShutDown, x);
    }
  }

  lemma StartTells(b: Books, st: ProcState, block: bool, how: Ending, after: Books, now: ProcState)
    requires Balanced(b, {}) && StartHandled(b, st, block, how, after, now)
    requires st == Stopped || (st == Ready && how == Result)
    requires st == Stopped ==> b.run.None?
    ensures StartTold(b, st, block, how, after, now)
  {
    forall x: nat
      ensures Hears(b, after, x, HeardOfStart(b, st, block, how, now, x))
    {
      StartTellsOne(b, st, block, how, after, now, x);
    }
  }

  /** A start aborted by a stop tells its caller and those waiting so, and then the stop that all
      is well: nobody is left parked. */
  lemma AbortTellsExactly(b: Books, id: nat, x: nat)
    requires Balanced(b, {id}) && b.run.None? && x !in b.sent
    ensures var after := AfterAbort(b, id);
      && (x in after.sent <==> x == id || x == b.requests || x in b.parked)
      && after.parked == [] && after.run.None?
      && after.sent[b.requests] == Fine
      && (x == id || x in b.parked ==> after.sent[x] == StartAborted)
  {
    assert Kept(b, {id}, x) && Kept(b, {id}, b.requests) && Kept(b, {id}, id);
    assert x in b.parked <==> x in Elems(b.parked);
  }

  /** The end of the loop answers everybody who was parked. */
  lemma EndTellsEveryone(b: Books, hand: set<nat>, id: nat)
    requires Balanced(b, hand) && id in b.kinds && id !in b.sent && id !in hand
    ensures var after := AllOver(b, WasShutDown);
      after.parked == [] && after.run.None? && id in after.sent && after.sent[id] == WasShutDown
  {
    assert Kept(b, hand, id);
    assert id in b.parked <==> id in Elems(b.parked);
  }
}
