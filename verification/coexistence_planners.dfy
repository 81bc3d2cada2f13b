/** The system theorem for the matrix and for groups, and why unloading a model while a swap is
    starting it is left out of it. */
module CoexistencePlanners {
  import opened Names
  import opened ProcessState
  import opened Scheduler
  import opened Coexistence
  import opened GroupPlanner
  import opened MatrixPlanner
  import opened MatrixProgram
  import opened MatrixSolve

  // ---- Matrix ----

  ghost predicate AtMostOne(models: set<string>) {
    forall a, b | a in models && b in models :: a == b
  }

  /** The models belong to one expanded set, or there is one at most: a model of no set may run
      alone. */
  ghost predicate FitsMatrix(prog: Program, models: set<string>)
    requires prog.Good()
  {
    AtMostOne(models) || FitsSome(prog, models)
  }

  ghost function MatrixFit(prog: Program): Fit
    requires prog.Good()
  {
    (models: set<string>) => FitsMatrix(prog, models)
  }

  lemma FitsSomeSmaller(prog: Program, x: set<string>, y: set<string>)
    requires prog.Good() && y <= x && FitsSome(prog, x)
    ensures FitsSome(prog, y)
  {
    var i, s :| 0 <= i < |prog.sets| && s in Families(prog)[i] && x <= s;
    assert y <= s;
  }

  lemma MatrixRoom(prog: Program, costs: Costs, t: string, r: seq<string>, x: set<string>)
    requires prog.Good() && NonNegative(costs) && x <= Elems(r) && FitsMatrix(prog, x) && (t in r ==> t in x)
    ensures FitsMatrix(prog, (x - Elems(MatrixPlan(prog, costs)(t, r))) + {t})
  {
    var evict := MatrixPlan(prog, costs)(t, r);
    if t in r {
      assert Elems(evict) == {};
      assert (x - Elems(evict)) + {t} == x;
    } else {
      MatrixKeepsOneSet(prog, costs, t, r);
      RoomIsMade(prog, t, r, x, evict);
    }
  }

  lemma RoomIsMade(prog: Program, t: string, r: seq<string>, x: set<string>, evict: seq<string>)
    requires prog.Good() && x <= Elems(r)
    requires FitsSome(prog, (Elems(r) - Elems(evict)) + {t}) || evict == r
    ensures FitsMatrix(prog, (x - Elems(evict)) + {t})
  {
    var kept := (x - Elems(evict)) + {t};
    if evict == r {
      assert kept == {t};
    } else {
      FitsSomeSmaller(prog, (Elems(r) - Elems(evict)) + {t}, kept);
    }
  }

  lemma MatrixPlanned(p: Params, prog: Program, costs: Costs)
    requires prog.Good() && NonNegative(costs) && p.plan == MatrixPlan(prog, costs)
    ensures Planned(p, MatrixFit(prog))
  {
    MatrixPlansWell(prog, costs);
    var fits := MatrixFit(prog);
    forall x, y | y <= x && fits(x)
      ensures fits(y)
    {
      if FitsSome(prog, x) {
        FitsSomeSmaller(prog, x, y);
      }
    }
    forall t, r, x | x <= Elems(r) && fits(x) && (t in r ==> t in x)
      ensures fits((x - Elems(p.plan(t, r))) + {t})
    {
      MatrixRoom(prog, costs, t, r, x);
    }
  }

  /** Under the matrix, over every run, what is live or being started, and not being stopped, is
      part of one fully expanded matrix set, or is one model at most. */
  lemma MatrixModelsCoexist(p: Params, prog: Program, costs: Costs, hs: seq<Happening>)
    requires prog.Good() && NonNegative(costs) && p.plan == MatrixPlan(prog, costs)
    requires Possible(p, hs) && AllCareful(p, hs)
    ensures var y := Outcome(p, hs);
      && FitsMatrix(prog, Staying(y.s.active, y.w.live))
      && FitsMatrix(prog, y.w.live - StillStopping(y.s.active, y.w.stopped))
  {
    MatrixPlanned(p, prog, costs);
    ModelsFitOverRuns(p, MatrixFit(prog), hs);
  }

  // ---- Groups ----

  /** No two models of one swap group. */
  ghost predicate FitsGroups(gs: Groups, models: set<string>) {
    forall a, b | a in models && b in models && gs.Of(a) == gs.Of(b) && gs.Rules(gs.Of(a)).swap :: a == b
  }

  ghost function GroupFit(gs: Groups): Fit {
    (models: set<string>) => FitsGroups(gs, models)
  }

  lemma GroupRoom(gs: Groups, t: string, r: seq<string>, x: set<string>)
    requires x <= Elems(r) && FitsGroups(gs, x)
    ensures FitsGroups(gs, (x - Elems(GroupPlan(gs)(t, r))) + {t})
  {
    var evict := GroupPlan(gs)(t, r);
    var kept := (x - Elems(evict)) + {t};
    EvictionsAre(gs, t, r);
    forall a | a in kept && a != t
      ensures a in x && !gs.Stops(t, a)
    {
      assert a in Elems(r) && (gs.Stops(t, a) ==> a in evict);
      assert a in evict <==> a in Elems(evict);
    }
  }

  lemma GroupPlanned(p: Params, gs: Groups)
    requires p.plan == GroupPlan(gs)
    ensures Planned(p, GroupFit(gs))
  {
    GroupPlansWell(gs);
    var fits := GroupFit(gs);
    forall t, r, x | x <= Elems(r) && fits(x) && (t in r ==> t in x)
      ensures fits((x - Elems(p.plan(t, r))) + {t})
    {
      GroupRoom(gs, t, r, x);
    }
  }

  /** Under groups, over every run, of what is live or being started, and not being stopped, no
      two models share a swap group. */
  lemma GroupModelsCoexist(p: Params, gs: Groups, hs: seq<Happening>)
    requires p.plan == GroupPlan(gs)
    requires Possible(p, hs) && AllCareful(p, hs)
    ensures var y := Outcome(p, hs);
      && FitsGroups(gs, Staying(y.s.active, y.w.live))
      && FitsGroups(gs, y.w.live - StillStopping(y.s.active, y.w.stopped))
  {
    GroupPlanned(p, gs);
    ModelsFitOverRuns(p, GroupFit(gs), hs);
  }

  // ---- Unloading in the middle of a swap ----

  function Asked(id: nat, m: string): Event {
    Request(Req(id, m), true, Obs(true, Stopped, {}, false))
  }

  /** Every model may have a request, as the scheduler's constructor sees to. */
  ghost predicate Admits(p: Params) {
    PlansWell(p.plan) && forall m :: Limit(p, m) > 0
  }

  /** The tables hold nothing. */
  ghost predicate Blank(s: Sched) {
    s.active == map[] && s.reserved == map[] && s.inFlight == map[] && s.queued == []
  }

  lemma EmptyOrNot(xs: seq<string>)
    ensures xs == [] || Elems(xs) != {}
  {
    if xs != [] {
      assert xs[0] in Elems(xs);
    }
  }

  /** A request for a model, with nothing running, starts its swap. */
  lemma FirstStarts(p: Params, s: Sched, m: string)
    requires Admits(p) && Blank(s)
    ensures var t := Step(p, s, Asked(s.seen, m));
      && t.active == map[m := Swap(m, [], [Req(s.seen, m)])] && t.queued == [] && t.reserved == map[m := 1]
      && t.inFlight == map[]
  {
    var running := RunningSet(map[], {}, m);
    assert Elems(running) == {};
    EmptyOrNot(running);
    assert Elems(p.plan(m, [])) == {};
    EmptyOrNot(p.plan(m, []));
    assert !Collides(m, [], map[]) && !Busy([], s.inFlight);
  }

  /** Unloading the model at once forgets its swap. */
  lemma UnloadForgets(p: Params, s: Sched, m: string, r: Req)
    requires s.active == map[m := Swap(m, [], [r])] && s.queued == [] && s.reserved == map[m := 1] && s.inFlight == map[]
    ensures Blank(Step(p, s, Unload({m}, []))) && Drop(s, {m}).queued == []
  {
    assert Freed(s, {m}, m) == 1;
    assert s.active - {m} == map[];
  }

  lemma OneMore(p: Params, hs: seq<Happening>, h: Happening)
    ensures Outcome(p, hs + [h]) == Next(p, Outcome(p, hs), h)
    ensures Possible(p, hs) && Can(p, Outcome(p, hs), h) ==> Possible(p, hs + [h])
  {
    assert (hs + [h])[..|hs|] == hs;
  }

  /** The swap goroutine of one more model outlives its entry in the table. */
  lemma RunOrphans(p: Params, hs: seq<Happening>, m: string) returns (more: seq<Happening>)
    requires Admits(p) && Possible(p, hs) && Blank(Outcome(p, hs).s)
    requires Outcome(p, hs).w == Procs({}, {}, Outcome(p, hs).w.orphans)
    ensures Possible(p, more) && Blank(Outcome(p, more).s)
    ensures Outcome(p, more).w == Procs({}, {}, Outcome(p, hs).w.orphans + {m})
  {
    var y := Outcome(p, hs);
    var ask := Handled(Asked(y.s.seen, m), [[y.w]]);
    FirstStarts(p, y.s, m);
    assert Can(p, y, ask) by {
      assert forall x :: x in [y.w][0].live <==> x in {};
      assert forall x :: ReadOn([y.w], {}, x);
    }
    OneMore(p, hs, ask);
    var asked := hs + [ask];
    var z := Outcome(p, asked);
    assert z.w == y.w;
    var drop := Handled(Unload({m}, []), []);
    UnloadForgets(p, z.s, m, Req(y.s.seen, m));
    assert Can(p, z, drop);
    OneMore(p, asked, drop);
    more := asked + [drop];
    assert {m} * z.s.active.Keys == {m};
  }

  lemma {:induction false} RunOrphansAll(p: Params, models: set<string>) returns (hs: seq<Happening>)
    requires Admits(p)
    ensures Possible(p, hs) && Blank(Outcome(p, hs).s) && Outcome(p, hs).w == Procs({}, {}, models)
    decreases |models|
  {
    hs := [];
    if models != {} {
      var m :| m in models;
      hs := RunOrphansAll(p, models - {m});
      hs := RunOrphans(p, hs, m);
      assert models - {m} + {m} == models;
    }
  }

  /** Unloading models while they are being started can bring up any models together, whatever
      the planner: their swaps are begun and forgotten one by one, each with nothing running, and
      then all the goroutines that are left start their models. */
  lemma UnloadMidSwapBringsUpAnything(p: Params, models: set<string>) returns (hs: seq<Happening>)
    requires Admits(p)
    ensures Possible(p, hs)
    ensures Outcome(p, hs).s.active == map[] && Outcome(p, hs).w.live == models
  {
    var before := RunOrphansAll(p, models);
    var y := Outcome(p, before);
    var h := Elsewhere(Procs(models, {}, models));
    assert Can(p, y, h);
    OneMore(p, before, h);
    hs := before + [h];
  }

  /** Over every run, careful or not, what stays up fits. */
  ghost predicate AlwaysFits(p: Params, fits: Fit) {
    forall hs | Possible(p, hs) :: fits(Staying(Outcome(p, hs).s.active, Outcome(p, hs).w.live))
  }

  /** So the care that the theorem asks for can be left out exactly when there is nothing to
      respect: when any models whatever fit together. */
  lemma CareIsNeededExactly(p: Params, fits: Fit)
    requires Admits(p)
    ensures AlwaysFits(p, fits) <==> forall models :: fits(models)
  {
    if AlwaysFits(p, fits) {
      forall models: set<string>
        ensures fits(models)
      {
        var hs := UnloadMidSwapBringsUpAnything(p, models);
        assert Staying(map[], models) == models;
      }
    }
  }

  /** Under groups: exactly when no swap group has two members. */
  lemma GroupsNeedCareExactly(p: Params, gs: Groups)
    requires p.plan == GroupPlan(gs) && forall m :: Limit(p, m) > 0
    ensures AlwaysFits(p, GroupFit(gs)) <==>
            forall a, b | gs.Of(a) == gs.Of(b) && gs.Rules(gs.Of(a)).swap :: a == b
  {
    GroupPlansWell(gs);
    CareIsNeededExactly(p, GroupFit(gs));
    if forall models :: GroupFit(gs)(models) {
      forall a, b | gs.Of(a) == gs.Of(b) && gs.Rules(gs.Of(a)).swap
        ensures a == b
      {
        assert GroupFit(gs)({a, b});
      }
    }
  }

  /** Under the matrix: not when some models belong to no one set. */
  lemma MatrixNeedsCare(p: Params, prog: Program, costs: Costs, models: set<string>)
    requires prog.Good() && p.plan == MatrixPlan(prog, costs) && forall m :: Limit(p, m) > 0
    requires !FitsMatrix(prog, models)
    ensures !AlwaysFits(p, MatrixFit(prog))
  {
    MatrixPlansWell(prog, costs);
    CareIsNeededExactly(p, MatrixFit(prog));
    assert !MatrixFit(prog)(models);
  }
}
