# Verification of the model router's cores

A Dafny model of the parts of llama-hugs in which many things happen at once or a fast form
stands for a simple one, with proofs of what those parts promise:

- **Swap matrix** (`names`, `matrix_dsl`, `matrix_lexing`, `bitmask`, `matrix_program`,
  `matrix_compile`, `matrix_meaning`, `matrix_frontier`, `matrix_evaluator`, `matrix_solve`,
  `matrix_query`). The DSL is tokenized and parsed by methods that are proved against functions, and
  those against a cutting of texts into pieces and an independent grammar. `Compile` succeeds for
  exactly the good programs, and its sets describe what the parsed texts say. `Solve` and `CanContainAll` run on memoised
  slices of bit masks that are filtered in place; they are proved to answer about the full
  expansion, which is a separate definition (`MatrixProgram.Expand`) that multiplies everything out.
- **Scheduler** (`scheduler`, `scheduler_safety`, `scheduler_runs`, `scheduler_laws`,
  `scheduler_outcomes`, `scheduler_fixpoint`, `scheduler_reasons`, `scheduler_handlers`,
  `scheduler_fifo`). A state machine whose events carry
  what the scheduler sees of the outside; invariants of every run, with the callers' handlers too;
  and the FIFO class, whose event methods are proved to take its tables exactly where the machine
  goes, whatever the outside answers.
- **Planners and coexistence** (`swap_planners`, `matrix_drain`, `coexistence`,
  `coexistence_planners`). The group and matrix eviction policies, a matrix under which a drain is
  not final, and the whole-system theorem: scheduler, planner, swap goroutines and processes that
  start and stop between and during events.
- **Process loop** (`process`). The single-writer loop with its nested wait during a start.
- **In-flight view** (`inflight`). The tracker's lock, outbox, flags and publishers as single
  steps, and the list of a client that may join at any time.
- **Smaller stores**: config merge (`merge`, `merge_laws`), event dispatcher (`event`) with its sleeping and waking
  goroutines, log ring (`log_ring`), byte-bounded cache (`byte_cache`).

How to read the model:

- What comes from outside is arbitrary. Effects, clocks, health checks and children are
  nondeterministic choices; observations of an event are part of the event.
- A request of the scheduler is known by a number, which stands for its response channel; numbers
  grow in arrival order. `place` and `seen` are history: the program does not store them.
- A granted handler reports its end at most once, because the wrapper sends in one deferred call
  (internal/router/base.go:231-241). From that it follows that a report always finds its model's
  count above nought (`SchedulerHandlers.CallersAreRuns`), which is what `Enabled` asks of `ServeDone`.
- Integers are unbounded: overflow of Go's `int` in costs, counters and sizes is not modelled.
- Unicode classes (`IsSpace`, `IsLetter`, `IsDigit`) are parameters; the round trip of the DSL
  asks of them only what it needs (`Classes.Standard`).
- A 64-bit machine word of a mask is modelled as the set of its positions below 64.
- A Go node of an expression is modelled by its value, so equal subexpressions share a memo entry
  that the program keeps twice. When two definitions have one name, the last one counts.
- Costs need only be non-negative for optimality; configuration enforces positive ones. Absent
  costs are 1.
- Reading the live models is not atomic in the program: each model is read at a moment of its own
  while processes move. The coexistence theorem is about such readings (`Coexistence.Glance`).
- A swap goroutine goes on once what it stops is gone. That Stop returns only then is proved of the
  process loop (`ProcessLoop.ProcessCommand.OnStop`); Stop errs only when the context of the
  processes has ended, and ending it is the last thing the run loop does
  (internal/process/process_command.go:730-741, internal/router/base.go:325-328).

What the proofs brought up about the code:

- Coexistence needs the condition that no model is unloaded while a swap is starting it. The swap
  goroutine is left running then and starts its model later, beside whatever was started in the
  meantime. In this way any models at all can come to be live together
  (`UnloadMidSwapBringsUpAnything`).
- The outbox flag can be left behind. If a publisher looks at `needsSnapshot` and leaves between
  an overflow and the setting of the flag, the publisher started for the overflow finds an empty
  outbox and never looks at the flag; clients stay behind until the next change
  (`FlagIsLeftBehind`, `NextChangeRepairs`).
- A client that connects subscribes first and is sent a snapshot then. An update published after
  the snapshot was read may be sent before it, and the snapshot undoes it at the client
  (`OvertakenSnapshotMisses`), until something touches the same request again
  (`JoinerConvergesExactly`). Updates from before the snapshot that arrive late do no harm
  (`JoinerConverges`).
- Unsubscribing does not wake the consumer: its goroutine stays until something is published or
  another consumer ends a turn (`RemovedEndsExactlyIfWoken`, `RemovedSleeperStays`).
- An empty section does not yield in a merge where keys name unique entities: an empty `models:`
  beside a file with models is an error, while the comment at internal/config/merge.go:239-240
  says that null yields (`NullYieldsExactlyElsewhere`, `EmptySectionFails`). And only an empty
  scalar is null: one that spells `null` conflicts with any value but nulls and its equal, though
  the comment at internal/config/merge.go:275 names `!!null` (`SpelledNullConflicts`, `ScalarMeets`).
- One pass over the queue starts all that can be started exactly under planners that never spare,
  because another model starts, what they would have stopped before (`DrainIsFinalExactly`). The
  group planner is one of them. The matrix planner is not, and then a request may wait for the next
  event although it could start (`MatrixSparesSome`, `MatrixDrainLeavesWork`).

## Model

| member | source | states |
|---|---|---|
| MatrixDsl.Tokenize | internal/matrix/dsl.go:42-89 | the index loop yields the token list of the whole input, or the first error with its position |
| MatrixDsl.ParseDsl | internal/matrix/dsl.go:100-120 | trimming, tokenizing and the parser with its position field together accept or reject as the recursive reading of the text does, leftover tokens being an error |
| MatrixDsl.Parser.ParseOrExpr | internal/matrix/dsl.go:137-156 | advances the position over exactly the tokens of a disjunction, or fails |
| MatrixDsl.ParserAcceptsExactlyTheGrammar | internal/matrix/dsl.go:100-198 | a token list parses to a tree exactly when some derivation of the grammar spells it and denotes the tree: a disjunction is one or more conjunctions, a conjunction one or more atoms, an atom an identifier, a reference or a disjunction in parentheses |
| MatrixDsl.OrComplete | internal/matrix/dsl.go:137-198 | the spelling of any derivation, followed by anything that cannot extend it, parses to its tree and leaves the rest |
| MatrixDsl.OrSound | internal/matrix/dsl.go:137-198 | whatever the parser consumes is the spelling of a derivation of the tree it returns |
| MatrixDsl.GrammarUnambiguous | internal/matrix/dsl.go:137-198 | derivations with one spelling denote one tree |
| MatrixDsl.ShowThenParse | internal/matrix/dsl.go:42-198 | a tree written out with parentheses around nested operators parses to the same tree |
| MatrixLexing.EveryTextIsCut | internal/matrix/dsl.go:42-89 | every text is a row of pieces (blank, operator or parenthesis, identifier, set name behind its plus), no name longer than it is taken, and a rest that is empty or begins with nothing readable |
| MatrixLexing.TokenizesExactly | internal/matrix/dsl.go:42-89 | from any such cut the outcome follows: the tokens of the pieces and the end mark, or the error about the first character of the rest, at its position (behind the plus for a missing set name) |
| MatrixLexing.TextIsTrimmed | internal/matrix/dsl.go:100-120 | what is tokenized is the text without the blanks at its ends, counted from its own start; a text of blanks only is an error of its own |
| BitMasks.SubsetOf | internal/matrix/program.go:355-362 | word by word comparison decides inclusion of the bit sets |
| BitMasks.UnionMask | internal/matrix/program.go:364-370 | the bits of the result are those of either mask |
| BitMasks.FullMask | internal/matrix/program.go:405-411 | exactly the first n bits |
| MatrixProgram.TopoSort.Visit | internal/matrix/program.go:190-211 | the three-colour search extends the order by what it can reach, dependencies first, or exhibits a cycle |
| MatrixProgram.TopologicalOrder | internal/matrix/program.go:186-217 | an order with each set once and after its dependencies when the reference graph has no cycle, and none exactly when it has one |
| MatrixProgram.TopologicalMeansAcyclic | internal/matrix/program.go:186-217 | such an order exists only when no path leads from a set back to itself |
| MatrixProgram.RankOfTarget | internal/matrix/program.go:413-462 | following a reference lowers the rank: evaluation and support collection terminate by rank, then height |
| MatrixProgram.ExpandedIsMentioned | internal/matrix/program.go:126-149 | every model of an expanded set is mentioned by the expression, through references |
| MatrixProgram.ExpandOfOr | internal/matrix/program.go:413-462 | a set of a disjunction is a set of one alternative, and every set of an alternative is one of it |
| MatrixProgram.ExpandOfAnd | internal/matrix/program.go:413-462 | the sets of a conjunction are exactly the unions of one set of each operand |
| MatrixProgram.MentionedIsExpanded | internal/matrix/program.go:126-149 | every model mentioned is in some expanded set, when no operator is without operands |
| MatrixCompile.Walk | internal/matrix/program.go:66-86 | succeeds exactly when each leaf resolves and each reference names a set; leaves are replaced by models and each reference is collected; an error blames the first leaf or reference that is bad |
| MatrixCompile.Compile | internal/matrix/program.go:45-121 | succeeds exactly when there is a set, every expression parses, every leaf resolves, every reference names a set and references have no cycle; the result is in dependency order with exact support masks, each set with the text of its last definition; which errors stand for which condition, a definition being blamed only if it is the first bad one |
| MatrixMeaning.CompilesExactly | internal/matrix/program.go:45-121 | definitions compile exactly if there is one, each parses with all its identifiers standing for models and its references naming sets, and the texts that count refer to each other without a cycle |
| MatrixMeaning.CompiledSetsAreTheirTexts | internal/matrix/program.go:66-86 | the model sets of a compiled set are exactly those that its parsed text describes when each identifier is read as the model it stands for, references being read in the texts too |
| MatrixMeaning.CompiledMentionsExactly | internal/matrix/program.go:66-86 | a compiled set mentions a model exactly if an identifier of its text, or of a text it refers to at once or through others, stands for that model |
| MatrixCompile.SupportCollector.Collect | internal/matrix/program.go:126-149 | the memoised collection returns the models an expression mentions |
| MatrixCompile.Register | internal/matrix/program.go:151-160 | models get the numbers 0, 1, 2, ... without gap or double use |
| MatrixCompile.ComputeSupport | internal/matrix/program.go:126-171 | each set's mask holds exactly the bits of the models it mentions |
| MatrixFrontier.AddToFrontierCovers | internal/matrix/program.go:464-480 | the new frontier covers what the old one and the candidate cover, adds nothing else, and no mask is inside another |
| MatrixFrontier.FrontierRepresents | internal/matrix/program.go:413-462 | for every node: each state's mask is the projection of its witness, whose models form an expanded set; every expanded set is covered; no mask is inside another |
| MatrixEvaluator.Compact | internal/matrix/program.go:473-478 | filtering `states[:0]` in place keeps exactly the states outside the candidate, in order |
| MatrixEvaluator.AddCandidate | internal/matrix/program.go:464-480 | the slice after the call stands for the specified frontier, in the same array or a new one |
| MatrixEvaluator.Evaluator.Eval | internal/matrix/program.go:413-462 | memoised evaluation returns the specified frontier of the node, and no array of a slice that was memoised before is written |
| MatrixEvaluator.Evaluator.EvalOr | internal/matrix/program.go:431-436 | the alternatives' states, added one at a time to a frontier of its own |
| MatrixEvaluator.Evaluator.EvalAnd | internal/matrix/program.go:437-457 | every union of one state per operand, pruned after each operand |
| MatrixEvaluator.Number | internal/matrix/program.go:391-398 | the query's models are numbered without gap or double use |
| MatrixSolve.BestIsCheapest | internal/matrix/program.go:241-266 | the best state rebuilds a set that is cheapest over the full expansion of all sets, from the first set that reaches the minimum; there is none only when no expanded set holds the target |
| MatrixSolve.SolveIsOptimal | internal/matrix/program.go:222-288 | Solve takes an expanded set with the target, evicts what is running outside it, at a cost that is minimal over every expanded set with the target, and names the first set reaching it; with no such set everything running is evicted |
| MatrixSolve.CoveredMeansContained | internal/matrix/program.go:291-310 | some state holds all queried models exactly when some expanded set does |
| MatrixSolve.SkippingIsExact | internal/matrix/program.go:173-184 | a set skipped for its support mask has no state and no expanded set with the model |
| MatrixSolve.ZeroCostKeepsAll | internal/matrix/program.go:333-338 | with positive costs, cost nought means nothing is stopped |
| MatrixSolve.DecisionCostsItsEvictions | internal/matrix/program.go:333-338 | the total cost of a decision with a set is the sum over its evicted models of what is configured for each, or 1 where nothing is |
| MatrixSolve.SingleEvictionCosts | internal/matrix/program.go:333-338 | one evicted model costs exactly what is configured for it, or 1 |
| MatrixSolve.DearerIsNeverChosen | internal/matrix/program.go:241-266 | the configured costs of what is evicted never sum to more than those of what any other set with the target would evict |
| MatrixSolve.RunningTargetStays | internal/matrix/program.go:222-230 | a target that runs evicts nothing, at cost nought |
| MatrixQuery.FlattenWitness | internal/matrix/program.go:482-500 | the sorted list of the witness's models, each once |
| MatrixQuery.Solve | internal/matrix/program.go:222-288 | the loops over sets, states and running models compute the specified decision, with and without the target running |
| MatrixQuery.CanContainAll | internal/matrix/program.go:291-310 | true exactly when the query is empty or some expanded set holds every model of it |
| MatrixQuery.FindContainingSet | internal/matrix/program.go:312-331 | names the first set whose full expansion has a set holding all the models, or nothing when there is none |
| SchedulerSafety.DrainQueueKeeps | internal/router/scheduler/fifo.go:404-441 | a drain restores the invariant whatever it observes, and leaves a subsequence of the queue |
| SchedulerSafety.RequestKeeps | internal/router/scheduler/fifo.go:94-141 | a request keeps the accounts, the swaps apart, one place per request and the queue order, under any planner and settings |
| SchedulerSafety.EnqueueInOrder | internal/router/scheduler/fifo.go:385-398 | insertion before the first lower priority keeps the queue sorted by falling priority, arrival order among equals |
| SchedulerSafety.SubsequenceInOrder | internal/router/scheduler/fifo.go:404-441 | a queue with requests taken out is still in order |
| SchedulerRuns.SwapDoneKeeps | internal/router/scheduler/fifo.go:189-205 | the end of a swap, successful or not, granted or not, keeps the invariant and leaves a subsequence of the queue |
| SchedulerRuns.ServeDoneKeeps | internal/router/scheduler/fifo.go:210-217 | the end of a request keeps the invariant and leaves a subsequence of the queue |
| SchedulerRuns.CancelKeeps | internal/router/scheduler/fifo.go:148-183 | pruning a caller keeps the invariant and leaves a subsequence of the queue |
| SchedulerRuns.UnloadKeeps | internal/router/scheduler/fifo.go:222-267 | unloading keeps the invariant and leaves a subsequence of the queue without the targets' requests |
| SchedulerRuns.SlotsAreConserved | internal/router/scheduler/fifo.go:286-357 | over every run, under any planner and settings, the reserved slots of a model are its requests in flight, queued and waiting, and never above its limit |
| SchedulerRuns.BusyModelsAreNeverEvicted | internal/router/scheduler/fifo.go:488-526 | over every run, under a planner that evicts running models only and never its target, a model being stopped has no request in flight, is stopped by one swap only and is no swap's target |
| SchedulerRuns.QueueIsAlwaysInOrder | internal/router/scheduler/fifo.go:385-398 | over every run the queue is sorted by falling priority, then arrival |
| SchedulerRuns.NobodyIsStranded | internal/router/scheduler/fifo.go:189-217 | over every run, under any planner and any settings, a non-empty queue has an active swap or a request in flight, whose end drains it |
| SchedulerOutcomes.ArrivalExactly | internal/router/scheduler/fifo.go:94-141 | what becomes of a request that arrives, from what is known of its model, slots and caller and from what is seen running: refused, forgotten, joined to the swap of its model, served, started, or queued, and that nothing else changes |
| SchedulerOutcomes.EveryWaitHasItsReason | internal/router/scheduler/fifo.go:94-141 | a request is queued on arrival only if, by what was seen, its swap would collide with an active one or stop a model with requests in flight; one let in and neither served nor queued is among the waiters of a swap of its own model |
| SchedulerOutcomes.DrainExactly | internal/router/scheduler/fifo.go:404-441 | a drain gives each request of the queue one turn, in order, in which it goes where what is seen says, failing if its model is unknown |
| SchedulerOutcomes.SwapDoneExactly | internal/router/scheduler/fifo.go:189-205 | each waiter of a swap that reports gets its answer by the report and by whether its caller is there, requests in flight count those granted, the swap is gone, and the queue drained; a report without a swap changes nothing |
| SchedulerOutcomes.ServeDoneExactly | internal/router/scheduler/fifo.go:210-217 | one request in flight fewer, and a drain exactly when it was the last of its model |
| SchedulerOutcomes.CancelExactly | internal/router/scheduler/fifo.go:148-183 | a request that is held is taken out of the one list that holds it, the rest staying in order; one held nowhere changes nothing |
| SchedulerOutcomes.UnloadExactly | internal/router/scheduler/fifo.go:222-267 | what was queued or waiting for the targets fails and is gone, with their swaps; the rest of the queue stays in order and is drained |
| SchedulerLaws.AnsweredNeverReappears | internal/router/scheduler/fifo.go:148-205 | over every run a request that was served, answered, refused or pruned keeps that fate and is held nowhere again |
| SchedulerLaws.OnePlaceEach | internal/router/scheduler/fifo.go:148-205 | over every run a request is in the queue or in one swap's waiters, at most once |
| SchedulerLaws.ShutdownReleasesTheRest | internal/router/scheduler/fifo.go:270-279 | shutdown answers everybody held and leaves reserved slots for requests in flight only |
| SchedulerFixpoint.DrainIsFinalExactly | internal/router/scheduler/fifo.go:404-441 | with processes standing still, a second drain changes nothing, from whatever state, exactly under planners with this property: starting one model never spares what another would have stopped before, unless the starter stops it itself or the two then collide |
| SchedulerFixpoint.DrainIsFinalExactlyInOrder | internal/router/scheduler/fifo.go:404-441 | from the states that satisfy the invariant, the same holds exactly if the planner has that property for models of at least the priority of the one that starts, where a spared model that is one of the two has more than one slot |
| SchedulerFixpoint.DrainReachesFixpoint | internal/router/scheduler/fifo.go:404-441 | in particular a second drain changes nothing when more running models never mean fewer evictions |
| MatrixDrain.MatrixIsNotMonotone | internal/matrix/program.go:222-288 | for one program of four sets, one more running model makes the cheapest set another one, so that a model is spared that was to be evicted |
| MatrixDrain.MatrixSparesSome | internal/matrix/program.go:222-288 | the matrix planner of that program lacks the property that makes every drain final |
| MatrixDrain.MatrixDrainLeavesWork | internal/router/scheduler/fifo.go:404-441 | under that matrix a run from the start exists whose last drain, while nothing changes outside, leaves a request queued that a second drain would start |
| SchedulerReasons.EveryEndHasItsReason | internal/router/scheduler/fifo.go:94-267 | a request is served only by a model seen ready or, waiting for a swap, when a swap of that model reported success; turned away only for an unknown or unloaded model or a report of failure; dropped only when its caller left; and refused only for an unknown model or a full limit |
| SchedulerHandlers.ServedCounted | internal/router/base.go:231-241 | a report of a handler that was granted and has not reported finds a count to take from, and takes one |
| SchedulerHandlers.CallersAreRuns | internal/router/base.go:189-241 | over every run of callers, requests in flight of each model are exactly the granted handlers that have not reported, and every such run is one of those that the theorems on all runs are about |
| SchedulerFIFO.CollidesWithActive | internal/router/scheduler/fifo.go:488-504 | true exactly when the new swap would stop another's target, be stopped by another, or stop a model that another stops |
| SchedulerFIFO.ConflictsWithInFlight | internal/router/scheduler/fifo.go:519-526 | true exactly when some model to evict has requests in flight |
| SchedulerFIFO.SortedRunningSet | internal/router/scheduler/fifo.go:448-483 | the sorted list, each once, of live models and other swaps' targets, in whatever order the maps are visited |
| SchedulerFIFO.FIFO.constructor | internal/router/scheduler/fifo.go:52-73 | limits default to 10 when unset or not positive; the tables start empty |
| SchedulerFIFO.FIFO.Release | internal/router/scheduler/fifo.go:349-357 | gives a slot back; its precondition, proved at every call, is that the panic is not reached |
| SchedulerFIFO.FIFO.Admit | internal/router/scheduler/fifo.go:308-318 | takes a slot below the limit when the caller is still there; otherwise only records the refusal |
| SchedulerFIFO.FIFO.Judge | internal/router/scheduler/fifo.go:94-141 | the serve, wait or swap decision of the specification |
| SchedulerFIFO.FIFO.OnRequest | internal/router/scheduler/fifo.go:94-141 | the tables go where the state machine goes, for any answers of the outside, and stay valid |
| SchedulerFIFO.FIFO.DrainQueue | internal/router/scheduler/fifo.go:404-441 | the pass over the queue, with whatever it observes, is the machine's drain |
| SchedulerFIFO.FIFO.OnCancel | internal/router/scheduler/fifo.go:148-183 | pruning queue and all waiters in place removes the one place there is and gives its slot back once |
| SchedulerFIFO.FIFO.OnSwapDone | internal/router/scheduler/fifo.go:189-205 | answers every waiter, drops the swap and drains |
| SchedulerFIFO.FIFO.OnServeDone | internal/router/scheduler/fifo.go:210-217 | counts down, gives the slot back and drains at nought |
| SchedulerFIFO.FIFO.OnUnload | internal/router/scheduler/fifo.go:222-267 | turning away waiters and queued requests of the targets one by one has the specified joint effect, then drains |
| SchedulerFIFO.FIFO.OnShutdown | internal/router/scheduler/fifo.go:270-279 | everybody held is turned away; the lists stay |
| GroupPlanner.GroupSwapper.EvictionFor | internal/router/group.go:70-104 | the loop with its seen set returns the specified evictions |
| GroupPlanner.EvictionsAre | internal/router/group.go:70-104 | exactly the running models that the target's group rules stop, each once |
| GroupPlanner.StartLeavesRunning | internal/router/group.go:70-104 | who stays running when a model is started, from the settings as they are: of its own group everybody without swap and nobody with it; of other groups, if its own is exclusive, exactly the persistent ones, and else everybody |
| GroupPlanner.EvictionsInOrder | internal/router/group.go:99-103 | models are stopped in the order in which they were found running |
| GroupPlanner.GroupPlansWell | internal/router/group.go:70-104 | evicts running models only, never the target, and no fewer when more is running |
| GroupPlanner.GroupDrainsAreFinal | internal/router/group.go:70-104 | under groups every drain is final |
| MatrixPlanner.MatrixSwapper.Solve | internal/router/matrix.go:73-83 | the one-entry cache never changes an answer |
| MatrixPlanner.MatrixSwapper.OnSwapStart | internal/router/matrix.go:89-100 | called with what EvictionFor just saw, reports that same decision |
| MatrixPlanner.MatrixPlansWell | internal/router/matrix.go:85-87 | evicts running models only, never the target |
| MatrixPlanner.MatrixKeepsOneSet | internal/matrix/program.go:222-288 | what is left running with the target is part of one expanded set, or everything was evicted because no set holds the target |
| Selectors.ValidateSpilloverCoexistence | internal/config/selectors.go:120-153 | accepts exactly at most one target, or targets in one expanded set, or targets sharing one named group without swap |
| Selectors.AcceptedMatrixTargetsCoexist | internal/config/selectors.go:125-131 | accepted targets cause no eviction when only such targets are running |
| Selectors.RefusedMatrixTargetsCollide | internal/config/selectors.go:125-131 | refused distinct targets have one that, started beside the others, evicts some |
| Selectors.AcceptedGroupTargetsCoexist | internal/config/selectors.go:133-152 | accepted targets never evict each other, whatever else runs |
| Selectors.AcceptedGroupExactly | internal/config/selectors.go:133-152 | several targets are accepted under groups exactly when all of them were put into one group with a name, which does not swap |
| Coexistence.GlanceSees | internal/router/base.go:366-378 | reading the live models one by one while processes move differs from either end of that time by targets of active swaps at most |
| Coexistence.StartTogether | internal/router/scheduler/fifo.go:371-379 | a swap that collides with none keeps live models and targets, less those being stopped, fitting, although its planner saw no one moment |
| Coexistence.DrainTogether | internal/router/scheduler/fifo.go:404-441 | so does a whole drain while processes start and stop between and during its turns |
| Coexistence.DoneTogether | internal/router/base.go:243-276 | so does the end of a swap that stopped its evictees first |
| Coexistence.ModelsFitOverRuns | internal/router/base.go:113-143 | over every run of scheduler and processes in which no model is unloaded while being started, live models and swap targets, less those being stopped, fit, for any planner that makes room |
| CoexistencePlanners.MatrixModelsCoexist | internal/router/matrix.go:73-87 | over such runs they are part of one expanded matrix set, or at most one model |
| CoexistencePlanners.GroupModelsCoexist | internal/router/group.go:70-104 | over such runs no two of them share a swap group |
| CoexistencePlanners.UnloadMidSwapBringsUpAnything | internal/router/scheduler/fifo.go:222-243 | without that condition, for any planner and any set of models, a run exists that ends with exactly these models live and no swap active |
| CoexistencePlanners.CareIsNeededExactly | internal/router/scheduler/fifo.go:222-243 | the condition can be left out exactly when any models whatever fit together |
| CoexistencePlanners.GroupsNeedCareExactly | internal/router/group.go:70-104 | under groups it can be left out exactly when no swap group has two members |
| CoexistencePlanners.MatrixNeedsCare | internal/router/matrix.go:73-87 | under the matrix it cannot be left out when some models belong to no one expanded set |
| ProcessLoop.ProcessCommand.Loop | internal/process/process_command.go:132-402 | for any rounds: the rest invariant or a clean end, at most one start without answer, and answers never change |
| ProcessLoop.ProcessCommand.OnStop | internal/process/process_command.go:376-399 | the child is gone when the stop is answered; Stopped afterwards |
| ProcessLoop.ProcessCommand.OnStart | internal/process/process_command.go:245-373 | what each way a start can end does to state and child, and exactly what each caller hears of it; left to itself the process is Ready afterwards exactly if doStart succeeds |
| ProcessLoop.ProcessCommand.OnParentDone | internal/process/process_command.go:190-204 | the loop ends with no child, nobody parked, everyone parked told |
| ProcessLoop.ProcessCommand.OnCmdDone | internal/process/process_command.go:210-225 | a child's own exit leads to Stopped and tells the parked Run caller |
| ProcessLoop.ProcessCommand.OnWaitReady | internal/process/process_command.go:227-238 | answered at once when ready, parked otherwise |
| ProcessLoop.ProcessCommand.DoStart | internal/process/process_command.go:404-561 | succeeds exactly when it is configured, its command can be launched, it is not cancelled before that, and health is not checked or is found before a cancel, an exit or the deadline; a failed or aborted start leaves no child of its own; a successful one hands over a new child |
| ProcessLoop.ProcessCommand.KillProcess | internal/process/process_command.go:625-658 | the child has exited when it returns |
| ProcessLoop.ProcessCommand.NotifyWaiters | internal/process/process_command.go:166-174 | every parked waiter finds room in its channel and is told; none stays parked |
| ProcessLoop.EveryoneIsAccountedFor | internal/process/process_command.go:664-741 | each stop received has its one answer; each waiter is answered or parked; each start is answered, parked as the one Run caller, or released by the end |
| ProcessLoop.StopTellsExactly | internal/process/process_command.go:376-399 | who hears what from a stop; one with nothing to stop leaves waiters alone |
| ProcessLoop.ReadyTellsExactly | internal/process/process_command.go:287-302 | when a start leaves the process ready, all who wait for that hear that all is well, and so does its caller if it wants to hear of success only; with block the caller is the parked one of Run, without an answer; nobody else hears anything |
| ProcessLoop.FailureTellsExactly | internal/process/process_command.go:325-329 | when a start fails, its caller and all who wait for readiness hear so, and nobody else hears anything |
| ProcessLoop.WaitTellsExactly | internal/process/process_command.go:230-238 | who waits for readiness hears that all is well at once when the process is ready, and is parked as the last one otherwise; nobody else hears anything |
| ProcessLoop.OverTellsExactly | internal/process/process_command.go:190-225 | when the child exits by itself or the loop ends, everybody parked hears of just that, and nobody else hears anything |
| ProcessLoop.StartTells | internal/process/process_command.go:245-373 | who hears what from a start request, over all its ways to end, written as one table from the state before |
| ProcessLoop.AbortTellsExactly | internal/process/process_command.go:338-373 | who hears what when a stop aborts a start |
| ProcessLoop.EndTellsEveryone | internal/process/process_command.go:190-204 | everybody parked hears of the shutdown |
| InflightOutbox.ReplayIsHarmless | internal/server/inflight.go:216-231 | updates queued before a snapshot was read may be replayed after it without harm |
| InflightOutbox.StepKeeps | internal/server/inflight.go:85-251 | every single step of any goroutine keeps the invariant |
| InflightOutbox.ViewConverges | internal/server/inflight.go:180-231 | over every run and outbox size, a client that folds what is published holds exactly the tracker's ids whenever the outbox is empty, nothing is in hand, no snapshot is owed or being made, and no drop is about to be flagged |
| InflightOutbox.ViewFoldsTrace | internal/server/inflight.go:198-231 | what a client sees is the fold of what is published from there on, and no step depends on it |
| InflightOutbox.JoinerConverges | internal/server/apigroup.go:469-477 | a client that joins at any moment of any run, gets the tracker's ids of that moment, then late what was published before and had not reached it, then what is published from there on, holds exactly the tracker's ids whenever things are settled |
| InflightOutbox.OnePublisherAtATime | internal/server/inflight.go:192-214 | over every run at most one publisher publishes |
| InflightOutbox.OutboxIsDrained | internal/server/inflight.go:198-214 | over every run, when all goroutines are done the outbox is empty: no wake-up is lost |
| InflightOutbox.IdleViewIsRight | internal/server/inflight.go:198-221 | at rest the view is right unless a snapshot is still owed |
| InflightOutbox.ChangesAreToldInOrder | internal/server/inflight.go:180-221 | over every run in which the outbox has not overflowed, what was published, then what a publisher holds, then the outbox, are exactly the changes made, in order, and no snapshot is made |
| InflightOutbox.AtRestAllIsTold | internal/server/inflight.go:180-221 | when all goroutines are done in such a run, each change was published once, in order, and nothing else |
| InflightRaces.FlagIsLeftBehind | internal/server/inflight.go:183-221 | for every outbox size a run exists that comes to rest with a snapshot owed and a wrong view |
| InflightRaces.NextChangeRepairs | internal/server/inflight.go:198-221 | from any such rest, the next change and its publisher make the view right |
| InflightOutbox.SnapshotConvergesExactly | internal/server/apigroup.go:469-477 | over every run, a client that gets a snapshot of whatever ids between what was published before and after is right, when things are settled, exactly if each id on which the snapshot differs from the tracker by then is touched by what came after it |
| InflightOutbox.JoinerConvergesExactly | internal/server/apigroup.go:469-477 | for a snapshot read at a moment of the run: exactly if each id touched by what overtook the snapshot is touched again after it, or has ended as it was in the snapshot |
| InflightRaces.OvertakenSnapshotMisses | internal/server/apigroup.go:469-477 | for every outbox size a run exists in which this fails: a client whose first snapshot arrives behind an update published since it was read misses a request, with everything settled |
| InflightClient.ReduceRefinesApply | ui-svelte/src/stores/api.ts:172-197 | snapshot, upsert and remove keep one entry per id and change the shown ids as the event says; other entries stay |
| InflightClient.MessagesShow | ui-svelte/src/stores/api.ts:172-197 | a snapshot replaces the list, and one without a list empties it; an upsert without an entry changes nothing, and any other adds one entry or changes one; a removal leaves exactly the other entries |
| InflightClient.ClientShowsTheView | ui-svelte/src/stores/api.ts:172-197 | after any messages, sorted in any way, the list shows exactly the folded ids, each once |
| InflightClient.ClientListConverges | ui-svelte/src/stores/api.ts:172-197 | over every run, the list of a client that joined at any moment holds exactly the tracker's requests, each once, whenever things are settled |
| InflightClient.ClientListWithSnapshot | ui-svelte/src/stores/api.ts:172-197 | the list of a client that got any snapshot anywhere in the stream holds exactly the tracker's requests, when settled, under exactly that condition |
| InflightClient.ClientListConvergesExactly | ui-svelte/src/stores/api.ts:172-197 | the list of a joining client whose snapshot may be overtaken holds exactly the tracker's requests, when settled, exactly if each id touched by what overtook it is touched again or has ended as it was |
| ConfigMerge.MergeNodes | internal/config/merge.go:165-212 | the two passes compute the specified merge, stopping at the first failing key |
| ConfigMerge.MergeIdentityMap | internal/config/merge.go:218-235 | joins mappings without a common key, and fails otherwise |
| ConfigMerge.MergeValue | internal/config/merge.go:241-273 | the case analysis over node kinds and nulls |
| ConfigMerge.LoadSources | internal/config/merge.go:73-95 | sources are merged in order, empty ones skipped, ending at the first failure |
| ConfigMerge.ContentHolds | internal/config/merge.go:165-212 | a merge of mappings fails exactly at a key that fails; else each key holds the join of both sides, first side's keys first |
| ConfigMerge.MergeAssociative | internal/config/merge.go:165-273 | for trees without repeated keys, both groupings of three trees fail together or give the same tree with the same key order, at every path |
| ConfigMerge.SourcesCutAnywhere | internal/config/merge.go:73-95 | merging parts of a list of sources first gives the same result |
| MergeLaws.LoadFailsExactly | internal/config/merge.go:73-95 | loading any number of sources fails exactly when two of them conflict, which is said of their trees: in some place both hold values that are not null and clash, or both hold the same entity of one of the eight sections of entities, or one of them holds something else than a mapping for such a section |
| MergeLaws.MergeFailsExactly | internal/config/merge.go:165-285 | two trees fail to merge exactly when they conflict in some place, the path to it written with dots |
| MergeLaws.TreesMeet | internal/config/merge.go:165-285 | when two trees merge, the result holds under any row of keys what one side alone holds there, or the side that is not null, or both lists one after the other, or the one scalar that both hold, or a mapping |
| MergeLaws.TogetherMeets | internal/config/merge.go:73-95 | the same for each source that is merged into what came before; one without a tree changes nothing |
| MergeLaws.ListsAreJoined | internal/config/merge.go:246-248 | when every source that holds something under a row of keys holds a list there, the loaded tree holds their lists one after another, in the order of the sources |
| MergeLaws.ListsConcatenate | internal/config/merge.go:246-248 | two lists always merge outside the sections of entities: as many items as both together, first those of the first side, then those of the second; in place of such a section they conflict |
| MergeLaws.EntitiesConcatenate | internal/config/merge.go:218-235 | sections of entities merge exactly when no key is in both, into the pairs of the first side and then those of the second |
| ConfigMerge.NullYieldsExactlyElsewhere | internal/config/merge.go:243-273 | a null is neutral for a key's values exactly outside maps of unique entities; inside them it makes the merge fail |
| ConfigMerge.EmptySectionFails | internal/config/merge.go:183-190 | any two mappings that both have a section of unique entities, null in one of them, do not merge, in either order |
| ConfigMerge.NullIsWhatYields | internal/config/merge.go:243-285 | a node gives way to every value, on either side, exactly when it is a null node |
| ConfigMerge.SpelledNullConflicts | internal/config/merge.go:283-285 | a scalar tagged `!!null` gives way, on either side, exactly when its text is empty: `null`, `~` and `Null` do not |
| ConfigMerge.ScalarMeets | internal/config/merge.go:251-271 | a scalar that is not null, spelled nulls included, merges exactly with nulls and with its equal, and conflicts with every mapping, sequence and other scalar |
| ConfigMerge.SameEntityTwiceFails | internal/config/merge.go:218-235 | one entity in both sides of such a map makes the whole merge fail |
| EventRegistry.Registry.FindGroup | internal/event/event.go:73-92 | the binary search is a lookup in the table that the arrays stand for |
| EventRegistry.Registry.Inserted | internal/event/event.go:126-147 | the new arrays are sorted and hold the old table with one more entry; the old arrays are untouched |
| EventRegistry.Dispatcher.SubscribeTo | internal/event/event.go:102-152 | joins the type's group, made on first use; what readers hold stays valid |
| EventBuffers.Consumer.Append | internal/event/event.go:257-258 | appending in place or into a larger array is the sending of one event to the backlog, so the buffer being worked through is not written |
| EventBuffers.Consumer.Swap | internal/event/event.go:206-210 | exchanging the buffers and starting the finished one afresh is the taking of the whole queue |
| EventBuffers.Consumer.Handle | internal/event/event.go:213-215 | one turn of the loop is the handling of the first event taken |
| EventBuffers.Consumer.Turn | internal/event/event.go:189-218 | swap and work through: afterwards all that was sent is handled, each once and in order |
| EventDelivery.EachHandlesItsEventsOnce | internal/event/event.go:189-298 | over every run of consumers and publishers that sleep and wake, a consumer's handled events are a first part of what was broadcast during its member time, and all of it when it sleeps or has ended; queues never exceed the limit |
| EventDelivery.RemovedFinishes | internal/event/event.go:189-218 | a removed consumer that is not asleep ends after a fixed number of its own steps, whatever the others do, and can always take the next |
| EventDelivery.RemovedEndsExactlyIfWoken | internal/event/event.go:285-298 | from its removal on, a consumer ends by its own steps exactly if it was not asleep then or something has woken the sleepers since |
| EventDelivery.RemovedSleeperStays | internal/event/event.go:196-204 | a consumer that is removed while it sleeps sleeps on through everything but a later publication |
| EventDelivery.BlockedPublisherIsWoken | internal/event/event.go:231-266 | with a limit above nought, a publisher that waits for room waits for the end of some consumer's turn, which that consumer reaches by a fixed number of its own steps and which wakes the publisher |
| EventDelivery.OfferExactly | internal/event/event.go:231-266 | a publisher goes to sleep exactly when the queue of some member has reached the limit, or the limit is nought or less; otherwise its event becomes the last of the log and of each member's queue, its call is over and nobody sleeps |
| EventDelivery.NoRoomStopsAll | internal/event/event.go:242-252 | with a limit of nought or less nothing is ever broadcast, and a publisher that fell asleep sleeps for good |
| LogRing.CircularBuffer.Write | internal/logmon/logging.go:41-69 | the ring shows the last bytes of everything written, in one piece or around the end |
| LogRing.CircularBuffer.GetHistory | internal/logmon/logging.go:71-90 | the last min(total, capacity) bytes, for capacity nought too |
| LogRing.WritingShows | internal/logmon/logging.go:56-68 | overwriting around the end keeps the newest bytes behind the head |
| ByteCache.Cache.Add | internal/cache/cache.go:29-58 | refuses what is too large; else survivors are the old order without the key, less what has to go, then the key; sizes and limit hold |
| ByteCache.FittingDropsLeast | internal/cache/cache.go:45-53 | the shortest first part goes that has to |
| ByteCache.Cache.RemoveOrder | internal/cache/cache.go:60-67 | removes the key's one place from the order |
| ByteCache.Cache.Clear | internal/cache/cache.go:95-102 | empties everything |

## Left out

- HTTP proxying, SSE writing, the loading stream, websockets that bypass the scheduler, and the transports.
- Operating system process control, signals, timers and health polling: they are arbitrary choices with the contracts that the code relies on; the TTL goroutine is one more caller of Stop.
- SQLite stores, the registry client, hardware detection, performance parsing, metrics and histograms.
- YAML decoding, environment substitution and macros: the merge starts from parsed trees, without aliases.
- ConfigMerge.MergeNodes: the program changes YAML nodes in place through pointers; the model changes a local list and returns a tree, so that nodes of two sources come to be shared is not captured. Comments and styles of nodes are not modelled.
- The last byte counts and headers of in-flight entries: an entry may change without an update, so claims about clients are about ids.
- Sort order of the client's list: any order is allowed for.
- Queue position messages, log texts, error texts and configuration of log levels.
- Building `modelToGroup` and its rejection of models in two groups (internal/router/group.go:16-24): planner and selectors share one table of groups.
- The aliasing of `queued[:0]` and `waiters[:0]` in the scheduler: lists are values in fields; the frontier's `states[:0]` is modelled on a shared array.
- Swap records behind pointers (`*activeSwap`): they are values in the table.
- EventDelivery.BlockedPublisherIsWoken: handlers return; one that publishes into its own group while that is full would wait for itself. A publisher that is woken may find the queues full again: that it gets its turn in the end is a matter of fairness and not modelled.
- MatrixDsl.ParseDsl: which error a token list without a derivation gets is said by the recursive reading alone; errors of the tokenizer and of blank texts are stated outright (`MatrixLexing.TokenizesExactly`, `TextIsTrimmed`).
- MatrixSolve.SolveIsOptimal: a model with an empty name would not be listed in the target set, as in the program.
- Coexistence.ModelsFitOverRuns: a swap goes on only when what it evicts is gone; the program would also go on after a Stop that erred, which only happens when the run loop ends.
- SchedulerFixpoint.DrainIsFinalExactlyInOrder: speaks of all states that satisfy the invariant; which of them a run reaches under a given planner is left open.
- SchedulerReasons.EveryEndHasItsReason: reports carry the model only, as in the program, so after an unload and a new swap the report of the earlier goroutine serves those who wait for the later one.
- InflightOutbox.JoinerConverges: the snapshot is not overtaken by anything published since it was read, which the program does not see to; `JoinerConvergesExactly` covers the rest. The send buffer of 1024 messages, which drops what does not fit, is left out.
- SchedulerFIFO.FIFO.OnShutdown: does not keep the invariant, because the lists are not cleared; nothing is handled afterwards.
- CoexistencePlanners.CareIsNeededExactly: says when the condition can be left out for all runs; in a single run an unload in the middle of a swap may well do no harm.
- Watchers, chains, peer lookup, spillover choice and `internal/ring`: easy twins of what is here.
