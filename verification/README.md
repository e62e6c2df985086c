# A verified model of SMT-RAT's bookkeeping

SMT-RAT is a toolbox for SMT solving. Its theory code rests on a library for polynomials, real roots and
formulas; around it there is a lot of bookkeeping that has to be right for answers to be right. This project
models that bookkeeping in Dafny and proves what keeps it sound. Where the original updates objects, lists and
maps in place, the model has classes whose methods do the same, each tied to a function or relation on values;
where it runs threads, the model is a transition system over all interleavings.

`dafny verify dfyconfig.toml` verifies the whole project.

## The parts

**Module tree.** `Formulas`, `ModuleInput`, `Origins`, `Module`, `ModuleRuns`, `PassingOn`, `DerivedRuns` and
`Manager` model the tree of modules. A module receives formulas, passes derived formulas on to backends, and
remembers for each passed formula the received ones it originates from. Formulas are conjunctions of opaque
atoms; a theory is any set of truth assignments to atoms, so that entailment and unsatisfiability mean what they
mean for every theory. List elements and origin vectors are objects with identities, so that a vector may be
shared and extended in place for all who share it. Two theorems are about whole histories. `ModuleRuns.Replay`
is about a module of the base class: each state follows from the one before; backends, including those made in
mid-run, are in step with the passed formulas; the passed list mirrors the received one; each stored infeasible
subset is a conflict among formulas that are received now; each answer UNSAT is right. `DerivedRuns.Run` is
about a module of any class, which may pass on what it likes, with one origin or several, conjunctions or none,
in vectors of their own or shared ones, and may take back formulas and origins as it likes: what it passes on
stays justified by what it receives, its backends are in step, and its infeasible subsets are right. Two kinds
of moves can spoil this, and are made in such a run only if they do not: pushing an origin onto a shared vector,
and taking the last origin from one. `PassingOn` has the exact conditions; `DerivedRuns.FittingMayPass` and
`DerivedRuns.MayRemoveExactly` say that no other push or removal need be left out. `Basics` has helpers for all
parts. A backend is a parent's view of a module: what it has been told, its variable counters, and a solver that
is any sound function of the formulas told and of the number of the call. The manager's levels are the assertion
stack of section 4.2.2 of the SMT-LIB Standard 2.6.

**CAD lifting tree.** `Cells` is the theory of a row of samples on the real line: when it is a complete cell
decomposition, and that inserting roots, filling gaps and withdrawing polynomials keep it complete. `SampleTree`
has the operations on trees as functions, `LiftingTree` the class with its two queues and its removed list, and
`CadCheck` the memo of evaluations and the checks that use it. Real algebraic numbers are reals; the functions
that choose a sample below, between and above given values are any functions with the right strict
inequalities; which roots a polynomial has, and whether a constraint holds at a point, are parameters.

**Thread pool.** `ThreadPool` has one step for each access to an atomic counter and for each critical section.
Thread k + 1 was spawned for the k-th unit of work. Calls nest across threads.

**Delta debugger.** `DeltaNode` and `DeltaText` have the trees, the parser and the three printers; the concrete
syntax is that of sections 3.1 and 3.2 of the SMT-LIB Standard 2.6 as far as the grammar in the source goes.
`DeltaOperators` has the rewrite operators and the measure that they decrease, `DeltaEdits` replacing a node in a
tree and the two traversals, `DeltaConsumer` the concurrent checking of proposals as a transition system, and
`DeltaProducer` the reduction loop. What the solver says of a tree is any function of the tree. The original tells
nodes apart by their addresses; the model does so by their paths from the root, which is the same since every
node of a tree has one address.

**Strategy graph.** `StrategyGraph` has the tree of modules with back links and edge priorities that the
graphical editor maintains, `ConditionText` the tokeniser of edge conditions, and `RecursiveDescentParser` the
acceptor for conditions with the grammar it was derived from.

**Branching lemmas.** `Branching` has the lemmas by which a module asks for case splits, with polynomials known
by number and evaluated by the model.

## What the code does against its documentation

- `Module::check` asserts that the answer UNSAT comes with an infeasible subset (`src/smtrat-modules/Module.cpp:134`).
  UNSAT is also returned when a backend that is not used at present refuses a formula or still has infeasible
  subsets (797-820), but only used backends are asked for subsets (641-654). `ModuleRuns.CheckCore` says exactly
  when there is one, and under which conditions on the backends there surely is; `ModuleRuns.UnexplainedUnsat` is a
  history of four operations after which the assertion fails.
- A single origin is pushed onto the origin vector of a passed formula in place
  (`src/smtrat-modules/ModuleInput.cpp:238`), although conjuncts that were passed on together share one. Another
  formula then gets an origin that need not entail it. `PassingOn.PassSingle` gives the exact condition,
  `PassingOn.SharedVectorMisleads` a wrong explanation.
- `removeOrigin` and `removeOrigins` cut a vector down in place, too (`src/smtrat-modules/ModuleInput.cpp:109-168`).
  When nothing is left, only the formula they are called for gives the vector up and is erased. Another formula that
  shares it keeps an empty one: `getOrigins` then fails an assertion (`src/smtrat-modules/Module.cpp:750`), and the
  next withdrawal of any formula erases it. `PassingOn.TakeOrigin` and `PassingOn.TakeOrigins` give the exact
  condition, `PassingOn.SharerBereft` an instance, for a list that `PassingOn.PassTogether` makes.
- `clearPassedFormula` erases formulas without ignoring their origins (`src/smtrat-modules/Module.cpp:914-918`),
  which asserts that they have none (864). `Modules.Module.ClearPassedFormula` says that this holds exactly if
  nothing passed has origins. `src/smtrat-modules/PFEModule/PFEModule.cpp:46-54` clears what it has passed on with
  origins.
- `pop` (`src/smtrat-solver/Manager.cpp:287-300`) stops at a position among the objectives. If one of the objectives
  of the level has been removed since the push, either the position is never met and all objectives are lost
  (`Managers.AllLost`), or objectives that were added later move up to it and stay (`Managers.WrongKept`). It is
  right exactly if none has been removed: `Managers.PoppedIsLevel`, `Managers.PoppedToIsLevel`,
  `Managers.IntactWithout`. `Managers.RemovedThenPopped` says what comes of it in each case.
- After a successful try with further objectives, `Manager::check` looks up the value of the next objective's
  variable and asserts that it has one (152-157). The model has been restricted to variables of asserted formulas
  (`src/smtrat-modules/Module.cpp:946-967`), and that variable normally occurs in none. `Managers.Manager.Check`
  gives the exact condition, and `Managers.SecondHasNoValue` a check that fails. What is true for exits that answer
  is stated for these.
- `Manager::add` tells the root of the tree no further conjuncts once one is refused (128-130). That is harmless
  only because the base class, which the root is of, never refuses.
- `Manager::check` takes the bound that it asserts from the next objective, not from the one just optimised (152-162).
- Samples are made unique by value (`src/smtrat-cad/lifting/LiftingTree.h:56-57`), after a sort that need not keep
  equal samples in order. If a finite bound has the value of a root, either of the two may stay, and with it or
  without it the mark of the polynomial: `LiftingTrees.MarksAreSure`. Without it the root sample goes as soon as any
  other polynomial of the level is withdrawn, although its own polynomial stays: `LiftingTrees.LostRoot`. All other
  roots stay, whatever happens: `CadChecks.RootsStay`.
- A condition is read back from its text exactly if no token is a proper beginning of a displayed token; the
  tokeniser does not look for the longest token. A blank made from its stored spelling has length 2, since the
  length is that of the constructor's argument (`src/gui/AllowedConditionValue.java:68`); read back it has length 1.
- A decimal number without its last digit comes in brackets (`src/delta/operators.h:137`), as the constructor's
  default says; the other shorter numbers do not.
- Removing the first element of unnamed brackets, or moving another one there, can put a symbol first. What the
  solver is given then reads as a different tree: `DeltaEdits.EditIsReadBack` gives the exact condition and
  `DeltaEdits.RemovalIsMisread` an instance.
- The operators for bit vectors convert names to numbers with `std::stoul`, which throws on names that do not begin
  with a number, as in `((_ zero_extend k) (_ x 1))`: `DeltaProducers.IndexIsNoNumber`. Nothing catches this; the
  loop then ends as `Failed`, and it never finishes with such a node. Their sums wrap around.
- A declaration without children is read beyond its end (`src/delta/Node.h:151-164`).
- If the number of threads is not given and the hardware does not say, no check is ever started
  (`src/delta/Consumer.h:77`). `DeltaConsumers.NoThreadNoEnd` says exactly when a pass then gets stuck.
- The command line calls the depth-first option `dfs`, the loop asks for `useDFS` (`src/delta/Producer.h:75`). The
  loop is modelled with either traversal.
- An integral branch is documented as one whose variables are integral. What is needed is that the polynomial has
  whole values, which coefficients may prevent; `Branching.BranchIsHarmless` has the exact condition.
- Splitting variables that are freed may be reused. If lemmas with the variables are still in force, the two branches
  have to agree: `Branching.ReuseMeaning` and `Branching.ReuseConserves` say when in terms of models, and
  `Branching.ReusedTooEarly` in terms of the two calls.
- With a radius above one, trivial samples would be appended out of order (206-213 of the lifting tree):
  `LiftingTrees.TrivialRowComplete`. Every settings class says one.
- The queue of the thread pool is never filled, since every unit of work gets a thread of its own
  (`src/smtrat-solver/ThreadPool.cpp:46-52`); that the queue is empty is part of the invariant.

## Model

| member | source | states |
|---|---|---|
| `ThreadPool.RunsKeepInv` | src/smtrat-solver/ThreadPool.cpp:17-92 | the protocol invariant holds in every state of every interleaving: who owns which slot, which tasks are unfinished, what the counters count |
| `ThreadPool.BlockedCallOwnsItsSlot` | src/smtrat-solver/ThreadPool.cpp:62-91 | until a call frees its slot, its index denotes its own synchronisation object, no other index does, and it waits on that object |
| `ThreadPool.NoLostWakeUp` | src/smtrat-solver/ThreadPool.cpp:17-30 | while a blocked call is not fired, each of its tasks is still on its way to its notification, on a younger thread |
| `ThreadPool.SkippedOnlyAfterWakeUp` | src/smtrat-solver/ThreadPool.h:90-93 | a task is skipped only when its call has been fired or has freed its slot |
| `ThreadPool.TrimKeeps` | src/smtrat-solver/ThreadPool.cpp:84-91 | freeing a slot and dropping the null pointers at the end leaves all other slots where they are |
| `ThreadPool.CounterIsExact` | src/smtrat-solver/ThreadPool.cpp:61-61 | mCounter is the number of unblocked threads and mNumberThreads that of tasks not deleted, plus one; the assertion of runBackends holds |
| `ThreadPool.NoDeadlock` | src/smtrat-solver/ThreadPool.cpp:55-129 | as long as some thread has not terminated, some thread can move |
| `ThreadPool.RunsEnd` | src/smtrat-solver/ThreadPool.cpp:17-129 | every step except a new nested call uses up a measure, so a run without further calls is no longer than the measure at its start |
| `ThreadPool.TerminationIsClean` | src/smtrat-solver/ThreadPool.h:121-124 | when all threads have terminated, no slot is occupied, every future is settled and the loop of the destructor ends |
| `ThreadPool.FuturesStay` | src/smtrat-solver/ThreadPool.cpp:17-30 | a future that has been settled never changes |
| `ThreadPool.CollectedIsSettled` | src/smtrat-solver/ThreadPool.cpp:94-105 | in every run, the futures that a collecting call has passed are settled |
| `ThreadPool.CollectAnswers` | src/smtrat-solver/ThreadPool.cpp:93-128 | the answer is SAT or UNSAT exactly if some future says so, UNKNOWN if one does and none is decided; broken futures count as ABORTED |
| `Formulas.FlattenMeaning` | src/smtrat-modules/ModuleInput.cpp:192-209 | taking a nested conjunction apart keeps its meaning |
| `ModuleInputs.ModuleInput.Find` | src/smtrat-modules/ModuleInput.cpp:49-60 | the position map finds exactly what a linear search through the list finds |
| `ModuleInputs.ModuleInput.Add` | src/smtrat-modules/ModuleInput.cpp:192-256 | the conjuncts that were not listed are appended, in order; a single origin is pushed once for each conjunct onto the origins of exactly those formulas that share a vector with it; entries are those of adding the conjuncts one by one if nothing that is extended in place is shared; only a vector that is handed in comes to be shared by more; references stay valid, and the returned iterator is the first new element |
| `ModuleInputs.AddAllShape` | src/smtrat-modules/ModuleInput.cpp:192-256 | adding any nested conjunction leaves old elements in place, appends exactly the conjuncts that were not listed, and makes no duplicates |
| `ModuleInputs.ModuleInput.PushOrigin` | src/smtrat-modules/ModuleInput.cpp:232-240 | the origin is pushed onto the vector of the node, for everybody who shares it; a node without one gets a new vector; the entry of the node alone changes if nobody shares |
| `ModuleInputs.ModuleInput.JoinOrigins` | src/smtrat-modules/ModuleInput.cpp:241-253 | joining a shared vector changes one entry only and never the shared vector itself, because it is copied |
| `ModuleInputs.ModuleInput.Erase` | src/smtrat-modules/ModuleInput.cpp:101-107 | erasing removes one element, and the position map stays right |
| `ModuleInputs.DropMatches` | src/smtrat-modules/ModuleInput.cpp:113-134 | the swap-and-pop loop removes exactly the origins that depend on the formula |
| `ModuleInputs.ModuleInput.RemoveOrigin` | src/smtrat-modules/ModuleInput.cpp:109-141 | true exactly if no origin without the formula is left; nodes that share the vector lose exactly the matching origins, all other nodes nothing |
| `ModuleInputs.ModuleInput.RemoveOrigins` | src/smtrat-modules/ModuleInput.cpp:143-168 | the vector loses the given origins, counted, for all who share it, and true means that none is left or that the vector was the given one |
| `Origins.ConjunctsJustified` | src/smtrat-modules/ModuleInput.cpp:192-209 | origins that justify a conjunction justify each of its conjuncts |
| `Origins.FindBestOrigin` | src/smtrat-modules/Module.cpp:736-752 | the first origin of size one, else the first of the smallest ones |
| `Origins.SourcesEntail` | src/smtrat-modules/Module.cpp:1029-1044 | the received formulas an element is traced back to are received, and entail it |
| `Origins.LiftingSound` | src/smtrat-modules/Module.cpp:754-772 | a conflict among passed formulas is lifted to a conflict among received formulas |
| `Origins.PassedConflict` | src/smtrat-modules/Module.cpp:258-272 | if the passed formulas have no common model, neither have the received ones |
| `Origins.WithdrawStep` | src/smtrat-modules/Module.cpp:213-225 | each round of the withdrawal loop cleans one element or erases it |
| `Origins.StillJustified` | src/smtrat-modules/Module.cpp:213-225 | what is left after a received formula is withdrawn is justified by the remaining received formulas |
| `Origins.MirrorKept` | src/smtrat-modules/Module.cpp:213-260 | in the base module the passed list stays position by position a prefix of the received list when a received formula is retracted |
| `Modules.Backend.Add` | src/smtrat-modules/Module.cpp:168-196 | a backend appends the formula to what it has been told; a refusal means that what it was told has no model |
| `Modules.Backend.Remove` | src/smtrat-modules/Module.cpp:198-210 | withdrawing a formula that was told is always possible: the counter assertion cannot fail, and counters stay exact |
| `Modules.DropSubsets` | src/smtrat-modules/Module.cpp:226-239 | exactly the infeasible subsets without the formula stay |
| `Modules.Module.AddSubformulaToPassedFormula` | src/smtrat-modules/Module.cpp:383-392 | the passed formula grows as its list does, the returned iterator is the first new element if there is one; nobody is told, and the backends still have been told exactly what precedes the first formula to pass; vectors that were not shared stay so unless a shared one is passed in |
| `Modules.Module.EraseSubformulaFromPassedFormula` | src/smtrat-modules/Module.cpp:858-912 | backends are told to remove a formula exactly if they had been told it, and stay in step with the passed formula; the assertion holds exactly if origins are ignored or there are none |
| `Modules.Module.ClearPassedFormula` | src/smtrat-modules/Module.cpp:914-918 | everything is taken back, from the backends too; the assertion on the way holds each time exactly if nothing passed has origins |
| `Modules.Module.RemoveOrigin` | src/smtrat-modules/Module.h:850-857 | a vector loses the matching origins, for all who share it; the formula is erased exactly if it has no other origin left, and the backends stay in step |
| `Modules.Module.RemoveOrigins` | src/smtrat-modules/Module.h:859-866 | a vector loses the given origins, counted; the formula is erased exactly if nothing is left or its own vector is given, and the backends stay in step |
| `Modules.Module.WithdrawOrigins` | src/smtrat-modules/Module.cpp:213-225 | exactly the passed formulas with an origin that does not depend on the withdrawn formula survive, in order, and what the backends have been told are exactly the survivors of what they had been told |
| `Modules.Module.Remove` | src/smtrat-modules/Module.cpp:213-242 | after removal, passed formulas are justified and infeasible subsets sound with respect to what is still received; the subsets that go are those that contain the formula; what the backends know are the survivors of what they knew; what is left shares vectors as before |
| `Modules.Module.GetOrigins` | src/smtrat-modules/Module.h:1004-1010 | adds the received formulas that the best origin of a passed formula stands for |
| `Modules.Module.CollectOrigins` | src/smtrat-modules/Module.cpp:1029-1044 | adds a received formula, or the conjuncts of a conjunction of received formulas |
| `Modules.Module.LiftSubset` | src/smtrat-modules/Module.cpp:767-769 | computes the explanation of one conflict of a backend |
| `Modules.Module.GetInfeasibleSubsets` | src/smtrat-modules/Module.cpp:641-654 | appends the explanations of all conflicts of the used backends that answered UNSAT, and each is sound |
| `Modules.Module.NewBackend` | src/smtrat-solver/Manager.cpp:439-457 | a backend made in mid-run is told exactly what the others know already |
| `Modules.Module.GetBackends` | src/smtrat-solver/Manager.cpp:418-461 | the wanted backends in order of the strategy, made if they did not exist; those that exist stay |
| `Modules.Module.TellBackends` | src/smtrat-modules/Module.cpp:788-821 | all backends, used or not, are told the rest of the passed formula, in order |
| `Modules.Module.RunUsed` | src/smtrat-modules/Module.cpp:844-850 | the used backends are checked until one knows an answer |
| `Modules.Module.RunBackends` | src/smtrat-modules/Module.cpp:774-856 | after a run with backends everything passed has been told to all of them; UNSAT means that the passed formulas have no model, and that some backend has a conflict if all of them explain what they refute |
| `ModuleRuns.PassNext` | src/smtrat-modules/Module.h:893-897 | the next received formula is passed on with itself as the only origin |
| `ModuleRuns.CopyReceived` | src/smtrat-modules/Module.cpp:251-261 | copying makes the passed list equal to the received list, each formula its own origin |
| `ModuleRuns.CheckCore` | src/smtrat-modules/Module.cpp:244-274 | stored infeasible subsets decide; otherwise the backends run on a full copy, UNSAT is right, and what is stored are the explanations of the conflicts of the used backends. UNSAT comes with a subset exactly if there was one or a used backend has a conflict; surely if all backends are wanted and explain and remember what they refute; surely not if one that is not wanted refuses and the wanted ones never explain |
| `ModuleRuns.UnexplainedUnsat` | src/smtrat-modules/Module.cpp:134-134 | a history of four operations at the end of which the assertion fails: the last check answers UNSAT, and there is no infeasible subset |
| `ModuleRuns.CheckModule` | src/smtrat-modules/Module.cpp:103-145 | a check answers UNSAT only if the received formulas have no model, and its subsets explain that: a module owes its parent what it demands of its backends; what it makes of the books is stated case by case |
| `ModuleRuns.Receive` | src/smtrat-solver/Manager.cpp:122-133 | the received list grows by the flattened formula, and nothing else changes |
| `ModuleRuns.Retract` | src/smtrat-modules/Module.cpp:198-242 | passed list, what backends know and subsets are as if the withdrawn formula had never been there |
| `ModuleRuns.Replay` | src/smtrat-modules/Module.cpp:168-274 | any history of additions, withdrawals and checks with changing backends: each state follows from the one before as its operation says, and in each the books are right: backends in step, passed list a mirror, subsets conflicts among what is received |
| `ModuleRuns.HistoryReceives` | src/smtrat-modules/Module.cpp:168-274 | what is received after any part of a history is what its operations say, whatever was answered |
| `ModuleRuns.HistorySound` | src/smtrat-modules/Module.cpp:103-145 | UNSAT in a history is the answer to a check, and what the operations before it leave has no model |
| `PassingOn.PushAllJustified` | src/smtrat-modules/ModuleInput.cpp:232-240 | pushing an origin in place keeps everything justified exactly if it is received and entails every formula that notices |
| `PassingOn.PassSingle` | src/smtrat-modules/Module.cpp:383-392 | passing on with a single origin keeps a module accountable exactly if the origin is received and entails the formula and all formulas that share a vector with it |
| `PassingOn.PassWith` | src/smtrat-modules/Module.cpp:383-392 | passing on with a vector of origins, or without any, keeps a module accountable if they justify the formula; each conjunct gets them, whoever shares the vector |
| `PassingOn.TakenJustified` | src/smtrat-modules/ModuleInput.cpp:109-168 | taking origins from a formula keeps everything justified, unless its vector is emptied while another formula shares it |
| `PassingOn.TakeOrigin` | src/smtrat-modules/Module.h:850-857 | removing an origin keeps a module accountable exactly if the formula keeps another one, or has no vector, or shares it with nobody; backends forget what is erased |
| `PassingOn.TakeOrigins` | src/smtrat-modules/Module.h:859-866 | so does removing a list of origins |
| `PassingOn.TakeVector` | src/smtrat-modules/SATModule/SATModule.cpp:1601-1601 | giving up the whole vector of a formula always keeps a module accountable, whoever shares it |
| `PassingOn.EraseOne` | src/smtrat-modules/Module.cpp:858-912 | so does erasing a formula with its origins |
| `PassingOn.EraseAll` | src/smtrat-modules/Module.cpp:914-918 | so does erasing all |
| `PassingOn.SharedVectorMisleads` | src/smtrat-modules/ModuleInput.cpp:232-240 | a further origin, pushed onto a vector that two formulas share, explains a conflict by a satisfiable formula |
| `PassingOn.SharerBereft` | src/smtrat-modules/ModuleInput.cpp:130-140 | the only origin of two formulas is taken from the first: the second is left with an empty vector, is not justified in any theory, has no best origin, and goes with whatever formula is withdrawn next |
| `DerivedRuns.FittingMayPass` | src/smtrat-modules/ModuleInput.cpp:232-240 | the guard for pushes lets everything through that fits, for a class that knows what its origins entail |
| `DerivedRuns.MayRemoveExactly` | src/smtrat-modules/ModuleInput.cpp:109-168 | the guard for removals stops exactly those that would leave another formula without origins |
| `DerivedRuns.NeverShared` | src/smtrat-modules/Module.cpp:198-918 | in a run in which no two formulas are passed on with one vector, none is ever shared, and no removal is stopped |
| `DerivedRuns.MoveWithdraw` | src/smtrat-modules/Module.cpp:198-242 | a withdrawal keeps a module accountable, whatever it has passed on |
| `DerivedRuns.MoveCheck` | src/smtrat-modules/Module.cpp:774-856 | running backends and collecting their conflicts: UNSAT is right, and all infeasible subsets explain it |
| `DerivedRuns.Run` | src/smtrat-modules/Module.cpp:198-918 | whatever a module receives, passes on with origins that entail it, erases, clears, removes origins from, withdraws and checks, in any order: each state follows from the one before, and after every move passed formulas are justified by what is received, backends in step, and infeasible subsets sound |
| `DerivedRuns.RunSound` | src/smtrat-modules/Module.cpp:774-856 | UNSAT in such a run replies to a check, and what is received then has no model |
| `Managers.Manager.Add` | src/smtrat-solver/Manager.cpp:105-133 | the assertions grow by the new conjuncts at the end, and the root of the module tree is told exactly these |
| `Managers.Manager.Push` | src/smtrat-solver/Manager.h:153-160 | a level is opened at the present assertions and objectives |
| `Managers.Manager.AddObjective` | src/smtrat-solver/Manager.h:179-201 | a new objective gets a variable of its type that no other objective and no pool has |
| `Managers.Manager.RemoveObjective` | src/smtrat-solver/Manager.h:203-213 | the last objective for the polynomial is removed |
| `Managers.Manager.Pop` | src/smtrat-solver/Manager.cpp:276-303 | assertions are those of the last push; of the objectives as many are kept as there were then, or none if there are fewer now. False exactly if there is no level |
| `Managers.PoppedIsLevel` | src/smtrat-solver/Manager.cpp:287-300 | the objectives are those of the push exactly if they are still the first ones |
| `Managers.RemovedThenPopped` | src/smtrat-solver/Manager.cpp:287-300 | removing an objective and popping the level comes back to the level exactly if the objective was added after the push; else all objectives are lost if none was added since, and otherwise those after the removed one move up and the first one added stays |
| `Managers.AllLost` | src/smtrat-solver/Manager.cpp:287-300 | after removing one of two objectives of a level, popping it loses the other one too |
| `Managers.WrongKept` | src/smtrat-solver/Manager.cpp:287-300 | after adding an objective to a level and removing one from below it, popping the level keeps the added one |
| `Managers.Manager.PopLevels` | src/smtrat-solver/Manager.cpp:305-309 | several levels are popped, one after the other |
| `Managers.PoppedToIsLevel` | src/smtrat-solver/Manager.cpp:305-309 | popping several levels comes back to the lowest exactly if it had no objectives, or its objectives are still the first ones and the numbers of objectives ascend from level to level up to the present one |
| `Managers.IntactWithout` | src/smtrat-solver/Manager.h:203-213 | removing an objective leaves the levels intact exactly if it was added after the last push |
| `Managers.LastGivenBack` | src/smtrat-solver/Manager.cpp:291-299 | the variable of a popped objective may be reused without two objectives or pools sharing it |
| `Managers.Manager.Check` | src/smtrat-solver/Manager.cpp:135-174 | a check that answers leaves assertions, objectives and backtrack points as they were; what is asked in each try, and that tries go on exactly after a success. It does not answer exactly if a try that is not the last is successful but gives the next variable no value; with two objectives or more, the second on a variable that neither an assertion nor the first equation mentions, exactly if the first try is successful |
| `Managers.Manager.ExcludeNotReceivedVariables` | src/smtrat-modules/Module.cpp:946-967 | the loop that erases entries one by one leaves exactly those whose variable an assertion mentions |
| `Managers.Manager.LookUp` | src/smtrat-solver/Manager.cpp:154-156 | a variable has a value exactly if the model has one and an assertion mentions it |
| `Managers.SecondHasNoValue` | src/smtrat-solver/Manager.cpp:152-157 | a check with two objectives: the first try is the equation of the first and successful, and the check fails, since the second has no value |
| `Managers.Manager.RunLevel` | src/smtrat-solver/Manager.cpp:276-303 | push, any well-nested script, pop: everything is as before the push (section 4.2.2 of the SMT-LIB Standard 2.6), unless a check in the script fails; none does if none is made with two objectives |
| `Cells.EveryCellSampled` | src/smtrat-cad/lifting/LiftingTree.h:98-118 | a row in which non-root and root samples alternate has a sample in the cell of every real number |
| `Cells.InsertRootsSets` | src/smtrat-cad/lifting/LiftingTree.h:54-82 | inserting root samples adds exactly their values to the roots and loses no sample |
| `Cells.FillAlternates` | src/smtrat-cad/lifting/LiftingTree.h:98-118 | filling the gaps of a sorted row of separated samples makes it alternate |
| `Cells.MergeCompletes` | src/smtrat-cad/lifting/LiftingTree.h:84-122 | merging root samples keeps a row a complete decomposition, with exactly the old and the new roots |
| `Cells.WithdrawAlternates` | src/smtrat-cad/lifting/LiftingTree.h:234-246 | erasing root samples with the samples to their left keeps a row sorted and alternating |
| `Cells.WithdrawSets` | src/smtrat-cad/lifting/LiftingTree.h:234-246 | the roots that stay are exactly those not erased, and no value is new |
| `Cells.MergedMarks` | src/smtrat-cad/lifting/LiftingTree.h:54-122 | merging root samples loses no mark of a polynomial, and adds exactly theirs |
| `Cells.WithdrawMarks` | src/smtrat-cad/lifting/LiftingTree.h:234-246 | no sample goes that a polynomial still has as a root |
| `SampleTrees.PurgeKeeps` | src/smtrat-cad/lifting/LiftingTree.h:229-248 | withdrawing polynomials from a level keeps the tree well-formed and every row that is left complete |
| `SampleTrees.PurgedRow` | src/smtrat-cad/lifting/LiftingTree.h:235-246 | one level up, a row loses exactly the roots without a polynomial, each with the sample to its left |
| `SampleTrees.PurgedRoots` | src/smtrat-cad/lifting/LiftingTree.h:235-246 | the roots that stay are those that a polynomial not withdrawn still has |
| `SampleTrees.PurgedMarks` | src/smtrat-cad/lifting/LiftingTree.h:229-248 | the withdrawn polynomials lose all their marks at the level, and no other polynomial loses a root sample |
| `SampleTrees.DoomedAreDead` | src/smtrat-cad/lifting/LiftingTree.h:234-242 | the delete queue holds exactly the root samples that are gone and their left siblings |
| `SampleTrees.ForgetKeeps` | src/smtrat-cad/lifting/LiftingTree.h:250-257 | forgetting evaluations keeps tree and rows |
| `LiftingTrees.SortUnique` | src/smtrat-cad/lifting/LiftingTree.h:56-57 | sorted, one sample for each value, no value lost; which of equal samples stays is as open as `std::sort` leaves it |
| `LiftingTrees.LiftingTree.InsertRootSamples` | src/smtrat-cad/lifting/LiftingTree.h:54-82 | the row is the old one with the sorted samples inserted, and the result says whether there is news |
| `LiftingTrees.LiftingTree.FillRow` | src/smtrat-cad/lifting/LiftingTree.h:98-118 | the loops put samples below, between and above roots, as the specification of a filled row says |
| `LiftingTrees.LiftingTree.MergeRootSamples` | src/smtrat-cad/lifting/LiftingTree.h:84-122 | merges root samples into a row, and gives a childless node a sample if there is none to merge |
| `LiftingTrees.LiftingTree.LiftSample` | src/smtrat-cad/lifting/LiftingTree.h:176-197 | the node has children afterwards, with the old roots, the new ones and the bounds as its roots; there is news exactly if one of the samples was not in the row; all old marks are kept, and each root that is no finite bound is marked with the polynomial; all rows are complete and the queues agree with the tree |
| `LiftingTrees.MarksAreSure` | src/smtrat-cad/lifting/LiftingTree.h:183-196 | every root is sure to be marked with its polynomial exactly if none of them is a finite bound |
| `LiftingTrees.LostRoot` | src/smtrat-cad/lifting/LiftingTree.h:190-195 | a root at a lower bound may lose its mark, and then goes when any other polynomial of the level is withdrawn |
| `LiftingTrees.LiftingTree.AddTrivialSample` | src/smtrat-cad/lifting/LiftingTree.h:198-215 | a childless node gets one sample, with radius one |
| `LiftingTrees.TrivialRowComplete` | src/smtrat-cad/lifting/LiftingTree.h:206-213 | the row of trivial samples is complete exactly if the radius is at most one |
| `LiftingTrees.LiftingTree.RemoveNextSample` | src/smtrat-cad/lifting/LiftingTree.h:167-170 | a sample moves from the lifting queue to the removed list |
| `LiftingTrees.LiftingTree.RestoreRemovedSamples` | src/smtrat-cad/lifting/LiftingTree.h:171-174 | each live node below full depth is in the lifting queue exactly once |
| `LiftingTrees.LiftingTree.ResetFullSamples` | src/smtrat-cad/lifting/LiftingTree.h:151-158 | the checking queue holds each live node of full depth exactly once |
| `LiftingTrees.LiftingTree.CleanQueuesFromExpired` | src/smtrat-cad/lifting/LiftingTree.h:46-52 | no dead node is left in any list, and every live one still is where it was |
| `LiftingTrees.LiftingTree.CollectDead` | src/smtrat-cad/lifting/LiftingTree.h:234-242 | the collected nodes are exactly the dead ones |
| `LiftingTrees.LiftingTree.RemovedPolynomialsFromLevel` | src/smtrat-cad/lifting/LiftingTree.h:229-248 | the whole withdrawal: tree, rows and all three lists stay right |
| `LiftingTrees.LiftingTree.RemovedConstraint` | src/smtrat-cad/lifting/LiftingTree.h:250-257 | exactly the bits of removed constraints are forgotten |
| `LiftingTrees.Cleanup` | src/smtrat-cad/lifting/SampleIteratorQueue.h:28-32 | a filtered list keeps the live nodes in order |
| `CadChecks.MemosGrown` | src/smtrat-cad/lifting/Sample.h:76-80 | lifting and merging keep every memo equal to direct evaluation |
| `CadChecks.MemosPurged` | src/smtrat-cad/lifting/LiftingTree.h:229-248 | withdrawing polynomials keeps the memos of the samples that stay |
| `CadChecks.MemosForgotten` | src/smtrat-cad/CAD.h:102-108 | removing constraints keeps the memos of the others |
| `CadChecks.ConflictMeansViolated` | src/smtrat-cad/lifting/Sample.h:73-75 | a conflict bit means that a constraint is violated at the point of the sample |
| `CadChecks.Cad.EvaluateSample` | src/smtrat-cad/CAD.h:110-124 | the result is that of direct evaluation, whether it was looked up or computed |
| `CadChecks.Cad.CheckFullSamples` | src/smtrat-cad/CAD.h:148-171 | SAT comes with a queued sample that satisfies all constraints; UNSAT means that every queued full sample carries a conflict bit |
| `CadChecks.Cad.EnumerateSolutions` | src/smtrat-cad/CAD.h:126-146 | exactly the queued full samples that satisfy everything are returned |
| `CadChecks.Cad.CheckPartialSample` | src/smtrat-cad/CAD.h:173-190 | UNSAT exactly if the sample had a conflict or violates a constraint of the level |
| `CadChecks.Run` | src/smtrat-cad/CAD.h:96-171 | any run of lifting, checking, adding and removing: each state follows from the one before as its step says, and in each the memos are right and the queues in step with the tree; in the end each lifted node covers the real line |
| `CadChecks.RootsStay` | src/smtrat-cad/lifting/LiftingTree.h:176-248 | in any run, a root of a lifted polynomial that is no bound is a root sample as long as the node lives and the polynomial is not withdrawn from its level |
| `RecursiveDescentParsers.SoundS` | src/gui/RecursiveDescentParser.java:9-28 | what the procedures accept has a derivation in the original, ambiguous grammar |
| `RecursiveDescentParsers.CompleteS` | src/gui/RecursiveDescentParser.java:9-28 | every yield of a derivation is accepted |
| `RecursiveDescentParsers.AcceptsExactlyDerivable` | src/gui/RecursiveDescentParser.java:9-28 | the LL(1) procedures accept exactly the token lists derivable from S, if no proposition is spelled like another token |
| `RecursiveDescentParsers.CompleteE` | src/gui/RecursiveDescentParser.java:157-183 | an expression is consumed to its end, whatever follows |
| `RecursiveDescentParsers.Parser.Parse` | src/gui/RecursiveDescentParser.java:70-79 | the answer is true exactly if the tokens, without whitespace, are derivable; it always terminates |
| `RecursiveDescentParsers.Parser.Next` | src/gui/RecursiveDescentParser.java:81-99 | whitespace is dropped |
| `RecursiveDescentParsers.Parser.Tail` | src/gui/RecursiveDescentParser.java:292-382 | the procedures for chains of one operator, inside and outside brackets |
| `DeltaNodes.RecalculateSize` | src/delta/Node.h:71-73 | the size that a node keeps is right, with all below it, if those that its children keep are |
| `DeltaNodes.EliminateDefineFuns` | src/delta/Node.h:151-164 | exactly the declarations of names that occur nowhere else are erased, in one sweep; a declaration without children is read beyond its end |
| `DeltaNodes.EliminationIsComplete` | src/delta/Node.h:145-164 | erasing unused declarations leaves the names as they were, so a second sweep would change nothing |
| `DeltaTexts.SkipGap` | src/delta/Parser.h:56-61 | blanks and comments that are ended by a line end are skipped |
| `DeltaTexts.ReadSymbol` | src/delta/Parser.h:66-75 | a simple or quoted symbol is read back as it is, up to a delimiter |
| `DeltaTexts.ReadNode` | src/delta/Parser.h:118-122 | a well-formed node is read back from any layout of it |
| `DeltaTexts.ReadFile` | src/delta/Parser.h:118-124 | however the nodes of a file are laid out, the file is read as these nodes |
| `DeltaTexts.FilesRead` | src/delta/Parser.h:118-124 | what the parser accepts consists of well-formed nodes |
| `DeltaTexts.StreamRoundTrip` | src/delta/Node.h:233-242 | the output of the stream operator is read back as the same tree exactly if the tree is a list of well-formed nodes |
| `DeltaTexts.PrintRoundTrip` | src/delta/Node.h:171-186 | the same for the plain printer |
| `DeltaTexts.PrettyRoundTrip` | src/delta/Node.h:188-223 | the same for the pretty printer, with any blank indentation |
| `DeltaTexts.PrintersAgree` | src/delta/Node.h:167-252 | all printers write texts that are read alike, and no two files are written alike |
| `DeltaOperators.ReorderChildren` | src/delta/operators.h:62-74 | computes all swaps of neighbours that are in the wrong order of size |
| `DeltaOperators.MergeChild` | src/delta/operators.h:81-98 | computes, for an associative operator, all replacements of a child by its own children |
| `DeltaOperators.NumbersExactly` | src/delta/operators.h:104-143 | what is proposed for a leaf are exactly the shorter numbers that the regular expressions allow |
| `DeltaOperators.ReorderingsExactly` | src/delta/operators.h:62-74 | the reorderings are exactly the swaps of neighbours of which the left one is larger |
| `DeltaOperators.MergesExactly` | src/delta/operators.h:81-98 | the merges are exactly the replacements of one child of an associative operator by its own children |
| `DeltaOperators.NumbersAreShorter` | src/delta/operators.h:104-143 | each of these leaves allows less than the number it replaces |
| `DeltaOperators.ReadBack` | src/delta/operators.h:192-198 | a written index is read as the same number |
| `DeltaOperators.ExtensionAdds` | src/delta/operators.h:181-198 | a merged zero extension says the sum of both indices, modulo the range of an unsigned long |
| `DeltaOperators.ShiftAdds` | src/delta/operators.h:206-230 | a merged shift shifts the same term by the sum, at the same width, modulo the range of an unsigned long |
| `DeltaOperators.PairsSwapped` | src/delta/operators.h:66-71 | a swap rights exactly one pair of children |
| `DeltaOperators.ProposalsAreSimpler` | src/delta/operators.h:53-230 | every proposal of every operator is smaller than its node in the lexicographic measure |
| `DeltaEdits.CloneHas` | src/delta/Node.h:112-123 | a clone has the replacement in that place, and putting the old node back restores the tree |
| `DeltaEdits.RemovalIsSimpler` | src/delta/Node.h:112-123 | removing a node removes exactly its nodes from the count |
| `DeltaEdits.ReplacementIsSimpler` | src/delta/Node.h:112-123 | replacing a node by a simpler one makes the whole tree simpler |
| `DeltaEdits.EditIsReadBack` | src/delta/Checker.h:75-80 | the checker reads the edited tree from its file exactly if the new nodes are well-formed and no symbol has come first in unnamed brackets |
| `DeltaEdits.RemovalIsMisread` | src/delta/Producer.h:163-165 | a removal after which the solver is given a different tree |
| `DeltaEdits.DepthFirstVisitsAll` | src/delta/Producer.h:116-125 | the depth-first traversal visits exactly the nodes that are not immutable or below such, each of them once |
| `DeltaEdits.BreadthFirst` | src/delta/Producer.h:132-149 | so does the breadth-first one, level by level |
| `DeltaConsumers.InvStep` | src/delta/Consumer.h:55-112 | every step of the walking thread and of the checks keeps the invariant |
| `DeltaConsumers.ResultStays` | src/delta/Consumer.h:64-68 | the first success remains the result |
| `DeltaConsumers.Verdict` | src/delta/Consumer.h:55-105 | under any schedule: no result means that every proposal was tried and rejected, a result passes the checker, and no more checks than allowed are unfinished |
| `DeltaConsumers.NoDeadlock` | src/delta/Consumer.h:91-112 | with at least one thread allowed, a pass that is not over can go on |
| `DeltaConsumers.NoThreadNoEnd` | src/delta/Consumer.h:75-95 | if no thread is allowed, which is what an unknown hardware concurrency gives, a pass gets stuck exactly if it proposes something before an operator throws |
| `DeltaConsumers.RunsAreBounded` | src/delta/Consumer.h:55-112 | no schedule of a pass is longer than a bound that is known at its start |
| `DeltaConsumers.RunPass` | src/delta/Producer.h:71-83 | a pass comes to an end under whatever schedule |
| `DeltaProducers.Collect` | src/delta/Producer.h:116-149 | the items of a pass: every node is visited, and processed if its number is above the ones to skip |
| `DeltaProducers.EditIsSimpler` | src/delta/Producer.h:157-172 | every edit makes the whole tree smaller in the lexicographic measure |
| `DeltaProducers.ProcessIs` | src/delta/Producer.h:157-172 | what is tried at a node are exactly its removal and its proposals, as far as options allow |
| `DeltaProducers.NothingFound` | src/delta/Producer.h:98-101 | a pass that skips nothing and finds nothing has tried every edit of every eligible node, and no operator throws on any of them |
| `DeltaProducers.IndexIsNoNumber` | src/delta/operators.h:192-193 | an input on which an operator throws |
| `DeltaProducers.Reduce` | src/delta/Producer.h:67-107 | the loop ends after at least one pass and at most two for each tree; every tree on the way is an accepted edit of the one before; it is interrupted only on the first request; it finishes only with a tree that is locally minimal and on which no operator throws, and fails only if one does |
| `StrategyGraphs.StrategyGraph.AddBackLink` | src/gui/StrategyGraph.java:42-57 | a back link is accepted exactly if it leads to a vertex from which its source can be reached |
| `StrategyGraphs.StrategyGraph.AddSuccessor` | src/gui/StrategyGraph.java:32-40 | a new vertex hangs below an old one, with an edge of lowest priority |
| `StrategyGraphs.StrategyGraph.HasPath` | src/gui/StrategyGraph.java:193-211 | the search finds a path exactly if the vertex can be reached by forward edges, and terminates |
| `StrategyGraphs.StrategyGraph.GetPredecessorEdge` | src/gui/StrategyGraph.java:81-91 | the forward edge into a vertex, if there is one |
| `StrategyGraphs.StrategyGraph.CollectHigherPriorityEdges` | src/gui/StrategyGraph.java:183-191 | the chain of predecessors with priorities strictly inside the interval |
| `StrategyGraphs.PushedCompressed` | src/gui/StrategyGraph.java:119-141 | renumbering an interval permutes the priorities |
| `StrategyGraphs.PushedIsApart` | src/gui/StrategyGraph.java:119-141 | the chain goes before the rest of the interval, each in its old order, and nothing outside changes |
| `StrategyGraphs.PushKeepsPredecessors` | src/gui/StrategyGraph.java:119-141 | every edge still comes after its predecessor |
| `StrategyGraphs.StrategyGraph.PushPriority` | src/gui/StrategyGraph.java:93-148 | the priorities are permuted, edges outside the interval keep theirs, the dragged edge comes before the target, each edge after its predecessor; each refusal changes nothing |
| `StrategyGraphs.NumberedCompresses` | src/gui/StrategyGraph.java:171-181 | numbering edges in their order gives priorities without gaps in the same order |
| `StrategyGraphs.StrategyGraph.ClearUpPriorities` | src/gui/StrategyGraph.java:171-181 | priorities become 0 to n - 1 in the same relative order |
| `StrategyGraphs.RemovedExactly` | src/gui/StrategyGraph.java:213-228 | if nothing unreachable is left and nothing reachable is lost, what is left is what could be reached |
| `StrategyGraphs.StrategyGraph.RemoveNotConnectedVertices` | src/gui/StrategyGraph.java:213-228 | removes only vertices that cannot be reached, leaves no new ones behind, and terminates |
| `StrategyGraphs.StrategyGraph.RemoveVertex` | src/gui/StrategyGraph.java:165-169 | what remains is exactly what can be reached from the root without the vertex; edges and their relative order stay |
| `StrategyGraphs.StrategyGraph.RemoveEdge` | src/gui/StrategyGraph.java:150-163 | what remains is exactly what can be reached from the root without the edge; edges and their relative order stay |
| `StrategyGraphs.StrategyGraph.SortByPriority` | src/gui/Edge.java:35-50 | sorting by priority lists the edges in the order of their priorities |
| `ConditionTexts.SpellingsAgree` | src/gui/AllowedConditionValue.java:26-69 | a displayed and a stored spelling make the same value as the token they come from |
| `ConditionTexts.TokensSpellText` | src/gui/Condition.java:43-62 | the tokens found spell the text |
| `ConditionTexts.RoundTripExactlyIfPrefixFree` | src/gui/Condition.java:26-77 | every condition is read back from its text exactly if no token is a proper beginning of a displayed token |
| `ConditionTexts.ReadBackValues` | src/gui/Condition.java:151-159 | the values read back are the same; the lengths are, except for blanks made from their stored spelling |
| `ConditionTexts.StoredReadsBack` | src/gui/AllowedConditionValue.java:91-94 | the stored spelling of a value is read as that single value exactly if no token begins it |
| `ConditionTexts.Condition.AddElement` | src/gui/Condition.java:26-77 | inserts the values of the tokens at the index, or nothing if something is left over |
| `ConditionTexts.Condition.ToString` | src/gui/Condition.java:151-159 | the displayed values one after the other |
| `ConditionTexts.Rebuild` | src/gui/Condition.java:16-24 | writing a condition and adding the text to an empty one rebuilds its values |
| `Branching.Sides` | src/smtrat-modules/Module.cpp:526-557 | at most one side of a branch holds, and one does unless the value lies in the gap of an integral branch |
| `Branching.BranchDecides` | src/smtrat-modules/Module.cpp:578-601 | who satisfies the premise and the lemmas of a branch is on exactly one side, as the splitting variables say |
| `Branching.BranchIsHarmless` | src/smtrat-modules/Module.cpp:520-601 | the lemmas of a branch can be met by choosing its variables exactly if the premise fails or the value is not in the gap |
| `Branching.UnequalIsValid` | src/smtrat-modules/Module.cpp:610-631 | the lemmas of a split at an inequality hold in every model |
| `Branching.BranchConserves` | src/smtrat-modules/Module.cpp:558-603 | a branch with two variables of its own keeps a set of lemmas conservative |
| `Branching.HalfIsRuledOut` | src/smtrat-modules/Module.cpp:526-540 | an integral branch rules out a model with a value that is not whole |
| `Branching.ReuseMeaning` | src/smtrat-modules/Module.cpp:562-575 | a model extends to two branches with the same variables, in either order, exactly if neither premise holds or their sides agree in it |
| `Branching.ReuseConserves` | src/smtrat-modules/Module.cpp:562-575 | such branches are conservative exactly if their sides agree in all models with whole values where needed |
| `Branching.SameBranchAgain` | src/smtrat-modules/Module.cpp:562-575 | reuse is conservative, whatever the premises, if both branches cut the line, or the whole numbers if one of them is integral, at the same place |
| `Branching.ReusedTooEarly` | src/smtrat-modules/Module.cpp:562-575 | with premises that are variables, or none, reuse is conservative exactly if the variables stand for the same sides and both branches, integral or not, cut at the same place |
| `Branching.Brancher.BranchAt` | src/smtrat-modules/Module.cpp:520-608 | exactly the lemmas of the branch are added, with the two variables that come next, if the left side is not decided yet |
| `Branching.Brancher.TakeVariables` | src/smtrat-modules/Module.cpp:558-575 | the variables of a branch are different, and neither what is received nor any lemma mentions them |
| `Branching.Brancher.SplitUnequalConstraint` | src/smtrat-modules/Module.cpp:610-631 | adds the four lemmas of the split |
| `Branching.Brancher.Run` | src/smtrat-modules/Module.cpp:520-631 | after any calls, the lemmas are those of the calls, one after the other, and a model of the received formulas with whole values where branches are integral extends to a model of them and of all lemmas |

## Left out

- The library for polynomials, real roots, formulas, trees and bit sets, and with it sign-invariance of cells.
- The projection phase of the CAD: which polynomials are added and withdrawn at which level are parameters.
- Variable bounds, unsatisfiable-core computation, models and their merging, lemma learning, theory propagation,
  informing modules about constraints, timers, logging, statistics, assumptions written to files.
- ModuleRuns.Replay: histories of one base module with its backends. `ModuleRuns.CheckModule` and
  `DerivedRuns.MoveCheck` show that a module gives its parent what it demands of its own backends; the induction
  over a tree of modules is not written out.
- ModuleRuns.Receive: that the module itself is told of a received formula has no effect in the base class but on
  variable counters, which `Modules.Backend.Add` covers.
- DerivedRuns.Run: what a derived class infers is not modelled; that origins entail what is passed on is required of
  each move, and that a formula without origins is valid. So classes that pass on formulas without origins and do not
  lift conflicts, as `FPPModule` does, are left out. A move whose origin is not received is not made. A vector that no
  passed formula refers to any more is not passed on again.
- Modules.Module.RunBackends: sequential mode only; running backends on the thread pool is what `ThreadPool` models,
  and the two models are not joined. A module without a manager, which answers UNKNOWN, is left out.
- Modules.Backend.Add: the position of the first unchecked received formula and the objective function are left out.
- Managers.Manager.Check: the equations and bounds on objectives and the model that a run of the solver leaves are
  parameters; that the value in it is rational is left out, and that the answer is an optimum is not claimed.
  `Manager::remove` of a formula in the middle of the stack is left out, as levels do not survive it.
- ThreadPool.RunsKeepInv: creating a unit of work, counting it and spawning its thread are one step, and so are
  a wake-up and regaining the mutex. Spurious wake-ups are covered by the predicate that is waited for.
- ThreadPool.RunsEnd: the work itself may take any number of steps; it is assumed to end for deadlock freedom only.
- LiftingTrees.LiftingTree.AddTrivialSample: for radius one, which every settings class has.
- LiftingTrees.SortUnique: which of equal samples stays is left open, as in the source; the model keeps the first.
- LiftingTrees.LiftingTree.LiftSample: whether a polynomial vanishes identically is left out, as it is in the source.
- LiftingTrees.LiftingTree.RemovedPolynomialsFromLevel: subtrees are erased at once instead of one after the other;
  the order makes no difference.
- The order of samples in the two queues: which one is next is a parameter.
- CadChecks.Run: which polynomials lift a node is a parameter, and so is the note of it in the sample. The ids
  of constraints may be reused after removal only, as in the source; heuristics of the core loop
  that combine these steps are left out.
- RecursiveDescentParsers.Parser.Tail: one method for the four procedures of the source, which differ in the operator
  and in what may follow.
- Printing to files, the error handler of the parser, attributes of positions.
- DeltaOperators.ProposalsAreSimpler: with the elimination of let expressions switched off. It substitutes one
  binding after the other without regard to capture, and can make a tree larger.
- DeltaProducers.Reduce: the checker is a function of the tree, so that time-outs which differ from run to run are
  left out; progress output and the file with the last tree are left out.
- DeltaConsumers.Verdict: the 50 millisecond pauses of the waiting loop are left out, and the temporary files.
- StrategyGraphs.StrategyGraph.AddSuccessor: that edges must not be parallel, and may not lead to the root, is
  checked by the editor; what is modelled is an edge to a new vertex.
- Removal of the root vertex, which the editor does not offer.
- Branching.Brancher.Run: whether a constraint is decided by its form is a parameter; the detection of branching loops
  is left out.
- Parsing and writing of strategy files, the editor's windows, drawing and mouse handling, benchmarking and the
  command line.
