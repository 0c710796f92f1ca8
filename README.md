# Coroutines, modelled in Dafny

A model of the core of Depra Coroutines, a single-threaded coroutine runner for
.NET. A *routine* drives a stack of `IEnumerator`s one `MoveNext` at a time. A
*processor* keeps a pending list and an active list of workers and pumps every
active worker once per `Tick`. Static *combinators* drive private routines to
their end: `SyncWait`, `SyncWaitGet<T>`, the typed generator `Wrap<T>` and the
generator `MakeParallelGroup`. A `CoroutineException` carries an *object
trace*, the owner types of the enumerators involved in a fault, and a message
built from it.

The library exists in two near-duplicate lineages, and both are modelled:

- the newer one: `AsyncRoutine`, its static helpers, the `AsyncProcessor`
  under `Async/`, and `Exceptions/CoroutineException`;
- the older one: `Coroutine`, `CoroutineUtils`, the `AsyncProcessor` under
  `Application/`, and `Domain/Exceptions/CoroutineException`.

The two differ in the pump's handling of a plain exception whose object trace
is empty, and in the exception `Wrap<T>` throws for a wrongly typed return
value. `RoutineSpec.Lineage` names the lineage wherever a definition is shared.

How the program's objects become Dafny:

- **Enumerators.** An enumerator is an entry of an `Arena`, addressed by its
  id, so that a routine can re-read `Current` of the object it has just
  advanced. It runs a finite script of `Yield(value)` and `Throw(error)`
  steps. `Current` keeps the last yielded value once the script is
  exhausted. A value is `Null`, an ordinary object of a runtime type, or
  another enumerator.
- **Owners.** The owner that the library finds by reflection on
  compiler-generated fields is the `owner` field of each producer.
- **Routines.** `AsyncRoutine` and `Coroutine` are classes with the library's
  three fields. Each `Pump` is proved against one function, `PumpSpec`.
- **Processors.** Each processor is a class with a pending sequence and an
  active sequence of `CoroutineInfo` objects. The active `LinkedList` walk is
  an index that stays put when the node under it is unlinked.
- **Combinators.** These are methods with `while` loops over fresh routines,
  proved against the functions `Drive`, `WrapSpec` and `GroupSpec`.
- **Generators.** `Wrap<T>` and `MakeParallelGroup` are enumerated to their
  end. `Wrap<T>` gives back the elements it yields, and the group gives back
  the number of nulls it yields.
- **Exceptions.** An exception is a value of `CoroutineExceptions.Exn`. A
  method that throws returns `Err(e)`, or `Some(e)` in an `Option`.

The combinators are modelled over arenas whose enumerators never nest each
other in a cycle (`Producers.Wf`), because that is what the termination proof
uses: the potential `RoutineSpec.Potential` counts the steps that are left,
and every pump that returns lowers it. This is a restriction of the proof, not
of the library. A cyclic nesting can still end, and `Wf` also constrains
enumerators that no run reaches; "## Left out" names the runs this excludes.

Four behaviours of the code that the model follows and that are easy to
misread:

- A worker whose pump threw stays in the active list, flagged finished. The
  `catch` at Coroutines/Async/AsyncProcessor.cs:66-70 sets the flag and
  rethrows before the removal at lines 72-75.
- A parallel group yields once after every round, the last one included
  (Coroutines/Async/AsyncRoutine.Static.cs:101,
  Coroutines/Application/CoroutineUtils.cs:112). Members that need one, two and
  three pumps give three yields, not two.
- The first `Tick` after `Process` already pumps the new routine:
  `AddNewWorkers` runs before the sweep (Coroutines/Async/AsyncProcessor.cs:30-37).
- The older `Coroutine` rethrows a plain exception unchanged when the object
  trace is empty (Coroutines/Application/Coroutine.cs:64-70); the newer
  `AsyncRoutine` wraps it in an `UnhandledCoroutineException`
  (Coroutines/Async/AsyncRoutine.cs:72-78).

## Model

| member | source | states |
|---|---|---|
| CoroutineExceptions.NewCoroutineException | Coroutines/Exceptions/CoroutineException.cs:14-17 | A trace exception is a coroutine exception whose `ObjectTrace` is exactly the list given, whose inner exception is the cause, and whose message is the trace message |
| CoroutineExceptions.NewUnhandledCoroutineException | Coroutines/Exceptions/CoroutineException.cs:19-20 | The message-only constructor leaves `ObjectTrace` unset and the message "Unhandled Coroutine Exception" |
| CoroutineExceptions.Exn.ObjectTrace | Coroutines/Domain/Exceptions/CoroutineException.cs:14-17 | The trace is present exactly for an exception built from a trace |
| CoroutineExceptions.Names | Coroutines/Exceptions/CoroutineException.cs:26-34 | One name per trace entry, in trace order, each the entry's short type name |
| CoroutineExceptions.TraceMessage | Coroutines/Exceptions/CoroutineException.cs:22-39 | The message starts with "Coroutine Object Trace: " and ends with a line terminator; an empty trace gives the prefix and the terminator alone |
| CoroutineExceptions.CreateMessage | Coroutines/Domain/Exceptions/CoroutineException.cs:19-36 | The builder loop, the `AppendLine` and the prefix produce exactly the trace message |
| CoroutineExceptions.BuilderTextIsJoin | Coroutines/Exceptions/CoroutineException.cs:26-34 | With non-empty names, the text the builder accumulates is the names in order joined by " -> ", and it is non-empty once one name is in |
| CoroutineExceptions.JoinLength | Coroutines/Exceptions/CoroutineException.cs:26-34 | The join has exactly one separator fewer than there are names: its length is the names' total plus four per gap |
| CoroutineExceptions.JoinSnoc | Coroutines/Domain/Exceptions/CoroutineException.cs:23-31 | Appending a name to a non-empty list adds one separator and that name at the end of the join |
| CoroutineExceptions.AppendName | Coroutines/Exceptions/CoroutineException.cs:28-33 | One turn of the loop keeps the builder's text as its start and ends with the name; the separator goes between them exactly when the builder already held text |
| CoroutineExceptions.BuilderText | Coroutines/Exceptions/CoroutineException.cs:24-34 | The builder's text after the loop is empty exactly when every name is empty |
| Producers.Advance | Coroutines/Async/AsyncRoutine.cs:60 | `MoveNext` consumes one step: it returns true with the yielded value as `Current`, returns false on an exhausted enumerator without changing it, or throws and leaves the enumerator exhausted with `Current` as it was |
| Producers.Arena.MoveNext | Coroutines/Application/Coroutine.cs:52 | Only the advanced enumerator changes, as `Advance` says |
| Producers.AdvanceKeepsClosed | Coroutines/Async/AsyncRoutine.cs:60 | Advancing an enumerator never makes `Current` refer to an enumerator outside the arena |
| Producers.AdvanceKeepsWf | Coroutines/Async/AsyncRoutine.cs:60 | Advancing an enumerator keeps the arena acyclic, with every `Current` a value its script yielded |
| Producers.CurrentAbove | Coroutines/Async/AsyncRoutine.cs:88-91 | In an acyclic arena an enumerator's `Current`, when it is an enumerator, has a higher id, so the push order is well-founded |
| Producers.RemBelowFull | Coroutines/Async/AsyncRoutine.cs:54-98 | An enumerator in any reachable state has no more steps left than it had before its first step |
| Producers.AdvanceYieldRem | Coroutines/Async/AsyncRoutine.cs:60-91 | A `MoveNext` that returns true lowers the enumerator's cost by one plus the cost of the value it yields |
| Producers.ExhaustedRem | Coroutines/Async/AsyncRoutine.cs:83-91 | An exhausted enumerator costs exactly its final false plus the re-push of its `Current` |
| ObjectTraces.Owners | Coroutines/Async/AsyncRoutine.cs:111-133 | The owner of each enumerator, in enumeration order |
| ObjectTraces.Reverse | Coroutines/Async/AsyncRoutine.cs:142 | The in-place `Reverse`: the same length, element `i` taken from the mirrored position |
| ObjectTraces.GenerateObjectTrace | Coroutines/Async/AsyncRoutine.cs:107-144 | The `foreach` that skips owner-less entries and collapses adjacent repeats, followed by the reversal, yields the trace function `ObjectTraceOf` |
| ObjectTraces.Collapse | Coroutines/Async/AsyncRoutine.cs:109-140 | The list the loop builds is never longer than the enumerators, and the last enumerator's owner, when it has one, ends it |
| ObjectTraces.ObjectTraceOf | Coroutines/Async/AsyncRoutine.cs:107-144 | The trace has no more entries than there are enumerators, and each entry is the owner of one of them |
| ObjectTraces.CollapseEmpty | Coroutines/Application/Coroutine.cs:97-124 | The collapsed owner list is empty exactly when no enumerator has an owner |
| ObjectTraces.CollapseShape | Coroutines/Application/Coroutine.cs:120-124 | The collapsed list has no two equal neighbours, and each entry is the owner of some enumerator |
| ObjectTraces.ObjectTraceShape | Coroutines/Application/Coroutine.cs:93-129 | The trace is empty exactly when no enumerator has an owner; it has no equal neighbours; every entry is some enumerator's owner; the owner of the last enumerator listed (the bottom of the stack) comes first |
| ObjectTraces.CollapseSkipsOwnerless | Coroutines/Async/AsyncRoutine.cs:117-133 | Any run of enumerators without an owner, after any prefix, adds nothing to the collapsed list |
| ObjectTraces.CollapseRepeatAcrossGap | Coroutines/Async/AsyncRoutine.cs:129-139 | An owner that recurs with only owner-less enumerators between the two occurrences is listed once: the gap does not break the collapse |
| RoutineSpec.Initial | Coroutines/Async/AsyncRoutine.cs:28-33 | A new routine has exactly the given enumerator on its stack, nothing finished, a null return value, and is not done |
| RoutineSpec.PumpSpec | Coroutines/Async/AsyncRoutine.cs:49-99 | A pump keeps the arena's size and scripts, and a pump that returns leaves the routine within the arena |
| RoutineSpec.PumpProperties | Coroutines/Async/AsyncRoutine.cs:49-98 | A done routine, or one holding a return value, fails the assertion and changes nothing. A pump advances only the top enumerator. It returns true exactly when the routine is not done afterwards. The stack loses at most one entry from the top and gains at most one. The finished list grows only by the popped, exhausted enumerator. The return value is set, to `Current` of the enumerator just advanced, exactly when the stack empties |
| RoutineSpec.FaultOutcome | Coroutines/Async/AsyncRoutine.cs:62-81 | A `MoveNext` that throws leaves the routine unchanged. With no owner on any enumerator, a coroutine exception passes through, and a plain one is wrapped as Unhandled (newer lineage) or passes (older lineage). Otherwise the trace is non-empty with no equal neighbours. A plain exception becomes a trace exception over it, and a trace exception gets this trace prepended and keeps its inner exception. An Unhandled exception, whose trace is null, makes the concatenation throw `ArgumentNullException` |
| RoutineSpec.PotentialFrame | Coroutines/Async/AsyncRoutine.cs:60 | A stack's potential depends only on the enumerators on it |
| RoutineSpec.PotentialPush | Coroutines/Async/AsyncRoutine.cs:88-91 | Pushing an enumerator adds at most its full cost to the potential |
| RoutineSpec.YieldDecreases | Coroutines/Async/AsyncRoutine.cs:60-91 | A `MoveNext` that returns true, followed by the push of a nested enumerator, lowers the potential |
| RoutineSpec.ExhaustedDecreases | Coroutines/Async/AsyncRoutine.cs:83-91 | A pop, followed by the re-push of the exhausted enumerator's `Current`, lowers the potential |
| RoutineSpec.PumpDecreases | Coroutines/Async/AsyncRoutine.cs:49-98 | Every pump that returns leaves an acyclic arena and a lower potential, so `while (Pump())` ends |
| RoutineSpec.Drive | Coroutines/Async/AsyncRoutine.Static.cs:44 | Pumping until false or a throw: a run without an exception ends with the routine done and a non-enumerator return value; a run that throws leaves the routine not done, with a null return value |
| AsyncRoutines.AsyncRoutine.constructor | Coroutines/Async/AsyncRoutine.cs:28-33 | The new routine's state is `Initial` on the enumerator |
| AsyncRoutines.AsyncRoutine.ReturnValue | Coroutines/Async/AsyncRoutine.cs:35-42 | The stored value, available exactly when the stack is empty; read earlier it fails the assertion |
| AsyncRoutines.AsyncRoutine.IsDone | Coroutines/Async/AsyncRoutine.cs:44 | Done exactly when the stack is empty |
| AsyncRoutines.AsyncRoutine.Pump | Coroutines/Async/AsyncRoutine.cs:49-99 | The pump does to the arena and the routine what `PumpSpec` says for the newer lineage; a throw leaves the routine's state as it was |
| AsyncRoutines.AsyncRoutine.Stop | Coroutines/Async/AsyncRoutine.cs:101-104 | The stack is cleared, so the routine is done; the finished list and the return value stay |
| LegacyCoroutines.Coroutine.constructor | Coroutines/Application/Coroutine.cs:24-28 | The new coroutine's state is `Initial` on the enumerator |
| LegacyCoroutines.Coroutine.ReturnValue | Coroutines/Application/Coroutine.cs:30-37 | The stored value, available exactly when the stack is empty; read earlier it fails the assertion |
| LegacyCoroutines.Coroutine.IsDone | Coroutines/Application/Coroutine.cs:39 | Done exactly when the stack is empty |
| LegacyCoroutines.Coroutine.Pump | Coroutines/Application/Coroutine.cs:41-91 | The pump does what `PumpSpec` says for the older lineage, which rethrows a plain exception with an empty trace unchanged |
| Sweeps.SweepSpec | Coroutines/Async/AsyncProcessor.cs:52-79 | Each routine is pumped once, in list order, until the first throw. The sweep records the states pumped before that point and the index and exception of the throw |
| Sweeps.Behind | Coroutines/Async/AsyncRoutine.Static.cs:91-94 | The sweep of the rest of a list, shifted behind the routines already pumped: the fault index moves by their number |
| Sweeps.SweepFromPumped | Coroutines/Async/AsyncProcessor.cs:58-64 | From routine k on, a pump that returns gives its new state followed by the sweep from k + 1 over the entries it left |
| Sweeps.SweepFromThrew | Coroutines/Async/AsyncProcessor.cs:66-70 | From routine k on, a pump that throws ends the sweep there with that exception |
| Sweeps.SweepDoneHead | Coroutines/Async/AsyncRoutine.cs:51-52 | A sweep whose first routine is done fails that routine's assertion at index 0 and changes nothing |
| Sweeps.SweepKeeps | Coroutines/Async/AsyncProcessor.cs:52-79 | A sweep leaves every script as it was, and every pumped routine within the arena |
| Sweeps.Keep | Coroutines/Async/AsyncProcessor.cs:72-75 | The items whose routine is not done, in their order; never more than the list |
| Sweeps.KeepExtend | Coroutines/Async/AsyncProcessor.cs:72-75 | One more visited node: the kept list grows by it exactly when its routine is not done |
| Sweeps.KeepNext | Coroutines/Async/AsyncRoutine.Static.cs:96-99 | The items kept from the first i + 1: those kept from the first i, then item i exactly when its routine is not done |
| Sweeps.KeepMembers | Coroutines/Async/AsyncProcessor.cs:72-75 | An item is kept exactly when its routine is not done: each such item is in the kept list, and each kept item is such an item |
| Sweeps.KeepUnique | Coroutines/Application/CoroutineUtils.cs:107-110 | Keeping items of a list without repeats gives a list without repeats, of items of the list |
| Sweeps.Live | Coroutines/Async/AsyncRoutine.Static.cs:96-99 | None of the routines left after a round is done |
| Sweeps.PotentialMono | Coroutines/Async/AsyncRoutine.Static.cs:91-94 | Over an arena where no enumerator costs more, no stack costs more |
| Sweeps.PumpNoCostlier | Coroutines/Async/AsyncRoutine.Static.cs:93 | A pump that returns makes no enumerator costlier, so other routines of the round are not set back |
| Sweeps.AdvanceNoCostlier | Coroutines/Async/AsyncRoutine.cs:60 | `MoveNext` on one enumerator that does not throw leaves the arena acyclic with the same scripts, and leaves no enumerator with more work to do |
| Sweeps.TotalPotentialMono | Coroutines/Async/AsyncRoutine.Static.cs:91-94 | Over an arena where no enumerator costs more, a list of routines costs no more |
| Sweeps.TotalPotentialLive | Coroutines/Async/AsyncRoutine.Static.cs:96-99 | Done routines cost nothing, so dropping them keeps the total |
| Sweeps.RunnableAfter | Coroutines/Async/AsyncRoutine.Static.cs:91-94 | Routines that may be pumped over an arena may still be pumped after another routine's pump |
| Sweeps.SweepFirst | Coroutines/Async/AsyncProcessor.cs:58-69 | A sweep without a throw is the first routine's pump followed by a sweep of the rest without a throw |
| Sweeps.LowersCons | Coroutines/Async/AsyncRoutine.Static.cs:91-94 | A first pump that lowers its routine, followed by a rest that lowers by one per routine, lowers the whole list by one per routine |
| Sweeps.SweepLowersStep | Coroutines/Async/AsyncRoutine.Static.cs:91-94 | The inductive step of `SweepDecreases`, over the first routine and the rest |
| Sweeps.SweepDecreases | Coroutines/Async/AsyncRoutine.Static.cs:89-99 | A round without a throw leaves every routine done or pumpable again and lowers the total potential by at least one per listed routine, so the group ends |
| Sweeps.GroupSpec | Coroutines/Async/AsyncRoutine.Static.cs:89-102 | No routines give no rounds, no exception and an unchanged arena; a group of routines that does not throw completes at least one round |
| Sweeps.LiveRunnable | Coroutines/Async/AsyncRoutine.Static.cs:96-99 | Every routine left after the removal of the done ones may be pumped again, so the group's `Pump` assertion never fires |
| Sweeps.WfAfterFault | Coroutines/Async/AsyncRoutine.Static.cs:93 | A round that throws still leaves an acyclic arena |
| Walks.Remaining | Coroutines/Async/AsyncProcessor.cs:52-79 | The active list after a sweep is no longer than before. A worker stays exactly when the sweep did not leave its routine done: a pumped worker that is not done, the worker whose pump threw, and every worker after it |
| Walks.RemainingMembers | Coroutines/Application/AsyncProcessor.cs:53-67 | Each worker not left done stays listed, and each listed worker is one not left done, whether or not a pump threw |
| Walks.FinishedAfter | Coroutines/Async/AsyncProcessor.cs:61-70 | A pumped worker is flagged exactly when its routine is done, the worker whose pump threw is flagged, and a worker the sweep never reached keeps its flag |
| Walks.SweptStart | Coroutines/Async/AsyncProcessor.cs:56 | A walk from the head has the whole sweep before it |
| Walks.SweptPumped | Coroutines/Async/AsyncProcessor.cs:63-64 | A pump that returns moves the walk on by the routine's new state |
| Walks.SweptThrew | Coroutines/Async/AsyncProcessor.cs:66-70 | A pump that throws ends the sweep of the whole list at that worker |
| Walks.SweptAll | Coroutines/Async/AsyncProcessor.cs:56-79 | A walk past the last worker has swept the whole list without a throw |
| Walks.ListedStart | Coroutines/Application/AsyncProcessor.cs:46 | Before the walk, the active list is all unvisited |
| Walks.ListedAt | Coroutines/Application/AsyncProcessor.cs:50-51 | The node under the walk holds the next worker to visit |
| Walks.ListedDrop | Coroutines/Application/AsyncProcessor.cs:64-69 | Unlinking a done worker's node: the walk stays at the same position, and no other node is skipped |
| Walks.ListedKeep | Coroutines/Application/AsyncProcessor.cs:64-69 | A worker that is not done stays linked, and the walk moves past it |
| Walks.ListedAll | Coroutines/Application/AsyncProcessor.cs:48-70 | A list walked to its end holds exactly the workers kept |
| Walks.ListedSplit | Coroutines/Application/AsyncProcessor.cs:58-62 | A walk stopped part way leaves the workers kept before it, then the rest as they were |
| Combinators.Cast | Coroutines/Async/AsyncRoutine.Static.cs:70 | The cast `(T) value` succeeds exactly for null or a `T` and then returns the value unchanged; otherwise it is an invalid cast |
| Combinators.WrongTypeMessage | Coroutines/Application/CoroutineUtils.cs:30-31 | The assertion message opens with the fixed lead ending in "Expected '", the expected name follows it at once, and the found name, quoted, ends it |
| Combinators.WrongType | Coroutines/Async/AsyncRoutine.Static.cs:26-32 | The wrong-type exception is never a coroutine exception. It is an `UnexpectedTypeFromCoroutine` naming the expected and the found type exactly in the newer lineage, and an `AssertException` with `WrongTypeMessage` of the two names in the older |
| Combinators.RunOf | Coroutines/Async/AsyncRoutine.Static.cs:40-45 | A run keeps the arena's size and scripts. A run without an exception ends with an empty stack and a return value that is no enumerator, and the runner among the finished enumerators |
| Combinators.PumpRooted | Coroutines/Async/AsyncRoutine.cs:83-91 | A pump changes the bottom of the stack only by popping it into the finished list, so the runner stays at the bottom or finished |
| Combinators.DriveRooted | Coroutines/Application/CoroutineUtils.cs:54 | Pumping until false keeps the runner at the bottom or finished, so a run without an exception has finished it |
| Combinators.ParallelGroup | Coroutines/Async/AsyncRoutine.Static.cs:85-103 | No runners give no rounds, no exception and an unchanged arena; a group of runners without an exception yields at least once; the scripts stay as they were |
| Combinators.WrapSpec | Coroutines/Application/CoroutineUtils.cs:17-36 | Every element `Wrap<T>` yields is null or a `T`. An enumeration that ends with an exception yielded only nulls, and one without an exception yields at least one element, only the last of which can be non-null |
| Combinators.Defaults | Coroutines/Async/AsyncRoutine.Static.cs:21-24 | n yields of `default`, all null |
| Combinators.DefaultsMore | Coroutines/Application/CoroutineUtils.cs:21-24 | One more pass of the loop yields one more null |
| Combinators.InitialRunnable | Coroutines/Async/AsyncRoutine.Static.cs:42 | A new routine on an enumerator of an acyclic arena may be pumped |
| Combinators.Initials | Coroutines/Async/AsyncRoutine.Static.cs:87 | A new routine on each runner, in order |
| Combinators.InitialsRunnable | Coroutines/Application/CoroutineUtils.cs:98 | Every new routine of a group may be pumped |
| Combinators.WrapYields | Coroutines/Async/AsyncRoutine.Static.cs:17-35 | `Wrap<T>` yields one null per pump that returned true. After that, one last element: the return value, when it is null or a `T`. The wrong-type exception, naming both types, is thrown instead when the value is any other object; a pump's exception ends the enumeration |
| Combinators.DriveThrew | Coroutines/Async/AsyncRoutine.Static.cs:44 | A pump that throws ends the run with that exception and the routine as it was |
| Combinators.DriveEnds | Coroutines/Async/AsyncRoutine.Static.cs:44 | A pump that returns false ends the run without exception |
| Combinators.DriveMore | Coroutines/Async/AsyncRoutine.Static.cs:44 | A pump that returns true counts one pump, and the run goes on from the new state |
| Combinators.GroupThrew | Coroutines/Async/AsyncRoutine.Static.cs:89-94 | A round that throws ends the group with that exception and no further rounds |
| Combinators.GroupNext | Coroutines/Async/AsyncRoutine.Static.cs:89-101 | A round without a throw counts one yield, and the group goes on with the routines not done |
| Combinators.GroupLive | Coroutines/Application/CoroutineUtils.cs:100-112 | The routines left after a round without a throw may all be pumped again, with less total potential |
| Combinators.GroupingStart | Coroutines/Application/CoroutineUtils.cs:98 | The group starts from one new routine per runner and no rounds |
| Combinators.GroupingThrew | Coroutines/Application/CoroutineUtils.cs:102-105 | A round that throws ends the group with that exception after the rounds done so far |
| Combinators.GroupingNext | Coroutines/Application/CoroutineUtils.cs:100-112 | A round without a throw continues the group with the routines not done, one round more and less potential |
| Combinators.GroupingEnds | Coroutines/Application/CoroutineUtils.cs:100 | An empty list ends the group without exception after the rounds done so far |
| Combinators.GroupSingleThrew | Coroutines/Async/AsyncRoutine.Static.cs:89-94 | For one routine, a first pump that throws gives a group with no rounds and that exception, as its run has |
| Combinators.SweepSingle | Coroutines/Async/AsyncRoutine.Static.cs:91-94 | A round over one routine whose pump returns is that pump |
| Combinators.GroupSingleEnds | Coroutines/Async/AsyncRoutine.Static.cs:89-101 | For one routine, a first pump that returns false gives exactly one round |
| Combinators.GroupSingleMore | Coroutines/Async/AsyncRoutine.Static.cs:89-101 | For one routine, a first pump that returns true gives one round more than the group from the new state |
| Combinators.GroupSingle | Coroutines/Async/AsyncRoutine.Static.cs:85-103 | A group of one routine yields once per pump: one round for each pump that returned true, plus the last round if no pump threw; it throws what the routine's run throws |
| Combinators.GroupRoundsBound | Coroutines/Application/CoroutineUtils.cs:96-114 | A group completes no more rounds than its routines have steps left |
| IndependentGroups.PumpAgrees | Coroutines/Async/AsyncRoutine.cs:54-91 | Over two arenas that agree on a routine's stacked and finished enumerators, a pump throws the same exception or returns the same state and result, and advances the top enumerator alike |
| IndependentGroups.PumpFrame | Coroutines/Async/AsyncRoutine.cs:54-91 | A pump changes no enumerator outside the routine's colour, and over any arena that agrees on that colour it has the same outcome and leaves the colour the same |
| IndependentGroups.PumpKeepsHue | Coroutines/Async/AsyncRoutine.cs:83-91 | A pump keeps every enumerator within its colour, and the routine pushes and finishes only enumerators of its own colour |
| IndependentGroups.DriveFrame | Coroutines/Async/AsyncRoutine.Static.cs:44 | A run pumped to its end makes as many true pumps and throws the same over any arena that agrees on its colour |
| IndependentGroups.OthersAfterFirst | Coroutines/Async/AsyncRoutine.Static.cs:91-94 | After the first routine's pump, every other routine of a different colour pumps to the same state as it would have before it |
| IndependentGroups.SweepTouches | Coroutines/Async/AsyncRoutine.Static.cs:91-94 | A round changes no enumerator of a colour none of its routines has |
| IndependentGroups.SweepApart | Coroutines/Async/AsyncRoutine.Static.cs:91-94 | A round over routines of distinct colours whose single pumps do not throw does not throw, and leaves each routine, and its colour of the arena, as its own pump on the arena before the round would |
| IndependentGroups.KeepPairs | Coroutines/Async/AsyncRoutine.Static.cs:96-99 | Dropping the done routines from two lists that correspond position by position keeps them corresponding |
| IndependentGroups.RoundStep | Coroutines/Async/AsyncRoutine.Static.cs:89-101 | After a round, a routine is done and its run alone had no true pump, or it has one true pump fewer to go and the same outcome over the round's arena |
| IndependentGroups.LiveApart | Coroutines/Async/AsyncRoutine.Static.cs:96-99 | The routines left after a round keep their colours, and still no two share one |
| IndependentGroups.FirstPumps | Coroutines/Async/AsyncRoutine.Static.cs:93 | Routines that do not throw when run alone do not throw on their first pump |
| IndependentGroups.RoundLowers | Coroutines/Async/AsyncRoutine.Static.cs:89-99 | A round without an exception leaves routines that may be pumped again, with less total potential |
| IndependentGroups.RoundUnfolds | Coroutines/Async/AsyncRoutine.Static.cs:89-102 | A round without an exception is one yield followed by the group of the routines left |
| IndependentGroups.RoundFacts | Coroutines/Async/AsyncRoutine.Static.cs:89-102 | For routines of distinct colours that do not throw, a round does not throw, keeps the colours apart, lowers the potential and is one yield followed by the group of the routines left |
| IndependentGroups.TruePumps | Coroutines/Async/AsyncRoutine.Static.cs:44 | The true pumps of each routine run alone: none for a routine already done |
| IndependentGroups.RoundEach | Coroutines/Async/AsyncRoutine.Static.cs:89-99 | After a round, each routine left has one true pump fewer to go and still does not throw; each routine done had none to go |
| IndependentGroups.LiveNoErrors | Coroutines/Async/AsyncRoutine.Static.cs:96-99 | The routines left after a round do not throw when run alone, if the routines before it did not |
| IndependentGroups.MostRounds | Coroutines/Async/AsyncRoutine.Static.cs:89-102 | The rounds of routines needing `pumps[i] + 1` pumps each: more than every `pumps[i]`, equal to one of them plus one, and none for no routine |
| IndependentGroups.MostRoundsSnoc | Coroutines/Async/AsyncRoutine.Static.cs:87 | One routine more raises the most rounds to its own count exactly when that is larger |
| IndependentGroups.KeepTruePumps | Coroutines/Async/AsyncRoutine.Static.cs:96-99 | The true pumps of the routines left are those of all routines, with the done ones dropped |
| IndependentGroups.MostRoundsKeep | Coroutines/Async/AsyncRoutine.Static.cs:89-102 | A round that takes one pump from every routine leaves one round fewer to go |
| IndependentGroups.GroupApart | Coroutines/Async/AsyncRoutine.Static.cs:89-102 | Routines of distinct colours that do not throw when run alone form a group without an exception, whose yields are one more than the most true pumps of any member |
| IndependentGroups.RunPumps | Coroutines/Application/CoroutineUtils.cs:54 | The true pumps of a new routine on each runner, run alone |
| IndependentGroups.ParallelGroupRounds | Coroutines/Application/CoroutineUtils.cs:96-114 | `MakeParallelGroup` over runners of pairwise different colours, none of which throws when run alone, throws nothing and yields as many times as its longest member pumps |
| IndependentGroups.PumpPlain | Coroutines/Async/AsyncRoutine.cs:54-98 | A pump of a routine on an enumerator that yields only nulls advances it by one step while steps remain, and returns false once it is exhausted |
| IndependentGroups.DrivePlain | Coroutines/Async/AsyncRoutine.Static.cs:44 | A routine on an enumerator that yields only nulls makes one true pump per step left and does not throw |
| IndependentGroups.RunOfPlain | Coroutines/Application/CoroutineUtils.cs:54 | A new routine on an enumerator that yields n nulls makes n true pumps and does not throw |
| IndependentGroups.OneTwoThreeRounds | Coroutines/Async/AsyncRoutine.Static.cs:85-103 | A group of enumerators that need one, two and three pumps yields three times, once after each round, and throws nothing |
| IndependentGroups.OneTwoThreeWf | Coroutines/Async/AsyncRoutine.Static.cs:87 | Three enumerators that yield only nulls form an acyclic arena in which each may have its own colour |
| IndependentGroups.OneTwoThreeRuns | Coroutines/Application/CoroutineUtils.cs:54 | Run alone, routines on the three enumerators make no, one and two true pumps, and none throws |
| IndependentGroups.OwnColours | Coroutines/Application/CoroutineUtils.cs:96-114 | With each enumerator its own colour, the three-member group throws nothing and yields three times |
| AsyncStatics.DrivePump | Coroutines/Async/AsyncRoutine.Static.cs:44 | One pump of a run: it ends the run with the current state, or leaves the rest of the run with one more pump counted and less potential |
| AsyncStatics.PumpToEnd | Coroutines/Async/AsyncRoutine.Static.cs:44 | `while (coroutine.Pump()) { }` carries out `Drive`: the same arena, final state, count of true pumps and exception |
| AsyncStatics.SyncWait | Coroutines/Async/AsyncRoutine.Static.cs:40-45 | Returns normally exactly when the private routine ran to its end, and leaves the arena as the run does |
| AsyncStatics.SyncWaitGet | Coroutines/Async/AsyncRoutine.Static.cs:64-80 | The done routine's return value, cast to `T`; a pump's exception otherwise |
| AsyncStatics.Wrap | Coroutines/Async/AsyncRoutine.Static.cs:17-35 | The elements and exception of the loop are exactly `WrapSpec` for the newer lineage |
| AsyncStatics.States | Coroutines/Async/AsyncRoutine.Static.cs:87 | The state of each listed routine, in order |
| AsyncStatics.PumpAt | Coroutines/Async/AsyncRoutine.Static.cs:93 | One pump of the first `foreach` either moves the round on by that routine's new state or ends it with the throw |
| AsyncStatics.PumpRound | Coroutines/Async/AsyncRoutine.Static.cs:91-94 | The first `foreach` pumps every listed routine once, in order, as `SweepSpec` says; no throw leaves each routine in its swept state |
| AsyncStatics.RemoveDone | Coroutines/Async/AsyncRoutine.Static.cs:96-99 | The list without the done routines, the others in order; their states are `Live` of the round's |
| AsyncStatics.NewRoutines | Coroutines/Async/AsyncRoutine.Static.cs:87 | A fresh, distinct routine per runner, each in its initial state |
| AsyncStatics.MakeParallelGroup | Coroutines/Async/AsyncRoutine.Static.cs:85-103 | The rounds completed and the exception let out are exactly `GroupSpec` over the new routines |
| CoroutineUtils.DrivePump | Coroutines/Application/CoroutineUtils.cs:54 | One pump of a run, as for the newer lineage |
| CoroutineUtils.PumpToEnd | Coroutines/Application/CoroutineUtils.cs:54 | `while (coroutine.Pump()) { }` carries out `Drive` for the older lineage |
| CoroutineUtils.SyncWait | Coroutines/Application/CoroutineUtils.cs:51-56 | Returns normally exactly when the private routine ran to its end |
| CoroutineUtils.SyncWaitGet | Coroutines/Application/CoroutineUtils.cs:75-91 | The done routine's return value, cast to `T`; a pump's exception otherwise |
| CoroutineUtils.Wrap | Coroutines/Application/CoroutineUtils.cs:17-36 | The elements and exception of the loop are exactly `WrapSpec` for the older lineage, whose wrong-type exception is an `AssertException` |
| CoroutineUtils.States | Coroutines/Application/CoroutineUtils.cs:98 | The state of each listed routine, in order |
| CoroutineUtils.PumpAt | Coroutines/Application/CoroutineUtils.cs:104 | One pump of the first `foreach`, as for the newer lineage |
| CoroutineUtils.PumpRound | Coroutines/Application/CoroutineUtils.cs:102-105 | The first `foreach` pumps every listed routine once, in order, as `SweepSpec` says |
| CoroutineUtils.RemoveDone | Coroutines/Application/CoroutineUtils.cs:107-110 | The list without the done routines, the others in order |
| CoroutineUtils.NewRoutines | Coroutines/Application/CoroutineUtils.cs:98 | A fresh, distinct routine per runner, each in its initial state |
| CoroutineUtils.MakeParallelGroup | Coroutines/Application/CoroutineUtils.cs:96-114 | The rounds completed and the exception let out are exactly `GroupSpec` over the new routines |
| AsyncProcessors.CoroutineInfo.constructor | Coroutines/Async/AsyncProcessor.cs:108-112 | A worker holds its routine and is not flagged finished |
| AsyncProcessors.States | Coroutines/Async/AsyncProcessor.cs:56-64 | The state of each worker's routine, in list order |
| AsyncProcessors.Flags | Coroutines/Async/AsyncProcessor.cs:64 | The `IsFinished` flag of each worker, in list order |
| AsyncProcessors.KeepDistinct | Coroutines/Async/AsyncProcessor.cs:72-75 | Removing workers keeps the routines distinct, and removes rather than adds |
| AsyncProcessors.Find | Coroutines/Async/AsyncProcessor.cs:47 | `FirstOrDefault`: the first worker holding the routine, or none when no worker holds it |
| AsyncProcessors.Without | Coroutines/Async/AsyncProcessor.cs:48-49 | `Remove` of an item the list does not hold leaves the list unchanged |
| AsyncProcessors.WithoutFirst | Coroutines/Async/AsyncProcessor.cs:48 | `Remove` drops the first occurrence and keeps the rest in order |
| AsyncProcessors.Unlisted | Coroutines/Async/AsyncProcessor.cs:47-48 | Removing the worker found: unchanged when none is found, one shorter otherwise |
| AsyncProcessors.DistinctDrop | Coroutines/Async/AsyncProcessor.cs:48 | Dropping one worker keeps the routines distinct, and leaves exactly the workers holding other routines |
| AsyncProcessors.UnlistedActive | Coroutines/Async/AsyncProcessor.cs:44-50 | A routine found in the active list is not pending. Removing its worker from both lists drops it from the active one only, and no worker left holds it |
| AsyncProcessors.UnlistedPending | Coroutines/Async/AsyncProcessor.cs:44-50 | A routine held only in the pending list is held by no worker once dropped there |
| AsyncProcessors.UnlistedNowhere | Coroutines/Async/AsyncProcessor.cs:47 | A routine found in neither list is held by no worker |
| AsyncProcessors.NotPending | Coroutines/Async/AsyncProcessor.cs:49 | A routine held in the active list is held by no pending worker |
| AsyncProcessors.RemainingDistinct | Coroutines/Async/AsyncProcessor.cs:52-79 | The active list a sweep leaves holds no routine twice |
| AsyncProcessors.Advanced | Coroutines/Async/AsyncProcessor.cs:52-79 | After a sweep the active list holds no more workers than before, all of them earlier workers. Without an exception, a worker stays listed exactly when its routine is done no more |
| AsyncProcessors.AdvancedEmpty | Coroutines/Async/AsyncProcessor.cs:32-35 | An empty active list: nothing is pumped, nothing changes, nothing is thrown |
| AsyncProcessors.AdvancedDoneHead | Coroutines/Async/AsyncProcessor.cs:61-70 | A first active worker whose routine is done fails the pump's assertion. The worker is flagged finished, every worker stays listed, and no routine changes |
| AsyncProcessors.AdvanceWorker | Coroutines/Async/AsyncProcessor.cs:61-70 | The `try` block pumps one worker as `PumpSpec` says. Its flag becomes whether the routine is done, or true when the pump threw; no other worker changes |
| AsyncProcessors.AsyncProcessor.constructor | Coroutines/Async/AsyncProcessor.cs:20-24 | A new processor has no workers and is not running |
| AsyncProcessors.AsyncProcessor.IsRunning | Coroutines/Async/AsyncProcessor.cs:26 | Running exactly when the active or the pending list is non-empty |
| AsyncProcessors.AsyncProcessor.Process | Coroutines/Async/AsyncProcessor.cs:81-88 | Appends exactly one new, unflagged worker to the end of the pending list and returns its routine unpumped, in its initial state; the processor is then running |
| AsyncProcessors.AsyncProcessor.AddNewWorkers | Coroutines/Async/AsyncProcessor.cs:98-106 | The pending workers join the end of the active list, in order, and the pending list is emptied; no routine or flag changes |
| AsyncProcessors.AsyncProcessor.AdvanceNode | Coroutines/Async/AsyncProcessor.cs:58-78 | One node of the walk: its worker is pumped and flagged, and its node is unlinked when the routine is done. The walk goes on at the node that followed it, or stops at a throw with that worker flagged and nothing else changed |
| AsyncProcessors.AsyncProcessor.Relist | Coroutines/Async/AsyncProcessor.cs:72-77 | The node just pumped is unlinked exactly when its routine is done, and the walk goes on at the node that followed it; the list stays the kept workers before the walk position and the unvisited ones after it |
| AsyncProcessors.AsyncProcessor.WalkEnds | Coroutines/Async/AsyncProcessor.cs:56-79 | A walk that ran past the last node, or stopped at a throw, has carried out the sweep of the list it started with |
| AsyncProcessors.AsyncProcessor.Walk | Coroutines/Async/AsyncProcessor.cs:56-79 | From the head, advances node after node until past the last one or a throw |
| AsyncProcessors.AsyncProcessor.AdvanceFrameAll | Coroutines/Async/AsyncProcessor.cs:52-79 | Every active worker is pumped once, in order, as `SweepSpec` says. A worker whose routine is then done is removed and the rest keep their order. A throw flags that worker, leaves it and the later workers listed and unpumped, and escapes |
| AsyncProcessors.AsyncProcessor.Tick | Coroutines/Async/AsyncProcessor.cs:28-39 | Activates the pending workers in order, so a newly processed routine is pumped on its first `Tick`. An empty active list does nothing more. Otherwise the sweep's outcome follows, and the pending list is empty afterwards |
| AsyncProcessors.AsyncProcessor.Stop | Coroutines/Async/AsyncProcessor.cs:44-50 | As written: the routine is stopped and its worker leaves the active list; a pending worker stays pending |
| AsyncProcessors.AsyncProcessor.StopEverywhere | Coroutines/Async/AsyncProcessor.cs:44-50 | Corrected: the routine is stopped, and afterwards no worker in either list holds it |
| AsyncProcessors.TickStopped | Coroutines/Async/AsyncProcessor.cs:28-70 | A `Tick` over a single stopped worker fails the pump's assertion and leaves the worker active and flagged |
| AsyncProcessors.StopPendingThenTick | Coroutines/Async/AsyncProcessor.cs:44-50 | Process, then Stop, then Tick: the stopped routine is pumped and fails the assertion, the processor keeps running, and the next Tick fails again |
| AsyncProcessors.StopEverywherePendingThenTick | Coroutines/Async/AsyncProcessor.cs:44-50 | With the corrected Stop, the Tick after Process and Stop does nothing, and the processor is not running |
| AsyncProcessors.TickOnce | Coroutines/Async/AsyncProcessor.cs:28-39 | A `Tick` over a single worker whose pump returns pumps it once; the worker stays active exactly when its routine is not done |
| AsyncProcessors.OneYieldTwoTicks | Coroutines.UnitTests/AsyncProcessorTests.cs:66-86 | A routine that yields one null is still running after the first `Tick` and gone after the second, with no exception |
| LegacyProcessors.CoroutineInfo.constructor | Coroutines/Application/AsyncProcessor.cs:103-107 | A worker holds its pump and is not flagged finished |
| LegacyProcessors.States | Coroutines/Application/AsyncProcessor.cs:51-55 | The state of each worker's pump, in list order |
| LegacyProcessors.Flags | Coroutines/Application/AsyncProcessor.cs:56 | The `IsFinished` flag of each worker, in list order |
| LegacyProcessors.KeepDistinct | Coroutines/Application/AsyncProcessor.cs:64-67 | Removing workers keeps the pumps distinct |
| LegacyProcessors.RemainingDistinct | Coroutines/Application/AsyncProcessor.cs:44-71 | The active list a sweep leaves holds no pump twice |
| LegacyProcessors.Advanced | Coroutines/Application/AsyncProcessor.cs:44-71 | After a sweep the active list holds no more workers than before, all of them earlier workers. Without an exception, a worker stays listed exactly when its pump is not done |
| LegacyProcessors.AdvancedEmpty | Coroutines/Application/AsyncProcessor.cs:32-35 | An empty active list: nothing is pumped, nothing changes, nothing is thrown |
| LegacyProcessors.AdvanceWorker | Coroutines/Application/AsyncProcessor.cs:53-62 | The `try` block pumps one worker as `PumpSpec` says for the older lineage. Its flag becomes whether the pump is done, or true when it threw |
| LegacyProcessors.AsyncProcessor.constructor | Coroutines/Application/AsyncProcessor.cs:20-24 | A new processor has no workers and is not running |
| LegacyProcessors.AsyncProcessor.IsRunning | Coroutines/Application/AsyncProcessor.cs:26 | Running exactly when the active or the pending list is non-empty |
| LegacyProcessors.AsyncProcessor.Process | Coroutines/Application/AsyncProcessor.cs:73-83 | Appends exactly one new, unflagged worker to the pending list. Returns its pump unpumped, together with a wait handle on that worker |
| LegacyProcessors.AsyncProcessor.AddNewWorkers | Coroutines/Application/AsyncProcessor.cs:93-101 | The pending workers join the end of the active list, in order, and the pending list is emptied |
| LegacyProcessors.AsyncProcessor.AdvanceNode | Coroutines/Application/AsyncProcessor.cs:50-69 | One node of the walk, as for the newer processor |
| LegacyProcessors.AsyncProcessor.Relist | Coroutines/Application/AsyncProcessor.cs:64-69 | The node just pumped is unlinked exactly when its routine is done, as for the newer processor |
| LegacyProcessors.AsyncProcessor.WalkEnds | Coroutines/Application/AsyncProcessor.cs:46-70 | A walk that ended has carried out the sweep of the list it started with |
| LegacyProcessors.AsyncProcessor.Walk | Coroutines/Application/AsyncProcessor.cs:46-70 | From the head, advances node after node until past the last one or a throw |
| LegacyProcessors.AsyncProcessor.AdvanceFrameAll | Coroutines/Application/AsyncProcessor.cs:44-71 | Every active worker is pumped once, in order. Done ones are removed and the rest keep their order. A throw flags that worker, leaves it listed and escapes |
| LegacyProcessors.AsyncProcessor.Tick | Coroutines/Application/AsyncProcessor.cs:28-39 | Activates the pending workers in order. An empty active list does nothing more; otherwise the sweep's outcome follows. The pending list is empty afterwards |
| LegacyProcessors.WaitUntilFinished.constructor | Coroutines/Application/AsyncProcessor.cs:85 | The handle watches the given worker and has not ended |
| LegacyProcessors.WaitUntilFinished.MoveNext | Coroutines/Application/AsyncProcessor.cs:85-91 | Each step yields while the worker is not flagged finished; the first step that finds it flagged ends the handle for good |

## Left out

- `SyncWaitWithTimeout`, in both lineages: it reads the wall clock and compares floating-point seconds.
- Reflection on the compiler-generated fields that hold an enumerator's creator: the `owner` of each producer takes its place.
- The host facades `AsyncRoutineHost` and `AsyncCoroutineHost`, and the `ICoroutine`, `ICoroutineHost` and `ICoroutineProcessor` interfaces: they only delegate or declare shapes.
- `Process` or `Stop` called from inside a routine pumped during a sweep: the re-entrant `LinkedList` behaviour is not modelled.
- `CoroutinePump` and the two-argument `Coroutine` constructor are not part of this model. The older processor's pump is modelled as an older `Coroutine`, and `Process` returns it together with the `WaitUntilFinished` handle instead of a combined object.
- The private `WaitUntilFinished` of the newer processor is never called and is not modelled.
- The message texts of `Guard`, `TimeoutException` and `UnexpectedTypeFromCoroutine` are not modelled: those exceptions are values carrying their fields. The texts that are modelled are the trace message, "Unhandled Coroutine Exception", the pump's assertion message `RoutineSpec.PumpAssertMessage` and the older `Wrap<T>`'s assertion message `Combinators.WrongTypeMessage`.
- `AppendLine`'s platform line terminator is fixed to a line feed.
- CLR cast rules for value types (`(T)null` when `T` is a value type) are not modelled: every `T` is a reference type, and an instance has exactly its own runtime type, with no subtyping.
- `SyncWait`, `SyncWaitGet`, `Wrap` and `MakeParallelGroup` are modelled only over acyclic arenas of finite enumerators (`Producers.Wf`), because the termination proof needs it; the library has no such check. Runs over an arena with a cycle of nesting are not covered, even those that end: enumerator 0 yields enumerator 1 and then null, enumerator 1 yields enumerator 0, and the run ends after seven pumps. Neither are arenas whose only cycle lies among enumerators no run reaches. The library itself would loop forever on an endless enumerator.
- `Wrap<T>` and `MakeParallelGroup` are enumerated to their end in one call. A consumer that stops early, or interleaves other work between their steps, is not modelled.
- The two `SyncWaitGet<T>` overloads are one method, because they differ only in the static type of the runner.
- AsyncStatics.RemoveDone: builds the list of routines that are not done instead of removing the done ones one by one. The result is the same for a list without repeats, which `NewRoutines` guarantees.
- CoroutineUtils.RemoveDone: the same as `AsyncStatics.RemoveDone`.
- Combinators.GroupSingle: states the count of yields for one routine only; the count for several routines is proved by `IndependentGroups.GroupApart` under the conditions below.
- AsyncStatics.MakeParallelGroup: that the group yields as many times as its longest member pumps is proved (`IndependentGroups.ParallelGroupRounds`) only for members none of which throws when run alone, over a colouring of the whole arena that gives each member its own colour. Not covered: members that share enumerators, whose pumps can change each other's count (only the bound `Combinators.GroupRoundsBound` holds for them); members that throw; and arenas where an enumerator no member reaches yields enumerators of two members, for which no such colouring exists.
- CoroutineUtils.MakeParallelGroup: the same as `AsyncStatics.MakeParallelGroup`.

## Findings

| source | as written | input that shows it | evidently intended | confidence | as-written member | corrected member |
|---|---|---|---|---|---|---|
| Coroutines/Async/AsyncProcessor.cs:44-50 | `Stop` looks for the routine's worker in the active list only, then removes that result from both lists | `Process(p)`, then `Stop` on the returned routine, then `Tick`: the worker is still pending, so `Tick` activates it and pumps a done routine, which fails the assertion; the worker stays active and the processor keeps running | `Stop` also finds and removes a worker that is still pending | not executed | AsyncProcessors.StopPendingThenTick | AsyncProcessors.AsyncProcessor.StopEverywhere |
