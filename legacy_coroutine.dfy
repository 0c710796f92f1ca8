/**
 * `Coroutine`, the older routine. It matches `AsyncRoutine` except that a plain
 * exception with an empty object trace is rethrown unchanged, and it has no
 * `Stop`. Each method is proved against `PumpSpec` with the `Legacy` lineage.
 */
module LegacyCoroutines {
  import opened Wrappers
  import opened CoroutineExceptions
  import opened Producers
  import opened ObjectTraces
  import opened RoutineSpec

  class Coroutine {
    /** The popped enumerators, in pop order. */
    var finished: seq<Id>
    /** The stack of enumerators, top first. */
    var processStack: seq<Id>
    var returnValue: Value

    function State(): RoutineState
      reads this
    {
      RoutineState(processStack, finished, returnValue)
    }

    constructor (enumerator: Id)
      ensures State() == Initial(enumerator)
    {
      finished := [];
      processStack := [enumerator];
      returnValue := Null;
    }

    /** The `ReturnValue` property: the stored value, read only once the routine is done. */
    function ReturnValue(): (r: Result<Value, Exn>)
      reads this
      ensures r.Ok? <==> processStack == []
      ensures r.Ok? ==> r.value == returnValue
      ensures r.Err? ==> r.error == AssertFailed(PumpAssertMessage)
    {
      if processStack != [] then Err(AssertFailed(PumpAssertMessage)) else Ok(returnValue)
    }

    function IsDone(): (done: bool)
      reads this
      ensures done <==> State().IsDone()
    {
      processStack == []
    }

    /** Advances the top enumerator once; `Ok(more)` is the returned boolean, `Err` the exception thrown. */
    method Pump(arena: Arena) returns (r: Result<bool, Exn>)
      requires Closed(arena.entries) && Fits(arena.entries, State())
      modifies this, arena
      ensures match PumpSpec(old(arena.entries), old(State()), Legacy)
              case Threw(error, entries) => r == Err(error) && arena.entries == entries && State() == old(State())
              case Pumped(entries, state, more) => r == Ok(more) && arena.entries == entries && State() == state
    {
      if processStack == [] || returnValue != Null {
        return Err(AssertFailed(PumpAssertMessage));
      }
      var topWorker := processStack[0];
      ghost var e := arena.entries;
      var moved := arena.MoveNext(topWorker);
      match moved {
        case Raised(error) =>
          assert Owners(arena.entries, finished + processStack) == Owners(e, finished + processStack);
          var objectTrace := GenerateObjectTrace(arena, finished + processStack);
          if error.IsCoroutineException() {
            if objectTrace == [] {
              return Err(error);
            }
            match error.ObjectTrace() {
              case None => return Err(ArgumentNull);
              case Some(inner) => return Err(NewCoroutineException(objectTrace + inner, error.InnerException()));
            }
          }
          if objectTrace == [] {
            return Err(error);
          }
          return Err(NewCoroutineException(objectTrace, error));
        case Moved(more) =>
          var isFinished := !more;
          if isFinished {
            finished := finished + [processStack[0]];
            processStack := processStack[1..];
          }
          var current := arena.entries[topWorker].current;
          if current.Enumerator? {
            processStack := [current.id] + processStack;
          }
          if processStack == [] {
            returnValue := current;
          }
          r := Ok(processStack != []);
      }
    }
  }
}
