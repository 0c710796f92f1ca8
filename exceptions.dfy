/**
 * The exceptions a routine raises or lets through, and the message text of a
 * CoroutineException. Both exception namespaces of the library (the newer
 * `Exceptions` and the older `Domain.Exceptions`) build the message with the
 * same loop; it is defined once here.
 */
module CoroutineExceptions {
  import opened Wrappers

  /** A runtime type: an identity (two distinct types may share a short name) and its short `Name`. */
  datatype ClrType = ClrType(id: nat, name: string)

  /** Every exception the model distinguishes. */
  datatype Exn =
    | Failure(code: nat)                               // any exception of user code that is not a CoroutineException
    | Traced(objectTrace: seq<ClrType>, inner: Exn)    // CoroutineException built from an object trace
    | Unhandled(inner: Exn)                            // UnhandledCoroutineException: message-only constructor, no trace
    | AssertFailed(message: string)                    // AssertException
    | UnexpectedType(expected: string, found: string)  // UnexpectedTypeFromCoroutine
    | InvalidCast                                      // the runtime's InvalidCastException, raised by a failing (T) cast
    | ArgumentNull                                     // ArgumentNullException, raised by Enumerable.Concat on a null sequence
  {
    /** `catch (CoroutineException e)` catches both kinds of coroutine exception. */
    predicate IsCoroutineException() {
      Traced? || Unhandled?
    }

    /** The `ObjectTrace` property: the stored list, or null when the message-only constructor was used. */
    function ObjectTrace(): (t: Option<seq<ClrType>>)
      requires IsCoroutineException()
      ensures t.Some? <==> Traced?
    {
      if Traced? then Some(objectTrace) else None
    }

    /** The `InnerException` property of a coroutine exception. */
    function InnerException(): Exn
      requires IsCoroutineException()
    {
      inner
    }

    /** The `Message` property of a coroutine exception. */
    function Message(): string
      requires IsCoroutineException()
    {
      if Traced? then TraceMessage(objectTrace) else UnhandledMessage
    }
  }

  const UnhandledMessage := "Unhandled Coroutine Exception"
  const MessagePrefix := "Coroutine Object Trace: "
  const Separator := " -> "
  /** `StringBuilder.AppendLine` appends the platform's line terminator; the model fixes it to a line feed. */
  const NewLine := "\n"

  /** `new CoroutineException(objTrace, innerException)`. */
  function NewCoroutineException(objTrace: seq<ClrType>, innerException: Exn): (e: Exn)
    ensures e.IsCoroutineException()
    ensures e.ObjectTrace() == Some(objTrace) && e.InnerException() == innerException
    ensures e.Message() == TraceMessage(objTrace)
  {
    Traced(objTrace, innerException)
  }

  /** `new UnhandledCoroutineException(innerException)`: the message-only base constructor leaves the trace null. */
  function NewUnhandledCoroutineException(innerException: Exn): (e: Exn)
    ensures e.IsCoroutineException()
    ensures e.ObjectTrace() == None && e.InnerException() == innerException
    ensures e.Message() == "Unhandled Coroutine Exception"
  {
    Unhandled(innerException)
  }

  function Names(objTrace: seq<ClrType>): (names: seq<string>)
    ensures |names| == |objTrace|
    ensures forall i :: 0 <= i < |objTrace| ==> names[i] == objTrace[i].name
  {
    if objTrace == [] then [] else Names(objTrace[..|objTrace| - 1]) + [objTrace[|objTrace| - 1].name]
  }

  /**
   * One turn of the message loop: the builder's text is kept as it is, the
   * name ends the result, and the separator goes between the two only when the
   * builder already holds text.
   */
  function AppendName(builder: string, name: string): (r: string)
    ensures |r| == |builder| + (if |builder| != 0 then |Separator| else 0) + |name|
    ensures r[..|builder|] == builder
    ensures r[|r| - |name|..] == name
  {
    (if |builder| != 0 then builder + Separator else builder) + name
  }

  /** The builder's text after the loop has appended every name in order; it stays empty exactly while every name is empty. */
  function BuilderText(names: seq<string>): (r: string)
    ensures r == "" <==> forall i :: 0 <= i < |names| ==> names[i] == ""
    decreases |names|
  {
    if names == [] then "" else AppendName(BuilderText(names[..|names| - 1]), names[|names| - 1])
  }

  /** The message of a CoroutineException, as the loop of `CreateMessage` produces it. */
  function TraceMessage(objTrace: seq<ClrType>): (message: string)
    ensures objTrace == [] ==> message == MessagePrefix + NewLine
    ensures |message| >= |MessagePrefix| + |NewLine|
    ensures message[..|MessagePrefix|] == MessagePrefix
    ensures message[|message| - |NewLine|..] == NewLine
  {
    MessagePrefix + BuilderText(Names(objTrace)) + NewLine
  }

  /** `CreateMessage`: appends the type names to a builder, then a line terminator, then prefixes the result. */
  method CreateMessage(objTrace: seq<ClrType>) returns (message: string)
    ensures message == TraceMessage(objTrace)
  {
    var result := "";
    for i := 0 to |objTrace|
      invariant result == BuilderText(Names(objTrace[..i]))
    {
      assert Names(objTrace[..i + 1]) == Names(objTrace[..i]) + [objTrace[i].name] by {
        assert objTrace[..i + 1][..i] == objTrace[..i];
      }
      if |result| != 0 {
        result := result + Separator;
      }
      result := result + objTrace[i].name;
    }
    assert objTrace[..|objTrace|] == objTrace;
    result := result + NewLine;
    message := MessagePrefix + result;
  }

  /** The intended join: names in order with one separator between neighbours. */
  function Join(names: seq<string>): string
    decreases |names|
  {
    if names == [] then ""
    else if |names| == 1 then names[0]
    else names[0] + Separator + Join(names[1..])
  }

  function TotalLength(names: seq<string>): nat
    decreases |names|
  {
    if names == [] then 0 else |names[0]| + TotalLength(names[1..])
  }

  lemma {:induction false} JoinSnoc(names: seq<string>, last: string)
    requires names != []
    ensures Join(names + [last]) == Join(names) + Separator + last
    decreases |names|
  {
    if |names| == 1 {
      assert names + [last] == [names[0], last];
      assert (names + [last])[1..] == [last];
    } else {
      assert (names + [last])[1..] == names[1..] + [last];
      JoinSnoc(names[1..], last);
    }
  }

  /**
   * The builder guards the separator by its own length, not by the loop index;
   * when every name is non-empty the two agree, so the builder's text is the
   * plain join of the names.
   */
  lemma {:induction false} BuilderTextIsJoin(names: seq<string>)
    requires forall i :: 0 <= i < |names| ==> names[i] != ""
    ensures BuilderText(names) == Join(names)
    ensures |names| > 0 ==> |BuilderText(names)| > 0
    decreases |names|
  {
    if names != [] {
      var init, last := names[..|names| - 1], names[|names| - 1];
      BuilderTextIsJoin(init);
      assert names == init + [last];
      if init != [] {
        JoinSnoc(init, last);
      }
    }
  }

  /** With non-empty names the builder's text has exactly |names| - 1 separators: its length is the names' plus four per gap. */
  lemma {:induction false} JoinLength(names: seq<string>)
    requires names != []
    ensures |Join(names)| == TotalLength(names) + |Separator| * (|names| - 1)
    decreases |names|
  {
    if |names| > 1 {
      JoinLength(names[1..]);
    }
  }
}
