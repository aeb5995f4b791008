/**
 * error.go: the error lists of the error codes, and the Errors wrapper that records the frames
 * of the application's own files on the call stack at the point it is created.
 */
module ErrorTrace {
  import opened Wrappers
  import opened Strs
  import opened Values
  import opened Api

  // ---------------------------------------------------------------------------------------------
  // ErrorCode.

  /** ErrorCode is a Go `int`; its named constants, numbered by iota. */
  const E00500: int := 0
  const E40001: int := 1
  const E99999: int := 2

  function ValidationErrors(): seq<IError> { [IError("E40001", "", "", "Validation Error")] }
  function UndefinedErrors(): seq<IError> { [IError("E99999", "", "", "Undefined Error")] }

  /**
   * ErrorCode.Errors: the validation error for E40001; the undefined error for E99999, for
   * E00500 and for any other number.
   */
  function CodeErrors(code: int): (r: seq<IError>)
    ensures code == E40001 ==> r == ValidationErrors()
    ensures code != E40001 ==> r == UndefinedErrors()
  {
    if code == E40001 then ValidationErrors()
    else if code == E99999 then UndefinedErrors()
    else UndefinedErrors()
  }

  /** Every code gives exactly one error, and it names E40001 only for E40001. */
  lemma CodeErrorsSingle(code: int)
    ensures |CodeErrors(code)| == 1
    ensures CodeErrors(code)[0].code == "E40001" <==> code == E40001
    ensures CodeErrors(code)[0].code == "E99999" <==> code != E40001
  {
    assert "E40001" != "E99999" by {
      assert "E40001"[1] != "E99999"[1];
    }
  }

  // ---------------------------------------------------------------------------------------------
  // Stack traces.

  /**
   * runtime.Caller(skip), as a parameter: the file and line of that frame, or None past the top
   * of the stack. A failed lookup reports file "" and line 0.
   */
  type Caller = int -> Option<(string, int)>

  function FrameFile(caller: Caller, skip: int): string {
    match caller(skip) case Some((file, _)) => file case None => ""
  }

  function FrameLine(caller: Caller, skip: int): int {
    match caller(skip) case Some((_, line)) => line case None => 0
  }

  /** The `%s:%d` rendering of a frame. */
  function FrameText(caller: Caller, skip: int): string {
    FrameFile(caller, skip) + ":" + IntToString(FrameLine(caller, skip))
  }

  /** A frame is kept when its file path contains the application's path. */
  predicate Local(caller: Caller, local: string, skip: int) {
    Contains(FrameFile(caller, skip), local)
  }

  /**
   * The frames `trace(count, max)` keeps: it looks at frame `count`, keeps it when it is local,
   * and goes on to the next one unless the lookup failed or the next one is past `max`. Even a
   * failed lookup is tested, with its empty file name.
   */
  function Trace(caller: Caller, local: string, count: int, max: int): (r: seq<string>)
    decreases if count <= max then max - count + 1 else 0
  {
    var here := if Local(caller, local, count) then [FrameText(caller, count)] else [];
    if caller(count).None? || count + 1 > max then here
    else here + Trace(caller, local, count + 1, max)
  }

  /** One step of Trace: the frame `count`, then the rest unless the walk stops there. */
  lemma TraceStep(caller: Caller, local: string, count: int, max: int)
    ensures Trace(caller, local, count, max) ==
      (if Local(caller, local, count) then [FrameText(caller, count)] else [])
      + (if caller(count).None? || count + 1 > max then [] else Trace(caller, local, count + 1, max))
  {
  }

  lemma AppendAssoc<T>(a: seq<T>, b: seq<T>, c: seq<T>)
    ensures a + (b + c) == (a + b) + c
  {
  }

  /** trace: the loop of error.go over runtime.Caller, appending the local frames. */
  method TraceFrames(caller: Caller, local: string, count0: int, max: int) returns (src: seq<string>)
    ensures src == Trace(caller, local, count0, max)
  {
    src := [];
    var count := count0;
    var ok := true;
    while ok
      invariant ok ==> src + Trace(caller, local, count, max) == Trace(caller, local, count0, max)
      invariant !ok ==> src == Trace(caller, local, count0, max)
      decreases if ok then (if count <= max then max - count + 2 else 1) else 0
    {
      var file := FrameFile(caller, count);
      var line := FrameLine(caller, count);
      ok := caller(count).Some?;
      ghost var prev := src;
      ghost var here := if Local(caller, local, count) then [FrameText(caller, count)] else [];
      ghost var tail := if !ok || count + 1 > max then [] else Trace(caller, local, count + 1, max);
      TraceStep(caller, local, count, max);
      if Contains(file, local) {
        src := src + [file + ":" + IntToString(line)];
      }
      assert src == prev + here;
      assert Trace(caller, local, count, max) == here + tail;
      AppendAssoc(prev, here, tail);
      count := count + 1;
      if count > max {
        ok := false;
      }
    }
  }

  /**
   * At most the frames `count..max` are looked at, and at least the first one is, so the trace
   * has at most `max - count + 1` entries, and at most one when `count` is already past `max`.
   */
  lemma {:induction false} TraceBound(caller: Caller, local: string, count: int, max: int)
    ensures |Trace(caller, local, count, max)| <= (if count <= max then max - count + 1 else 1)
    decreases if count <= max then max - count + 1 else 0
  {
    if caller(count).Some? && count + 1 <= max {
      TraceBound(caller, local, count + 1, max);
    }
  }

  /**
   * Each entry is one local frame, `file:line`, from the frames looked at: `count` and on, and
   * no further than `max` unless the first frame is already past it.
   */
  lemma {:induction false} TraceEntries(caller: Caller, local: string, count: int, max: int)
    ensures forall j :: 0 <= j < |Trace(caller, local, count, max)| ==>
      exists skip ::
        count <= skip && (skip == count || skip <= max)
        && Local(caller, local, skip) && Trace(caller, local, count, max)[j] == FrameText(caller, skip)
    decreases if count <= max then max - count + 1 else 0
  {
    var t := Trace(caller, local, count, max);
    var here := if Local(caller, local, count) then [FrameText(caller, count)] else [];
    if caller(count).Some? && count + 1 <= max {
      TraceEntries(caller, local, count + 1, max);
      var rest := Trace(caller, local, count + 1, max);
      assert t == here + rest;
      forall j | 0 <= j < |t|
        ensures exists skip ::
          count <= skip && (skip == count || skip <= max)
          && Local(caller, local, skip) && t[j] == FrameText(caller, skip)
      {
        if j < |here| {
          assert t[j] == FrameText(caller, count);
        } else {
          assert t[j] == rest[j - |here|];
        }
      }
    } else {
      assert t == here;
    }
  }

  /** A local frame at the start comes first, and a stack whose first lookup fails gives no frames. */
  lemma TraceFirst(caller: Caller, local: string, count: int, max: int)
    ensures Local(caller, local, count) ==>
      |Trace(caller, local, count, max)| > 0 && Trace(caller, local, count, max)[0] == FrameText(caller, count)
    ensures caller(count).None? && local != "" ==> Trace(caller, local, count, max) == []
  {
    if caller(count).None? && local != "" {
      assert !HasPrefix("", local);
    }
  }

  /**
   * StackTrace: trace(2, 16). runtime.Caller counts from trace itself, so frame 2 is the function
   * that called StackTrace.
   */
  method StackTrace(caller: Caller, local: string) returns (t: seq<string>)
    ensures t == Trace(caller, local, 2, 16) && |t| <= 15
  {
    t := TraceFrames(caller, local, 2, 16);
    TraceBound(caller, local, 2, 16);
  }

  // ---------------------------------------------------------------------------------------------
  // The Errors wrapper.

  /** Errors: the wrapped error, by its message (None for a nil error), and the recorded trace. */
  datatype Errors = Errors(msg: Option<string>, trace: seq<string>)

  /** String and Error: the wrapped error's message; a nil wrapped error is a nil dereference. */
  function String(e: Errors): (r: Result<string, string>)
    ensures e.msg.Some? ==> r == Ok(e.msg.value)
    ensures e.msg.None? ==> r == Err(NilDereference)
  {
    match e.msg
    case Some(m) => Ok(m)
    case None => Err(NilDereference)
  }

  function Error(e: Errors): Result<string, string> {
    String(e)
  }

  /** Trace: the frames recorded when the error was wrapped. */
  function TraceOf(e: Errors): seq<string> {
    e.trace
  }

  /** NewErrors: the error, with the stack trace taken where it is called. */
  method NewErrors(err: Option<string>, caller: Caller, local: string) returns (e: Errors)
    ensures e.msg == err && e.trace == Trace(caller, local, 2, 16) && |e.trace| <= 15
  {
    var t := StackTrace(caller, local);
    e := Errors(err, t);
  }

  /** The wrapper reads back as the error it wraps and the trace it recorded. */
  lemma ErrorsRoundTrip(m: string, t: seq<string>)
    ensures Error(Errors(Some(m), t)) == Ok(m) && String(Errors(Some(m), t)) == Ok(m)
    ensures TraceOf(Errors(Some(m), t)) == t
  {
  }
}
