/**
 * The comparison DSL of a test case: one of nine test methods applied to the observed value and
 * the wanted value. The result is a pass, a failure with the error message the test reports, or a
 * defect: a runtime panic (a failed type assertion, an uncomparable `==`) that nothing recovers.
 */
module Assertion {
  import opened Wrappers
  import opened Strs
  import opened Values

  /** ITestMethod is a Go `int`; these are its named constants, numbered by iota. */
  const TestMethodEqual: int := 0
  const TestMethodNotEqual: int := 1
  const TestMethodContains: int := 2
  const TestMethodPresent: int := 3
  const TestMethodNotPresent: int := 4
  const TestMethodMatches: int := 5
  const TestMethodLen: int := 6
  const TestMethodGreaterThan: int := 7
  const TestMethodLessThan: int := 8

  datatype Outcome = Pass | Fail(message: string) | Defect(reason: string)

  /**
   * What the assertion borrows from libraries: fmt's `%+v` rendering of a value, regexp.Compile
   * (the error message when the pattern does not compile) and the compiled pattern's Match.
   */
  datatype Env = Env(show: Value -> string, compile: string -> Option<string>, matches: (string, string) -> bool)

  // The fixed parts of the messages, each written once.
  const ConversionHead: string := "interface conversion: interface {} is "
  const ConversionNot: string := ", not "
  const UncomparableHead: string := "runtime error: comparing uncomparable type "
  const ReportHead: string := "assert "
  const ReportValue: string := ": value: "
  const ReportWant: string := ", want: "

  /** The panic of a failed type assertion `v.(T)` on an `interface{}`. */
  function ConversionPanic(v: Value, target: string): string {
    ConversionHead + TypeName(v) + ConversionNot + target
  }

  /** The panic of `==` on two values of the same type that does not support it. */
  function UncomparablePanic(typeName: string): string {
    UncomparableHead + typeName
  }

  /** The failure message `assert <what>: value: %+v, want: %+v`. */
  function Report(what: string, value: Value, want: Value, env: Env): string {
    ReportHead + what + ReportValue + env.show(value) + ReportWant + env.show(want)
  }

  const NotSupported: string := "error: not support TestMethod"

  /** `[]any`, the only slice type `value.([]any)` accepts. */
  predicate IsAnySlice(v: Value) {
    v.Slice? && v.elem == AnyElem
  }

  /** The seven test methods `assert` implements; Present and NotPresent are not among them. */
  predicate Implemented(m: int) {
    m == TestMethodEqual || m == TestMethodNotEqual || m == TestMethodContains || m == TestMethodMatches
    || m == TestMethodLen || m == TestMethodGreaterThan || m == TestMethodLessThan
  }

  /**
   * ITestCase.assert. Where one expression holds two type assertions, the one on the observed
   * value is evaluated first, as the Go compiler orders operands left to right.
   */
  function Assert(m: int, want: Value, value: Value, env: Env): (r: Outcome)
    ensures !Implemented(m) ==> r == Fail(NotSupported)
  {
    if m == TestMethodEqual then
      match GoEqual(value, want)
      case Uncomparable(t) => Defect(UncomparablePanic(t))
      case Differ => Fail(Report("equal", value, want, env))
      case Same => Pass
    else if m == TestMethodNotEqual then
      match GoEqual(value, want)
      case Uncomparable(t) => Defect(UncomparablePanic(t))
      case Same => Fail(Report("not equal", value, want, env))
      case Differ => Pass
    else if m == TestMethodContains then
      if !value.Str? then Defect(ConversionPanic(value, "string"))
      else if !want.Str? then Defect(ConversionPanic(want, "string"))
      else if Contains(value.s, want.s) then Fail(Report("contains", value, want, env))
      else Pass
    else if m == TestMethodMatches then
      if !want.Str? then Defect(ConversionPanic(want, "string"))
      else
        match env.compile(want.s)
        case Some(err) => Fail("assert match: " + err)
        case None =>
          if !value.Str? then Defect(ConversionPanic(value, "string"))
          else if !env.matches(want.s, value.s) then Fail(Report("match", value, want, env))
          else Pass
    else if m == TestMethodLen then
      if !IsAnySlice(value) then Defect(ConversionPanic(value, "[]" + AnyElem))
      else if !want.Int? then Defect(ConversionPanic(want, "int"))
      else if |value.items| != want.i then Fail(Report("len", value, want, env))
      else Pass
    else if m == TestMethodGreaterThan then
      if !value.Int? then Defect(ConversionPanic(value, "int"))
      else if !want.Int? then Defect(ConversionPanic(want, "int"))
      else if value.i < want.i then Fail(Report("greater than", value, want, env))
      else Pass
    else if m == TestMethodLessThan then
      if !value.Int? then Defect(ConversionPanic(value, "int"))
      else if !want.Int? then Defect(ConversionPanic(want, "int"))
      else if value.i > want.i then Fail(Report("less than", value, want, env))
      else Pass
    else
      Fail(NotSupported)
  }

  /** Equal passes exactly on Go `==`, fails exactly on `!=`, and panics exactly when `==` does. */
  lemma EqualVerdict(want: Value, value: Value, env: Env)
    ensures Assert(TestMethodEqual, want, value, env) == Pass <==> GoEqual(value, want) == Same
    ensures (Assert(TestMethodEqual, want, value, env) == Fail(Report("equal", value, want, env)))
            <==> GoEqual(value, want) == Differ
    ensures Assert(TestMethodEqual, want, value, env).Defect? <==> GoEqual(value, want).Uncomparable?
  {
  }

  /** NotEqual is Equal with pass and fail exchanged; both panic on the same inputs. */
  lemma NotEqualIsDual(want: Value, value: Value, env: Env)
    ensures Assert(TestMethodNotEqual, want, value, env).Fail? <==> Assert(TestMethodEqual, want, value, env).Pass?
    ensures Assert(TestMethodNotEqual, want, value, env).Pass? <==> Assert(TestMethodEqual, want, value, env).Fail?
    ensures Assert(TestMethodNotEqual, want, value, env).Defect? <==> Assert(TestMethodEqual, want, value, env).Defect?
  {
  }

  /** A value of another dynamic type than the wanted one fails Equal and passes NotEqual. */
  lemma EqualAcrossTypes(want: Value, value: Value, env: Env)
    requires !SameType(value, want)
    ensures Assert(TestMethodEqual, want, value, env).Fail?
    ensures Assert(TestMethodNotEqual, want, value, env) == Pass
  {
    DifferentTypesDiffer(value, want);
  }

  /** On a scalar, Equal fails exactly when the two values differ, and never panics. */
  lemma EqualOnScalars(want: Value, value: Value, env: Env)
    requires value.Nil? || value.Bool? || value.Int? || value.Int64? || value.Str?
    ensures Assert(TestMethodEqual, want, value, env).Fail? <==> value != want
    ensures Assert(TestMethodNotEqual, want, value, env).Fail? <==> value == want
    ensures !Assert(TestMethodEqual, want, value, env).Defect?
  {
    ScalarEquality(value, want);
  }

  /** A value with no slice or map inside passes Equal against itself and fails NotEqual. */
  lemma EqualToItself(v: Value, env: Env)
    requires DeepComparable(v)
    ensures Assert(TestMethodEqual, v, v, env) == Pass
    ensures Assert(TestMethodNotEqual, v, v, env).Fail?
  {
    GoEqualReflexive(v);
  }

  /** Comparing two slices of one type, even equal ones, is a panic rather than a failure. */
  lemma EqualOnSlicesPanics(elem: string, a: seq<Value>, b: seq<Value>, env: Env)
    ensures Assert(TestMethodEqual, Slice(elem, b), Slice(elem, a), env) == Defect(UncomparablePanic("[]" + elem))
  {
  }

  /**
   * Contains, as written, fails exactly when the value DOES contain the wanted string at some
   * position, and passes otherwise; a value or want that is not a string is a panic.
   */
  lemma ContainsVerdict(want: Value, value: Value, env: Env)
    ensures value.Str? && want.Str? ==>
      (Assert(TestMethodContains, want, value, env).Fail? <==> exists i :: OccursAt(value.s, want.s, i))
    ensures value.Str? && want.Str? ==>
      (Assert(TestMethodContains, want, value, env) == Pass <==> forall i :: !OccursAt(value.s, want.s, i))
    ensures !value.Str? || !want.Str? ==> Assert(TestMethodContains, want, value, env).Defect?
  {
    if value.Str? && want.Str? {
      ContainsIff(value.s, want.s);
    }
  }

  /** The empty want occurs in every string, so Contains with it always fails. */
  lemma ContainsEmptyFails(s: string, env: Env)
    ensures Assert(TestMethodContains, Str(""), Str(s), env) == Fail(Report("contains", Str(s), Str(""), env))
  {
    assert HasPrefix(s, "");
  }

  /**
   * Matches: a want that is not a string panics; a pattern that does not compile fails with the
   * compiler's message before the value is looked at; otherwise a string value fails exactly when
   * the pattern does not match it, and any other value panics.
   */
  lemma MatchesVerdict(want: Value, value: Value, env: Env)
    ensures !want.Str? ==> Assert(TestMethodMatches, want, value, env).Defect?
    ensures want.Str? && env.compile(want.s).Some? ==>
      Assert(TestMethodMatches, want, value, env) == Fail("assert match: " + env.compile(want.s).value)
    ensures want.Str? && env.compile(want.s).None? && value.Str? ==>
      (Assert(TestMethodMatches, want, value, env).Fail? <==> !env.matches(want.s, value.s))
    ensures want.Str? && env.compile(want.s).None? && !value.Str? ==>
      Assert(TestMethodMatches, want, value, env).Defect?
  {
  }

  /**
   * Len fails exactly when the `[]any` value's length differs from the wanted int; a value that
   * is no `[]any` (a nil interface or a `[]string` included), or a want that is no int, panics.
   */
  lemma LenVerdict(want: Value, value: Value, env: Env)
    ensures IsAnySlice(value) && want.Int? ==>
      (Assert(TestMethodLen, want, value, env).Fail? <==> |value.items| != want.i)
    ensures IsAnySlice(value) && want.Int? ==> !Assert(TestMethodLen, want, value, env).Defect?
    ensures !IsAnySlice(value) ==> Assert(TestMethodLen, want, value, env) == Defect(ConversionPanic(value, "[]" + AnyElem))
    ensures IsAnySlice(value) && !want.Int? ==> Assert(TestMethodLen, want, value, env) == Defect(ConversionPanic(want, "int"))
  {
  }

  /** GreaterThan fails only on a strict `value < want`, so equal ints pass; non-ints panic. */
  lemma GreaterThanVerdict(want: Value, value: Value, env: Env)
    ensures value.Int? && want.Int? ==>
      (Assert(TestMethodGreaterThan, want, value, env).Fail? <==> value.i < want.i)
    ensures value.Int? && want.Int? ==> !Assert(TestMethodGreaterThan, want, value, env).Defect?
    ensures !value.Int? || !want.Int? ==> Assert(TestMethodGreaterThan, want, value, env).Defect?
  {
  }

  /** LessThan fails only on a strict `value > want`, so equal ints pass; non-ints panic. */
  lemma LessThanVerdict(want: Value, value: Value, env: Env)
    ensures value.Int? && want.Int? ==>
      (Assert(TestMethodLessThan, want, value, env).Fail? <==> value.i > want.i)
    ensures value.Int? && want.Int? ==> !Assert(TestMethodLessThan, want, value, env).Defect?
    ensures !value.Int? || !want.Int? ==> Assert(TestMethodLessThan, want, value, env).Defect?
  {
  }

  /** An int64 is not an int: GreaterThan and LessThan on one panic. */
  lemma OrderingRejectsInt64(n: int, want: Value, env: Env)
    ensures Assert(TestMethodGreaterThan, want, Int64(n), env) == Defect(ConversionPanic(Int64(n), "int"))
    ensures Assert(TestMethodLessThan, want, Int64(n), env) == Defect(ConversionPanic(Int64(n), "int"))
  {
  }

  /** On two ints exactly one of GreaterThan and LessThan can fail, and both pass on equal ints. */
  lemma OrderingComplementary(a: int, b: int, env: Env)
    ensures !(Assert(TestMethodGreaterThan, Int(b), Int(a), env).Fail? && Assert(TestMethodLessThan, Int(b), Int(a), env).Fail?)
    ensures a == b ==>
      Assert(TestMethodGreaterThan, Int(b), Int(a), env) == Pass && Assert(TestMethodLessThan, Int(b), Int(a), env) == Pass
  {
  }

  /** Present, NotPresent and every number outside the named methods fail as not supported. */
  lemma UnsupportedMethods(m: int, want: Value, value: Value, env: Env)
    requires m == TestMethodPresent || m == TestMethodNotPresent || m < 0 || m > TestMethodLessThan
    ensures Assert(m, want, value, env) == Fail(NotSupported)
  {
  }
}
