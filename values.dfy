/**
 * Runtime values as the assertion engine and StructPath see them: the dynamic value held by a Go
 * `interface{}`, as a closed set of variants, and Go's `==` on two such values.
 */
module Values {
  import opened Wrappers

  /** Element type name Go prints for `[]any`. */
  const AnyElem: string := "interface {}"

  /** The runtime panic of dereferencing a nil pointer or calling a nil function or interface. */
  const NilDereference: string := "runtime error: invalid memory address or nil pointer dereference"

  datatype Value =
    | Nil                                              // the untyped nil interface
    | Bool(b: bool)
    | Int(i: int)                                       // Go `int` (64 bits; only compared, never computed)
    | Int64(n: int)                                     // Go `int64`, a different dynamic type from `int`
    | Str(s: string)
    | Slice(elem: string, items: seq<Value>)            // `[]elem`; a nil slice has no items
    | Map(entries: map<string, Value>)                   // `map[string]interface{}`
    | Struct(typeName: string, fields: seq<Field>)       // fields in declaration order
    | Ptr(elem: string, addr: nat, target: Option<Value>) // `*elem`; `target == None` is a nil pointer

  /**
   * A struct field. `iface` says the field's declared type is an interface, so reflection reports
   * its kind as Interface whatever dynamic value it holds.
   */
  datatype Field = Field(name: string, iface: bool, value: Value)

  /** The type name Go's runtime prints in panic messages. */
  function TypeName(v: Value): string {
    match v
    case Nil => "nil"
    case Bool(_) => "bool"
    case Int(_) => "int"
    case Int64(_) => "int64"
    case Str(_) => "string"
    case Slice(e, _) => "[]" + e
    case Map(_) => "map[string]interface {}"
    case Struct(n, _) => n
    case Ptr(e, _, _) => "*" + e
  }

  /** Identical dynamic types. */
  predicate SameType(a: Value, b: Value) {
    match (a, b)
    case (Nil, Nil) => true
    case (Bool(_), Bool(_)) => true
    case (Int(_), Int(_)) => true
    case (Int64(_), Int64(_)) => true
    case (Str(_), Str(_)) => true
    case (Slice(e1, _), Slice(e2, _)) => e1 == e2
    case (Map(_), Map(_)) => true
    case (Struct(n1, _), Struct(n2, _)) => n1 == n2
    case (Ptr(e1, _, _), Ptr(e2, _, _)) => e1 == e2
    case _ => false
  }

  /** Whether the static type of a field holding `v` (not an interface field) supports `==`. */
  predicate TypeComparable(v: Value)
    decreases v
  {
    match v
    case Slice(_, _) => false
    case Map(_) => false
    case Struct(_, fs) => FieldsComparable(fs)
    case _ => true
  }

  predicate FieldsComparable(fs: seq<Field>)
    decreases fs
  {
    |fs| == 0 || ((fs[0].iface || TypeComparable(fs[0].value)) && FieldsComparable(fs[1..]))
  }

  /** The outcome of Go's `a == b` on two interface values: a truth value, or a runtime panic. */
  datatype Cmp = Same | Differ | Uncomparable(typeName: string)

  /**
   * Go's `==` on interface values: different dynamic types are unequal; identical types that
   * do not support `==` (slices, maps, structs with such fields) panic; pointers compare by
   * address; structs compare field by field.
   */
  function GoEqual(a: Value, b: Value): (r: Cmp)
    ensures r == Same ==> SameType(a, b)
    ensures r.Uncomparable? ==> SameType(a, b)
    decreases a
  {
    if !SameType(a, b) then Differ
    else
      match a
      case Slice(_, _) => Uncomparable(TypeName(a))
      case Map(_) => Uncomparable(TypeName(a))
      case Struct(_, fs) =>
        if !FieldsComparable(fs) || !FieldsComparable(b.fields) then Uncomparable(TypeName(a))
        else FieldsEqual(fs, b.fields)
      case Ptr(_, addr, t) =>
        if t.None? && b.target.None? then Same
        else if t.Some? && b.target.Some? && addr == b.addr then Same
        else Differ
      case _ => if a == b then Same else Differ
  }

  function FieldsEqual(fs1: seq<Field>, fs2: seq<Field>): Cmp
    decreases fs1
  {
    if |fs1| == 0 || |fs2| == 0 then (if |fs1| == |fs2| then Same else Differ)
    else
      match GoEqual(fs1[0].value, fs2[0].value)
      case Same => FieldsEqual(fs1[1..], fs2[1..])
      case other => other
  }

  /** No slice or map anywhere inside, so `==` on it never panics. */
  predicate DeepComparable(v: Value)
    decreases v
  {
    match v
    case Slice(_, _) => false
    case Map(_) => false
    case Struct(_, fs) => FieldsDeepComparable(fs)
    case _ => true
  }

  predicate FieldsDeepComparable(fs: seq<Field>)
    decreases fs
  {
    |fs| == 0 || (DeepComparable(fs[0].value) && FieldsDeepComparable(fs[1..]))
  }

  lemma {:induction false} DeepImpliesFieldsComparable(fs: seq<Field>)
    requires FieldsDeepComparable(fs)
    ensures FieldsComparable(fs)
    decreases fs
  {
    if |fs| > 0 {
      DeepImpliesTypeComparable(fs[0].value);
      DeepImpliesFieldsComparable(fs[1..]);
    }
  }

  lemma {:induction false} DeepImpliesTypeComparable(v: Value)
    requires DeepComparable(v)
    ensures TypeComparable(v)
    decreases v
  {
    if v.Struct? {
      DeepImpliesFieldsComparable(v.fields);
    }
  }

  /** A value with nothing uncomparable inside equals itself. */
  lemma {:induction false} GoEqualReflexive(v: Value)
    requires DeepComparable(v)
    ensures GoEqual(v, v) == Same
    decreases v
  {
    if v.Struct? {
      DeepImpliesFieldsComparable(v.fields);
      FieldsEqualReflexive(v.fields);
    }
  }

  lemma {:induction false} FieldsEqualReflexive(fs: seq<Field>)
    requires FieldsDeepComparable(fs)
    ensures FieldsEqual(fs, fs) == Same
    decreases fs
  {
    if |fs| > 0 {
      GoEqualReflexive(fs[0].value);
      FieldsEqualReflexive(fs[1..]);
    }
  }

  /** `a == b` and `b == a` agree, panics included. */
  lemma {:induction false} GoEqualSymmetric(a: Value, b: Value)
    ensures GoEqual(a, b) == GoEqual(b, a)
    decreases a
  {
    if SameType(a, b) && a.Struct? && FieldsComparable(a.fields) && FieldsComparable(b.fields) {
      FieldsEqualSymmetric(a.fields, b.fields);
    }
  }

  lemma {:induction false} FieldsEqualSymmetric(fs1: seq<Field>, fs2: seq<Field>)
    ensures FieldsEqual(fs1, fs2) == FieldsEqual(fs2, fs1)
    decreases fs1
  {
    if |fs1| > 0 && |fs2| > 0 {
      GoEqualSymmetric(fs1[0].value, fs2[0].value);
      FieldsEqualSymmetric(fs1[1..], fs2[1..]);
    }
  }

  /** Values of different dynamic types are never equal, and comparing them never panics. */
  lemma DifferentTypesDiffer(a: Value, b: Value)
    requires !SameType(a, b)
    ensures GoEqual(a, b) == Differ
  {
  }

  /** On scalars, Go's `==` is equality of the variant and its payload. */
  lemma ScalarEquality(a: Value, b: Value)
    requires a.Nil? || a.Bool? || a.Int? || a.Int64? || a.Str?
    ensures GoEqual(a, b) == Same <==> a == b
    ensures GoEqual(a, b) != Same ==> GoEqual(a, b) == Differ
  {
  }
}
