/** utils.go: StructPath, the decimal conversions, BoolToUint and MapToValueArray. */
module Utils {
  import opened Wrappers
  import opened Strs
  import opened Values

  // ---------------------------------------------------------------------------------------------
  // StructPath: a dotted field path walked with reflection, any panic recovered into nil.

  /** Why reflection panicked; StructPath turns every one of these into nil. */
  datatype Fault =
    | NotAStruct(kind: string)   // FieldByName on something that is not a struct (nil included)
    | NoSuchField(name: string)  // FieldByName found nothing: Interface() of the zero Value
    | Unexported(name: string)   // Interface() of a field obtained through an unexported name
    | NilPointer(name: string)   // Elem() of a nil pointer gives the zero Value

  /** Go's exported-identifier rule, for names that start with an ASCII letter. */
  predicate Exported(name: string) {
    |name| > 0 && 'A' <= name[0] <= 'Z'
  }

  function FindField(fs: seq<Field>, name: string): (r: Result<Field, Fault>)
    ensures r.Ok? ==> r.value in fs && r.value.name == name
    ensures r.Err? ==> r == Err(NoSuchField(name)) && forall f | f in fs :: f.name != name
  {
    if |fs| == 0 then Err(NoSuchField(name))
    else if fs[0].name == name then Ok(fs[0])
    else FindField(fs[1..], name)
  }

  /** reflect.Value.FieldByName: the first field with that name; only a struct has fields. */
  function FieldByName(v: Value, name: string): (r: Result<Field, Fault>)
    ensures r.Ok? ==> v.Struct? && r.value in v.fields && r.value.name == name
    ensures r.Err? <==> !v.Struct? || forall f | f in v.fields :: f.name != name
  {
    if v.Struct? then FindField(v.fields, name) else Err(NotAStruct(TypeName(v)))
  }

  /**
   * A segment that is not the last: the field's value, dereferenced when the field's declared
   * type is a pointer (an interface field holding a pointer is not: its kind is Interface).
   */
  function Descend(v: Value, key: string): (r: Result<Value, Fault>)
    ensures !Exported(key) ==> r.Err?
    ensures r.Ok? ==> v.Struct? && exists f :: (f in v.fields && f.name == key &&
      (if !f.iface && f.value.Ptr? then f.value.target == Some(r.value) else r.value == f.value))
  {
    match FieldByName(v, key)
    case Err(e) => Err(e)
    case Ok(f) =>
      if !Exported(key) then Err(Unexported(key))
      else if !f.iface && f.value.Ptr? then
        match f.value.target
        case None => Err(NilPointer(key))
        case Some(t) => Ok(t)
      else Ok(f.value)
  }

  /** The last segment: the field's value as it is, a pointer not dereferenced. */
  function Last(v: Value, key: string): (r: Result<Value, Fault>)
    ensures !Exported(key) ==> r.Err?
    ensures r.Ok? ==> v.Struct? && exists f :: f in v.fields && f.name == key && r.value == f.value
  {
    match FieldByName(v, key)
    case Err(e) => Err(e)
    case Ok(f) => if Exported(key) then Ok(f.value) else Err(Unexported(key))
  }

  /** The body of StructPath before `recover`: split on '.', resolve the head, recurse on the rest. */
  function Walk(src: Value, path: string): (r: Result<Value, Fault>)
    ensures r.Ok? ==> src.Struct?
    ensures '.' !in path ==> r == Last(src, path)
    decreases |path|
  {
    if '.' in path then
      var item := Split(path, '.');
      var rest := Join(item[1..], '.');
      SplitHeadTail(path, '.');
      match Descend(src, item[0])
      case Err(e) => Err(e)
      case Ok(next) => Walk(next, rest)
    else Last(src, path)
  }

  /** StructPath: the walk's value, or nil after any reflection panic. */
  function StructPath(src: Value, path: string): (r: Value)
    ensures !src.Struct? ==> r == Nil
    ensures r != Nil ==> Walk(src, path) == Ok(r)
  {
    match Walk(src, path)
    case Ok(v) => v
    case Err(_) => Nil
  }

  /** Resolving an already split path, one segment at a time: the reference for StructPath. */
  ghost function Follow(v: Value, names: seq<string>): Result<Value, Fault>
    requires |names| >= 1
    decreases |names|
  {
    if |names| == 1 then Last(v, names[0])
    else
      match Descend(v, names[0])
      case Err(e) => Err(e)
      case Ok(next) => Follow(next, names[1..])
  }

  /**
   * For segments without dots, StructPath on the dotted path resolves exactly the chain of
   * fields the segments name; a broken chain gives nil.
   */
  lemma {:induction false} StructPathFollowsSegments(v: Value, names: seq<string>)
    requires |names| >= 1
    requires forall k :: 0 <= k < |names| ==> '.' !in names[k]
    ensures Walk(v, Join(names, '.')) == Follow(v, names)
    ensures StructPath(v, Join(names, '.')) == (if Follow(v, names).Ok? then Follow(v, names).value else Nil)
    decreases |names|
  {
    var path := Join(names, '.');
    if |names| > 1 {
      SplitJoin(names, '.');
      assert path == names[0] + ['.'] + Join(names[1..], '.');
      assert path[|names[0]|] == '.';
      SplitHeadTail(path, '.');
      match Descend(v, names[0])
      case Err(e) =>
      case Ok(next) =>
        StructPathFollowsSegments(next, names[1..]);
    }
  }

  /** The head and the rest of `key.rest` when `key` has no dot. */
  lemma SplitAtFirstDot(key: string, rest: string)
    requires '.' !in key
    ensures '.' in key + "." + rest
    ensures Split(key + "." + rest, '.')[0] == key
    ensures Join(Split(key + "." + rest, '.')[1..], '.') == rest
  {
    var path := key + "." + rest;
    assert path[|key|] == '.';
    assert path[..|key|] == key;
    IndexOfUnique(path, '.', |key|);
    SplitHeadTail(path, '.');
    assert path[|key| + 1..] == rest;
  }

  /** An intermediate pointer field is dereferenced before the rest of the path is resolved. */
  lemma StructPathDereferences(v: Value, key: string, rest: string, f: Field)
    requires '.' !in key && Exported(key)
    requires FieldByName(v, key) == Ok(f)
    requires !f.iface && f.value.Ptr? && f.value.target.Some?
    ensures StructPath(v, key + "." + rest) == StructPath(f.value.target.value, rest)
  {
    SplitAtFirstDot(key, rest);
  }

  /** An intermediate field that is not a pointer-typed field is walked into as it is. */
  lemma StructPathDescends(v: Value, key: string, rest: string, f: Field)
    requires '.' !in key && Exported(key)
    requires FieldByName(v, key) == Ok(f)
    requires f.iface || !f.value.Ptr?
    ensures StructPath(v, key + "." + rest) == StructPath(f.value, rest)
  {
    SplitAtFirstDot(key, rest);
  }

  /** An intermediate nil pointer field gives nil. */
  lemma StructPathNilPointer(v: Value, key: string, rest: string, f: Field)
    requires '.' !in key && Exported(key)
    requires FieldByName(v, key) == Ok(f)
    requires !f.iface && f.value.Ptr? && f.value.target.None?
    ensures StructPath(v, key + "." + rest) == Nil
  {
    SplitAtFirstDot(key, rest);
  }

  /** An interface-typed field holding a pointer is not dereferenced, so descending through it fails. */
  lemma StructPathInterfacePointer(v: Value, key: string, rest: string, f: Field)
    requires '.' !in key && Exported(key)
    requires FieldByName(v, key) == Ok(f)
    requires f.iface && f.value.Ptr?
    ensures StructPath(v, key + "." + rest) == Nil
  {
    SplitAtFirstDot(key, rest);
    var p := f.value;
    assert '.' in rest ==> Descend(p, Split(rest, '.')[0]).Err?;
    assert Walk(p, rest).Err?;
  }

  /** The last segment's field comes back as it is: a pointer field is returned, not its target. */
  lemma StructPathLastField(v: Value, key: string, f: Field)
    requires '.' !in key && Exported(key)
    requires FieldByName(v, key) == Ok(f)
    ensures StructPath(v, key) == f.value
  {
  }

  /** A missing field, or a step into something that is not a struct, gives nil. */
  lemma StructPathMissing(v: Value, key: string, rest: string)
    requires '.' !in key
    requires !v.Struct? || forall f | f in v.fields :: f.name != key
    ensures StructPath(v, key) == Nil
    ensures StructPath(v, key + "." + rest) == Nil
  {
    SplitAtFirstDot(key, rest);
  }

  /** A field whose name is unexported cannot be read through reflection: nil. */
  lemma StructPathUnexported(v: Value, key: string, rest: string)
    requires '.' !in key && !Exported(key)
    ensures StructPath(v, key) == Nil
    ensures StructPath(v, key + "." + rest) == Nil
  {
    SplitAtFirstDot(key, rest);
  }

  /** A part of the configuration value that a scenario returns, with DBConfig behind a pointer. */
  function ConfigSample(): Value {
    Struct("fiberextend.IFiberExConfig", [
      Field("DevMode", false, Ptr("bool", 1, Some(Bool(true)))),
      Field("UseDB", false, Bool(false)),
      Field("DBConfig", false, Ptr("fiberextend.IDBConfig", 2, Some(
        Struct("fiberextend.IDBConfig", [
          Field("User", false, Str("root")),
          Field("Pass", false, Str("qwerty")),
          Field("Addr", false, Str("db:3306")),
          Field("DBName", false, Str("app"))])))),
      Field("UseRedis", false, Bool(true))])
  }

  /** The configuration's DBConfig, behind its pointer. */
  function DBConfigSample(): Value {
    ConfigSample().fields[2].value.target.value
  }

  // The two paths of the Exec scenario in the repository's tests, spelled as concatenations so
  // that the verifier does not unfold the walk on a literal string.
  function AddrPath(): string { "DBConfig" + "." + "Addr" }
  function AddrFooPath(): string { "DBConfig" + "." + AddrFooTail() }
  function AddrFooTail(): string { "Addr" + "." + "Foo" }

  /** The configuration's DBConfig field is a pointer field, found at its position. */
  lemma ConfigHasDBConfig()
    ensures FieldByName(ConfigSample(), "DBConfig") == Ok(ConfigSample().fields[2])
  {
  }

  /** DBConfig's Addr field is a string field, found at its position. */
  lemma DBConfigHasAddr()
    ensures FieldByName(DBConfigSample(), "Addr") == Ok(DBConfigSample().fields[2])
  {
  }

  /** `DBConfig.Addr` reaches the address through the pointer. */
  lemma StructPathConfigAddr()
    ensures StructPath(ConfigSample(), AddrPath()) == Str("db:3306")
  {
    AddrThroughPointer();
    DBConfigHasAddr();
    StructPathLastField(DBConfigSample(), "Addr", DBConfigSample().fields[2]);
  }

  /** The first step of `DBConfig.Addr`: through the DBConfig pointer. */
  lemma AddrThroughPointer()
    ensures StructPath(ConfigSample(), AddrPath()) == StructPath(DBConfigSample(), "Addr")
  {
    ConfigHasDBConfig();
    StructPathDereferences(ConfigSample(), "DBConfig", "Addr", ConfigSample().fields[2]);
  }

  /** The first step of `DBConfig.Addr.Foo`: through the DBConfig pointer. */
  lemma AddrFooThroughPointer()
    ensures StructPath(ConfigSample(), AddrFooPath()) == StructPath(DBConfigSample(), AddrFooTail())
  {
    ConfigHasDBConfig();
    StructPathDereferences(ConfigSample(), "DBConfig", AddrFooTail(), ConfigSample().fields[2]);
  }

  /** The second step of `DBConfig.Addr.Foo`: into the Addr string. */
  lemma AddrFooIntoString()
    ensures StructPath(DBConfigSample(), AddrFooTail()) == StructPath(Str("db:3306"), "Foo")
  {
    DBConfigHasAddr();
    StructPathDescends(DBConfigSample(), "Addr", "Foo", DBConfigSample().fields[2]);
  }

  /** `DBConfig.Addr.Foo` descends into a string, so it gives nil. */
  lemma StructPathConfigAddrFoo()
    ensures StructPath(ConfigSample(), AddrFooPath()) == Nil
  {
    AddrFooThroughPointer();
    AddrFooIntoString();
    StructPathMissing(Str("db:3306"), "Foo", "");
  }

  // ---------------------------------------------------------------------------------------------
  // Decimal conversions.

  const MinInt64: int := -0x8000_0000_0000_0000
  const MaxInt64: int := 0x7fff_ffff_ffff_ffff

  predicate InInt64(n: int) {
    MinInt64 <= n <= MaxInt64
  }

  /** strconv.ParseInt(s, 10, 64): the syntax check, then the 64-bit range check. */
  function ParseInt64(s: string): (r: Option<int>)
    ensures r.Some? ==> InInt64(r.value) && ParseDecimal(s) == r
    ensures r.None? <==> ParseDecimal(s).None? || !InInt64(ParseDecimal(s).value)
  {
    match ParseDecimal(s)
    case Some(n) => if InInt64(n) then Some(n) else None
    case None => None
  }

  /** Atoi: the parsed decimal, or 0 when strconv reports any error (syntax or range). */
  function Atoi(s: string): (r: int)
    ensures InInt64(r)
    ensures ParseInt64(s).Some? ==> r == ParseInt64(s).value
    ensures ParseInt64(s).None? ==> r == 0
  {
    match ParseInt64(s)
    case Some(n) => n
    case None => 0
  }

  /** Atoi64 parses with strconv.ParseInt(s, 10, 0); on a 64-bit platform that is Atoi. */
  function Atoi64(s: string): (r: int)
    ensures r == Atoi(s)
  {
    match ParseInt64(s)
    case Some(n) => n
    case None => 0
  }

  /** Itoa: strconv.Itoa of an int64. */
  function Itoa(n: int): (r: string)
    requires InInt64(n)
    ensures ParseInt64(r) == Some(n)
    ensures |r| >= 1 && (r[0] == '-' <==> n < 0)
  {
    ParseFormatRoundTrip(n);
    IntToString(n)
  }

  /** Atoi64 undoes Itoa on every int64. */
  lemma AtoiItoa(n: int)
    requires InInt64(n)
    ensures Atoi64(Itoa(n)) == n && Atoi(Itoa(n)) == n
  {
    ParseFormatRoundTrip(n);
  }

  /** Inputs strconv rejects all give 0. */
  lemma AtoiRejects()
    ensures Atoi("") == 0 && Atoi("+") == 0 && Atoi("-") == 0
    ensures Atoi("abc") == 0 && Atoi(" 1") == 0 && Atoi("1_000") == 0 && Atoi("0x10") == 0
  {
    assert !IsDigit(" 1"[0]);
    assert !IsDigit("1_000"[1]);
    assert !IsDigit("0x10"[1]);
    assert !IsDigit("abc"[0]);
  }

  /** A decimal outside the 64-bit range is a range error, so it gives 0. */
  lemma AtoiOutOfRange(n: int)
    requires !InInt64(n)
    ensures Atoi(IntToString(n)) == 0
  {
    ParseFormatRoundTrip(n);
  }

  /** An optional sign is accepted. */
  lemma AtoiAccepts()
    ensures Atoi("12") == 12 && Atoi("+7") == 7 && Atoi("-0") == 0
  {
    assert "12"[..1] == "1";
    assert DigitsValue("12") == 12;
    assert DigitsValue("7") == 7;
    assert "+7"[1..] == "7" && "-0"[1..] == "0";
  }

  // ---------------------------------------------------------------------------------------------

  /** BoolToUint: 1 for true, 0 for false. */
  function BoolToUint(ok: bool): (r: nat)
    ensures r <= 1
    ensures r == 1 <==> ok
  {
    if ok then 1 else 0
  }

  /** `rs` lists the values of `src` in the order of the distinct keys `keys`, all keys once. */
  ghost predicate ListsValues(rs: seq<Value>, src: map<string, Value>, keys: seq<string>) {
    && |keys| == |rs|
    && (forall i, j :: 0 <= i < j < |keys| ==> keys[i] != keys[j])
    && (forall k :: k in src <==> k in keys)
    && (forall i :: 0 <= i < |keys| ==> keys[i] in src && rs[i] == src[keys[i]])
  }

  /**
   * MapToValueArray: one element per key, the key's value, in Go's unspecified map iteration
   * order (here: whatever order the key choice below makes).
   */
  method MapToValueArray(src: map<string, Value>) returns (rs: seq<Value>)
    ensures |rs| == |src|
    ensures exists keys :: ListsValues(rs, src, keys)
  {
    rs := [];
    var rest := src.Keys;
    ghost var keys: seq<string> := [];
    while rest != {}
      invariant rest <= src.Keys
      invariant |keys| == |rs| && |rs| + |rest| == |src|
      invariant forall i :: 0 <= i < |keys| ==> keys[i] in src && keys[i] !in rest && rs[i] == src[keys[i]]
      invariant forall i, j :: 0 <= i < j < |keys| ==> keys[i] != keys[j]
      invariant forall k :: k in src ==> (k in rest <==> k !in keys)
      decreases rest
    {
      var k :| k in rest;
      rs := rs + [src[k]];
      keys := keys + [k];
      rest := rest - {k};
    }
    assert ListsValues(rs, src, keys);
  }
}
