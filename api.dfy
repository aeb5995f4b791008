/**
 * api.go: the choice of response envelope in Result, the password rule registered with the
 * validator, and the translation of validator errors into the API's IError records.
 */
module Api {
  import opened Wrappers
  import opened Strs
  import opened Values
  import opened Utils

  // ---------------------------------------------------------------------------------------------
  // Response envelopes.

  /** One entry of the `error` array of a response. */
  datatype IError = IError(code: string, field: string, param: string, message: string)

  /**
   * IResponse without its Meta block. `result` is Nil and `results` empty when the envelope does
   * not carry them (both are `omitempty`).
   */
  datatype Response = Response(result: Value, results: seq<Value>, errors: seq<IError>)

  /** What Result does to the response: nothing, or send a status and body, perhaps logging. */
  datatype Reply = Untouched | Sent(status: int, body: Response, logged: Option<string>)

  /** The error line ResultError logs for the empty result list, `fmt.Errorf("no content: %+v")`. */
  const NoContentLog: string := "api error: no content: []"

  /**
   * IFiberEx.Result, given the status already set on the response. A status above 300 means
   * the handler already answered, and nothing is done.
   */
  function Result(statusSoFar: int, code: int, results: seq<Value>): (r: Reply)
    ensures r.Untouched? <==> statusSoFar > 300
    ensures r.Sent? && |results| == 0 ==> r.status == 204 && r.logged == Some(NoContentLog)
    ensures r.Sent? && |results| > 0 ==> r.status == code && r.logged.None?
    ensures r.Sent? ==> r.body.errors == []
  {
    if statusSoFar > 300 then Untouched
    else if |results| == 0 then Sent(204, Response(Nil, [], []), Some(NoContentLog))
    else if |results| > 1 then Sent(code, Response(Nil, results, []), None)
    else Sent(code, Response(results[0], [], []), None)
  }

  /** The values a client reads back from an envelope: `results`, else the single `result`. */
  function Payload(body: Response): seq<Value> {
    if |body.results| > 0 then body.results
    else if body.result.Nil? then []
    else [body.result]
  }

  /**
   * Every result handed to Result reaches the client, in order, under `results` when there are
   * several and under `result` when there is one; no results give status 204 and an empty body.
   * A single nil result is the one case a client cannot tell from no content by the body alone.
   */
  lemma ResultPayload(statusSoFar: int, code: int, results: seq<Value>)
    requires statusSoFar <= 300
    ensures |results| != 1 || !results[0].Nil? ==> Payload(Result(statusSoFar, code, results).body) == results
    ensures |results| > 1 ==> Result(statusSoFar, code, results).body.results == results
    ensures |results| == 1 ==> Result(statusSoFar, code, results).body == Response(results[0], [], [])
    ensures |results| == 0 ==> Result(statusSoFar, code, results).body == Response(Nil, [], [])
  {
  }

  // ---------------------------------------------------------------------------------------------
  // ValidatePassword.

  predicate IsLower(c: char) { 'a' <= c <= 'z' }
  predicate IsUpper(c: char) { 'A' <= c <= 'Z' }

  /**
   * The symbol class of the rule. The pattern lists `!"#$%&'()*+-.,/:;<=>?@[\]^_{|}~`, which is
   * every printable ASCII symbol but the backtick, that is, these four ranges.
   */
  predicate IsSymbol(c: char) {
    ('!' <= c <= '/') || (':' <= c <= '@') || ('[' <= c <= '_') || ('{' <= c <= '~')
  }

  /** The characters a password may be made of. */
  predicate IsAllowed(c: char) { IsDigit(c) || IsLower(c) || IsUpper(c) || IsSymbol(c) }

  /** The allowed characters are the printable ASCII characters except the space and the backtick. */
  lemma AllowedIsPrintable(c: char)
    ensures IsAllowed(c) <==> '!' <= c <= '~' && c != '`'
  {
  }

  /** A regexp that is a single character class, unanchored: does some character match it? */
  function MatchAny(s: string, cls: char -> bool): bool
    decreases |s|
  {
    |s| > 0 && (cls(s[0]) || MatchAny(s[1..], cls))
  }

  /** The same class as `^[...]+$`: one or more characters, every one in the class. */
  function MatchWhole(s: string, cls: char -> bool): bool
    decreases |s|
  {
    |s| > 0 && cls(s[0]) && (|s| == 1 || MatchWhole(s[1..], cls))
  }

  lemma {:induction false} MatchAnyIff(s: string, cls: char -> bool)
    ensures MatchAny(s, cls) <==> exists i :: 0 <= i < |s| && cls(s[i])
    decreases |s|
  {
    if |s| > 0 {
      MatchAnyIff(s[1..], cls);
      if exists i :: 0 <= i < |s| && cls(s[i]) {
        var i :| 0 <= i < |s| && cls(s[i]);
        if i > 0 {
          assert cls(s[1..][i - 1]);
        }
      }
      if MatchAny(s[1..], cls) {
        var j :| 0 <= j < |s| - 1 && cls(s[1..][j]);
        assert cls(s[j + 1]);
      }
    }
  }

  lemma {:induction false} MatchWholeIff(s: string, cls: char -> bool)
    ensures MatchWhole(s, cls) <==> |s| > 0 && forall i :: 0 <= i < |s| ==> cls(s[i])
    decreases |s|
  {
    if |s| > 1 {
      MatchWholeIff(s[1..], cls);
      if |s| > 0 && forall i :: 0 <= i < |s| ==> cls(s[i]) {
        forall j | 0 <= j < |s| - 1
          ensures cls(s[1..][j])
        {
          assert cls(s[j + 1]);
        }
      }
      if MatchWhole(s, cls) {
        forall i | 0 <= i < |s|
          ensures cls(s[i])
        {
          if i > 0 {
            assert cls(s[1..][i - 1]);
          }
        }
      }
    }
  }

  /** The number of bytes of a character in UTF-8. */
  function Utf8Width(c: char): nat {
    if c as int < 0x80 then 1 else if c as int < 0x800 then 2 else if c as int < 0x1_0000 then 3 else 4
  }

  /** `len` of a Go string: its length in UTF-8 bytes. */
  function ByteLen(s: string): nat
    decreases |s|
  {
    if |s| == 0 then 0 else Utf8Width(s[0]) + ByteLen(s[1..])
  }

  /** A string of ASCII characters has as many bytes as characters. */
  lemma {:induction false} AsciiByteLen(s: string)
    requires forall i :: 0 <= i < |s| ==> IsAllowed(s[i])
    ensures ByteLen(s) == |s|
    decreases |s|
  {
    if |s| > 0 {
      assert IsAllowed(s[0]);
      forall i | 0 <= i < |s| - 1
        ensures IsAllowed(s[1..][i])
      {
        assert IsAllowed(s[i + 1]);
      }
      AsciiByteLen(s[1..]);
    }
  }

  /** The required length: 10, or the rule's parameter read with Atoi (0 when it is no number). */
  function MinLength(param: string): int {
    if |param| > 0 then Atoi(param) else 10
  }

  /**
   * ValidatePassword on the field's string value and the rule's parameter. An accepted password
   * is made of allowed characters only, so its length in bytes is its length in characters.
   */
  function ValidatePassword(src: string, param: string): (ok: bool)
    ensures ok ==> |src| >= MinLength(param) && forall i :: 0 <= i < |src| ==> IsAllowed(src[i])
  {
    AllowedByteLen(src);
    if ByteLen(src) < MinLength(param) then false
    else if !MatchAny(src, IsLower) then false
    else if !MatchAny(src, IsUpper) then false
    else if !MatchAny(src, IsDigit) then false
    else if !MatchAny(src, IsSymbol) then false
    else if !MatchWhole(src, IsAllowed) then false
    else true
  }

  /** A string matching `^[allowed]+$` is all allowed characters, one byte each. */
  lemma AllowedByteLen(s: string)
    ensures MatchWhole(s, IsAllowed) ==> |s| > 0 && ByteLen(s) == |s| && forall i :: 0 <= i < |s| ==> IsAllowed(s[i])
  {
    MatchWholeIff(s, IsAllowed);
    if MatchWhole(s, IsAllowed) {
      AsciiByteLen(s);
    }
  }

  /**
   * A password is accepted exactly when it is at least the required number of characters long,
   * holds a lower-case letter, an upper-case letter, a digit and a symbol, and is made of allowed
   * characters only.
   */
  lemma PasswordRule(src: string, param: string)
    ensures ValidatePassword(src, param) <==>
      |src| >= MinLength(param)
      && (exists i :: 0 <= i < |src| && IsLower(src[i]))
      && (exists i :: 0 <= i < |src| && IsUpper(src[i]))
      && (exists i :: 0 <= i < |src| && IsDigit(src[i]))
      && (exists i :: 0 <= i < |src| && IsSymbol(src[i]))
      && forall i :: 0 <= i < |src| ==> IsAllowed(src[i])
  {
    MatchAnyIff(src, IsLower);
    MatchAnyIff(src, IsUpper);
    MatchAnyIff(src, IsDigit);
    MatchAnyIff(src, IsSymbol);
    MatchWholeIff(src, IsAllowed);
    if forall i :: 0 <= i < |src| ==> IsAllowed(src[i]) {
      AsciiByteLen(src);
    }
  }

  /** `Q1w2e3r4t5!!`, in pairs of characters. */
  function Password12(): string { "Q1" + "w2" + "e3" + "r4" + "t5" + "!!" }

  /** Two strings of allowed characters make one. */
  lemma AllowedAppend(a: string, b: string)
    requires forall i :: 0 <= i < |a| ==> IsAllowed(a[i])
    requires forall i :: 0 <= i < |b| ==> IsAllowed(b[i])
    ensures forall i :: 0 <= i < |a + b| ==> IsAllowed((a + b)[i])
  {
  }
  function Password11(): string { "Q1w2e3r4t5!" }

  /** `Q1w2e3r4t5!!` is made of allowed characters only. */
  lemma Password12Allowed()
    ensures forall i :: 0 <= i < |Password12()| ==> IsAllowed(Password12()[i])
  {
    AllowedAppend("Q1", "w2");
    AllowedAppend("Q1" + "w2", "e3");
    AllowedAppend("Q1" + "w2" + "e3", "r4");
    AllowedAppend("Q1" + "w2" + "e3" + "r4", "t5");
    AllowedAppend("Q1" + "w2" + "e3" + "r4" + "t5", "!!");
  }

  /** With `password=12`, the twelve-character password passes. */
  lemma PasswordTwelvePasses()
    ensures ValidatePassword(Password12(), "12")
  {
    AtoiAccepts();
    var p := Password12();
    Password12Allowed();
    assert |p| == 12;
    assert IsLower(p[2]) && IsUpper(p[0]) && IsDigit(p[1]) && IsSymbol(p[10]);
    PasswordRule(p, "12");
  }

  /** With `password=12`, the eleven-character password is one character short. */
  lemma PasswordElevenFails()
    ensures !ValidatePassword(Password11(), "12")
  {
    AtoiAccepts();
    PasswordRule(Password11(), "12");
  }

  /** A parameter that is not a number sets the length requirement to 0. */
  lemma PasswordBadParam(src: string, param: string)
    requires |param| > 0 && ParseInt64(param).None?
    ensures MinLength(param) == 0
  {
  }

  // ---------------------------------------------------------------------------------------------
  // GetJsonTag.

  /** A struct field as reflect.Type sees it: its name and its `json` tag ("" when it has none). */
  datatype FieldTag = FieldTag(name: string, json: string)

  /** The dynamic type of the value handed to the validator. */
  datatype SrcType =
    | StructType(name: string, fields: seq<FieldTag>)
    | PtrType(elem: SrcType)
    | OtherType(name: string)
    | NilType  // reflect.TypeOf(nil) is the nil Type

  /** reflect.Type.String(). */
  function TypeString(t: SrcType): string {
    match t
    case StructType(name, _) => name
    case PtrType(elem) => "*" + TypeString(elem)
    case OtherType(name) => name
    case NilType => "<nil>"
  }

  const NonStructPrefix: string := "reflect: FieldByName of non-struct type "

  function NonStructPanic(t: SrcType): string {
    NonStructPrefix + TypeString(t)
  }

  /** The json tag of the first field with that name, if there is one. */
  function TagOf(fields: seq<FieldTag>, name: string): (r: Option<string>)
    ensures r.Some? <==> exists k :: 0 <= k < |fields| && fields[k].name == name
    ensures r.Some? ==> exists k :: 0 <= k < |fields| && fields[k] == FieldTag(name, r.value)
  {
    if |fields| == 0 then None
    else if fields[0].name == name then Some(fields[0].json)
    else
      var r := TagOf(fields[1..], name);
      if r.Some? then
        var k :| 0 <= k < |fields| - 1 && fields[1..][k] == FieldTag(name, r.value);
        assert fields[k + 1] == FieldTag(name, r.value);
        r
      else
        assert forall k :: 1 <= k < |fields| ==> fields[k] == fields[1..][k - 1];
        r
  }

  /** The text before the first comma, or all of it when there is none. */
  function BeforeComma(rs: string): (r: string)
    ensures ',' !in r
    ensures |r| <= |rs| && r == rs[..|r|]
    ensures |r| < |rs| ==> rs[|r|] == ','
  {
    if ',' in rs then
      SplitHeadTail(rs, ',');
      Split(rs, ',')[0]
    else rs
  }

  /**
   * GetJsonTag: the json name of a struct field, the field name itself when the struct has no
   * such field, cut at the first comma. reflect.Type.FieldByName panics on any type that is not
   * a struct, a pointer to a struct included, and the nil Type has no methods to call.
   */
  function GetJsonTag(src: SrcType, field: string): (r: Result<string, string>)
    ensures r.Ok? <==> src.StructType?
    ensures r.Ok? ==> ',' !in r.value
  {
    match src
    case NilType => Err(NilDereference)
    case StructType(_, fields) =>
      var rs := match TagOf(fields, field) case Some(tag) => tag case None => field;
      Ok(BeforeComma(rs))
    case _ => Err(NonStructPanic(src))
  }

  /** A field that exists gives its json tag up to the first comma, options dropped. */
  lemma GetJsonTagFound(name: string, fields: seq<FieldTag>, k: nat)
    requires k < |fields| && (forall j :: 0 <= j < k ==> fields[j].name != fields[k].name)
    ensures GetJsonTag(StructType(name, fields), fields[k].name) == Ok(BeforeComma(fields[k].json))
    decreases k
  {
    if k > 0 {
      GetJsonTagFound(name, fields[1..], k - 1);
    }
  }

  /** A field name that the struct does not have comes back as it was given, cut at a comma. */
  lemma GetJsonTagMissing(name: string, fields: seq<FieldTag>, field: string)
    requires forall k :: 0 <= k < |fields| ==> fields[k].name != field
    ensures GetJsonTag(StructType(name, fields), field) == Ok(BeforeComma(field))
    ensures ',' !in field ==> GetJsonTag(StructType(name, fields), field) == Ok(field)
  {
  }

  /** A tag without a comma is returned whole; `name,omitempty` gives `name`. */
  lemma BeforeCommaExamples()
    ensures BeforeComma("name") == "name"
    ensures BeforeComma("name,omitempty") == "name"
  {
    var t := "name,omitempty";
    assert t[4] == ',' && ',' !in t[..4];
    IndexOfUnique(t, ',', 4);
    SplitHeadTail(t, ',');
  }

  /** The struct `StructTest2 { Name string `json:"name,omitempty"` }`. */
  function StructTest2(): SrcType {
    StructType("fiberextend_test.StructTest2", [FieldTag("Name", "name,omitempty")])
  }

  lemma GetJsonTagExample()
    ensures GetJsonTag(StructTest2(), "Name") == Ok("name")
  {
    BeforeCommaExamples();
  }

  // ---------------------------------------------------------------------------------------------
  // ValidationParser and SimpleValidation.

  /** What the validator reports about one failed rule: Field(), Param() and Tag(). */
  datatype FieldError = FieldError(field: string, param: string, tag: string)

  const ValidationCode: string := "E40001"

  /** The IError for one validator error, under the given field name. */
  function ValidationIError(name: string, e: FieldError): (r: IError)
    ensures r.code == ValidationCode && r.field == name && r.param == e.param
    ensures r.message == "ValidationError." + e.tag
  {
    IError(ValidationCode, name, e.param, "ValidationError." + e.tag)
  }

  /**
   * The loop of ValidationParser, with the way a field name is looked up as a parameter: one
   * IError per validator error, in order; a lookup that panics ends it.
   */
  method ParseErrors(nameOf: string -> Result<string, string>, errs: seq<FieldError>)
    returns (r: Result<seq<IError>, string>)
    ensures r.Ok? <==> forall k :: 0 <= k < |errs| ==> nameOf(errs[k].field).Ok?
    ensures r.Ok? ==> |r.value| == |errs|
    ensures r.Ok? ==> forall k :: 0 <= k < |errs| ==>
      nameOf(errs[k].field) == Ok(r.value[k].field) && r.value[k] == ValidationIError(r.value[k].field, errs[k])
    ensures r.Err? ==> exists k :: (0 <= k < |errs| && nameOf(errs[k].field) == Err(r.error)
      && forall j :: 0 <= j < k ==> nameOf(errs[j].field).Ok?)
  {
    var rs: seq<IError> := [];
    var i := 0;
    while i < |errs|
      invariant 0 <= i <= |errs| && |rs| == i
      invariant forall k :: 0 <= k < i ==>
        nameOf(errs[k].field) == Ok(rs[k].field) && rs[k] == ValidationIError(rs[k].field, errs[k])
    {
      match nameOf(errs[i].field)
      case Err(p) =>
        r := Err(p);
        assert forall j :: 0 <= j < i ==> nameOf(errs[j].field).Ok?;
        return;
      case Ok(name) =>
        rs := rs + [ValidationIError(name, errs[i])];
      i := i + 1;
    }
    r := Ok(rs);
  }

  /**
   * IFiberEx.ValidationParser: each error's field becomes its json name through GetJsonTag. On a
   * source that is not a struct value GetJsonTag panics, so any error at all is a panic.
   */
  method ValidationParser(src: SrcType, errs: seq<FieldError>) returns (r: Result<seq<IError>, string>)
    ensures r.Ok? <==> |errs| == 0 || src.StructType?
    ensures r.Err? ==> r.error == (if src.NilType? then NilDereference else NonStructPanic(src))
    ensures r.Ok? ==> |r.value| == |errs|
    ensures r.Ok? ==> forall k :: 0 <= k < |errs| ==>
      r.value[k] == ValidationIError(GetJsonTag(src, errs[k].field).value, errs[k])
  {
    r := ParseErrors(f => GetJsonTag(src, f), errs);
    if r.Err? {
      assert !src.StructType?;
    } else if |errs| > 0 {
      assert GetJsonTag(src, errs[0].field).Ok?;
    }
  }

  /** The panic in ValidationParser: a string value, as SimpleValidation hands it over. */
  lemma ValidationParserPanicsOnString(field: string)
    ensures GetJsonTag(OtherType("string"), field) == Err(NonStructPrefix + "string")
  {
  }

  /** The same panic for a pointer to a struct, as `Validation(&src)` hands it over. */
  lemma ValidationParserPanicsOnPointer(t: SrcType, field: string)
    requires t.StructType?
    ensures GetJsonTag(PtrType(t), field) == Err(NonStructPrefix + "*" + t.name)
  {
    assert TypeString(PtrType(t)) == "*" + t.name;
    assert NonStructPrefix + ("*" + t.name) == NonStructPrefix + "*" + t.name;
  }

  /** Sets `Field` on every error, in place, as the index loop of SimpleValidation does. */
  method OverwriteField(errors: array<IError>, field: string)
    modifies errors
    ensures forall k :: 0 <= k < errors.Length ==> errors[k] == old(errors[k]).(field := field)
  {
    var i := 0;
    while i < errors.Length
      invariant 0 <= i <= errors.Length
      invariant forall k :: 0 <= k < i ==> errors[k] == old(errors[k]).(field := field)
      invariant forall k :: i <= k < errors.Length ==> errors[k] == old(errors[k])
    {
      errors[i] := errors[i].(field := field);
      i := i + 1;
    }
  }

  /** The slice a method works on in place, as a fresh array with the sequence's contents. */
  method ToArray(s: seq<IError>) returns (a: array<IError>)
    ensures fresh(a) && a[..] == s
  {
    a := new IError[|s|](k requires 0 <= k < |s| => s[k]);
  }

  /**
   * IFiberEx.SimpleValidation as written, on the errors `validator.Var(src, tag)` reports (none
   * when the value is valid). A failed check on anything but a struct value panics.
   */
  method SimpleValidation(src: SrcType, errs: seq<FieldError>, field: string) returns (r: Result<seq<IError>, string>)
    ensures r.Err? <==> |errs| > 0 && !src.StructType?
    ensures r.Ok? ==> |r.value| == |errs|
    ensures r.Ok? ==> forall k :: 0 <= k < |errs| ==>
      r.value[k] == ValidationIError(field, errs[k])
  {
    var parsed := ValidationParser(src, errs);
    if parsed.Err? {
      return parsed;
    }
    var errors := ToArray(parsed.value);
    OverwriteField(errors, field);
    r := Ok(errors[..]);
  }

  // The corrected lookup: a pointer is looked through, any other type keeps the field name.

  /** The json name under which an error is reported; total on every source type. */
  function JsonFieldName(src: SrcType, field: string): (r: string)
    ensures ',' !in r
  {
    match src
    case StructType(_, fields) =>
      var rs := match TagOf(fields, field) case Some(tag) => tag case None => field;
      BeforeComma(rs)
    case PtrType(elem) => JsonFieldName(elem, field)
    case _ => BeforeComma(field)
  }

  /**
   * The corrected lookup agrees with GetJsonTag wherever GetJsonTag does not panic, and sees a
   * pointer as the type it points to.
   */
  lemma JsonFieldNameAgrees(src: SrcType, field: string)
    ensures GetJsonTag(src, field).Ok? ==> JsonFieldName(src, field) == GetJsonTag(src, field).value
    ensures src.PtrType? && src.elem.StructType? ==> JsonFieldName(src, field) == GetJsonTag(src.elem, field).value
    ensures src.OtherType? && ',' !in field ==> JsonFieldName(src, field) == field
  {
  }

  /** ValidationParser with the corrected lookup: it never panics. */
  method ValidationParserFixed(src: SrcType, errs: seq<FieldError>) returns (rs: seq<IError>)
    ensures |rs| == |errs|
    ensures forall k :: 0 <= k < |errs| ==> rs[k] == ValidationIError(JsonFieldName(src, errs[k].field), errs[k])
  {
    var r := ParseErrors(f => Ok(JsonFieldName(src, f)), errs);
    assert r.Ok?;
    rs := r.value;
  }

  /**
   * SimpleValidation with the corrected lookup: one error per failed rule, in order, each
   * reported under the given field name, on a string value as on a struct.
   */
  method SimpleValidationFixed(src: SrcType, errs: seq<FieldError>, field: string) returns (rs: seq<IError>)
    ensures |rs| == |errs|
    ensures forall k :: 0 <= k < |errs| ==> rs[k] == ValidationIError(field, errs[k])
  {
    var parsed := ValidationParserFixed(src, errs);
    var errors := ToArray(parsed);
    OverwriteField(errors, field);
    rs := errors[..];
  }
}
