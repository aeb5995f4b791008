/**
 * The scenario runner of the test harness: Run wraps a scenario body in a database transaction
 * and resets the cache and search stores afterwards; Api, Job and Exec evaluate a list of test
 * cases in order and report each one; Call assembles the HTTP request of an Api scenario.
 *
 * The database, the in-memory Redis and the Elasticsearch indices are abstract state; scenario
 * bodies, HTTP handlers, JSON path lookup and JSON marshalling are abstract functions.
 */
module Scenario {
  import opened Wrappers
  import opened Strs
  import opened Values
  import opened Utils
  import opened Assertion

  /** What a scenario can observe and change: database rows, Redis keys, Elasticsearch indices. */
  datatype Stores = Stores(rows: seq<Value>, cache: map<string, Value>, indices: set<string>)

  /** A gorm handle: a plain connection, or a transaction begun on `outer` while the rows were `snapshot`. */
  datatype DbHandle = Conn(id: nat) | Tx(outer: DbHandle, snapshot: seq<Value>)

  /**
   * gorm's Rollback, as this model takes it: a transaction's rows return to the snapshot taken
   * at Begin. Every write is assumed to go through the transaction handle.
   */
  function Rollback(h: DbHandle, rows: seq<Value>): (r: seq<Value>)
    ensures h.Tx? ==> r == h.snapshot
    ensures h.Conn? ==> r == rows
  {
    if h.Tx? then h.snapshot else rows
  }

  /** A line of the test log: `t.Logf` output, or a `t.Error` report that fails the test. */
  datatype Entry = Logged(text: string) | Errored(text: string)

  /** What a scenario body did: the stores it left, what it logged, and whether it panicked. */
  datatype BodyRun = BodyRun(stores: Stores, entries: seq<Entry>, panicked: bool)

  /** What a callback of Job left: the stores as it left them, and the panic that ended it, if any. */
  datatype Effect = Effect(stores: Stores, panic: Option<string>)

  /** What the `exec` callback of Exec did: the stores it left, the value it returned, and its panic, if any. */
  datatype Executed = Executed(stores: Stores, value: Value, panic: Option<string>)

  /**
   * What `Indices.Delete([]string{"*"})` came to: the client's error (a transport failure), and
   * whether the server deleted the indices, which the discarded response alone tells. A server
   * that refuses the wildcard answers with an error status and no client error.
   */
  datatype EsDelete = EsDelete(err: Option<string>, accepted: bool)

  /**
   * What an HTTP exchange through apitest left: the stores, the decoded JSON body, apitest's own
   * reports, and the panic that ended it, if any (the handler adapter panics when `App.Test` fails).
   */
  datatype Exchange = Exchange(stores: Stores, data: Value, reports: seq<Entry>, panic: Option<string>)

  /** What a Store or Result callback of a case came to: the value it returned, or the panic that ended it. */
  datatype Called = Called(value: Value, panic: Option<string>)

  /** IFiberExTest.It: a non-empty message is logged, an empty one is dropped. */
  function ItEntries(message: string): (es: seq<Entry>)
    ensures |message| == 0 <==> es == []
    ensures |message| > 0 ==> es == [Logged(message)]
  {
    if |message| == 0 then [] else [Logged(message)]
  }

  /** An ITestCase. Only `result` is written after construction. */
  class TestCase {
    const it: string
    const testMethod: int
    const want: Value
    const path: string
    const store: Option<Stores -> Called>
    const transform: Option<Value -> Called>
    var result: Value

    constructor (it: string, testMethod: int, want: Value, path: string,
                 store: Option<Stores -> Called>, transform: Option<Value -> Called>)
      ensures this.it == it && this.testMethod == testMethod && this.want == want && this.path == path
      ensures this.store == store && this.transform == transform && result == Nil
    {
      this.it := it;
      this.testMethod := testMethod;
      this.want := want;
      this.path := path;
      this.store := store;
      this.transform := transform;
      result := Nil;
    }

    /**
     * StoreAssert: the assertion on what Store reads now. A nil Store is a nil-function panic,
     * and a panic inside Store ends the case before any assertion.
     */
    function StoreAssert(s: Stores, env: Env): (r: Outcome)
      ensures store.None? ==> r == Defect(NilDereference)
      ensures store.Some? && store.value(s).panic.Some? ==> r == Defect(store.value(s).panic.value)
      ensures store.Some? && store.value(s).panic.None? ==> r == Assert(testMethod, want, store.value(s).value, env)
    {
      match store
      case None => Defect(NilDereference)
      case Some(f) =>
        var c := f(s);
        if c.panic.Some? then Defect(c.panic.value) else Assert(testMethod, want, c.value, env)
    }

    /**
     * ResultAssert: the assertion on the stored `result`. It only delegates to Assert; what the
     * verdict means is stated by Assert's lemmas.
     */
    function ResultAssert(env: Env): (r: Outcome)
      reads this
      ensures r == Assert(testMethod, want, result, env)
    {
      Assert(testMethod, want, result, env)
    }
  }

  const LabelOpen: string := "[Case"
  const LabelDot: string := ". "
  const LabelClose: string := "]"
  const OkSuffix: string := " ok"

  /** The label `[Case<i+1>. <it>]` of the i-th case. */
  function CaseLabel(i: nat, it: string): string {
    LabelOpen + NatToString(i + 1) + LabelDot + it + LabelClose
  }

  /** The report of a case that did not panic: `<label> ok`, or an error `<label> <message>`. */
  function CaseEntry(i: nat, it: string, o: Outcome): (e: Entry)
    requires !o.Defect?
    ensures e.Errored? <==> o.Fail?
  {
    if o.Fail? then Errored(CaseLabel(i, it) + " " + o.message) else Logged(CaseLabel(i, it) + OkSuffix)
  }

  /** Every report starts with its case's label. */
  lemma CaseEntryLabelled(i: nat, it: string, o: Outcome)
    requires !o.Defect?
    ensures HasPrefix(CaseEntry(i, it, o).text, CaseLabel(i, it))
  {
    var lab := CaseLabel(i, it);
    var e := CaseEntry(i, it, o);
    assert e.text[..|lab|] == lab;
  }

  /** How many cases complete before a panic ends the loop: the length of the defect-free prefix. */
  function Settled(outs: seq<Outcome>): (n: nat)
    ensures n <= |outs|
    ensures forall k :: 0 <= k < n ==> !outs[k].Defect?
    ensures n < |outs| ==> outs[n].Defect?
  {
    if |outs| == 0 || outs[0].Defect? then 0 else 1 + Settled(outs[1..])
  }

  /** A case that does not panic, reached without a panic, is not the last to settle. */
  lemma SettledPast(outs: seq<Outcome>, i: nat)
    requires i <= Settled(outs) && i < |outs| && !outs[i].Defect?
    ensures i + 1 <= Settled(outs)
  {
  }

  /** The reports of the first `n` cases, in order. */
  function Reports(its: seq<string>, outs: seq<Outcome>, n: nat): seq<Entry>
    requires |its| == |outs| && n <= |outs|
    requires forall k :: 0 <= k < n ==> !outs[k].Defect?
  {
    if n == 0 then [] else Reports(its, outs, n - 1) + [CaseEntry(n - 1, its[n - 1], outs[n - 1])]
  }

  /** The reports of the cases before `i`, extended by that of case `i`, which settled. */
  method AppendReport(entries: seq<Entry>, cases: seq<TestCase>, ghost outs: seq<Outcome>, i: nat, o: Outcome)
    returns (next: seq<Entry>)
    requires |outs| == |cases| && i < Settled(outs) && o == outs[i]
    requires entries == Reports(Labels(cases), outs, i)
    ensures next == Reports(Labels(cases), outs, i + 1)
  {
    next := entries + [CaseEntry(i, cases[i].it, o)];
  }

  /** One report per case, the k-th for the k-th case, so a failure never displaces a later report. */
  lemma {:induction false} ReportsInOrder(its: seq<string>, outs: seq<Outcome>, n: nat)
    requires |its| == |outs| && n <= |outs|
    requires forall k :: 0 <= k < n ==> !outs[k].Defect?
    ensures |Reports(its, outs, n)| == n
    ensures forall k :: 0 <= k < n ==> Reports(its, outs, n)[k] == CaseEntry(k, its[k], outs[k])
  {
    if n > 0 {
      ReportsInOrder(its, outs, n - 1);
    }
  }

  /**
   * Without a panic every case is reported, numbered from 1, and a report is an error exactly
   * when its case failed.
   */
  lemma NoShortCircuit(its: seq<string>, outs: seq<Outcome>)
    requires |its| == |outs|
    requires forall k :: 0 <= k < |outs| ==> !outs[k].Defect?
    ensures Settled(outs) == |outs|
    ensures |Reports(its, outs, Settled(outs))| == |outs|
    ensures forall k :: 0 <= k < |outs| ==>
      (Reports(its, outs, |outs|)[k].Errored? <==> outs[k].Fail?)
      && HasPrefix(Reports(its, outs, |outs|)[k].text, CaseLabel(k, its[k]))
  {
    ReportsInOrder(its, outs, |outs|);
    forall k | 0 <= k < |outs|
      ensures HasPrefix(Reports(its, outs, |outs|)[k].text, CaseLabel(k, its[k]))
    {
      CaseEntryLabelled(k, its[k], outs[k]);
    }
  }

  /** A panicking case ends the loop: it and every later case go unreported. */
  lemma DefectStops(its: seq<string>, outs: seq<Outcome>, d: nat)
    requires |its| == |outs| && d < |outs| && outs[d].Defect?
    ensures Settled(outs) <= d
    ensures |Reports(its, outs, Settled(outs))| <= d
  {
    ReportsInOrder(its, outs, Settled(outs));
  }

  function Labels(cases: seq<TestCase>): (its: seq<string>)
    ensures |its| == |cases| && forall k :: 0 <= k < |cases| ==> its[k] == cases[k].it
  {
    seq(|cases|, k requires 0 <= k < |cases| => cases[k].it)
  }

  /** How a panic ends a loop of cases: the first defect's reason, if there is one. */
  function PanicOf(outs: seq<Outcome>): (p: Option<string>)
    ensures p.None? <==> Settled(outs) == |outs|
  {
    if Settled(outs) < |outs| then Some(outs[Settled(outs)].reason) else None
  }

  /** In Api, a case with a Path asserts on the JSON path of the response, any other on Store. */
  function ApiOutcome(c: TestCase, data: Value, s: Stores, env: Env, jsonPath: (Value, string) -> Value): Outcome {
    if |c.path| > 0 then Assert(c.testMethod, c.want, jsonPath(data, c.path), env) else c.StoreAssert(s, env)
  }

  function ApiOutcomes(cases: seq<TestCase>, data: Value, s: Stores, env: Env, jsonPath: (Value, string) -> Value): (outs: seq<Outcome>)
    ensures |outs| == |cases| && forall k :: 0 <= k < |cases| ==> outs[k] == ApiOutcome(cases[k], data, s, env, jsonPath)
  {
    seq(|cases|, k requires 0 <= k < |cases| => ApiOutcome(cases[k], data, s, env, jsonPath))
  }

  function StoreOutcomes(cases: seq<TestCase>, s: Stores, env: Env): (outs: seq<Outcome>)
    ensures |outs| == |cases| && forall k :: 0 <= k < |cases| ==> outs[k] == cases[k].StoreAssert(s, env)
  {
    seq(|cases|, k requires 0 <= k < |cases| => cases[k].StoreAssert(s, env))
  }

  /**
   * The value Exec stores in a case's `result`: StructPath of the executed value when the case
   * has a Path, its Result function applied to it otherwise. There is no value when that
   * function is nil (a nil-function panic) or panics itself.
   */
  function ExecValue(c: TestCase, rs: Value): (r: Result<Value, string>)
    ensures |c.path| > 0 ==> r == Ok(StructPath(rs, c.path))
    ensures |c.path| == 0 && c.transform.None? ==> r == Err(NilDereference)
    ensures |c.path| == 0 && c.transform.Some? ==>
      (r.Err? <==> c.transform.value(rs).panic.Some?)
      && (r.Ok? ==> r.value == c.transform.value(rs).value)
      && (r.Err? ==> r.error == c.transform.value(rs).panic.value)
  {
    if |c.path| > 0 then Ok(StructPath(rs, c.path))
    else match c.transform
      case None => Err(NilDereference)
      case Some(f) =>
        var x := f(rs);
        if x.panic.Some? then Err(x.panic.value) else Ok(x.value)
  }

  function ExecOutcome(c: TestCase, rs: Value, env: Env): Outcome {
    match ExecValue(c, rs)
    case Err(reason) => Defect(reason)
    case Ok(v) => Assert(c.testMethod, c.want, v, env)
  }

  /**
   * How many cases Exec writes a result into when `n` cases settle: one more than `n` when the
   * case that panics got a result (its assertion panicked, not its Result function).
   */
  function Written(cases: seq<TestCase>, rs: Value, n: nat): (w: nat)
    requires n <= |cases|
    ensures n <= w <= |cases|
  {
    if n < |cases| && ExecValue(cases[n], rs).Ok? then n + 1 else n
  }

  /** The outcome of each case of Exec, in order, were the loop to reach it. */
  function ExecOutcomes(cases: seq<TestCase>, rs: Value, env: Env): (outs: seq<Outcome>)
    ensures |outs| == |cases|
  {
    if |cases| == 0 then [] else [ExecOutcome(cases[0], rs, env)] + ExecOutcomes(cases[1..], rs, env)
  }

  /** The k-th outcome is that of the k-th case. */
  lemma {:induction false} ExecOutcomesAt(cases: seq<TestCase>, rs: Value, env: Env, k: nat)
    requires k < |cases|
    ensures ExecOutcomes(cases, rs, env)[k] == ExecOutcome(cases[k], rs, env)
  {
    if k > 0 {
      ExecOutcomesAt(cases[1..], rs, env, k - 1);
    }
  }

  /** The HTTP verbs apitest offers. */
  datatype Verb = Get | Post | Patch | Put | Delete

  /** Call's dispatch: the four named methods, and GET for anything else. */
  function VerbOf(m: string): Verb {
    if m == "POST" then Post
    else if m == "PATCH" then Patch
    else if m == "PUT" then Put
    else if m == "DELETE" then Delete
    else Get
  }

  function VerbName(v: Verb): string {
    match v
    case Get => "GET"
    case Post => "POST"
    case Patch => "PATCH"
    case Put => "PUT"
    case Delete => "DELETE"
  }

  /** Every verb is reached from its own name. */
  lemma VerbRoundTrip(v: Verb)
    ensures VerbOf(VerbName(v)) == v
  {
  }

  /** GET is the fallback: a method string not among POST, PATCH, PUT and DELETE gives GET. */
  lemma VerbFallback(m: string)
    ensures VerbOf(m) == Get <==> m != "POST" && m != "PATCH" && m != "PUT" && m != "DELETE"
  {
  }

  /** An ITestRequest. `query == None` is a nil `*map[string]string`. */
  datatype TestRequest = TestRequest(
    httpMethod: string, path: string, headers: map<string, string>, body: Value,
    query: Option<map<string, string>>)

  /** The request Call hands to apitest. Headers are in the order they were added. */
  datatype Built = Built(
    verb: Verb, path: string, headers: seq<(string, string)>, body: Option<string>,
    query: Option<map<string, string>>)

  /** ITestRequest.ToString: a string body as-is, anything else marshalled to JSON, "" if that fails. */
  function BodyText(body: Value, marshal: Value -> Option<string>): (t: string)
    ensures body.Str? ==> t == body.s
    ensures !body.Str? ==> t == (if marshal(body).Some? then marshal(body).value else "")
  {
    match body
    case Str(s) => s
    case _ => if marshal(body).Some? then marshal(body).value else ""
  }

  /** `hs` lists every entry of `m` exactly once, in some order. */
  ghost predicate ListsHeaders(hs: seq<(string, string)>, m: map<string, string>) {
    |hs| == |m|
    && (forall k :: 0 <= k < |hs| ==> hs[k].0 in m && m[hs[k].0] == hs[k].1)
    && (forall k, l :: 0 <= k < l < |hs| ==> hs[k].0 != hs[l].0)
  }

  /**
   * ITestRequest.Call: the verb from the method name, Content-Type application/json first, then
   * every header of the request in map iteration order, a body only for a non-nil Body, query
   * parameters only for a non-nil Query.
   */
  method Call(r: TestRequest, marshal: Value -> Option<string>) returns (b: Built)
    ensures b.verb == VerbOf(r.httpMethod) && b.path == r.path
    ensures |b.headers| >= 1 && b.headers[0] == ("Content-Type", "application/json")
    ensures ListsHeaders(b.headers[1..], r.headers)
    ensures forall key :: key in r.headers ==> exists k :: 1 <= k < |b.headers| && b.headers[k] == (key, r.headers[key])
    ensures b.body == (if r.body.Nil? then None else Some(BodyText(r.body, marshal)))
    ensures b.query == r.query
  {
    var rest := HeaderEntries(r.headers);
    var headers := [("Content-Type", "application/json")] + rest;
    assert headers[1..] == rest;
    forall key | key in r.headers
      ensures exists k :: 1 <= k < |headers| && headers[k] == (key, r.headers[key])
    {
      var k :| 0 <= k < |rest| && rest[k] == (key, r.headers[key]);
      assert headers[k + 1] == rest[k];
    }
    var body := if r.body.Nil? then None else Some(BodyText(r.body, marshal));
    b := Built(VerbOf(r.httpMethod), r.path, headers, body, r.query);
  }

  /** The loop of Call over the request headers: each entry of the map once, in iteration order. */
  method HeaderEntries(m: map<string, string>) returns (hs: seq<(string, string)>)
    ensures ListsHeaders(hs, m)
    ensures forall key :: key in m ==> exists k :: 0 <= k < |hs| && hs[k] == (key, m[key])
  {
    hs := [];
    var rest := m;
    while rest != map[]
      invariant rest.Keys <= m.Keys
      invariant forall key :: key in rest ==> rest[key] == m[key]
      invariant |hs| + |rest| == |m|
      invariant forall k :: 0 <= k < |hs| ==> hs[k].0 in m && hs[k].0 !in rest && m[hs[k].0] == hs[k].1
      invariant forall k, l :: 0 <= k < l < |hs| ==> hs[k].0 != hs[l].0
      invariant forall key :: key in m && key !in rest ==> exists k :: 0 <= k < |hs| && hs[k] == (key, m[key])
      decreases |rest|
    {
      var key :| key in rest;
      ghost var prev := hs;
      hs := hs + [(key, rest[key])];
      rest := rest - {key};
      assert hs[|hs| - 1] == (key, m[key]);
      forall k | 0 <= k < |prev|
        ensures hs[k] == prev[k]
      {
      }
    }
  }

  /** One case of Exec: the case's `result` receives its value, then is asserted on. */
  method ExecCase(c: TestCase, rs: Value, env: Env) returns (o: Outcome)
    modifies c
    ensures o == ExecOutcome(c, rs, env)
    ensures c.result == (if ExecValue(c, rs).Ok? then ExecValue(c, rs).value else old(c.result))
  {
    var v := ExecValue(c, rs);
    if v.Err? {
      return Defect(v.error);
    }
    c.result := v.value;
    o := c.ResultAssert(env);
  }

  /** One case of Api: on the JSON path of the response when it has a Path, on Store otherwise. */
  method ApiCase(c: TestCase, data: Value, s: Stores, env: Env, jsonPath: (Value, string) -> Value) returns (err: Outcome)
    ensures err == ApiOutcome(c, data, s, env, jsonPath)
  {
    if |c.path| > 0 {
      err := Assert(c.testMethod, c.want, jsonPath(data, c.path), env);
    } else {
      err := c.StoreAssert(s, env);
    }
  }

  /**
   * The loop of Api: each case in order is asserted on the JSON path of the response when it has
   * a Path and on Store otherwise; the reports come back in order and the first panic ends the loop.
   */
  method ApiCases(cases: seq<TestCase>, data: Value, s: Stores, env: Env, jsonPath: (Value, string) -> Value)
    returns (entries: seq<Entry>, panic: Option<string>)
    ensures var outs := ApiOutcomes(cases, data, s, env, jsonPath);
      panic == PanicOf(outs) && entries == Reports(Labels(cases), outs, Settled(outs))
  {
    ghost var outs := ApiOutcomes(cases, data, s, env, jsonPath);
    entries := [];
    var i := 0;
    while i < |cases|
      invariant 0 <= i <= Settled(outs)
      invariant entries == Reports(Labels(cases), outs, i)
    {
      var err := ApiCase(cases[i], data, s, env, jsonPath);
      assert err == outs[i];
      if err.Defect? {
        assert i == Settled(outs);
        return entries, Some(err.reason);
      }
      SettledPast(outs, i);
      entries := AppendReport(entries, cases, outs, i, err);
      i := i + 1;
    }
    assert i == Settled(outs);
    panic := None;
  }

  /** The loop of Job: each case in order is asserted on Store, as in ApiCases. */
  method StoreCases(cases: seq<TestCase>, s: Stores, env: Env) returns (entries: seq<Entry>, panic: Option<string>)
    ensures var outs := StoreOutcomes(cases, s, env);
      panic == PanicOf(outs) && entries == Reports(Labels(cases), outs, Settled(outs))
  {
    ghost var outs := StoreOutcomes(cases, s, env);
    entries := [];
    var i := 0;
    while i < |cases|
      invariant 0 <= i <= Settled(outs)
      invariant entries == Reports(Labels(cases), outs, i)
    {
      var err := cases[i].StoreAssert(s, env);
      if err.Defect? {
        assert i == Settled(outs);
        return entries, Some(err.reason);
      }
      SettledPast(outs, i);
      entries := AppendReport(entries, cases, outs, i, err);
      i := i + 1;
    }
    assert i == Settled(outs);
    panic := None;
  }

  /** The cases before `w` hold the value Exec computes for them. */
  ghost predicate ResultsWritten(cases: seq<TestCase>, rs: Value, w: nat)
    reads cases
  {
    forall k :: 0 <= k < w && k < |cases| ==> ExecValue(cases[k], rs) == Ok(cases[k].result)
  }

  /** The cases from `w` on that are not among the first `w` objects still hold their results from `before`. */
  ghost predicate ResultsKept(cases: seq<TestCase>, before: seq<Value>, w: nat)
    reads cases
  {
    |before| == |cases|
    && forall k :: w <= k < |cases| && cases[k] !in cases[..w] ==> cases[k].result == before[k]
  }

  /**
   * Case `i` of the Exec loop. Given that the cases before it hold their values and the cases
   * not reached yet hold their results from `before`, it writes case `i` when its value can be
   * computed, and the same then holds one case further; a case whose Result function is nil is
   * left as it was.
   */
  method ExecStep(cases: seq<TestCase>, i: nat, rs: Value, env: Env, ghost outs: seq<Outcome>, ghost before: seq<Value>)
    returns (o: Outcome)
    requires i < |cases| && outs == ExecOutcomes(cases, rs, env)
    requires ResultsWritten(cases, rs, i) && ResultsKept(cases, before, i)
    modifies cases[i]
    ensures o == outs[i]
    ensures !o.Defect? ==> Written(cases, rs, i) == i + 1
    ensures ResultsWritten(cases, rs, Written(cases, rs, i)) && ResultsKept(cases, before, Written(cases, rs, i))
  {
    var c := cases[i];
    assert cases[..i + 1] == cases[..i] + [c];
    label Before:
    o := ExecCase(c, rs, env);
    ExecOutcomesAt(cases, rs, env, i);
    ghost var v := ExecValue(c, rs);
    ghost var w := if v.Ok? then i + 1 else i;
    forall k | 0 <= k < w
      ensures ExecValue(cases[k], rs) == Ok(cases[k].result)
    {
      if cases[k] == c {
        if k < i {
          assert v == Ok(old@Before(c.result));
        }
        assert v.Ok? && c.result == v.value;
      } else {
        assert cases[k].result == old@Before(cases[k].result);
      }
    }
    forall k | w <= k < |cases| && cases[k] !in cases[..w]
      ensures cases[k].result == before[k]
    {
      assert cases[k] !in cases[..i];
      assert cases[k].result == old@Before(cases[k].result);
    }
  }

  /**
   * Exec's loop after its first `i` cases: the reports of those cases in order, each of them
   * holding its value, and the cases not reached yet holding their results from `before`.
   */
  ghost predicate ExecLoopAt(cases: seq<TestCase>, rs: Value, env: Env, before: seq<Value>, entries: seq<Entry>, i: nat)
    reads cases
  {
    var outs := ExecOutcomes(cases, rs, env);
    i <= Settled(outs) && entries == Reports(Labels(cases), outs, i)
    && ResultsWritten(cases, rs, i) && ResultsKept(cases, before, i)
  }

  /**
   * Exec's loop when it ends: the settled cases reported in order, the first panic returned,
   * every case written that Written counts, the others holding their results from `before`.
   */
  ghost predicate ExecLoopDone(cases: seq<TestCase>, rs: Value, env: Env, before: seq<Value>, entries: seq<Entry>,
                               panic: Option<string>)
    reads cases
  {
    var outs := ExecOutcomes(cases, rs, env);
    var w := Written(cases, rs, Settled(outs));
    && panic == PanicOf(outs)
    && entries == Reports(Labels(cases), outs, Settled(outs))
    && ResultsWritten(cases, rs, w) && ResultsKept(cases, before, w)
  }

  /**
   * The loop of Exec: each case in order stores in `result` StructPath of the executed value
   * (with a Path) or its Result function of it (without), then is asserted on that result; the
   * reports come back in order and the first panic ends the loop. The cases it does not reach
   * keep the results `before` records for them on entry.
   */
  method ExecCases(rs: Value, cases: seq<TestCase>, env: Env, ghost before: seq<Value>)
    returns (entries: seq<Entry>, panic: Option<string>)
    requires |before| == |cases| && forall k :: 0 <= k < |cases| ==> before[k] == cases[k].result
    modifies cases
    ensures ExecLoopDone(cases, rs, env, before, entries, panic)
  {
    ghost var outs := ExecOutcomes(cases, rs, env);
    entries := [];
    var i := 0;
    while i < |cases|
      invariant ExecLoopAt(cases, rs, env, before, entries, i)
    {
      var o := ExecStep(cases, i, rs, env, outs, before);
      if o.Defect? {
        assert i == Settled(outs);
        return entries, Some(o.reason);
      }
      SettledPast(outs, i);
      entries := AppendReport(entries, cases, outs, i, o);
      i := i + 1;
    }
    assert i == Settled(outs);
    panic := None;
  }

  /** IFiberExTest: the harness around one application instance. */
  class FiberExTest {
    const useDB: bool
    const useRedis: bool
    const useES: bool
    var db: DbHandle
    var stores: Stores
    var log: seq<Entry>

    constructor (useDB: bool, useRedis: bool, useES: bool, db: DbHandle, stores: Stores)
      ensures this.useDB == useDB && this.useRedis == useRedis && this.useES == useES
      ensures this.db == db && this.stores == stores && log == []
    {
      this.useDB := useDB;
      this.useRedis := useRedis;
      this.useES := useES;
      this.db := db;
      this.stores := stores;
      log := [];
    }

    /** IFiberExTest.It. The caller's `file:line: ` prefix is not modelled. */
    method It(message: string)
      modifies this
      ensures log == old(log) + ItEntries(message)
      ensures db == old(db) && stores == old(stores)
    {
      if |message| == 0 {
        return;
      }
      log := log + [Logged(message)];
    }

    /**
     * IFiberExTest.Run. With UseDB the body runs on a transaction begun on the current handle;
     * afterwards the transaction is rolled back, which restores the rows, and the saved handle
     * comes back. With UseRedis the cache is flushed; with UseES the indices are gone when the
     * server accepted the delete, and a client error is reported, whatever the server answered.
     * Nothing defers the cleanup, so a panicking body skips all of it.
     */
    method Run(it: string, body: (DbHandle, Stores) -> BodyRun, esDelete: EsDelete) returns (panicked: bool)
      modifies this
      ensures var h := if useDB then Tx(old(db), old(stores.rows)) else old(db);
        var b := body(h, old(stores));
        && panicked == b.panicked
        && db == (if b.panicked then h else old(db))
        && stores.rows == (if useDB && !b.panicked then old(stores.rows) else b.stores.rows)
        && stores.cache == (if useRedis && !b.panicked then map[] else b.stores.cache)
        && stores.indices == (if useES && !b.panicked && esDelete.accepted then {} else b.stores.indices)
        && log == old(log) + ItEntries(it) + b.entries
                  + (if useES && !b.panicked && esDelete.err.Some? then [Errored(esDelete.err.value)] else [])
    {
      It(it);
      var saved := db;
      if useDB {
        db := Tx(db, stores.rows);
      }
      var b := body(db, stores);
      stores := b.stores;
      log := log + b.entries;
      if b.panicked {
        return true;
      }
      if useDB {
        stores := stores.(rows := Rollback(db, stores.rows));
        db := saved;
      }
      if useRedis {
        stores := stores.(cache := map[]);
      }
      if useES {
        if esDelete.accepted {
          stores := stores.(indices := {});
        }
        if esDelete.err.Some? {
          log := log + [Errored(esDelete.err.value)];
        }
      }
      return false;
    }

    /**
     * IFiberExTest.Api: the request goes through the application, then every case is asserted in
     * order, on the JSON path of the response when it has a Path and on Store otherwise. A panic
     * in the exchange ends Api before any case.
     */
    method Api(message: string, request: TestRequest, status: int, cases: seq<TestCase>, env: Env,
               marshal: Value -> Option<string>, exchange: (Built, int, Stores) -> Exchange,
               jsonPath: (Value, string) -> Value)
      returns (built: Built, panic: Option<string>)
      modifies this
      ensures built.verb == VerbOf(request.httpMethod) && |built.headers| >= 1 && built.headers[0] == ("Content-Type", "application/json")
      ensures built.path == request.path && ListsHeaders(built.headers[1..], request.headers)
      ensures built.body == (if request.body.Nil? then None else Some(BodyText(request.body, marshal))) && built.query == request.query
      ensures var x := exchange(built, status, old(stores));
        var outs := ApiOutcomes(cases, x.data, x.stores, env, jsonPath);
        && stores == x.stores && db == old(db)
        && (x.panic.Some? ==> panic == x.panic && log == old(log) + ItEntries(message) + x.reports)
        && (x.panic.None? ==>
              panic == PanicOf(outs)
              && log == old(log) + ItEntries(message) + x.reports + Reports(Labels(cases), outs, Settled(outs)))
    {
      It(message);
      built := Call(request, marshal);
      var x := exchange(built, status, stores);
      stores := x.stores;
      log := log + x.reports;
      if x.panic.Some? {
        return built, x.panic;
      }
      var entries;
      entries, panic := ApiCases(cases, x.data, stores, env, jsonPath);
      log := log + entries;
    }

    /**
     * IFiberExTest.Job: `before`, then the job, then every case asserted on Store, in order. A
     * panic in `before` or in the job ends Job there, with the stores as the callback left them.
     */
    method Job(it: string, before: Stores -> Effect, job: Stores -> Effect, cases: seq<TestCase>, env: Env)
      returns (panic: Option<string>)
      modifies this
      ensures var b := before(old(stores));
        var j := job(b.stores);
        var outs := StoreOutcomes(cases, j.stores, env);
        && db == old(db)
        && (b.panic.Some? ==> stores == b.stores && panic == b.panic && log == old(log) + ItEntries(it))
        && (b.panic.None? && j.panic.Some? ==> stores == j.stores && panic == j.panic && log == old(log) + ItEntries(it))
        && (b.panic.None? && j.panic.None? ==>
              stores == j.stores && panic == PanicOf(outs)
              && log == old(log) + ItEntries(it) + Reports(Labels(cases), outs, Settled(outs)))
    {
      It(it);
      var b := before(stores);
      stores := b.stores;
      if b.panic.Some? {
        return b.panic;
      }
      var j := job(stores);
      stores := j.stores;
      if j.panic.Some? {
        return j.panic;
      }
      var entries;
      entries, panic := StoreCases(cases, stores, env);
      log := log + entries;
    }

    /**
     * IFiberExTest.Exec: the executed value is computed once, then the cases run in order as
     * ExecCases describes, and their reports go to the log. A panic in `exec` ends Exec before
     * any case runs, with the stores as `exec` left them.
     */
    method Exec(it: string, exec: Stores -> Executed, cases: seq<TestCase>, env: Env) returns (panic: Option<string>)
      modifies this, cases
      ensures var x := exec(old(stores));
        var outs := ExecOutcomes(cases, x.value, env);
        var w := Written(cases, x.value, Settled(outs));
        && stores == x.stores && db == old(db)
        && (x.panic.Some? ==>
              panic == x.panic && log == old(log) + ItEntries(it)
              && forall c :: c in cases ==> c.result == old(c.result))
        && (x.panic.None? ==>
              panic == PanicOf(outs)
              && log == old(log) + ItEntries(it) + Reports(Labels(cases), outs, Settled(outs))
              && (forall k :: 0 <= k < w ==> ExecValue(cases[k], x.value) == Ok(cases[k].result))
              && (forall c :: c in cases && c !in cases[..w] ==> c.result == old(c.result)))
    {
      It(it);
      var x := exec(stores);
      stores := x.stores;
      if x.panic.Some? {
        return x.panic;
      }
      ghost var before := seq(|cases|, k requires 0 <= k < |cases| reads cases => cases[k].result);
      var entries;
      entries, panic := ExecCases(x.value, cases, env, before);
      log := log + entries;
    }
  }
}
