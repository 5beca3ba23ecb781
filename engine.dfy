/** The helpers of `ValidationEngine` (src/validation_engine.py): filling a
    path template from test data, the request arguments and their
    defaults, the rule for which validators run on a response, and the run
    summary. Sending requests and the per-endpoint orchestration are not
    part of the model. */
module Engine {
  import opened Wrappers
  import opened JsonTree
  import opened Results
  import Text
  import OpenApi
  import SchemaValidation

  // ------------------------------------------------------------ str(value)

  /** `", ".join(parts)` */
  function JoinComma(parts: seq<string>): string
    decreases |parts|
  {
    if parts == [] then ""
    else if |parts| == 1 then parts[0]
    else parts[0] + ", " + JoinComma(parts[1..])
  }

  /** `repr(value)`; strings are quoted with `'` and not escaped. */
  function Repr(v: Json): string
    decreases v
  {
    match v
    case Null => "None"
    case Bool(b) => if b then "True" else "False"
    case Int(i) => Text.IntToString(i)
    case Str(s) => "'" + s + "'"
    case Arr(items) =>
      "[" + JoinComma(seq(|items|, k requires 0 <= k < |items| => Repr(items[k]))) + "]"
    case Obj(ms) =>
      "{" + JoinComma(seq(|ms|, k requires 0 <= k < |ms| => "'" + ms[k].0 + "': " + Repr(ms[k].1))) + "}"
  }

  /** `str(value)`: a string is itself, everything else is its `repr`. */
  function PyStr(v: Json): (s: string)
    ensures v.Str? ==> s == v.s
    ensures v.Int? ==> s == Text.IntToString(v.i)
    ensures v.Null? ==> s == "None"
  {
    if v.Str? then v.s else Repr(v)
  }

  // ------------------------------------------------------------ path parameters

  /** `f'{{{name}}}'`: the placeholder a path template uses for `name`. */
  function Token(name: string): (t: string)
    ensures |t| == |name| + 2 && t[0] == '{' && t[|t| - 1] == '}'
    ensures t[1..|t| - 1] == name
  {
    "{" + name + "}"
  }

  /** The path after replacing, parameter by parameter in the order given,
      every placeholder of that parameter by the text of its value. */
  function Substituted(path: string, params: Members): string
    decreases |params|
  {
    if params == [] then path
    else
      var n := |params| - 1;
      Text.ReplaceAll(Substituted(path, params[..n]), Token(params[n].0), PyStr(params[n].1))
  }

  /** Test data is absent (`None`) or a dictionary whose `path_params`, when
      present, is a dictionary too. */
  predicate TestDataShaped(testData: Json) {
    && (testData.Null? || testData.Obj?)
    && (testData.Obj? ==>
          match Get(testData.members, "path_params") case None => true case Some(p) => p.Obj?)
  }

  /** The parameters `_replace_path_parameters` substitutes, or `None` when
      it returns the path untouched. */
  function PathParams(testData: Json): (r: Option<Members>)
    requires TestDataShaped(testData)
    ensures !Truthy(testData) ==> r.None?
    ensures r.Some? <==> Truthy(testData) && Get(testData.members, "path_params").Some?
    ensures r.Some? ==> r.value == Get(testData.members, "path_params").value.members
  {
    if !Truthy(testData) then None
    else match Get(testData.members, "path_params")
      case None => None
      case Some(p) => Some(p.members)
  }

  /** `_replace_path_parameters` */
  method ReplacePathParameters(path: string, testData: Json) returns (finalPath: string)
    requires TestDataShaped(testData)
    ensures PathParams(testData).None? ==> finalPath == path
    ensures PathParams(testData).Some? ==> finalPath == Substituted(path, PathParams(testData).value)
  {
    var supplied := PathParams(testData);
    if supplied.None? {
      return path;
    }
    var params := supplied.value;
    finalPath := path;
    var k := 0;
    while k < |params|
      invariant 0 <= k <= |params|
      invariant finalPath == Substituted(path, params[..k])
    {
      var (name, value) := params[k];
      assert params[..k + 1][..k] == params[..k];
      finalPath := Text.ReplaceAll(finalPath, Token(name), PyStr(value));
      k := k + 1;
    }
    assert params[..|params|] == params;
  }

  /** A template none of whose supplied placeholders occurs comes back
      unchanged: unknown placeholders are left as they are. */
  lemma {:induction false} NoPlaceholderNoChange(path: string, params: Members)
    requires forall k :: 0 <= k < |params| ==> !Text.Contains(path, Token(params[k].0))
    ensures Substituted(path, params) == path
    decreases |params|
  {
    if params != [] {
      var n := |params| - 1;
      NoPlaceholderNoChange(path, params[..n]);
      Text.ReplaceAbsent(path, Token(params[n].0), PyStr(params[n].1));
    }
  }

  /** A parameter whose placeholder no longer occurs changes nothing. */
  lemma AbsentParameterIgnored(path: string, params: Members, name: string, value: Json)
    requires !Text.Contains(Substituted(path, params), Token(name))
    ensures Substituted(path, params + [(name, value)]) == Substituted(path, params)
  {
    assert (params + [(name, value)])[..|params|] == params;
    Text.ReplaceAbsent(Substituted(path, params), Token(name), PyStr(value));
  }

  /** `/orders/{id}` with `id = 42` becomes `/orders/42`. */
  lemma OrderExample()
    ensures Substituted("/orders/{id}", [("id", Int(42))]) == "/orders/42"
  {
    var a := "/orders/";
    var token := Token("id");
    assert token == "{id}";
    forall i | 0 <= i < |a| ensures !Text.IsPrefix(token, a[i..] + token + "") {
      assert (a[i..] + token + "")[0] == a[i] != '{';
    }
    Text.ReplaceFirst(a, "", token, "42");
    assert Text.IntToString(42) == "42" by {
      assert Text.NatToString(4) == "4";
      assert Text.NatToString(42) == Text.NatToString(4) + [Text.DigitChar(2)];
    }
    var params: Members := [("id", Int(42))];
    assert params[..0] == [];
    assert a + token + "" == "/orders/{id}";
    assert a + "42" + Text.ReplaceAll("", token, "42") == "/orders/42";
  }

  // ------------------------------------------------------------ request arguments

  datatype RequestArgs = RequestArgs(params: Json, json: Json, headers: Json)

  /** The query parameters, JSON body and headers `_make_request` sends:
      taken from the test data, each defaulting on its own. */
  function RequestArguments(testData: Json): (a: RequestArgs)
    requires testData.Null? || testData.Obj?
    ensures !Truthy(testData) ==> a == RequestArgs(Obj([]), Null, Obj([]))
    ensures Truthy(testData) ==>
              && a.params == GetOr(testData.members, "params", Obj([]))
              && a.json == GetOr(testData.members, "json", Null)
              && a.headers == GetOr(testData.members, "headers", Obj([]))
  {
    if Truthy(testData) then
      RequestArgs(GetOr(testData.members, "params", Obj([])),
                  GetOr(testData.members, "json", Null),
                  GetOr(testData.members, "headers", Obj([])))
    else RequestArgs(Obj([]), Null, Obj([]))
  }

  /** A key the test data leaves out takes its default. */
  lemma MissingKeysDefault(testData: Json)
    requires testData.Null? || testData.Obj?
    ensures var a := RequestArguments(testData);
            && (!testData.Obj? || Get(testData.members, "params").None? ==> a.params == Obj([]))
            && (!testData.Obj? || Get(testData.members, "json").None? ==> a.json == Null)
            && (!testData.Obj? || Get(testData.members, "headers").None? ==> a.headers == Obj([]))
  {
  }

  /** What `_make_request` hands to the HTTP client. */
  datatype Request = Request(verb: string, endpoint: string, args: RequestArgs)

  /** `_make_request`, up to the call into the HTTP client. */
  method MakeRequest(path: string, verb: string, testData: Json) returns (request: Request)
    requires TestDataShaped(testData)
    ensures request.verb == verb && request.args == RequestArguments(testData)
    ensures request.endpoint == Substituted(path, PathParams(testData).GetOr([]))
  {
    var args := RequestArgs(Obj([]), Null, Obj([]));
    if Truthy(testData) {
      args := RequestArgs(GetOr(testData.members, "params", Obj([])),
                          GetOr(testData.members, "json", Null),
                          GetOr(testData.members, "headers", Obj([])));
    }
    var finalPath := ReplacePathParameters(path, testData);
    request := Request(verb, finalPath, args);
  }

  // ------------------------------------------------------------ which validators run

  /** The schema check runs only for a 2xx response with a non-empty schema
      declared under its status code. */
  predicate SchemaChecked(status: int, declared: Json) {
    200 <= status < 300 && Truthy(declared)
  }

  /** The keys of a result map, in order. */
  function Keys(validations: seq<(string, ResultDict)>): (ks: seq<string>)
    ensures |ks| == |validations|
  {
    seq(|validations|, k requires 0 <= k < |validations| => validations[k].0)
  }

  /** `_validate_response`. The status-code and header validators are not
      part of the model: their results come in as `statusResult` and
      `headerResult`. `responseSchema` is the schema lookup by status code. */
  method ValidateResponse(response: SchemaValidation.Response,
                          statusResult: ResultDict,
                          responseSchema: string -> Json,
                          checker: SchemaValidation.Checker,
                          structure: SchemaValidation.StructureOutcome,
                          headerResult: ResultDict)
    returns (validations: seq<(string, ResultDict)>)
    ensures var declared := responseSchema(Text.IntToString(response.statusCode));
            && Keys(validations) == (if SchemaChecked(response.statusCode, declared)
                                     then ["status_code", "schema", "headers"]
                                     else ["status_code", "headers"])
            && validations[0].1 == statusResult
            && validations[|validations| - 1].1 == headerResult
            && (SchemaChecked(response.statusCode, declared) ==>
                  validations[1].1 == SchemaValidation.Expected(response, declared, checker, structure))
  {
    validations := [("status_code", statusResult)];
    if 200 <= response.statusCode < 300 {
      var schema := responseSchema(Text.IntToString(response.statusCode));
      if Truthy(schema) {
        var schemaResult := SchemaValidation.Validate(response, schema, checker, structure);
        validations := validations + [("schema", schemaResult.ToDict())];
      }
    }
    validations := validations + [("headers", headerResult)];
  }

  // ------------------------------------------------------------ the summary

  /** One entry of `results`: its `success` flag and its `response_time`,
      if it has one. */
  datatype EndpointRecord = EndpointRecord(success: bool, responseTime: Option<real>)

  datatype Summary = Summary(
    total: int,
    passed: int,
    failed: int,
    successRate: real,
    averageResponseTime: Option<real>)

  /** `sum(1 for r in results if r['success'])` */
  function CountPassed(results: seq<EndpointRecord>): nat
    decreases |results|
  {
    if results == [] then 0
    else CountPassed(results[..|results| - 1]) + (if results[|results| - 1].success then 1 else 0)
  }

  /** `sum(r.get('response_time', 0) for r in results)` */
  function TotalTime(results: seq<EndpointRecord>): real
    decreases |results|
  {
    if results == [] then 0.0
    else TotalTime(results[..|results| - 1]) + results[|results| - 1].responseTime.GetOr(0.0)
  }

  /** No more results pass than there are, and all pass exactly when every
      one succeeded. */
  lemma {:induction false} CountPassedBounds(results: seq<EndpointRecord>)
    ensures CountPassed(results) <= |results|
    ensures CountPassed(results) == |results| <==> forall k :: 0 <= k < |results| ==> results[k].success
    ensures CountPassed(results) == 0 <==> forall k :: 0 <= k < |results| ==> !results[k].success
    decreases |results|
  {
    if results != [] {
      var n := |results| - 1;
      CountPassedBounds(results[..n]);
      assert forall k :: 0 <= k < n ==> results[..n][k] == results[k];
    }
  }

  /** Counting and timing a run split in two is counting and timing each part. */
  lemma {:induction false} SummaryAppend(a: seq<EndpointRecord>, b: seq<EndpointRecord>)
    ensures CountPassed(a + b) == CountPassed(a) + CountPassed(b)
    ensures TotalTime(a + b) == TotalTime(a) + TotalTime(b)
    decreases |b|
  {
    if b == [] {
      assert a + b == a;
    } else {
      var n := |b| - 1;
      assert (a + b)[..|a + b| - 1] == a + b[..n];
      SummaryAppend(a, b[..n]);
    }
  }

  /** `passed / total * 100` is a percentage, and exact. */
  lemma RateBounds(passed: nat, total: nat)
    requires 0 < total && passed <= total
    ensures var rate := passed as real / total as real * 100.0;
            0.0 <= rate <= 100.0 && rate * (total as real) == 100.0 * (passed as real)
  {
    var q := passed as real / total as real;
    assert q * (total as real) == passed as real;
    assert q <= 1.0 by {
      if q > 1.0 {
        assert q * (total as real) > 1.0 * (total as real);
      }
    }
  }

  /** Dividing by the count and multiplying back gives the sum. */
  lemma ExactAverage(sum: real, count: nat)
    requires 0 < count
    ensures (sum / count as real) * (count as real) == sum
  {
  }

  class ValidationEngine {
    const parser: OpenApi.Parser
    const baseUrl: Json
    var results: seq<EndpointRecord>

    /** `ValidationEngine.__init__` on an already built parser: the base URL
        given wins unless it is absent or empty. */
    constructor(parser: OpenApi.Parser, baseUrl: Option<string> := None)
      ensures this.parser == parser && results == []
      ensures this.baseUrl == if baseUrl.Some? && baseUrl.value != "" then Str(baseUrl.value) else parser.baseUrl
    {
      this.parser := parser;
      this.baseUrl := if baseUrl.Some? && baseUrl.value != "" then Str(baseUrl.value) else parser.baseUrl;
      results := [];
    }

    /** `get_summary` */
    function GetSummary(): (s: Summary)
      reads this
      ensures results == [] ==> s == Summary(0, 0, 0, 0.0, None)
      ensures results != [] ==>
                && s.total == |results| && s.passed == CountPassed(results)
                && 0 <= s.failed && s.passed + s.failed == s.total
                && 0.0 <= s.successRate <= 100.0
                && s.successRate * (s.total as real) == 100.0 * (s.passed as real)
                && s.averageResponseTime.Some?
                && s.averageResponseTime.value * (s.total as real) == TotalTime(results)
    {
      if results == [] then Summary(0, 0, 0, 0.0, None)
      else
        var total := |results|;
        var passed := CountPassed(results);
        CountPassedBounds(results);
        RateBounds(passed, total);
        ExactAverage(TotalTime(results), total);
        Summary(total, passed, total - passed,
                passed as real / total as real * 100.0,
                Some(TotalTime(results) / total as real))
    }
  }

  /** A run in which every endpoint passed has a success rate of 100; one in
      which none passed, 0. */
  lemma SuccessRateExtremes(e: ValidationEngine)
    requires e.results != []
    ensures (forall k :: 0 <= k < |e.results| ==> e.results[k].success) ==> e.GetSummary().successRate == 100.0
    ensures (forall k :: 0 <= k < |e.results| ==> !e.results[k].success) ==> e.GetSummary().successRate == 0.0
  {
    CountPassedBounds(e.results);
  }
}
