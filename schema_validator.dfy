/** The response-body check (`SchemaValidator` in
    src/validators/schema_validator.py): classify the content type, parse
    the body, turn every violation the draft-07 checker reports into one
    error, and turn anything unexpected into one error instead of letting it
    escape. The checker itself, the body parser and the structure check are
    inputs to the model, not part of it. */
module SchemaValidation {
  import opened Wrappers
  import opened JsonTree
  import opened Results
  import Text

  // ------------------------------------------------------------ the response

  type Headers = seq<(string, string)>

  /** What `response.json()` does: a value, a JSONDecodeError, or some other
      exception. */
  datatype ParseOutcome =
    | Parsed(data: Json)
    | DecodeError(message: string)
    | OtherError(message: string)

  datatype Response = Response(statusCode: int, headers: Headers, text: string, body: ParseOutcome)

  /** `response.headers.get(name)`: the header mapping of an HTTP response
      ignores the case of names. */
  function Header(headers: Headers, name: string): (r: Option<string>)
    ensures r.None? <==> forall i :: 0 <= i < |headers| ==> Text.Lower(headers[i].0) != Text.Lower(name)
    ensures r.Some? ==> exists i :: 0 <= i < |headers| && Text.Lower(headers[i].0) == Text.Lower(name)
                                    && headers[i].1 == r.value
    decreases |headers|
  {
    if headers == [] then None
    else if Text.Lower(headers[0].0) == Text.Lower(name) then Some(headers[0].1)
    else Header(headers[1..], name)
  }

  /** The content-type rule of `_is_json_response`. */
  predicate IsJsonContentType(contentType: string) {
    var lowered := Text.Lower(contentType);
    Text.Contains(lowered, "application/json") || Text.EndsWith(lowered, "/json")
  }

  /** `_is_json_response`: a missing header reads as `''`. */
  predicate IsJsonResponse(response: Response) {
    IsJsonContentType(Header(response.headers, "content-type").GetOr(""))
  }

  /** The rule ignores the case of the content type. */
  lemma JsonContentTypeIgnoresCase(contentType: string)
    ensures IsJsonContentType(contentType) <==> IsJsonContentType(Text.Lower(contentType))
  {
    Text.LowerTwice(contentType);
  }

  /** `application/json` with any parameters, and any `<type>/json`, count
      as JSON; `text/html` does not. */
  lemma JsonContentTypes(params: string, kind: string)
    ensures IsJsonContentType("application/json" + params)
    ensures IsJsonContentType(kind + "/json")
    ensures !IsJsonContentType("text/html")
  {
    var a := Text.Lower("application/json" + params);
    assert a[..16] == "application/json";
    var b := Text.Lower(kind + "/json");
    assert b[|b| - 5..] == "/json";
    var h := Text.Lower("text/html");
    assert h == "text/html";
    Text.ShorterExcludes(h, "application/json");
  }

  /** A response without a content type is never taken for JSON. */
  lemma MissingContentTypeIsNotJson(response: Response)
    requires Header(response.headers, "content-type").None?
    ensures !IsJsonResponse(response)
  {
    assert Text.Lower("") == "";
  }

  // ------------------------------------------------------------ the checker

  /** One violation as the draft-07 checker reports it. */
  datatype Violation = Violation(
    message: string,
    path: seq<Json>,
    instance: Json,
    schemaPath: seq<Json>,
    keyword: string,
    keywordValue: Json)

  /** How the checker's lazy stream of violations ended: normally, with a
      SchemaError, or with any other exception. */
  datatype Ending =
    | Finished
    | SchemaInvalid(message: string, text: string)
    | Crash(text: string)

  /** Everything one run of the checker on `(data, schema)` produces. */
  datatype CheckerRun = CheckerRun(violations: seq<Violation>, ending: Ending)

  type Checker = (Json, Json) -> CheckerRun

  /** The error dictionary built for one violation. */
  function ViolationEntry(v: Violation): Entry {
    Entry(v.message, [ ("path", Arr(v.path)),
                       ("invalid_value", v.instance),
                       ("schema_path", Arr(v.schemaPath)),
                       ("validator", Str(v.keyword)),
                       ("validator_value", v.keywordValue) ])
  }

  /** The entry for a violation carries its message, and its details name
      where the offending value is, the value, where the violated rule is,
      the rule's keyword and the rule's value. */
  lemma ViolationEntryDetails(v: Violation)
    ensures var e := ViolationEntry(v);
            && e.message == v.message
            && Get(e.details, "path") == Some(Arr(v.path))
            && Get(e.details, "invalid_value") == Some(v.instance)
            && Get(e.details, "schema_path") == Some(Arr(v.schemaPath))
            && Get(e.details, "validator") == Some(Str(v.keyword))
            && Get(e.details, "validator_value") == Some(v.keywordValue)
  {
    var d := ViolationEntry(v).details;
    assert UniqueKeys(d) by {
      // the five names have five different lengths
      forall a, b | 0 <= a < b < |d| ensures d[a].0 != d[b].0 {
        assert |d[a].0| != |d[b].0|;
      }
    }
    GetAt(d, 0);
    GetAt(d, 1);
    GetAt(d, 2);
    GetAt(d, 3);
    GetAt(d, 4);
  }

  function ViolationEntries(vs: seq<Violation>): (es: seq<Entry>)
    ensures |es| == |vs|
  {
    seq(|vs|, k requires 0 <= k < |vs| => ViolationEntry(vs[k]))
  }

  lemma ViolationEntriesSnoc(vs: seq<Violation>, k: nat)
    requires k < |vs|
    ensures ViolationEntries(vs[..k + 1]) == ViolationEntries(vs[..k]) + [ViolationEntry(vs[k])]
  {
    var a := ViolationEntries(vs[..k + 1]);
    var b := ViolationEntries(vs[..k]) + [ViolationEntry(vs[k])];
    forall i | 0 <= i < k + 1 ensures a[i] == b[i] {
      assert vs[..k + 1][i] == vs[i];
    }
  }

  /** The error dictionary built for a SchemaError. */
  function InvalidSchemaEntry(message: string, text: string): Entry {
    Entry("Invalid schema: " + message, [("schema_error", Str(text))])
  }

  /** What `_validate_against_schema` returns, or the exception it lets
      through: a SchemaError is caught and appended after the violations
      already collected; any other exception escapes and the collected
      list is lost. */
  function SchemaErrors(run: CheckerRun): Attempt<seq<Entry>> {
    match run.ending
    case Finished => Returned(ViolationEntries(run.violations))
    case SchemaInvalid(message, text) =>
      Returned(ViolationEntries(run.violations) + [InvalidSchemaEntry(message, text)])
    case Crash(text) => Raised(text)
  }

  /** `_validate_against_schema` */
  method ValidateAgainstSchema(data: Json, schema: Json, checker: Checker) returns (r: Attempt<seq<Entry>>)
    ensures r == SchemaErrors(checker(data, schema))
  {
    var run := checker(data, schema);
    if run.ending.Crash? {
      return Raised(run.ending.text);
    }
    var vs := run.violations;
    var errors: seq<Entry> := [];
    var k := 0;
    while k < |vs|
      invariant 0 <= k <= |vs|
      invariant errors == ViolationEntries(vs[..k])
    {
      ViolationEntriesSnoc(vs, k);
      errors := errors + [ViolationEntry(vs[k])];
      k := k + 1;
    }
    assert vs[..|vs|] == vs;
    if run.ending.SchemaInvalid? {
      errors := errors + [InvalidSchemaEntry(run.ending.message, run.ending.text)];
    }
    r := Returned(errors);
  }

  /** Every violation becomes one entry, in the checker's order, carrying
      its message and location; a SchemaError adds exactly one more. */
  lemma {:induction false} SchemaErrorsFollowChecker(run: CheckerRun)
    requires !run.ending.Crash?
    ensures SchemaErrors(run).Returned?
    ensures |SchemaErrors(run).value| == |run.violations| + (if run.ending.SchemaInvalid? then 1 else 0)
    ensures forall k :: 0 <= k < |run.violations| ==>
              SchemaErrors(run).value[k].message == run.violations[k].message &&
              Get(SchemaErrors(run).value[k].details, "path") == Some(Arr(run.violations[k].path))
    ensures run.ending.SchemaInvalid? ==>
              SchemaErrors(run).value[|run.violations|].message == "Invalid schema: " + run.ending.message
  {
    var es := ViolationEntries(run.violations);
    forall k | 0 <= k < |run.violations|
      ensures SchemaErrors(run).value[k] == ViolationEntry(run.violations[k])
    {
      assert SchemaErrors(run).value[k] == es[k];
    }
  }

  // ------------------------------------------------------------ the structure check

  /** The outcome of `_validate_response_structure`: it completes having
      added some errors to the result, or it raises. */
  datatype StructureOutcome =
    | Completed(added: seq<Entry>)
    | Raises(message: string)

  /** `_validate_response_structure` as the repository has it: no class in
      the hierarchy of `SchemaValidator` defines it, so the call raises
      AttributeError. */
  function StructureCheckAsWritten(): (s: StructureOutcome)
    ensures s.Raises?
  {
    Raises("'SchemaValidator' object has no attribute '_validate_response_structure'")
  }

  // ------------------------------------------------------------ validate

  function NotJsonEntry(response: Response): Entry {
    Entry("Response is not JSON",
          [ ("content_type", Str(Header(response.headers, "content-type").GetOr("unknown"))),
            ("status_code", Int(response.statusCode)) ])
  }

  function InvalidJsonEntry(response: Response, message: string): Entry {
    Entry("Invalid JSON in response: " + message, [("response_text", Str(Text.Take(response.text, 500)))])
  }

  function UnexpectedEntry(message: string): Entry {
    Entry("Unexpected validation error: " + message, [])
  }

  /** The entries `validate` records for the collected schema errors. */
  function Reported(es: seq<Entry>): (rs: seq<Entry>)
    ensures |rs| == |es|
  {
    seq(|es|, k requires 0 <= k < |es| => Entry("Schema validation error: " + es[k].message, es[k].details))
  }

  lemma ReportedSnoc(es: seq<Entry>, k: nat)
    requires k < |es|
    ensures Reported(es[..k + 1]) == Reported(es[..k]) + [Entry("Schema validation error: " + es[k].message, es[k].details)]
  {
    var a := Reported(es[..k + 1]);
    var b := Reported(es[..k]) + [Entry("Schema validation error: " + es[k].message, es[k].details)];
    forall i | 0 <= i < k + 1 ensures a[i] == b[i] {
      assert es[..k + 1][i] == es[i];
    }
  }

  function Failed(errors: seq<Entry>): ResultDict {
    ResultDict(false, "", [], errors, [])
  }

  /** What `validate` records once the body has parsed to `data`. */
  function ParsedOutcome(data: Json, schema: Json, checker: Checker, structure: StructureOutcome): ResultDict {
    var found := if Truthy(schema) then SchemaErrors(checker(data, schema)) else Returned([]);
    match found
    case Raised(e) => Failed([UnexpectedEntry(e)])
    case Returned(es) => AfterSchema(Reported(es), structure)
  }

  /** What `validate` records once the schema errors `reported` are in: the
      structure check's outcome, then the success message if nothing went
      wrong. */
  function AfterSchema(reported: seq<Entry>, structure: StructureOutcome): ResultDict {
    match structure
    case Raises(e) => Failed(reported + [UnexpectedEntry(e)])
    case Completed(added) =>
      var errors := reported + added;
      if errors == [] then ResultDict(true, "Response validates against schema", [], [], [])
      else Failed(errors)
  }

  /** The result `validate` returns, as a dictionary. */
  function Expected(response: Response, schema: Json, checker: Checker, structure: StructureOutcome): ResultDict {
    if !IsJsonResponse(response) then Failed([NotJsonEntry(response)])
    else match response.body
      case DecodeError(e) => Failed([InvalidJsonEntry(response, e)])
      case OtherError(e) => Failed([UnexpectedEntry(e)])
      case Parsed(data) => ParsedOutcome(data, schema, checker, structure)
  }

  /** `validate`: builds the result through `add_error`, returning early on
      a non-JSON response and on a body that does not parse. */
  method Validate(response: Response, schema: Json, checker: Checker, structure: StructureOutcome)
    returns (result: ValidationResult)
    ensures fresh(result) && result.Valid()
    ensures result.ToDict() == Expected(response, schema, checker, structure)
  {
    result := new ValidationResult(true);
    if !IsJsonResponse(response) {
      result.AddError("Response is not JSON", Some(NotJsonEntry(response).details));
      return;
    }
    match response.body {
      case DecodeError(e) =>
        result.AddError("Invalid JSON in response: " + e, Some(InvalidJsonEntry(response, e).details));
      case OtherError(e) =>
        result.AddError("Unexpected validation error: " + e);
      case Parsed(data) =>
        CheckParsed(result, data, schema, checker, structure);
    }
  }

  /** The part of `validate` after the body has parsed: the schema errors,
      the structure check and the success message, all inside the
      catch-all handler. */
  method CheckParsed(result: ValidationResult, data: Json, schema: Json, checker: Checker, structure: StructureOutcome)
    requires result.valid && result.message == "" && result.details == []
    requires result.errors == [] && result.warnings == []
    modifies result
    ensures result.Valid()
    ensures result.ToDict() == ParsedOutcome(data, schema, checker, structure)
  {
    var es: seq<Entry> := [];
    if Truthy(schema) {
      var found := ValidateAgainstSchema(data, schema, checker);
      if found.Raised? {
        result.AddError("Unexpected validation error: " + found.error);
        return;
      }
      es := found.value;
      ReportSchemaErrors(result, es);
    }
    FinishChecks(result, structure);
  }

  /** The rest of `validate` once the schema errors are in: the structure
      check, then the success message. */
  method FinishChecks(result: ValidationResult, structure: StructureOutcome)
    requires result.Valid() && (result.valid <==> result.errors == [])
    requires result.message == "" && result.details == [] && result.warnings == []
    modifies result
    ensures result.Valid()
    ensures result.ToDict() == AfterSchema(old(result.errors), structure)
  {
    match structure {
      case Raises(e) =>
        result.AddError("Unexpected validation error: " + e);
        return;
      case Completed(added) =>
        AddStructureErrors(result, added);
    }
    if result.valid {
      result.message := "Response validates against schema";
    }
  }

  /** The loop over the schema errors: one prefixed error each, in order. */
  method ReportSchemaErrors(result: ValidationResult, es: seq<Entry>)
    requires result.valid && result.errors == []
    modifies result
    ensures result.Valid() && (result.valid <==> es == [])
    ensures result.errors == Reported(es)
    ensures unchanged(result`message, result`details, result`warnings)
  {
    var k := 0;
    while k < |es|
      invariant 0 <= k <= |es|
      invariant result.Valid() && (result.valid <==> k == 0)
      invariant result.errors == Reported(es[..k])
      invariant unchanged(result`message, result`details, result`warnings)
    {
      ReportedSnoc(es, k);
      result.AddError("Schema validation error: " + es[k].message, Some(es[k].details));
      k := k + 1;
    }
    assert es[..|es|] == es;
  }

  /** What a structure check that completes adds to the result, in order. */
  method AddStructureErrors(result: ValidationResult, added: seq<Entry>)
    requires result.Valid()
    modifies result
    ensures result.Valid() && (result.valid <==> old(result.valid) && added == [])
    ensures result.errors == old(result.errors) + added
    ensures unchanged(result`message, result`details, result`warnings)
  {
    var k := 0;
    while k < |added|
      invariant 0 <= k <= |added|
      invariant result.Valid() && (result.valid <==> old(result.valid) && k == 0)
      invariant result.errors == old(result.errors) + added[..k]
      invariant unchanged(result`message, result`details, result`warnings)
    {
      assert added[..k + 1] == added[..k] + [added[k]];
      result.AddError(added[k].message, Some(added[k].details));
      k := k + 1;
    }
    assert added[..|added|] == added;
  }

  // ------------------------------------------------------------ properties

  /** A response that is not JSON gives exactly one error naming the content
      type (`'unknown'` when absent) and the status; the body is not looked
      at. */
  lemma NotJsonOutcome(response: Response, schema: Json, checker: Checker, structure: StructureOutcome, body: ParseOutcome)
    requires !IsJsonResponse(response)
    ensures var d := Expected(response, schema, checker, structure);
            && !d.valid && |d.errors| == 1
            && d.errors[0].message == "Response is not JSON"
            && Get(d.errors[0].details, "content_type")
               == Some(Str(Header(response.headers, "content-type").GetOr("unknown")))
            && Get(d.errors[0].details, "status_code") == Some(Int(response.statusCode))
            && d == Expected(response.(body := body), schema, checker, structure)
  {
  }

  /** A body that does not parse gives exactly one error whose detail is
      the first 500 characters of the body text (all of it when shorter). */
  lemma DecodeErrorOutcome(response: Response, schema: Json, checker: Checker, structure: StructureOutcome)
    requires IsJsonResponse(response) && response.body.DecodeError?
    ensures var d := Expected(response, schema, checker, structure);
            && !d.valid && |d.errors| == 1
            && d.errors[0].message == "Invalid JSON in response: " + response.body.message
            && Get(d.errors[0].details, "response_text").Some?
            && var t := Get(d.errors[0].details, "response_text").value;
               t.Str? && t.s == Text.Take(response.text, 500)
  {
  }

  /** An empty schema is never handed to the checker. */
  lemma EmptySchemaNotChecked(response: Response, schema: Json, checker: Checker, other: Checker, structure: StructureOutcome)
    requires !Truthy(schema)
    ensures Expected(response, schema, checker, structure) == Expected(response, schema, other, structure)
    ensures IsJsonResponse(response) && response.body.Parsed? && structure == Completed([]) ==>
              Expected(response, schema, checker, structure).valid
  {
  }

  /** Each violation becomes exactly one error, prefixed, in checker order,
      ahead of whatever the structure check adds. */
  lemma ViolationsReported(response: Response, schema: Json, checker: Checker, added: seq<Entry>)
    requires IsJsonResponse(response) && response.body.Parsed? && Truthy(schema)
    requires checker(response.body.data, schema).ending.Finished?
    ensures var vs := checker(response.body.data, schema).violations;
            var d := Expected(response, schema, checker, Completed(added));
            && |d.errors| == |vs| + |added|
            && (forall k :: 0 <= k < |vs| ==>
                  d.errors[k].message == "Schema validation error: " + vs[k].message &&
                  Get(d.errors[k].details, "validator") == Some(Str(vs[k].keyword)))
            && (d.valid <==> vs == [] && added == [])
  {
    var vs := checker(response.body.data, schema).violations;
    var d := Expected(response, schema, checker, Completed(added));
    forall k | 0 <= k < |vs|
      ensures d.errors[k].message == "Schema validation error: " + vs[k].message
      ensures Get(d.errors[k].details, "validator") == Some(Str(vs[k].keyword))
    {
      assert ViolationEntries(vs)[k] == ViolationEntry(vs[k]);
      assert d.errors[k] == Reported(ViolationEntries(vs))[k];
      ViolationEntryDetails(vs[k]);
    }
  }

  /** A SchemaError gives one error carrying both prefixes. */
  lemma InvalidSchemaReported(response: Response, schema: Json, checker: Checker, message: string, text: string)
    requires IsJsonResponse(response) && response.body.Parsed? && Truthy(schema)
    requires checker(response.body.data, schema) == CheckerRun([], SchemaInvalid(message, text))
    ensures Expected(response, schema, checker, Completed([])).errors
         == [Entry("Schema validation error: " + "Invalid schema: " + message, [("schema_error", Str(text))])]
  {
    var data := response.body.data;
    var es := [InvalidSchemaEntry(message, text)];
    assert ViolationEntries([]) + es == es;
    assert SchemaErrors(checker(data, schema)) == Returned(es);
    assert Reported(es) == [Entry("Schema validation error: " + es[0].message, es[0].details)];
    assert ParsedOutcome(data, schema, checker, Completed([])) == Failed(Reported(es) + []);
    assert Reported(es) + [] == Reported(es);
    assert "Schema validation error: " + ("Invalid schema: " + message)
        == "Schema validation error: " + "Invalid schema: " + message;
  }

  /** Whatever goes wrong inside, the result is well formed: it is valid
      exactly when it holds no error, and then it carries the success
      message. */
  lemma ValidIffNoErrors(response: Response, schema: Json, checker: Checker, structure: StructureOutcome)
    ensures var d := Expected(response, schema, checker, structure);
            && (d.valid <==> d.errors == [])
            && (d.message == "Response validates against schema" <==> d.valid)
            && d.warnings == []
  {
    if IsJsonResponse(response) && response.body.Parsed? {
      ParsedValidIffNoErrors(response.body.data, schema, checker, structure);
    }
  }

  /** The same, once the body has parsed. */
  lemma ParsedValidIffNoErrors(data: Json, schema: Json, checker: Checker, structure: StructureOutcome)
    ensures var d := ParsedOutcome(data, schema, checker, structure);
            && (d.valid <==> d.errors == [])
            && (d.message == "Response validates against schema" <==> d.valid)
            && d.warnings == []
  {
    var found := if Truthy(schema) then SchemaErrors(checker(data, schema)) else Returned([]);
    if found.Returned? && structure.Raises? {
      assert ParsedOutcome(data, schema, checker, structure).errors != [] by {
        var es := Reported(found.value) + [UnexpectedEntry(structure.message)];
        assert es[|es| - 1] == UnexpectedEntry(structure.message);
      }
    }
  }

  /** An exception from the checker or the structure check becomes exactly
      one last error entry. */
  lemma UnexpectedCaught(response: Response, schema: Json, checker: Checker, structure: StructureOutcome)
    requires IsJsonResponse(response) && response.body.Parsed?
    requires (Truthy(schema) && checker(response.body.data, schema).ending.Crash?) || structure.Raises?
    ensures var d := Expected(response, schema, checker, structure);
            && !d.valid && d.errors != []
            && Text.IsPrefix("Unexpected validation error: ", d.errors[|d.errors| - 1].message)
  {
  }

  /** With the structure check as written, no parsed JSON body is ever
      accepted, whatever the schema says. */
  lemma StructureAsWrittenRejectsAll(response: Response, schema: Json, checker: Checker)
    requires IsJsonResponse(response) && response.body.Parsed?
    ensures !Expected(response, schema, checker, StructureCheckAsWritten()).valid
  {
  }

  /** With a structure check that completes without adding errors, a body
      the checker finds nothing wrong with is valid and has no errors. */
  lemma ConformingBodyAccepted(response: Response, schema: Json, checker: Checker)
    requires IsJsonResponse(response) && response.body.Parsed?
    requires checker(response.body.data, schema) == CheckerRun([], Finished)
    ensures var d := Expected(response, schema, checker, Completed([]));
            d.valid && d.errors == [] && d.message == "Response validates against schema"
  {
  }
}
