# validapi core, in Dafny

validapi checks a live HTTP API against its OpenAPI description. It loads the
document, lists its endpoints, sends requests built from test data, and
checks each response. The checks cover the status code, the headers, and the
body against the JSON Schema the document declares. This project models the
deterministic core of that pipeline and proves what it promises:

- **`ValidationResult`** (`Results`, results.dfy). A class whose `valid` flag
  only ever goes from true to false. `AddError` appends one entry and forces
  the flag false. `AddWarning` never touches it. The invariant "errors
  recorded means invalid" holds after every method.
- **Dotted-key configuration** (`Config`, settings.dfy). `Settings.Get` walks
  `key.split('.')` through nested objects. `Settings.Update` walks the same
  path, creating the objects that are missing, and writes the leaf. The
  update is proved against the value-level `Put`, with a round trip
  (update, then get) and a frame (keys that are neither a prefix nor an
  extension of the updated key keep their value).
- **OpenAPI indexing** (`OpenApi`, openapi.dfy). The endpoint list is one
  descriptor per operation whose lower-cased key is one of seven verbs, in
  declaration order. The module also covers the single-endpoint lookup, the
  base URL, and parameter lists with `$ref` entries replaced by their target.
  A document is a JSON tree whose objects are ordered member lists, because
  output order follows declaration order. `OpenApiExample` replays the
  parser's unit-test document (openapi_example.dfy).
- **The response-body check** (`SchemaValidation`, schema_validator.dfy). It
  classifies the content type and parses the body. Each violation the
  draft-07 checker reports becomes exactly one error. Anything unexpected
  becomes one error instead of escaping. The checker, the body parser and
  the structure check are inputs.
- **Engine helpers** (`Engine`, engine.dfy). These cover:
  - path-template substitution
  - request-argument defaults
  - which validators run on a response
  - the run summary

Shared building blocks: `JsonTree` (json.dfy) models Python dictionaries as
ordered member lists: `dict.get`, item assignment and nested walks. `Text`
(text.dfy) models ASCII case mapping, `split`/`join` on one character,
`str.replace` and `str(int)`. `Wrappers` (wrappers.dfy) holds `Option` and
`Attempt`; the latter is a value or a raised exception.

Python exceptions that the code lets escape on a malformed document are
preconditions on the document's shape (`PathsShaped`, `ItemFound`,
`CanLookUp`, `ServersShaped`, `ParametersShaped`, `TestDataShaped`).
Exceptions the code catches, the ones every call raises, and the ones
`get_parameters` raises on a single entry are modelled as `Attempt.Raised`
or as `StructureOutcome.Raises`. The TypeError `update` raises when a value
above the leaf is not a dictionary is the `false` result of
`Config.Settings.Update`, which then leaves the configuration unchanged.

## Model

| member | source | states |
|---|---|---|
| Results.OrEmpty | src/validators/base.py:11 | absent details become `{}`; given details are kept |
| Results.ValidationResult.constructor | src/validators/base.py:8-13 | a fresh result keeps the given validity and message, has details defaulting to `{}`, no errors and no warnings, and satisfies the invariant |
| Results.ValidationResult.AddError | src/validators/base.py:15-21 | exactly one entry with the message and `details or {}` is appended at the end of `errors`; `valid` becomes false; only `valid` and `errors` may change |
| Results.ValidationResult.AddWarning | src/validators/base.py:23-28 | exactly one entry is appended to `warnings`; `valid` and `errors` are untouched, so the invariant is kept |
| Results.ValidationResult.HasErrors | src/validators/base.py:30-32 | true whenever errors exist; under the invariant it is exactly `not valid` |
| Results.ValidationResult.HasWarnings | src/validators/base.py:34-36 | true iff `warnings` is non-empty |
| Results.ValidationResult.ToDict | src/validators/base.py:38-46 | the five fields, unchanged |
| Results.CreateErrorResult | src/validators/base.py:69-72 | a fresh invalid result carrying the message, no errors, no warnings |
| Results.CreateSuccessResult | src/validators/base.py:74-76 | a fresh valid result, message defaulting to "Validation passed" |
| Config.DefaultConfig | src/config/settings.py:25-38 | `validation.timeout` is 15, `validation.strict_mode` is true, `reporting.output_format` is "html", no `http` section |
| Config.WalkUndotted | src/config/settings.py:40-49 | a key without dots looks up only the top level |
| Config.PutIntoEmpty | src/config/settings.py:57-65 | writing any path into an empty table succeeds: every missing object is created |
| Config.PutWritable | src/config/settings.py:57-65 | the update succeeds iff every value that already exists above the leaf is an object |
| Config.PutThenWalk | src/config/settings.py:53-65 | round trip: after a successful update of `k` to `v`, walking `k` gives `v` |
| Config.PutFrame | src/config/settings.py:53-65 | an update leaves every path that neither is a prefix of `k` nor extends `k` unchanged |
| Config.Settings.constructor | src/config/settings.py:9-13 | the configuration is the loaded table |
| Config.Settings.Get | src/config/settings.py:40-51 | a key without dots yields the top-level value or the default |
| Config.Put | src/config/settings.py:53-65 | the table `update` leaves: no existing member is dropped, renamed or moved, and every top-level member other than the key's first segment is unchanged |
| Config.Descend | src/config/settings.py:55-62 | the walk down fails exactly where `Put` does; otherwise it yields the tables above the leaf, from which `Put`'s result is rebuilt |
| Config.Ascend | src/config/settings.py:59-64 | writing each rebuilt table back into the one above yields `Rebuild` |
| Config.Settings.Update | src/config/settings.py:53-65 | the descend-and-rebuild loops leave exactly `Put(old config, key path, value)`; fails, changing nothing, iff a value above the leaf is not an object; afterwards `get(key)` is `value` and divergent keys are unchanged |
| JsonTree.Get | src/parsers/openapi_parser.py:32-33 | `dict.get`: a found value is a member of the dictionary; absent means no member has the key |
| JsonTree.GetAt | src/parsers/openapi_parser.py:32-33 | in a dictionary without duplicate keys, every member is found under its own key |
| JsonTree.GetSetSame | src/config/settings.py:65 | after `d[k] = v`, `d.get(k)` is `v` |
| JsonTree.GetSetOther | src/config/settings.py:65 | `d[k] = v` leaves every other key's value unchanged |
| JsonTree.Set | src/config/settings.py:61-65 | `d[k] = v` keeps an existing member in its place and appends a new key at the end; other members are untouched |
| JsonTree.Walk | src/config/settings.py:45-49 | an empty path gives the node; a non-empty path succeeds only through an object holding its first key; a one-key path is `dict.get` |
| JsonTree.WalkAppend | src/config/settings.py:44-49 | walking a path in two pieces is walking it in one |
| Text.Split | src/config/settings.py:42 | `split` gives at least one piece, and no piece holds the separator |
| Text.SplitWithoutSeparator | src/config/settings.py:42 | a string without the separator splits into itself alone |
| Text.Take | src/validators/schema_validator.py:42 | `text[:500]` is the prefix of the text of exactly 500 characters, or the whole text when shorter |
| Text.ReplaceAbsent | src/validation_engine.py:66 | `str.replace` of a pattern that does not occur returns the string unchanged |
| Text.ReplaceAll | src/validation_engine.py:66 | `str.replace` of a pattern by itself returns the string unchanged |
| Text.ReplaceFirst | src/validation_engine.py:66 | `str.replace` of a pattern first occurring after a pattern-free head replaces that occurrence and continues after it |
| OpenApi.Describe | src/parsers/openapi_parser.py:38-49 | the descriptor keeps the path and upper-cases the verb; a missing operation id is `"{method}_{path}"` with the method as written; each of the nine operation fields carries its declared value, and an undeclared one takes its default (`''` for the summary and description, `[]` for parameters, tags and security, `{}` for the request body and responses) |
| OpenApi.ListedAppend | src/parsers/openapi_parser.py:56-71 | filtering commutes with concatenation, so kept entries stay in document order |
| OpenApi.ListedMembership | src/parsers/openapi_parser.py:58 | an entry is listed iff it is declared and its lower-cased key is one of the seven verbs |
| OpenApi.ListedItemShaped | src/parsers/openapi_parser.py:57-58 | every listed operation of a well-shaped path item is an object |
| OpenApi.FlattenHas | src/parsers/openapi_parser.py:56-57 | every `(path, key)` entry of the document is among the flattened entries |
| OpenApi.ItemEndpoints | src/parsers/openapi_parser.py:57-71 | the inner loop yields exactly the descriptors of one path item's recognised operations, in declaration order |
| OpenApi.ItemStep | src/parsers/openapi_parser.py:57-71 | one more entry of a path item appends its descriptor exactly when its key is recognised |
| OpenApi.Parser.GetBaseUrl | src/parsers/openapi_parser.py:75-80 | the first server's `url`, `''` when it has none, and `''` when there are no servers |
| OpenApi.Parser.GetEndpoint | src/parsers/openapi_parser.py:30-49 | `None` iff the operation under the lower-cased verb is absent or empty; otherwise the operation is a dictionary and the result is its descriptor (`Describe`: path, upper-cased verb, and every field declared or defaulted); it needs that `paths` and the one path item read are dictionaries and that the operation under the verb is empty or a dictionary (`ItemFound`, `CanLookUp`) |
| OpenApi.Parser.ShapedFindsItem | src/parsers/openapi_parser.py:32-36 | in a well-shaped document every path item can be read, and the operation under any of the seven verbs, in any case, is empty or a dictionary, so the lookup does not raise |
| OpenApi.Parser.GetEndpointAsWritten | src/parsers/openapi_parser.py:32 | every call raises AttributeError |
| OpenApi.Parser.GetAllEndpoints | src/parsers/openapi_parser.py:52-73 | the descriptors of exactly the recognised entries, by path and then by key, in declaration order |
| OpenApi.Parser.GetParameters | src/parsers/openapi_parser.py:83-97 | `[]` for an unknown endpoint; otherwise the declared parameters resolved one by one, raising at the first unresolvable `$ref`, at a string or list entry that holds `$ref`, or at an entry that is not a container |
| OpenApi.Parser.ResolveReference | src/parsers/openapi_parser.py:93 | only a local reference (`#/...`) resolves; `#/` alone names the root member with the empty name |
| OpenApi.Parser.ResolveAllSnoc | src/parsers/openapi_parser.py:90-95 | resolving one more parameter appends its resolution, or raises with its error; an earlier error is kept |
| OpenApi.Parser.ResolveAllPrefixRaised | src/parsers/openapi_parser.py:90-95 | once a prefix of the parameter list raises, the whole list raises the same way |
| OpenApi.Parser.ResolveAllPointwise | src/parsers/openapi_parser.py:90-95 | resolution succeeds iff every entry resolves; then it keeps one entry per declared parameter, in order |
| OpenApi.FromDocument | src/parsers/openapi_parser.py:9-14 | the parser keeps the document; `paths` and `components` default to `{}`; the base URL is `get_base_url()` |
| OpenApi.EndpointAgreement | src/parsers/openapi_parser.py:30-73 | every non-empty listed operation is found by the lookup under its own key, with the same descriptor as in the list |
| OpenApi.LookupReadsOneItem | src/parsers/openapi_parser.py:30-49 | two documents that agree on one path item agree on every lookup under that path, whatever their other items hold |
| OpenApi.ListedShaped | src/parsers/openapi_parser.py:56-58 | in a well-shaped document every listed operation is an object |
| OpenApi.ResolvePointer | tests/test_openapi_parser.py:94-98 | a reference `#/` + segments joined by `/` resolves to the node those segments reach from the root |
| OpenApi.ResolveParamReference | src/parsers/openapi_parser.py:92-93 | a parameter whose `$ref` is `#/` + segments becomes the node those segments reach, and raises when they reach nothing |
| OpenApi.ResolveParamPlain | src/parsers/openapi_parser.py:92-95 | a dictionary without `$ref`, or a string or list in which `'$ref'` does not occur, is kept as it is |
| OpenApi.ResolveParamTypeError | src/parsers/openapi_parser.py:92-93 | a string or list holding `'$ref'`, `None`, a boolean or a number raises a TypeError |
| OpenApi.LocalReference | src/parsers/openapi_parser.py:93 | a reference `#/` + tail walks the `/`-separated pieces of the tail from the root |
| OpenApiExample.DocumentServers | src/parsers/openapi_parser.py:75-80 | a document with one server has that server's URL as base URL |
| OpenApiExample.DocumentPaths | src/parsers/openapi_parser.py:13 | the parser's paths table is the document's |
| OpenApiExample.OnePathFlatten | src/parsers/openapi_parser.py:56-57 | a table with one path and one key flattens to that one entry |
| OpenApiExample.OnePathEndpoints | src/parsers/openapi_parser.py:52-73 | one recognised operation under one path gives exactly its descriptor |
| OpenApiExample.OnePathLookup | src/parsers/openapi_parser.py:30-49 | the lookup finds that operation for any verb that lower-cases to its key |
| OpenApiExample.SchemaReachable | tests/test_openapi_parser.py:94-98 | a schema declared under `components/schemas/<name>` is reached by walking those three segments |
| OpenApiExample.TestDocumentServers | tests/test_openapi_parser.py:74-76 | the test document's base URL is `https://api.example.com`, and its paths table holds `get` under `/users` |
| OpenApiExample.TestDocumentEndpoints | tests/test_openapi_parser.py:78-86 | the test document lists exactly one endpoint: `/users`, `GET`, operation id `getUsers` |
| OpenApiExample.TestDocumentLookup | tests/test_openapi_parser.py:88-92 | the lookup of `/users`, `GET` finds the operation with summary "Get all users", while the code as written raises |
| OpenApiExample.MalformedSiblingsIgnored | src/parsers/openapi_parser.py:30-49 | a `null` path item elsewhere and a `null` under another verb do not stop the lookup of `/users`, `GET` |
| OpenApiExample.TestDocumentReference | tests/test_openapi_parser.py:94-98 | `#/components/schemas/User` resolves to the User schema, whose type is `object` and which declares `id` |
| SchemaValidation.Header | src/validators/schema_validator.py:32 | a header is found iff some name matches ignoring case, and then the value is that header's |
| SchemaValidation.MissingContentTypeIsNotJson | src/validators/schema_validator.py:63-66 | a missing content type reads as `''` and is not JSON |
| SchemaValidation.JsonContentTypeIgnoresCase | src/validators/schema_validator.py:63-66 | `_is_json_response` gives the same answer for a content type and its lower-cased form |
| SchemaValidation.JsonContentTypes | src/validators/schema_validator.py:63-66 | `application/json` with any parameters and any `<type>/json` are JSON; `text/html` is not |
| SchemaValidation.ViolationEntryDetails | src/validators/schema_validator.py:77-89 | a violation's entry carries its message, location, value, rule location, keyword and keyword value |
| SchemaValidation.ValidateAgainstSchema | src/validators/schema_validator.py:68-97 | the loop returns `SchemaErrors` of the checker's run: one entry per violation, a SchemaError appended, any other exception passed on |
| SchemaValidation.SchemaErrorsFollowChecker | src/validators/schema_validator.py:68-97 | one entry per violation in checker order, with its message and path; a SchemaError adds exactly one "Invalid schema: " entry |
| SchemaValidation.StructureCheckAsWritten | src/validators/schema_validator.py:53 | the structure check always raises AttributeError |
| SchemaValidation.Validate | src/validators/schema_validator.py:14-61 | the result built through `add_error` with early returns is `Expected`, and it keeps the invariant |
| SchemaValidation.CheckParsed | src/validators/schema_validator.py:46-61 | after parsing, the schema errors, the structure check and the success message leave exactly `ParsedOutcome` |
| SchemaValidation.ReportSchemaErrors | src/validators/schema_validator.py:48-50 | the loop records one prefixed error per schema error, in order; the result stays valid only if there were none |
| SchemaValidation.FinishChecks | src/validators/schema_validator.py:53-56 | after the schema errors, the structure outcome and the success message leave exactly `AfterSchema` |
| SchemaValidation.AddStructureErrors | src/validators/schema_validator.py:53 | the errors a completing structure check adds are appended in order |
| SchemaValidation.NotJsonOutcome | src/validators/schema_validator.py:30-35 | a non-JSON response gives one "Response is not JSON" error with the content type (`unknown` if absent) and the status, whatever the body |
| SchemaValidation.DecodeErrorOutcome | src/validators/schema_validator.py:38-44 | an unparseable body gives one error whose detail is exactly `text[:500]` |
| SchemaValidation.EmptySchemaNotChecked | src/validators/schema_validator.py:47 | an empty schema is never handed to the checker |
| SchemaValidation.ViolationsReported | src/validators/schema_validator.py:47-50 | each violation becomes one prefixed error in checker order; the result is valid iff there are none |
| SchemaValidation.InvalidSchemaReported | src/validators/schema_validator.py:91-95 | a SchemaError becomes exactly one error with both prefixes and the schema error text |
| SchemaValidation.ValidIffNoErrors | src/validators/schema_validator.py:26-61 | the result is valid iff it holds no error, and carries the success message iff it is valid |
| SchemaValidation.ParsedValidIffNoErrors | src/validators/schema_validator.py:46-61 | the same, once the body has parsed |
| SchemaValidation.UnexpectedCaught | src/validators/schema_validator.py:58-61 | an exception from the checker or the structure check becomes one final "Unexpected validation error" entry |
| SchemaValidation.StructureAsWrittenRejectsAll | src/validators/schema_validator.py:53 | with the structure check as written, no parsed body is ever accepted |
| SchemaValidation.ConformingBodyAccepted | tests/test_schema_validator.py:17-41 | a body the checker finds nothing wrong with is valid, has no errors and carries the success message |
| Engine.PyStr | src/validation_engine.py:66 | `str(value)`: a string is itself, an integer its decimal text, `None` is "None" |
| Engine.Token | src/validation_engine.py:66 | the placeholder is `{`, then exactly the name, then `}` |
| Engine.PathParams | src/validation_engine.py:61-62 | parameters are substituted iff the test data is non-empty and has `path_params`, and they are exactly the members of `path_params` |
| Engine.ReplacePathParameters | src/validation_engine.py:59-68 | the path is unchanged without test data or `path_params`; otherwise each parameter in order replaces every occurrence of its placeholder |
| Engine.NoPlaceholderNoChange | src/validation_engine.py:64-68 | a template containing none of the supplied placeholders comes back unchanged |
| Engine.AbsentParameterIgnored | src/validation_engine.py:64-68 | a parameter whose placeholder does not occur changes nothing, so unknown tokens stay verbatim |
| Engine.OrderExample | src/validation_engine.py:64-66 | `/orders/{id}` with `id = 42` becomes `/orders/42` |
| Engine.RequestArguments | src/validation_engine.py:39-46 | without test data: `params={}`, `json=None`, `headers={}`; with test data each is read with its own default |
| Engine.MissingKeysDefault | src/validation_engine.py:39-46 | a key missing from the test data takes its default |
| Engine.MakeRequest | src/validation_engine.py:35-49 | the request carries the verb, the defaulted arguments and the substituted path |
| Engine.ValidateResponse | src/validation_engine.py:71-103 | keys are `status_code`, then `schema` iff the status is 2xx and a non-empty schema is declared for it, then `headers`; the schema entry is the schema check's result |
| Engine.CountPassedBounds | src/validation_engine.py:151-153 | passed is at most total; it equals total iff all succeeded, and is 0 iff none did |
| Engine.SummaryAppend | src/validation_engine.py:152-160 | counts and total times of a run split in two add up |
| Engine.ValidationEngine.constructor | src/validation_engine.py:11-23 | the given base URL wins unless absent or empty; results start empty |
| Engine.ValidationEngine.GetSummary | src/validation_engine.py:146-160 | empty run: all zeros; otherwise `passed + failed = total`, `0 <= success_rate <= 100` with `rate * total = 100 * passed`, and `average * total` is the summed response time |
| Engine.RateBounds | src/validation_engine.py:159 | `passed / total * 100` lies between 0 and 100 and times `total` is exactly `100 * passed` |
| Engine.SuccessRateExtremes | src/validation_engine.py:159 | the success rate is 100 when every result passed and 0 when none did |

## Left out

- File and format I/O. This covers `OpenAPIParser.load_spec`, `Settings.load_config`, the module-level `settings` instance, and `config_path`. The parser and the settings are built from an already loaded tree (`OpenApi.FromDocument`, `Config.Settings.constructor`).
- HTTP transport. This covers the `HTTPClient` and the dispatch at the end of `_make_request`: `Engine.MakeRequest` returns the request it would send. `_get_request_details` and `_get_response_details` decode `requests` objects and read the global configuration, so they are also left out.
- Reporting and the command line (src/reporters, src/main.py).
- `validate_endpoint` and `validate_all_endpoints` are empty, so nothing ever appends to `results`. `Engine.ValidationEngine.GetSummary` is stated for any `results` list.
- Draft-07 JSON Schema evaluation is an input: the `Checker` function gives the violations and how the run ended. `response.json()` is an input too (`ParseOutcome`). The claim in tests/test_schema_validator.py:43-66 (at least two errors for a wrong type plus a missing field) depends on the checker, so it is not modelled.
- The structure check is an input (`StructureOutcome`): the repository does not define it. The model does not cover warnings it might add or any effect it has beyond appended errors.
- `StatusCodeValidator`, `HeaderValidator`, `get_expected_status_codes` and `get_response_schema` are not defined in the repository. src/validation_engine.py:5 imports the two validators from src/validators/schema_validator.py, which does not define them. `Engine.ValidateResponse` takes their results, and the schema lookup by status text, as parameters.
- `resolve_reference` is called at src/parsers/openapi_parser.py:93 but is not defined in the parser. `OpenApi.Parser.ResolveReference` follows the unit test at tests/test_openapi_parser.py:94-98. It strips `#/` and walks the `/`-separated segments from the root: the fragment form of a JSON Pointer (section 4 of RFC 6901). It does no `~0`/`~1` unescaping. A reference that does not resolve raises a generic error.
- OpenApi.Parser.GetParameters: calls the corrected lookup. As written, `get_parameters` first calls `get_endpoint`, so it inherits that method's AttributeError (see Findings).
- `trace` is not one of the recognised verbs, although the Path Item Object of OpenAPI 3.0 allows it. The model follows the code's seven-verb list.
- A response counts as JSON when its lower-cased content type contains `application/json` or ends with `/json`. So `application/problem+json` is not JSON, although the word `json` occurs in it.
- Python exceptions on malformed documents or test data are shape preconditions, not modelled errors. Examples are a path item that is not a dictionary while listing all endpoints, a non-list `servers` or a non-dict `path_params`. The same goes for a non-dictionary root configuration. The single-endpoint lookup and `get_parameters` require that `paths` and the one item they read are dictionaries and that the operation under the verb is empty or a dictionary (`ItemFound`, `CanLookUp`).
- OpenApi.Parser.GetParameters: requires the declared `parameters` to be a list. Python would also iterate a dictionary (its keys) or a string (its characters).
- Config.Settings.Get: states the undotted case directly. For dotted keys, its meaning is the walk along `key.split('.')` that `Config.Settings.Update`'s round trip and frame are stated with.
- Engine.ValidationEngine.GetSummary: rates and averages are exact reals, not floats, and the empty-run `success_rate` is the integer 0 in Python but `0.0` here. `average_response_time` is absent in the empty case, as in the code.
- Engine.PyStr: `repr` of strings inside containers is always single-quoted and unescaped. Floats do not occur in the JSON tree, so documents or test data holding floats are not modelled.
- Case mapping (`lower`/`upper`) is ASCII only.
- Aliasing between nested dictionaries (YAML anchors) is not modelled. `Config.Settings.Update` rebuilds the path it writes, so a shared sub-dictionary is not updated through its other occurrences.

## Findings

| source | as written | input that shows it | evidently intended | confidence | as-written member | corrected member |
|---|---|---|---|---|---|---|
| src/parsers/openapi_parser.py:32 | `get_endpoint` reads `self.path`, an attribute the parser never sets (it sets `self.paths` at line 13) | `get_endpoint('/users', 'GET')` on the document of tests/test_openapi_parser.py:88-92 raises AttributeError; `get_parameters` raises the same way | look the path up in `self.paths` | not executed | OpenApi.Parser.GetEndpointAsWritten, OpenApiExample.TestDocumentLookup | OpenApi.Parser.GetEndpoint, OpenApi.EndpointAgreement |
| src/validators/schema_validator.py:53 | `validate` calls `self._validate_response_structure`, which neither `SchemaValidator` nor `BaseValidator` defines; the AttributeError is caught at lines 58-59 and recorded as an error | the conforming body and schema of tests/test_schema_validator.py:17-41 give an invalid result with one "Unexpected validation error" entry | a structure check that completes, so a conforming body is valid with no errors | not executed | SchemaValidation.StructureCheckAsWritten, SchemaValidation.StructureAsWrittenRejectsAll | SchemaValidation.ConformingBodyAccepted, SchemaValidation.Validate |
