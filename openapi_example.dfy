/** The document of the parser's unit tests (tests/test_openapi_parser.py),
    and what the parser answers about it. The general lemmas describe any
    document of the same outline; the `TestDocument` lemmas instantiate
    them. */
module OpenApiExample {
  import opened Wrappers
  import opened JsonTree
  import opened OpenApi
  import Text

  /** A document with the five top-level members of the test, in the order
      the YAML dump writes them: sorted. */
  function Document(components: Json, info: Json, openapi: Json, paths: Json, servers: Json): Members {
    [ ("components", components),
      ("info", info),
      ("openapi", openapi),
      ("paths", paths),
      ("servers", servers) ]
  }

  /** A server list with one entry. */
  function Servers(url: string): Json {
    Arr([Obj([("url", Str(url))])])
  }

  /** A paths table with one path holding one operation. */
  function OnePath(path: string, key: string, op: Members): Members {
    [(path, Obj([(key, Obj(op))]))]
  }

  /** A components section declaring one schema. */
  function OneSchema(name: string, schema: Json): Json {
    Obj([("schemas", Obj([(name, schema)]))])
  }

  function UserSchema(): Json {
    Obj([ ("properties", Obj([ ("id", Obj([("type", Str("integer"))])),
                               ("name", Obj([("type", Str("string"))])) ])),
          ("type", Str("object")) ])
  }

  function ListUsers(): Members {
    [ ("operationId", Str("getUsers")),
      ("responses", Obj([ ("200", Obj([ ("content", Obj([ ("application/json", Obj([ ("schema", Obj([
          ("items", Obj([("$ref", Str("#/components/schemas/User"))])),
          ("type", Str("array")) ])) ])) ])),
        ("description", Str("Success")) ])) ])),
      ("summary", Str("Get all users")) ]
  }

  function Info(): Json {
    Obj([("title", Str("Test API")), ("version", Str("1.0.0"))])
  }

  function TestDocument(): Members {
    Document(OneSchema("User", UserSchema()), Info(), Str("3.0.3"),
             Obj(OnePath("/users", "get", ListUsers())), Servers("https://api.example.com"))
  }

  // ------------------------------------------------------------ any such document

  /** The base URL of such a document is its one server's URL. */
  lemma DocumentServers(components: Json, info: Json, openapi: Json, paths: Json, url: string)
    ensures var d := Document(components, info, openapi, paths, Servers(url));
            ServersShaped(d) && FromDocument(d).baseUrl == Str(url)
  {
    var d := Document(components, info, openapi, paths, Servers(url));
    var key := "servers";
    assert d[0].0 != key && d[1].0 != key && d[2].0 != key && d[3].0 != key;
    GetSkip(d, key, 4);
    var p := FromDocument(d);
    assert p.baseUrl == p.GetBaseUrl();
  }

  /** The parser's paths table is the document's. */
  lemma DocumentPaths(components: Json, info: Json, openapi: Json, paths: Json, servers: Json)
    requires ServersShaped(Document(components, info, openapi, paths, servers))
    ensures FromDocument(Document(components, info, openapi, paths, servers)).paths == paths
  {
    var d := Document(components, info, openapi, paths, servers);
    var key := "paths";
    assert d[0].0 != key && d[1].0 != key && d[2].0 != key;
    GetSkip(d, key, 3);
  }

  /** The flattened entries of a one-operation table. */
  lemma OnePathFlatten(path: string, key: string, op: Members)
    ensures ItemsAreObjects(OnePath(path, key, op))
    ensures Flatten(OnePath(path, key, op)) == [Declared(path, key, Obj(op))]
  {
    var ps := OnePath(path, key, op);
    assert ps[..0] == [];
    assert ItemDeclared(path, [(key, Obj(op))]) == [Declared(path, key, Obj(op))];
  }

  /** One recognised operation under one path gives one endpoint. */
  lemma OnePathEndpoints(path: string, key: string, op: Members)
    requires Recognised(Declared(path, key, Obj(op)))
    ensures PathsShaped(Obj(OnePath(path, key, op)))
    ensures OperationsAreObjects(Listed(Flatten(OnePath(path, key, op))))
    ensures DescribeAll(Listed(Flatten(OnePath(path, key, op)))) == [Describe(path, key, op)]
  {
    OnePathFlatten(path, key, op);
    var d := Declared(path, key, Obj(op));
    assert Listed([d]) == [d] by {
      assert [d][..0] == [];
    }
    assert OperationsAreObjects([d]);
    assert DescribeAll([d]) == [Describe(path, key, op)];
  }

  /** Looking the one operation up, in any case that lower-cases to its key,
      finds it. */
  lemma OnePathLookup(p: Parser, path: string, key: string, verb: string, op: Members)
    requires p.paths == Obj(OnePath(path, key, op)) && Text.Lower(verb) == key && op != []
    ensures p.Shaped() && p.ItemFound(path) && p.CanLookUp(path, verb)
    ensures p.GetEndpoint(path, verb) == Some(Describe(path, verb, op))
  {
    assert ItemShaped(Obj([(key, Obj(op))]));
    assert p.Shaped();
    p.ShapedFindsItem(path, verb);
    assert p.PathItem(path) == [(key, Obj(op))];
    assert p.Operation(path, verb) == Obj(op);
  }

  /** The one schema is reached from the root under `components/schemas`. */
  lemma SchemaReachable(name: string, schema: Json, info: Json, openapi: Json, paths: Json, servers: Json)
    ensures Walk(Obj(Document(OneSchema(name, schema), info, openapi, paths, servers)),
                 ["components", "schemas", name]) == Some(schema)
  {
    var schemas := Obj([(name, schema)]);
    assert Walk(schemas, [name]) == Some(schema) by {
      assert [name][1..] == [];
    }
    assert Walk(OneSchema(name, schema), ["schemas", name]) == Some(schema) by {
      assert ["schemas", name][1..] == [name];
    }
    var segments := ["components", "schemas", name];
    assert segments[1..] == ["schemas", name];
  }

  // ------------------------------------------------------------ the test document

  lemma LowerGet()
    ensures Text.Lower("get") == "get" && Text.Lower("GET") == "get" && Text.Upper("get") == "GET"
  {
    var a, b, c := Text.Lower("get"), Text.Lower("GET"), Text.Upper("get");
    assert a[0] == 'g' && a[1] == 'e' && a[2] == 't';
    assert b[0] == 'g' && b[1] == 'e' && b[2] == 't';
    assert c[0] == 'G' && c[1] == 'E' && c[2] == 'T';
  }

  lemma ListUsersFields(op: Members)
    requires op == ListUsers()
    ensures op != []
    ensures GetOr(op, "operationId", Str("")) == Str("getUsers")
    ensures GetOr(op, "summary", Str("")) == Str("Get all users")
  {
    var key := "summary";
    assert op[0].0 != key && op[1].0 != key;
    GetSkip(op, key, 2);
  }

  /** The parser built from the test document: its base URL, and its paths
      table holding `get` under `/users`. */
  lemma TestDocumentServers()
    ensures ServersShaped(TestDocument())
    ensures FromDocument(TestDocument()).baseUrl == Str("https://api.example.com")
    ensures FromDocument(TestDocument()).paths == Obj(OnePath("/users", "get", ListUsers()))
  {
    var components, paths := OneSchema("User", UserSchema()), Obj(OnePath("/users", "get", ListUsers()));
    DocumentServers(components, Info(), Str("3.0.3"), paths, "https://api.example.com");
    DocumentPaths(components, Info(), Str("3.0.3"), paths, Servers("https://api.example.com"));
  }

  /** The test document's paths table lists exactly one endpoint: `GET
      /users`, with the operation id the document declares. */
  lemma TestDocumentEndpoints(op: Members)
    requires op == ListUsers()
    ensures PathsShaped(Obj(OnePath("/users", "get", op)))
    ensures OperationsAreObjects(Listed(Flatten(OnePath("/users", "get", op))))
    ensures DescribeAll(Listed(Flatten(OnePath("/users", "get", op)))) == [Describe("/users", "get", op)]
    ensures Describe("/users", "get", op).path == "/users"
    ensures Describe("/users", "get", op).verb == "GET"
    ensures Describe("/users", "get", op).operationId == Str("getUsers")
  {
    LowerGet();
    OnePathEndpoints("/users", "get", op);
    ListUsersFields(op);
  }

  /** `get_endpoint('/users', 'GET')` on the test document finds the
      operation and its summary, where the method as written raises. (The
      second requirement holds of the test document: TestDocumentServers.) */
  lemma TestDocumentLookup(d: Members, op: Members)
    requires d == TestDocument() && ServersShaped(d) && op == ListUsers()
    ensures var p := FromDocument(d);
            && p.Shaped()
            && p.ItemFound("/users")
            && p.CanLookUp("/users", "GET")
            && p.GetEndpoint("/users", "GET") == Some(Describe("/users", "GET", op))
            && Describe("/users", "GET", op).summary == Str("Get all users")
            && p.GetEndpointAsWritten("/users", "GET").Raised?
  {
    TestDocumentServers();
    LowerGet();
    ListUsersFields(op);
    OnePathLookup(FromDocument(d), "/users", "get", "GET", op);
  }

  /** The lookup ignores the rest of the document: a path item elsewhere
      that is not a dictionary, or a `null` under another verb of the same
      item, does not stop `get_endpoint('/users', 'GET')`. */
  lemma MalformedSiblingsIgnored(p: Parser, op: Members)
    requires p.paths == Obj([("/a", Null), ("/users", Obj([("get", Obj(op)), ("post", Null)]))])
    requires op != []
    ensures !p.Shaped()
    ensures p.ItemFound("/users") && p.CanLookUp("/users", "GET")
    ensures p.GetEndpoint("/users", "GET") == Some(Describe("/users", "GET", op))
  {
    LowerGet();
    assert !ItemShaped(p.paths.members[0].1);
    assert |"/a"| != |"/users"|;
    assert Get(p.paths.members, "/users") == Get(p.paths.members[1..], "/users");
    assert p.PathItem("/users") == [("get", Obj(op)), ("post", Null)];
    assert p.Operation("/users", "GET") == Obj(op);
  }

  /** The reference of the test splits into its three segments. */
  lemma UserSegments(r: string)
    requires r == "components/schemas/User"
    ensures Text.Split(r, '/') == ["components", "schemas", "User"]
  {
    var segments := ["components", "schemas", "User"];
    assert forall i :: 0 <= i < |segments| ==> '/' !in segments[i];
    assert r == Text.Join(segments, '/') by {
      assert segments[1..][1..] == ["User"];
    }
    Text.SplitJoin(segments, '/');
  }

  lemma UserShape(user: Json)
    requires user == UserSchema()
    ensures GetOr(user.members, "type", Null) == Str("object")
    ensures Get(GetOr(user.members, "properties", Obj([])).members, "id").Some?
  {
    var key := "type";
    assert user.members[0].0 != key;
    GetSkip(user.members, key, 1);
  }

  /** `#/components/schemas/User` resolves, in the test document, to the
      User schema: an object schema declaring an `id` property. */
  lemma TestDocumentReference(d: Members, tail: string, user: Json)
    requires d == TestDocument() && ServersShaped(d)
    requires tail == "components/schemas/User" && user == UserSchema()
    ensures FromDocument(d).ResolveReference(Str("#/" + tail)) == Some(user)
    ensures GetOr(user.members, "type", Null) == Str("object")
    ensures Get(GetOr(user.members, "properties", Obj([])).members, "id").Some?
  {
    LocalReference(FromDocument(d), tail);
    UserSegments(tail);
    SchemaReachable("User", user, Info(), Str("3.0.3"),
                    Obj(OnePath("/users", "get", ListUsers())), Servers("https://api.example.com"));
    UserShape(user);
  }
}
