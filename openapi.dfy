/** Indexing of a loaded OpenAPI document (`OpenAPIParser` in
    src/parsers/openapi_parser.py): the endpoint list, single-endpoint
    lookup, the base URL, and parameter lists with `$ref` entries replaced
    by what they point at. */
module OpenApi {
  import opened Wrappers
  import opened JsonTree
  import Text

  /** The operation keys that count as endpoints. The Path Item Object of
      OpenAPI 3.0 also allows `trace`; the code does not list it. */
  predicate IsHttpVerb(key: string) {
    key in ["get", "post", "put", "delete", "patch", "head", "options"]
  }

  /** An endpoint descriptor. */
  datatype Endpoint = Endpoint(
    path: string,
    verb: string,
    operationId: Json,
    summary: Json,
    description: Json,
    parameters: Json,
    requestBody: Json,
    responses: Json,
    tags: Json,
    security: Json)

  /** `field` is what `op.get(key, default)` gives: the declared value, or
      the default when `key` is not declared. */
  predicate Carries(op: Members, key: string, field: Json, default: Json) {
    && (Get(op, key).Some? ==> field == Get(op, key).value)
    && (Get(op, key).None? ==> field == default)
  }

  /** The descriptor of operation `op`, declared under key `method` of `path`. */
  function Describe(path: string, verb: string, op: Members): (e: Endpoint)
    ensures e.path == path && e.verb == Text.Upper(verb)
    ensures Carries(op, "operationId", e.operationId, Str(verb + "_" + path))
    ensures Carries(op, "summary", e.summary, Str(""))
    ensures Carries(op, "description", e.description, Str(""))
    ensures Carries(op, "parameters", e.parameters, Arr([]))
    ensures Carries(op, "requestBody", e.requestBody, Obj([]))
    ensures Carries(op, "responses", e.responses, Obj([]))
    ensures Carries(op, "tags", e.tags, Arr([]))
    ensures Carries(op, "security", e.security, Arr([]))
    ensures op == [] ==> e == Endpoint(path, Text.Upper(verb), Str(verb + "_" + path), Str(""), Str(""),
                                       Arr([]), Obj([]), Obj([]), Arr([]), Arr([]))
  {
    Endpoint(
      path,
      Text.Upper(verb),
      GetOr(op, "operationId", Str(verb + "_" + path)),
      GetOr(op, "summary", Str("")),
      GetOr(op, "description", Str("")),
      GetOr(op, "parameters", Arr([])),
      GetOr(op, "requestBody", Obj([])),
      GetOr(op, "responses", Obj([])),
      GetOr(op, "tags", Arr([])),
      GetOr(op, "security", Arr([])))
  }

  // ------------------------------------------------------------ document shape

  /** A path item is an object, and each value under a recognised verb is an
      object (elsewhere Python's `.items()` / `.get` raise AttributeError). */
  predicate ItemShaped(item: Json) {
    && item.Obj?
    && forall j :: 0 <= j < |item.members| && IsHttpVerb(Text.Lower(item.members[j].0)) ==>
         item.members[j].1.Obj?
  }

  predicate PathsShaped(paths: Json) {
    paths.Obj? && forall i :: 0 <= i < |paths.members| ==> ItemShaped(paths.members[i].1)
  }

  /** `servers[0].get('url', '')` can be evaluated: no servers, or a list
      whose first entry is an object. */
  predicate ServersShaped(spec: Members) {
    var servers := GetOr(spec, "servers", Arr([]));
    !Truthy(servers) || (servers.Arr? && servers.items[0].Obj?)
  }

  // ------------------------------------------------------------ endpoint list

  /** One `(path, key, value)` entry of a path item. */
  datatype Declared = Declared(path: string, key: string, value: Json)

  predicate Recognised(d: Declared) {
    IsHttpVerb(Text.Lower(d.key))
  }

  /** Every entry of one path item, in declaration order. */
  function ItemDeclared(path: string, item: Members): (ds: seq<Declared>)
    ensures |ds| == |item|
  {
    seq(|item|, j requires 0 <= j < |item| => Declared(path, item[j].0, item[j].1))
  }

  predicate ItemsAreObjects(paths: Members) {
    forall i :: 0 <= i < |paths| ==> paths[i].1.Obj?
  }

  /** Every entry of every path item: by path, then by key within a path. */
  function Flatten(paths: Members): seq<Declared>
    requires ItemsAreObjects(paths)
    decreases |paths|
  {
    if paths == [] then []
    else
      var last := paths[|paths| - 1];
      Flatten(paths[..|paths| - 1]) + ItemDeclared(last.0, last.1.members)
  }

  /** The entries whose lower-cased key is a recognised verb, order kept. */
  function Listed(ds: seq<Declared>): (r: seq<Declared>)
    ensures |r| <= |ds|
    decreases |ds|
  {
    if ds == [] then []
    else
      var last := ds[|ds| - 1];
      Listed(ds[..|ds| - 1]) + (if Recognised(last) then [last] else [])
  }

  predicate OperationsAreObjects(ds: seq<Declared>) {
    forall k :: 0 <= k < |ds| ==> ds[k].value.Obj?
  }

  function DescribeAll(ds: seq<Declared>): (es: seq<Endpoint>)
    requires OperationsAreObjects(ds)
    ensures |es| == |ds|
  {
    seq(|ds|, k requires 0 <= k < |ds| && ds[k].value.Obj? => Describe(ds[k].path, ds[k].key, ds[k].value.members))
  }

  lemma ListedSnoc(ds: seq<Declared>, d: Declared)
    ensures Listed(ds + [d]) == Listed(ds) + (if Recognised(d) then [d] else [])
  {
    assert (ds + [d])[..|ds|] == ds;
  }

  /** Filtering commutes with concatenation: the order of the kept entries is
      the order of the document. */
  lemma {:induction false} ListedAppend(a: seq<Declared>, b: seq<Declared>)
    ensures Listed(a + b) == Listed(a) + Listed(b)
    decreases |b|
  {
    if b == [] {
      assert a + b == a;
    } else {
      var b' := b[..|b| - 1];
      var x := b[|b| - 1];
      assert a + b == (a + b') + [x];
      assert b == b' + [x];
      ListedSnoc(a + b', x);
      ListedSnoc(b', x);
      ListedAppend(a, b');
    }
  }

  /** Exactly the entries with a recognised verb are kept; every other key
      (including `trace`, `parameters`, `summary`, ...) is skipped. */
  lemma {:induction false} ListedMembership(ds: seq<Declared>, d: Declared)
    ensures d in Listed(ds) <==> d in ds && Recognised(d)
    decreases |ds|
  {
    if ds != [] {
      var init := ds[..|ds| - 1];
      assert ds == init + [ds[|ds| - 1]];
      ListedMembership(init, d);
    }
  }

  lemma DescribeAllAppend(a: seq<Declared>, b: seq<Declared>)
    requires OperationsAreObjects(a) && OperationsAreObjects(b)
    ensures OperationsAreObjects(a + b)
    ensures DescribeAll(a + b) == DescribeAll(a) + DescribeAll(b)
  {
    assert OperationsAreObjects(a + b) by {
      forall k | 0 <= k < |a + b| ensures (a + b)[k].value.Obj? {
        if k >= |a| { assert (a + b)[k] == b[k - |a|]; }
      }
    }
  }

  /** Under the shape precondition every listed entry's value is an object. */
  lemma ListedItemShaped(path: string, item: Json)
    requires ItemShaped(item)
    ensures OperationsAreObjects(Listed(ItemDeclared(path, item.members)))
  {
    var ds := ItemDeclared(path, item.members);
    forall k | 0 <= k < |Listed(ds)| ensures Listed(ds)[k].value.Obj? {
      var d := Listed(ds)[k];
      ListedMembership(ds, d);
      var j :| 0 <= j < |ds| && ds[j] == d;
      assert item.members[j].0 == d.key;
    }
  }

  /** A path item's entries, up to `j`, extended by the next one. */
  lemma ItemDeclaredSnoc(path: string, item: Members, j: nat)
    requires j < |item|
    ensures ItemDeclared(path, item[..j + 1])
         == ItemDeclared(path, item[..j]) + [Declared(path, item[j].0, item[j].1)]
  {
  }

  /** The entry at `paths[i]`, key `j`, is among the flattened entries. */
  lemma {:induction false} FlattenHas(paths: Members, i: nat, j: nat)
    requires ItemsAreObjects(paths)
    requires i < |paths| && j < |paths[i].1.members|
    ensures Declared(paths[i].0, paths[i].1.members[j].0, paths[i].1.members[j].1) in Flatten(paths)
    decreases |paths|
  {
    var n := |paths| - 1;
    var init := paths[..n];
    if i == n {
      assert ItemDeclared(paths[i].0, paths[i].1.members)[j]
          == Declared(paths[i].0, paths[i].1.members[j].0, paths[i].1.members[j].1);
    } else {
      assert init[i] == paths[i];
      FlattenHas(init, i, j);
    }
  }

  /** A prefix of the paths, extended by the next path item. */
  lemma FlattenSnoc(paths: Members, i: nat)
    requires ItemsAreObjects(paths) && i < |paths|
    ensures ItemsAreObjects(paths[..i]) && ItemsAreObjects(paths[..i + 1])
    ensures Flatten(paths[..i + 1]) == Flatten(paths[..i]) + ItemDeclared(paths[i].0, paths[i].1.members)
  {
    assert paths[..i + 1][..i] == paths[..i];
  }

  /** The inner loop of `get_all_endpoints`: the descriptors of one path
      item's recognised operations, in declaration order. */
  method ItemEndpoints(path: string, item: Json) returns (endpoints: seq<Endpoint>)
    requires ItemShaped(item)
    ensures OperationsAreObjects(Listed(ItemDeclared(path, item.members)))
    ensures endpoints == DescribeAll(Listed(ItemDeclared(path, item.members)))
  {
    var members := item.members;
    endpoints := [];
    var j := 0;
    assert members[..0] == [];
    while j < |members|
      invariant 0 <= j <= |members|
      invariant OperationsAreObjects(Listed(ItemDeclared(path, members[..j])))
      invariant endpoints == DescribeAll(Listed(ItemDeclared(path, members[..j])))
    {
      var (key, op) := members[j];
      ItemStep(path, item, j);
      if IsHttpVerb(Text.Lower(key)) {
        endpoints := endpoints + [Describe(path, key, op.members)];
      }
      j := j + 1;
    }
    assert members[..|members|] == members;
  }

  /** One more entry of a path item: its descriptor is appended exactly
      when its key is recognised. */
  lemma ItemStep(path: string, item: Json, j: nat)
    requires ItemShaped(item) && j < |item.members|
    requires OperationsAreObjects(Listed(ItemDeclared(path, item.members[..j])))
    ensures OperationsAreObjects(Listed(ItemDeclared(path, item.members[..j + 1])))
    ensures var (key, op) := item.members[j];
            DescribeAll(Listed(ItemDeclared(path, item.members[..j + 1])))
            == DescribeAll(Listed(ItemDeclared(path, item.members[..j])))
               + (if IsHttpVerb(Text.Lower(key)) then [Describe(path, key, op.members)] else [])
  {
    var members := item.members;
    var (key, op) := members[j];
    var d := Declared(path, key, op);
    var before := Listed(ItemDeclared(path, members[..j]));
    ItemDeclaredSnoc(path, members, j);
    ListedSnoc(ItemDeclared(path, members[..j]), d);
    if IsHttpVerb(Text.Lower(key)) {
      DescribeAllAppend(before, [d]);
    } else {
      assert Listed(ItemDeclared(path, members[..j + 1])) == before + [];
      assert before + [] == before;
    }
  }

  // ------------------------------------------------------------ the parser

  /** The parser's state after loading: never changed afterwards. */
  datatype Parser = Parser(spec: Members, baseUrl: Json, paths: Json, components: Json)
  {
    predicate Shaped() {
      PathsShaped(paths)
    }

    /** `self.paths.get(path, {})` does not raise and gives a dictionary.
        The single-endpoint lookup needs this and `CanLookUp`: the
        operation under the verb is empty or a dictionary. */
    predicate ItemFound(path: string) {
      paths.Obj? && GetOr(paths.members, path, Obj([])).Obj?
    }

    /** A well-shaped document lets every path be looked up. */
    lemma ShapedFindsItem(path: string, verb: string)
      requires Shaped()
      ensures ItemFound(path)
      ensures IsHttpVerb(Text.Lower(verb)) ==> CanLookUp(path, verb)
    {
      var found := GetOr(paths.members, path, Obj([]));
      if Get(paths.members, path).Some? {
        var i :| 0 <= i < |paths.members| && paths.members[i] == (path, found);
        assert ItemShaped(paths.members[i].1);
      }
      assert ItemShaped(found);
      var key := Text.Lower(verb);
      if IsHttpVerb(key) && Get(found.members, key).Some? {
        var j :| 0 <= j < |found.members| && found.members[j] == (key, Get(found.members, key).value);
        Text.LowerTwice(verb);
        assert IsHttpVerb(Text.Lower(found.members[j].0));
      }
    }

    /** `get_base_url`: the first server's `url`, or `''`. */
    function GetBaseUrl(): (url: Json)
      requires ServersShaped(spec)
      ensures !Truthy(GetOr(spec, "servers", Arr([]))) ==> url == Str("")
      ensures Truthy(GetOr(spec, "servers", Arr([]))) ==>
                url == GetOr(GetOr(spec, "servers", Arr([])).items[0].members, "url", Str(""))
    {
      var servers := GetOr(spec, "servers", Arr([]));
      if Truthy(servers) then GetOr(servers.items[0].members, "url", Str("")) else Str("")
    }

    /** `paths.get(path, {})`: an object under the shape precondition. */
    function PathItem(path: string): (item: Members)
      requires ItemFound(path)
    {
      GetOr(paths.members, path, Obj([])).members
    }

    /** `path_item.get(method.lower(), {})` */
    function Operation(path: string, verb: string): Json
      requires ItemFound(path)
    {
      GetOr(PathItem(path), Text.Lower(verb), Obj([]))
    }

    /** The lookup does not raise: the operation found is empty or an object. */
    predicate CanLookUp(path: string, verb: string)
      requires ItemFound(path)
    {
      !Truthy(Operation(path, verb)) || Operation(path, verb).Obj?
    }

    /** `get_endpoint`, reading the `paths` attribute (see GetEndpointAsWritten). */
    function GetEndpoint(path: string, verb: string): (r: Option<Endpoint>)
      requires ItemFound(path) && CanLookUp(path, verb)
      ensures r.None? <==> !Truthy(Operation(path, verb))
      ensures r.Some? ==> r.value.path == path && r.value.verb == Text.Upper(verb)
      ensures r.Some? ==> Operation(path, verb).Obj? && r.value == Describe(path, verb, Operation(path, verb).members)
    {
      var op := Operation(path, verb);
      if !Truthy(op) then None else Some(Describe(path, verb, op.members))
    }

    /** `get_endpoint` as written: it reads `self.path`, an attribute the
        parser does not have, so every call raises AttributeError. */
    function GetEndpointAsWritten(path: string, verb: string): (r: Attempt<Option<Endpoint>>)
      ensures r.Raised?
    {
      Raised("AttributeError: 'OpenAPIParser' object has no attribute 'path'")
    }

    /** `get_all_endpoints`: one descriptor per recognised `(path, key)`
        entry, in declaration order. */
    method GetAllEndpoints() returns (endpoints: seq<Endpoint>)
      requires Shaped()
      ensures OperationsAreObjects(Listed(Flatten(paths.members)))
      ensures endpoints == DescribeAll(Listed(Flatten(paths.members)))
    {
      var entries := paths.members;
      ListedShaped(entries);
      endpoints := [];
      var i := 0;
      while i < |entries|
        invariant 0 <= i <= |entries|
        invariant ItemsAreObjects(entries[..i])
        invariant OperationsAreObjects(Listed(Flatten(entries[..i])))
        invariant endpoints == DescribeAll(Listed(Flatten(entries[..i])))
      {
        var (path, item) := entries[i];
        assert ItemShaped(item);
        var found := ItemEndpoints(path, item);
        FlattenSnoc(entries, i);
        ListedAppend(Flatten(entries[..i]), ItemDeclared(path, item.members));
        DescribeAllAppend(Listed(Flatten(entries[..i])), Listed(ItemDeclared(path, item.members)));
        endpoints := endpoints + found;
        i := i + 1;
      }
      assert entries[..|entries|] == entries;
    }

    /** `resolve_reference`: strip `#/`, then walk the `/`-separated
        segments from the document root (the fragment form of a JSON
        Pointer, section 4 of RFC 6901, without `~` unescaping). */
    function ResolveReference(ref: Json): (r: Option<Json>)
      ensures r.Some? ==> ref.Str? && Text.IsPrefix("#/", ref.s)
      ensures ref == Str("#/") ==> r == Get(spec, "")
    {
      if ref.Str? && Text.IsPrefix("#/", ref.s) then Walk(Obj(spec), Text.Split(ref.s[2..], '/'))
      else None
    }

    /** One parameter entry, with a `$ref` entry replaced by its target; an
        unresolvable reference raises. `'$ref' in param` also accepts a
        string (substring test) or a list (element test), but indexing
        either by `'$ref'` raises a TypeError; on any other value `in`
        itself raises a TypeError. */
    function ResolveParam(param: Json): Attempt<Json> {
      match param
      case Obj(members) =>
        (match Get(members, "$ref")
         case None => Returned(param)
         case Some(ref) =>
           match ResolveReference(ref)
           case Some(target) => Returned(target)
           case None => Raised("ReferenceError"))
      case Str(s) => if Text.Contains(s, "$ref") then Raised(NotSubscriptable) else Returned(param)
      case Arr(items) => if Str("$ref") in items then Raised(NotSubscriptable) else Returned(param)
      case _ => Raised(NotIterable)
    }

    const NotSubscriptable := "TypeError: indices must be integers"
    const NotIterable := "TypeError: argument is not iterable"

    /** The parameter list with every `$ref` entry resolved; the first
        unresolvable reference raises. */
    function ResolveAll(params: seq<Json>): Attempt<seq<Json>>
      decreases |params|
    {
      if params == [] then Returned([])
      else
        match ResolveAll(params[..|params| - 1])
        case Raised(e) => Raised(e)
        case Returned(done) =>
          match ResolveParam(params[|params| - 1])
          case Raised(e) => Raised(e)
          case Returned(p) => Returned(done + [p])
    }

    /** The descriptor's parameters are a list. */
    predicate ParametersShaped(path: string, verb: string)
      requires ItemFound(path) && CanLookUp(path, verb)
    {
      var e := GetEndpoint(path, verb);
      e.Some? ==> e.value.parameters.Arr?
    }

    /** `get_parameters`: `[]` for an unknown endpoint, otherwise every
        declared parameter in order with `$ref` entries resolved. */
    method GetParameters(path: string, verb: string) returns (r: Attempt<seq<Json>>)
      requires ItemFound(path) && CanLookUp(path, verb) && ParametersShaped(path, verb)
      ensures GetEndpoint(path, verb).None? ==> r == Returned([])
      ensures GetEndpoint(path, verb).Some? ==> r == ResolveAll(GetEndpoint(path, verb).value.parameters.items)
    {
      var endpoint := GetEndpoint(path, verb);
      if endpoint.None? {
        return Returned([]);
      }
      var params := endpoint.value.parameters.items;
      var parameters: seq<Json> := [];
      var k := 0;
      assert params[..0] == [];
      while k < |params|
        invariant 0 <= k <= |params|
        invariant ResolveAll(params[..k]) == Returned(parameters)
      {
        ResolveAllSnoc(params, k);
        var resolved := ResolveParam(params[k]);
        if resolved.Raised? {
          ResolveAllPrefixRaised(params, k + 1);
          assert params[..|params|] == params;
          return Raised(resolved.error);
        }
        parameters := parameters + [resolved.value];
        k := k + 1;
      }
      assert params[..|params|] == params;
      r := Returned(parameters);
    }

    /** Resolving one more parameter: the list so far, then that entry. */
    lemma ResolveAllSnoc(params: seq<Json>, k: nat)
      requires k < |params|
      ensures ResolveAll(params[..k + 1]) == match ResolveAll(params[..k])
                case Raised(e) => Raised(e)
                case Returned(done) =>
                  match ResolveParam(params[k])
                  case Raised(e) => Raised(e)
                  case Returned(p) => Returned(done + [p])
    {
      assert params[..k + 1][..k] == params[..k];
      assert params[..k + 1][k] == params[k];
    }

    /** Once a prefix of the list raises, the whole list raises the same way. */
    lemma {:induction false} ResolveAllPrefixRaised(params: seq<Json>, n: nat)
      requires n <= |params| && ResolveAll(params[..n]).Raised?
      ensures ResolveAll(params) == ResolveAll(params[..n])
      decreases |params| - n
    {
      if n < |params| {
        assert params[..n + 1][..n] == params[..n];
        ResolveAllPrefixRaised(params, n + 1);
      } else {
        assert params[..n] == params;
      }
    }

    /** A successful resolution keeps one entry per declared parameter, in
        order: the parameter itself, or the target of its `$ref`. */
    lemma {:induction false} ResolveAllPointwise(params: seq<Json>)
      ensures ResolveAll(params).Returned? <==> forall k :: 0 <= k < |params| ==> ResolveParam(params[k]).Returned?
      ensures ResolveAll(params).Returned? ==>
                |ResolveAll(params).value| == |params| &&
                forall k :: 0 <= k < |params| ==> ResolveAll(params).value[k] == ResolveParam(params[k]).value
      decreases |params|
    {
      if params != [] {
        var n := |params| - 1;
        var init := params[..n];
        ResolveAllPointwise(init);
        forall k | 0 <= k < n ensures init[k] == params[k] { }
        match ResolveAll(init) {
          case Raised(_) =>
            assert ResolveAll(params).Raised?;
          case Returned(done) =>
            if ResolveParam(params[n]).Returned? {
              assert ResolveAll(params) == Returned(done + [ResolveParam(params[n]).value]);
            }
        }
      }
    }
  }

  /** `OpenAPIParser.__init__` on an already loaded document. */
  function FromDocument(spec: Members): (p: Parser)
    requires ServersShaped(spec)
    ensures p.spec == spec && p.baseUrl == p.GetBaseUrl()
    ensures p.paths == GetOr(spec, "paths", Obj([])) && p.components == GetOr(spec, "components", Obj([]))
  {
    var p := Parser(spec, Str(""), GetOr(spec, "paths", Obj([])), GetOr(spec, "components", Obj([])));
    p.(baseUrl := p.GetBaseUrl())
  }

  // ------------------------------------------------------------ properties

  /** Every endpoint in the list can be fetched with `get_endpoint` under its
      own (lower-case) key and yields the same descriptor, provided the
      operation is not empty and the document has no duplicate keys. */
  lemma EndpointAgreement(p: Parser, i: nat, j: nat)
    requires p.Shaped() && UniqueKeys(p.paths.members)
    requires i < |p.paths.members|
    requires UniqueKeys(p.paths.members[i].1.members)
    requires j < |p.paths.members[i].1.members|
    requires var (key, op) := p.paths.members[i].1.members[j];
             IsHttpVerb(key) && Truthy(op)
    ensures var path := p.paths.members[i].0;
            var (key, op) := p.paths.members[i].1.members[j];
            && op.Obj?
            && p.ItemFound(path)
            && p.CanLookUp(path, key)
            && p.GetEndpoint(path, key) == Some(Describe(path, key, op.members))
            && OperationsAreObjects(Listed(Flatten(p.paths.members)))
            && Describe(path, key, op.members) in DescribeAll(Listed(Flatten(p.paths.members)))
  {
    var path := p.paths.members[i].0;
    var item := p.paths.members[i].1;
    var (key, op) := item.members[j];
    assert ItemShaped(item);
    assert Text.Lower(key) == key;
    p.ShapedFindsItem(path, key);
    GetAt(p.paths.members, i);
    GetAt(item.members, j);
    assert p.Operation(path, key) == op;
    var all := p.paths.members;
    assert ItemsAreObjects(all) by {
      forall k | 0 <= k < |all| ensures all[k].1.Obj? { assert ItemShaped(all[k].1); }
    }
    FlattenHas(all, i, j);
    var d := Declared(path, key, op);
    ListedMembership(Flatten(all), d);
    ListedShaped(all);
    var k :| 0 <= k < |Listed(Flatten(all))| && Listed(Flatten(all))[k] == d;
    assert DescribeAll(Listed(Flatten(all)))[k] == Describe(path, key, op.members);
  }

  /** The lookup reads only the path item it is asked for: two documents
      that agree on that item agree on the lookup, whatever their other
      items, or the other verbs of that item, hold. */
  lemma LookupReadsOneItem(p: Parser, q: Parser, path: string, verb: string)
    requires p.paths.Obj? && q.paths.Obj?
    requires Get(p.paths.members, path) == Get(q.paths.members, path)
    requires p.ItemFound(path)
    ensures q.ItemFound(path) && q.Operation(path, verb) == p.Operation(path, verb)
    ensures p.CanLookUp(path, verb) ==>
              q.CanLookUp(path, verb) && q.GetEndpoint(path, verb) == p.GetEndpoint(path, verb)
  {
  }

  /** Under the shape precondition every listed entry is an object. */
  lemma {:induction false} ListedShaped(paths: Members)
    requires PathsShaped(Obj(paths))
    ensures ItemsAreObjects(paths)
    ensures OperationsAreObjects(Listed(Flatten(paths)))
    decreases |paths|
  {
    assert ItemsAreObjects(paths) by {
      forall k | 0 <= k < |paths| ensures paths[k].1.Obj? { assert ItemShaped(paths[k].1); }
    }
    if paths != [] {
      var n := |paths| - 1;
      var init := paths[..n];
      assert PathsShaped(Obj(init)) by {
        forall k | 0 <= k < n ensures ItemShaped(init[k].1) { assert init[k] == paths[k]; }
      }
      ListedShaped(init);
      assert ItemShaped(paths[n].1);
      ListedItemShaped(paths[n].0, paths[n].1);
      ListedAppend(Flatten(init), ItemDeclared(paths[n].0, paths[n].1.members));
      DescribeAllAppend(Listed(Flatten(init)), Listed(ItemDeclared(paths[n].0, paths[n].1.members)));
    }
  }

  /** A reference built from separator-free segments resolves to the node
      those segments reach from the root. */
  lemma ResolvePointer(p: Parser, segments: seq<string>)
    requires |segments| >= 1
    requires forall i :: 0 <= i < |segments| ==> '/' !in segments[i]
    ensures p.ResolveReference(Str("#/" + Text.Join(segments, '/'))) == Walk(Obj(p.spec), segments)
  {
    LocalReference(p, Text.Join(segments, '/'));
    Text.SplitJoin(segments, '/');
  }

  /** A parameter given as a local reference `#/a/b/...` is replaced by the
      node those segments reach from the root; when they reach nothing,
      resolving it raises. */
  lemma ResolveParamReference(p: Parser, members: Members, segments: seq<string>)
    requires |segments| >= 1
    requires forall i :: 0 <= i < |segments| ==> '/' !in segments[i]
    requires Get(members, "$ref") == Some(Str("#/" + Text.Join(segments, '/')))
    ensures Walk(Obj(p.spec), segments).Some? ==>
              p.ResolveParam(Obj(members)) == Returned(Walk(Obj(p.spec), segments).value)
    ensures Walk(Obj(p.spec), segments).None? ==> p.ResolveParam(Obj(members)).Raised?
  {
    ResolvePointer(p, segments);
  }

  /** A parameter dictionary without `$ref` is kept as it is, and so is a
      string or list in which `'$ref'` does not occur. */
  lemma ResolveParamPlain(p: Parser, param: Json)
    requires param.Obj? ==> Get(param.members, "$ref").None?
    requires param.Str? ==> !Text.Contains(param.s, "$ref")
    requires param.Arr? ==> Str("$ref") !in param.items
    requires param.Obj? || param.Str? || param.Arr?
    ensures p.ResolveParam(param) == Returned(param)
  {
  }

  /** Every other entry makes `get_parameters` raise a TypeError: a string
      or list holding `'$ref'` cannot be indexed by it, and `in` cannot be
      applied to `None`, a boolean or a number. */
  lemma ResolveParamTypeError(p: Parser, param: Json)
    requires || (param.Str? && Text.Contains(param.s, "$ref"))
             || (param.Arr? && Str("$ref") in param.items)
             || param.Null? || param.Bool? || param.Int?
    ensures p.ResolveParam(param).Raised? && Text.IsPrefix("TypeError", p.ResolveParam(param).error)
  {
  }

  /** A local reference `#/a/b/...` walks the segments after the `#/`. */
  lemma LocalReference(p: Parser, tail: string)
    ensures p.ResolveReference(Str("#/" + tail)) == Walk(Obj(p.spec), Text.Split(tail, '/'))
  {
    assert ("#/" + tail)[2..] == tail;
  }
}
