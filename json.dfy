/** The JSON/YAML value tree the system works on. Python dicts keep their
    insertion order and the system's outputs follow it, so an object is an
    ordered list of members rather than a map. */
module JsonTree {
  import opened Wrappers

  datatype Json =
    | Null
    | Bool(b: bool)
    | Int(i: int)
    | Str(s: string)
    | Arr(items: seq<Json>)
    | Obj(members: seq<(string, Json)>)

  type Members = seq<(string, Json)>

  /** Python truthiness: `None`, `False`, `0`, `''`, `[]` and `{}` are false. */
  predicate Truthy(j: Json) {
    match j
    case Null => false
    case Bool(b) => b
    case Int(i) => i != 0
    case Str(s) => s != ""
    case Arr(items) => items != []
    case Obj(members) => members != []
  }

  /** `d.get(key)`: the value of the member named `key`, if there is one. */
  function Get(m: Members, key: string): (r: Option<Json>)
    ensures r.Some? ==> (key, r.value) in m
    ensures r.None? ==> forall i :: 0 <= i < |m| ==> m[i].0 != key
    decreases |m|
  {
    if m == [] then None
    else if m[0].0 == key then Some(m[0].1)
    else Get(m[1..], key)
  }

  /** `d.get(key, default)` */
  function GetOr(m: Members, key: string, default: Json): Json {
    Get(m, key).GetOr(default)
  }

  /** No two members share a name, as in every dict Python builds. */
  predicate UniqueKeys(m: Members) {
    forall i, j :: 0 <= i < j < |m| ==> m[i].0 != m[j].0
  }

  /** In a dict, looking up a member's own name finds that member. */
  lemma {:induction false} GetAt(m: Members, i: nat)
    requires UniqueKeys(m) && i < |m|
    ensures Get(m, m[i].0) == Some(m[i].1)
    decreases i
  {
    if i > 0 {
      assert m[0].0 != m[i].0;
      assert m[1..][i - 1] == m[i];
      GetAt(m[1..], i - 1);
    }
  }

  /** Members named otherwise can be skipped when looking a name up. */
  lemma {:induction false} GetSkip(m: Members, key: string, n: nat)
    requires n <= |m|
    requires forall i :: 0 <= i < n ==> m[i].0 != key
    ensures Get(m, key) == Get(m[n..], key)
    decreases n
  {
    if n > 0 {
      assert m[1..][n - 1..] == m[n..];
      GetSkip(m[1..], key, n - 1);
    }
  }

  /** `d[key] = value`: an existing member keeps its place and takes the new
      value; a new member is appended at the end. */
  function Set(m: Members, key: string, value: Json): (r: Members)
    ensures Get(m, key).Some? ==> |r| == |m|
    ensures Get(m, key).None? ==> r == m + [(key, value)]
    ensures forall i :: 0 <= i < |m| ==> r[i].0 == m[i].0
    ensures forall i :: 0 <= i < |m| && m[i].0 != key ==> r[i] == m[i]
    decreases |m|
  {
    if m == [] then [(key, value)]
    else if m[0].0 == key then [(key, value)] + m[1..]
    else [m[0]] + Set(m[1..], key, value)
  }

  lemma {:induction false} GetSetSame(m: Members, key: string, value: Json)
    ensures Get(Set(m, key, value), key) == Some(value)
    decreases |m|
  {
    if m != [] && m[0].0 != key {
      GetSetSame(m[1..], key, value);
    }
  }

  lemma {:induction false} GetSetOther(m: Members, key: string, value: Json, other: string)
    requires other != key
    ensures Get(Set(m, key, value), other) == Get(m, other)
    decreases |m|
  {
    if m != [] && m[0].0 != key {
      GetSetOther(m[1..], key, value, other);
    }
  }

  /** Walks nested objects along `keys` from `node`; `None` as soon as a key
      is absent or the current value is not an object. */
  function Walk(node: Json, keys: seq<string>): (r: Option<Json>)
    ensures keys == [] ==> r == Some(node)
    ensures keys != [] && r.Some? ==> node.Obj? && Get(node.members, keys[0]).Some?
    ensures |keys| == 1 && node.Obj? ==> r == Get(node.members, keys[0])
    decreases |keys|
  {
    if keys == [] then Some(node)
    else if !node.Obj? then None
    else match Get(node.members, keys[0])
      case None => None
      case Some(child) => Walk(child, keys[1..])
  }

  /** Walking a concatenated path is walking its two halves in turn. */
  lemma {:induction false} WalkAppend(node: Json, a: seq<string>, b: seq<string>)
    ensures Walk(node, a + b) == match Walk(node, a) case None => None case Some(n) => Walk(n, b)
    decreases |a|
  {
    if a != [] {
      assert (a + b)[0] == a[0];
      assert (a + b)[1..] == a[1..] + b;
      if node.Obj? && Get(node.members, a[0]).Some? {
        WalkAppend(Get(node.members, a[0]).value, a[1..], b);
      }
    } else {
      assert a + b == b;
    }
  }
}
