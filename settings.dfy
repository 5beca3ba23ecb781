/** Dotted-key access to the nested configuration tree (`Settings` in
    src/config/settings.py). A key such as `validation.timeout` names a path
    through nested objects; `get` walks it, `update` writes at its end,
    creating the objects that are missing on the way. */
module Config {
  import opened Wrappers
  import opened JsonTree
  import Text

  /** The built-in configuration used when no configuration file exists. */
  function DefaultConfig(): (c: Members)
    ensures Walk(Obj(c), ["validation", "timeout"]) == Some(Int(15))
    ensures Walk(Obj(c), ["validation", "strict_mode"]) == Some(Bool(true))
    ensures Walk(Obj(c), ["reporting", "output_format"]) == Some(Str("html"))
    ensures Walk(Obj(c), ["http"]) == None
  {
    var validation := [ ("strict_mode", Bool(true)),
                        ("timeout", Int(15)),
                        ("validate_examples", Bool(true)) ];
    var reporting := [ ("output_format", Str("html")),
                       ("include_request_details", Bool(true)),
                       ("include_response_body", Bool(true)) ];
    var c := [("validation", Obj(validation)), ("reporting", Obj(reporting))];
    assert Get(c, "reporting") == Some(Obj(reporting)) by {
      GetSkip(c, "reporting", 1);
    }
    assert Get(validation, "timeout") == Some(Int(15)) by {
      GetSkip(validation, "timeout", 1);
    }
    c
  }

  /** The key path a dotted key names. */
  function KeyPath(key: string): seq<string> {
    Text.Split(key, '.')
  }

  /** A key without dots names a single top-level member. */
  lemma WalkUndotted(m: Members, key: string)
    ensures '.' !in key ==> Walk(Obj(m), KeyPath(key)) == Get(m, key)
  {
    if '.' !in key {
      Text.SplitWithoutSeparator(key, '.');
    }
  }

  // ------------------------------------------------------------------ update

  /** What `update` leaves behind: `None` when an existing value above the
      leaf is not an object (Python raises a TypeError there), otherwise the
      table with the leaf written and every missing object created. */
  function Put(m: Members, keys: seq<string>, v: Json): (r: Option<Members>)
    requires keys != []
    ensures r.Some? ==> |r.value| >= |m| && forall i :: 0 <= i < |m| ==> r.value[i].0 == m[i].0
    ensures r.Some? ==> forall i :: 0 <= i < |m| && m[i].0 != keys[0] ==> r.value[i] == m[i]
    decreases |keys|
  {
    if |keys| == 1 then Some(Set(m, keys[0], v))
    else
      var child := GetOr(m, keys[0], Obj([]));
      if !child.Obj? then None
      else match Put(child.members, keys[1..], v)
        case None => None
        case Some(c) => Some(Set(m, keys[0], Obj(c)))
  }

  /** Every value that already exists strictly above the leaf is an object. */
  predicate Writable(m: Members, keys: seq<string>) {
    forall j :: 1 <= j < |keys| ==>
      match Walk(Obj(m), keys[..j]) case None => true case Some(n) => n.Obj?
  }

  /** `a` is a prefix of `b`, as key paths. */
  predicate PathPrefix(a: seq<string>, b: seq<string>) {
    |a| <= |b| && b[..|a|] == a
  }

  /** Neither path is a prefix of the other: they part at some segment. */
  predicate Diverge(a: seq<string>, b: seq<string>) {
    !PathPrefix(a, b) && !PathPrefix(b, a)
  }

  lemma PrefixCons(a: seq<string>, b: seq<string>)
    requires a != [] && b != [] && a[0] == b[0]
    ensures PathPrefix(a, b) <==> PathPrefix(a[1..], b[1..])
  {
    assert a == [a[0]] + a[1..];
    if |a| <= |b| {
      assert b[..|a|] == [b[0]] + b[1..][..|a| - 1];
    }
  }

  /** Writing into an empty table never fails. */
  lemma {:induction false} PutIntoEmpty(keys: seq<string>, v: Json)
    requires keys != []
    ensures Put([], keys, v).Some?
    decreases |keys|
  {
    if |keys| > 1 {
      PutIntoEmpty(keys[1..], v);
    }
  }

  lemma WalkStep(m: Members, keys: seq<string>, j: nat)
    requires 1 <= j <= |keys|
    ensures Walk(Obj(m), keys[..j])
         == match Get(m, keys[0]) case None => None case Some(c) => Walk(c, keys[1..][..j - 1])
  {
    assert keys[..j][0] == keys[0];
    assert keys[..j][1..] == keys[1..][..j - 1];
  }

  /** `update` succeeds exactly when every existing value above the leaf is
      an object. */
  lemma {:induction false} PutWritable(m: Members, keys: seq<string>, v: Json)
    requires keys != []
    ensures Put(m, keys, v).Some? <==> Writable(m, keys)
    decreases |keys|
  {
    if |keys| > 1 {
      var rest := keys[1..];
      forall j | 1 <= j < |keys|
        ensures Walk(Obj(m), keys[..j])
             == match Get(m, keys[0]) case None => None case Some(c) => Walk(c, rest[..j - 1])
      {
        WalkStep(m, keys, j);
      }
      match Get(m, keys[0])
      case None =>
        PutIntoEmpty(rest, v);
      case Some(child) =>
        if !child.Obj? {
          assert Walk(Obj(m), keys[..1]) == Some(child);
        } else {
          PutWritable(child.members, rest, v);
          if Writable(m, keys) {
            forall j | 1 <= j < |rest|
              ensures match Walk(Obj(child.members), rest[..j]) case None => true case Some(n) => n.Obj?
            {
              assert Walk(Obj(m), keys[..j + 1]) == Walk(child, rest[..j]);
            }
          }
          if Writable(child.members, rest) {
            forall j | 1 <= j < |keys|
              ensures match Walk(Obj(m), keys[..j]) case None => true case Some(n) => n.Obj?
            {
              if j > 1 {
                assert Walk(Obj(m), keys[..j]) == Walk(child, rest[..j - 1]);
              }
            }
          }
        }
    }
  }

  /** Round trip: after a successful `update(k, v)`, `get(k)` is `v`. */
  lemma {:induction false} PutThenWalk(m: Members, keys: seq<string>, v: Json)
    requires keys != [] && Put(m, keys, v).Some?
    ensures Walk(Obj(Put(m, keys, v).value), keys) == Some(v)
    decreases |keys|
  {
    if |keys| == 1 {
      GetSetSame(m, keys[0], v);
    } else {
      var child := GetOr(m, keys[0], Obj([]));
      var c := Put(child.members, keys[1..], v).value;
      GetSetSame(m, keys[0], Obj(c));
      PutThenWalk(child.members, keys[1..], v);
    }
  }

  /** Frame: `update(k, v)` leaves `get(k2)` alone for every `k2` that is
      neither a prefix nor an extension of `k`. */
  lemma {:induction false} PutFrame(m: Members, keys: seq<string>, v: Json, other: seq<string>)
    requires keys != [] && Put(m, keys, v).Some?
    requires Diverge(keys, other)
    ensures Walk(Obj(Put(m, keys, v).value), other) == Walk(Obj(m), other)
    decreases |keys|
  {
    assert keys[..0] == [];
    var m' := Put(m, keys, v).value;
    if other[0] != keys[0] {
      if |keys| == 1 {
        GetSetOther(m, keys[0], v, other[0]);
      } else {
        var child := GetOr(m, keys[0], Obj([]));
        GetSetOther(m, keys[0], Obj(Put(child.members, keys[1..], v).value), other[0]);
      }
    } else {
      PrefixCons(keys, other);
      PrefixCons(other, keys);
      assert |keys| > 1 by {
        assert other[1..][..0] == [];
      }
      var child := GetOr(m, keys[0], Obj([]));
      var c := Put(child.members, keys[1..], v).value;
      GetSetSame(m, keys[0], Obj(c));
      PutFrame(child.members, keys[1..], v, other[1..]);
    }
  }

  /** The tables visited on the way down, with the leaf written back into
      each of them from the bottom up. */
  function Rebuild(trail: seq<Members>, keys: seq<string>, leaf: Members): Members
    requires |trail| <= |keys|
    decreases |trail|
  {
    if trail == [] then leaf
    else Rebuild(trail[..|trail| - 1], keys, Set(trail[|trail| - 1], keys[|trail| - 1], Obj(leaf)))
  }

  function RebuildAll(trail: seq<Members>, keys: seq<string>, o: Option<Members>): Option<Members>
    requires |trail| <= |keys|
  {
    match o
    case None => None
    case Some(leaf) => Some(Rebuild(trail, keys, leaf))
  }

  /** The configuration holder. `config` is the loaded (or default) tree;
      `update` changes it in place. */
  class Settings {
    var config: Members

    constructor(loaded: Members)
      ensures config == loaded
    {
      config := loaded;
    }

    /** `get(key, default)`: the value at the end of the dotted path, or
        `default` as soon as a segment is absent or not an object. */
    function Get(key: string, default: Json := Null): (r: Json)
      reads this
      ensures '.' !in key ==> r == GetOr(config, key, default)
    {
      WalkUndotted(config, key);
      Walk(Obj(config), KeyPath(key)).GetOr(default)
    }

    /** `update(key, value)`: `ok` is false where Python raises a TypeError
        (an existing value above the leaf is not an object); nothing has been
        changed at that point. */
    method Update(key: string, value: Json) returns (ok: bool)
      modifies this
      ensures ok <==> Writable(old(config), KeyPath(key))
      ensures ok ==> Some(config) == Put(old(config), KeyPath(key), value)
      ensures !ok ==> config == old(config)
      ensures ok ==> Get(key) == value
      ensures ok ==> forall other :: Diverge(KeyPath(key), KeyPath(other)) ==>
                       Walk(Obj(config), KeyPath(other)) == Walk(Obj(old(config)), KeyPath(other))
    {
      ghost var original := config;
      var keys := KeyPath(key);
      PutWritable(original, keys, value);
      var trail, parent;
      ok, trail, parent := Descend(config, keys, value);
      if !ok {
        return;
      }
      config := Ascend(trail, keys, Set(parent, keys[|keys| - 1], value));
      PutThenWalk(original, keys, value);
      forall other | Diverge(keys, KeyPath(other))
        ensures Walk(Obj(config), KeyPath(other)) == Walk(Obj(original), KeyPath(other))
      {
        PutFrame(original, keys, value, KeyPath(other));
      }
    }
  }

  /** The walk down in `update`: the tables visited above the leaf, and the
      one the leaf goes into (a missing table reads as `{}`); `ok` is false
      at the first existing value that is not an object. */
  method Descend(m: Members, keys: seq<string>, value: Json) returns (ok: bool, trail: seq<Members>, parent: Members)
    requires keys != []
    ensures ok <==> Put(m, keys, value).Some?
    ensures ok ==> |trail| == |keys| - 1
    ensures ok ==> Put(m, keys, value) == Some(Rebuild(trail, keys, Set(parent, keys[|keys| - 1], value)))
  {
    var last := |keys| - 1;
    trail := [];
    parent := m;
    var i := 0;
    while i < last
      invariant 0 <= i <= last && |trail| == i
      invariant Put(m, keys, value) == RebuildAll(trail, keys, Put(parent, keys[i..], value))
    {
      var k := keys[i];
      assert keys[i..][0] == k && keys[i..][1..] == keys[i + 1..];
      var next: Members;
      match Get(parent, k) {
        case None =>
          next := [];
        case Some(child) =>
          if !child.Obj? {
            return false, trail, parent;
          }
          next := child.members;
      }
      assert (trail + [parent])[..i] == trail;
      trail := trail + [parent];
      parent := next;
      i := i + 1;
    }
    assert keys[last..] == [keys[last]];
    ok := true;
  }

  /** The way back up: each visited table gets the rebuilt one below it
      written back under its key. */
  method Ascend(trail: seq<Members>, keys: seq<string>, leaf: Members) returns (m: Members)
    requires |trail| <= |keys|
    ensures m == Rebuild(trail, keys, leaf)
  {
    m := leaf;
    var i := |trail|;
    assert trail[..i] == trail;
    while i > 0
      invariant 0 <= i <= |trail|
      invariant Rebuild(trail, keys, leaf) == Rebuild(trail[..i], keys, m)
    {
      assert trail[..i][..i - 1] == trail[..i - 1];
      i := i - 1;
      m := Set(trail[i], keys[i], Obj(m));
    }
  }
}
