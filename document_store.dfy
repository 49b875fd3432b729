/**
 * The realtime database as a key-path store: a tree of `Value`s addressed by
 * paths (`sessions/{code}/players/{playerId}` is ["sessions", code,
 * "players", playerId]), a set-at-path, a remove-at-path, and a log of the
 * writes clients issue. Delivery, ordering, concurrent writers and the
 * store's pruning of empty collections are outside this model.
 */
module DocumentStore {
  import opened Wrappers
  import opened KeyValue

  type Path = seq<string>

  datatype Write = SetAt(path: Path, value: Value) | RemoveAt(path: Path)

  /** `p` is a prefix of `q` (the node at `p` contains the node at `q`). */
  predicate Above(p: Path, q: Path) { |p| <= |q| && q[..|p|] == p }

  /** Neither path contains the other: a write at one leaves the other alone. */
  predicate Apart(p: Path, q: Path) { !Above(p, q) && !Above(q, p) }

  /** The value stored at `path`, if any. */
  function Get(root: Dict, path: Path): Option<Value>
    requires |path| > 0
    decreases |path|
  {
    if path[0] !in root then None
    else if |path| == 1 then Some(root[path[0]])
    else if root[path[0]].Map? then Get(root[path[0]].entries, path[1..])
    else None
  }

  /** The dictionary a write at `key/...` descends into (a non-dictionary is replaced). */
  function Child(root: Dict, key: string): Dict
  {
    if key in root && root[key].Map? then root[key].entries else map[]
  }

  /** `setValue` at `path`. */
  function Put(root: Dict, path: Path, v: Value): Dict
    requires |path| > 0
    decreases |path|
  {
    if |path| == 1 then root[path[0] := v]
    else root[path[0] := Map(Put(Child(root, path[0]), path[1..], v))]
  }

  /** `removeValue` at `path`. */
  function Delete(root: Dict, path: Path): Dict
    requires |path| > 0
    decreases |path|
  {
    if |path| == 1 then root - {path[0]}
    else if path[0] in root && root[path[0]].Map?
    then root[path[0] := Map(Delete(root[path[0]].entries, path[1..]))]
    else root
  }

  lemma {:induction false} GetAfterPut(root: Dict, path: Path, v: Value)
    requires |path| > 0
    ensures Get(Put(root, path, v), path) == Some(v)
    decreases |path|
  {
    if |path| > 1 {
      GetAfterPut(Child(root, path[0]), path[1..], v);
    }
  }

  /** A write at one path leaves every path apart from it as it was. */
  lemma {:induction false} PutLeavesApartPaths(root: Dict, path: Path, v: Value, other: Path)
    requires |path| > 0 && |other| > 0 && Apart(path, other)
    ensures Get(Put(root, path, v), other) == Get(root, other)
    decreases |path|
  {
    if path[0] == other[0] {
      assert |path| > 1 && |other| > 1;
      assert path == [path[0]] + path[1..] && other == [other[0]] + other[1..];
      PutLeavesApartPaths(Child(root, path[0]), path[1..], v, other[1..]);
    }
  }

  lemma {:induction false} GetAfterDelete(root: Dict, path: Path)
    requires |path| > 0
    ensures Get(Delete(root, path), path) == None
    decreases |path|
  {
    if |path| > 1 && path[0] in root && root[path[0]].Map? {
      GetAfterDelete(root[path[0]].entries, path[1..]);
    }
  }

  /** A removal at one path leaves every path apart from it as it was. */
  lemma {:induction false} DeleteLeavesApartPaths(root: Dict, path: Path, other: Path)
    requires |path| > 0 && |other| > 0 && Apart(path, other)
    ensures Get(Delete(root, path), other) == Get(root, other)
    decreases |path|
  {
    if path[0] == other[0] && path[0] in root && root[path[0]].Map? {
      assert |path| > 1 && |other| > 1;
      assert path == [path[0]] + path[1..] && other == [other[0]] + other[1..];
      DeleteLeavesApartPaths(root[path[0]].entries, path[1..], other[1..]);
    }
  }

  /** A write below an existing dictionary node applies the rest of its path inside that node. */
  lemma {:induction false} PutInside(root: Dict, prefix: Path, suffix: Path, v: Value)
    requires |prefix| > 0 && |suffix| > 0 && Get(root, prefix).Some? && Get(root, prefix).value.Map?
    ensures Get(Put(root, prefix + suffix, v), prefix) ==
            Some(Map(Put(Get(root, prefix).value.entries, suffix, v)))
    decreases |prefix|
  {
    var path := prefix + suffix;
    assert path[0] == prefix[0];
    if |prefix| == 1 {
      assert path[1..] == suffix;
    } else {
      assert path[1..] == prefix[1..] + suffix;
      PutInside(root[prefix[0]].entries, prefix[1..], suffix, v);
    }
  }

  /** A removal below an existing dictionary node applies the rest of its path inside that node. */
  lemma {:induction false} DeleteInside(root: Dict, prefix: Path, suffix: Path)
    requires |prefix| > 0 && |suffix| > 0 && Get(root, prefix).Some? && Get(root, prefix).value.Map?
    ensures Get(Delete(root, prefix + suffix), prefix) ==
            Some(Map(Delete(Get(root, prefix).value.entries, suffix)))
    decreases |prefix|
  {
    var path := prefix + suffix;
    assert path[0] == prefix[0];
    if |prefix| == 1 {
      assert path[1..] == suffix;
    } else {
      assert path[1..] == prefix[1..] + suffix;
      DeleteInside(root[prefix[0]].entries, prefix[1..], suffix);
    }
  }

  /** Setting `key/leaf` in a dictionary whose `key` entry is a dictionary sets `leaf` there. */
  lemma PutTwoDeep(d: Dict, key: string, leaf: string, v: Value)
    requires key in d && d[key].Map?
    ensures Put(d, [key, leaf], v) == d[key := Map(d[key].entries[leaf := v])]
  {
    assert [key, leaf][1..] == [leaf];
  }

  /** Removing `key/leaf` in a dictionary whose `key` entry is a dictionary drops `leaf` there. */
  lemma DeleteTwoDeep(d: Dict, key: string, leaf: string)
    requires key in d && d[key].Map?
    ensures Delete(d, [key, leaf]) == d[key := Map(d[key].entries - {leaf})]
  {
    assert [key, leaf][1..] == [leaf];
  }

  /** The contents after `w` takes effect. */
  function Apply(root: Dict, w: Write): Dict
    requires |w.path| > 0
  {
    match w
    case SetAt(path, v) => Put(root, path, v)
    case RemoveAt(path) => Delete(root, path)
  }

  /** The contents after `w` was issued: it takes effect only when no failure is reported. */
  function Commit(root: Dict, w: Write, failure: Option<string>): Dict
    requires |w.path| > 0
  {
    if failure.None? then Apply(root, w) else root
  }

  /** The database reference: its contents and every write issued against it. */
  class Store {
    var root: Dict
    var log: seq<Write>

    constructor (initial: Dict)
      ensures root == initial && log == []
    {
      root := initial;
      log := [];
    }

    /** The value under `path`, as `observeSingleEvent(of: .value)` delivers it. */
    function Read(path: Path): Option<Value>
      reads this
      requires |path| > 0
    {
      Get(root, path)
    }

    /** `setValue(v)` at `path`; `failure` is the error the completion reports, if any. */
    method Set(path: Path, v: Value, failure: Option<string>)
      requires |path| > 0
      modifies this
      ensures log == old(log) + [SetAt(path, v)]
      ensures root == Commit(old(root), SetAt(path, v), failure)
    {
      log := log + [SetAt(path, v)];
      if failure.None? {
        root := Put(root, path, v);
      }
    }

    /** `removeValue()` at `path`. */
    method Remove(path: Path, failure: Option<string>)
      requires |path| > 0
      modifies this
      ensures log == old(log) + [RemoveAt(path)]
      ensures root == Commit(old(root), RemoveAt(path), failure)
    {
      log := log + [RemoveAt(path)];
      if failure.None? {
        root := Delete(root, path);
      }
    }
  }
}
