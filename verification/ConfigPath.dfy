/** Dot-path access to the configuration document: split_dot_path, SetValue and UnsetValue of
    `src/core/config.cpp`, and the walk of config.get in `src/gateway/rpc_handlers_core.cpp`.
 */
module ConfigPath {
  import opened Text

  datatype Json =
    | Null
    | Bool(b: bool)
    | Number(n: real)
    | Str(s: string)
    | Array(items: seq<Json>)
    | Object(fields: map<string, Json>)

  datatype Result<+T> = Ok(value: T) | EmptyPath | TypeError | UnknownPath

  // ---------------------------------------------------------------- paths

  /** The components config.set and config.unset see: an empty one at the end is dropped. */
  function Parts(path: string): seq<string> {
    Trim(Pieces(path, '.'))
  }

  /** split_dot_path. */
  method SplitDotPath(path: string) returns (parts: seq<string>)
    ensures parts == Parts(path)
  {
    parts := SplitAt(path, '.');
  }

  // ---------------------------------------------------------------- the document

  /** The value reached by the keys, if every step is a field of an object. */
  function Lookup(doc: Json, keys: seq<string>): Option<Json> {
    if keys == [] then Some(doc)
    else if doc.Object? && keys[0] in doc.fields then Lookup(doc.fields[keys[0]], keys[1..])
    else None
  }

  /** The child SetValue goes into: an object that is there, or a new one in place of anything else. */
  function Child(doc: Json, key: string): Json {
    if doc.Object? && key in doc.fields && doc.fields[key].Object? then doc.fields[key] else Object(map[])
  }

  /** What SetValue makes of the document. Writing a field turns null into an object and throws on any
      other value that is not one. */
  function Put(doc: Json, keys: seq<string>, v: Json): Result<Json>
    decreases |keys|
  {
    if keys == [] then EmptyPath
    else if !doc.Object? && !doc.Null? then TypeError
    else
      var fields := if doc.Object? then doc.fields else map[];
      if |keys| == 1 then Ok(Object(fields[keys[0] := v]))
      else
        match Put(Child(doc, keys[0]), keys[1..], v)
        case Ok(child) => Ok(Object(fields[keys[0] := child]))
        case other => other
  }

  /** What UnsetValue makes of the document: nothing when the way there is missing. */
  function Remove(doc: Json, keys: seq<string>): Result<Json>
    decreases |keys|
  {
    if keys == [] then EmptyPath
    else if |keys| == 1 then
      if doc.Object? then Ok(Object(doc.fields - {keys[0]})) else TypeError
    else if doc.Object? && keys[0] in doc.fields && doc.fields[keys[0]].Object? then
      match Remove(doc.fields[keys[0]], keys[1..])
      case Ok(child) => Ok(Object(doc.fields[keys[0] := child]))
      case other => other
    else Ok(doc)
  }

  /** What config.get is meant to answer for a path: the live value, for the few paths that have one, or
      what the document on disk holds there. */
  function Get(live: map<string, Json>, doc: Json, path: string): Result<Json> {
    if path in live then Ok(live[path])
    else match Lookup(doc, Pieces(path, '.'))
      case Some(v) => Ok(v)
      case None => UnknownPath
  }

  /** config.get for a path that is not empty. */
  method ConfigGet(live: map<string, Json>, doc: Json, path: string) returns (r: Result<Json>)
    ensures r == Get(live, doc, path)
  {
    hide LineEnd, Pieces;
    if path in live {
      return Ok(live[path]);
    }
    var cur, start := doc, 0;
    assert path[0..] == path;
    while true
      invariant 0 <= start <= |path|
      invariant Lookup(cur, Pieces(path[start..], '.')) == Lookup(doc, Pieces(path, '.'))
      decreases |path| - start
    {
      FindNewline(path, start, '.');
      var dot := Find(path, ".", start);
      var key := if dot.None? then path[start..] else path[start..dot.value];
      GetRound(path, start, dot);
      if !cur.Object? || key !in cur.fields {
        return UnknownPath;
      }
      cur := cur.fields[key];
      if dot.None? {
        return Ok(cur);
      }
      start := dot.value + 1;
    }
  }

  lemma GetRound(path: string, start: nat, dot: Option<nat>)
    requires start <= |path|
    requires var n := LineEnd(path[start..], '.'); dot == if start + n < |path| then Some(start + n) else None
    ensures dot.None? ==> Pieces(path[start..], '.') == [path[start..]]
    ensures dot.Some? ==> dot.value < |path|
    ensures dot.Some? ==> Pieces(path[start..], '.') == [path[start..dot.value]] + Pieces(path[dot.value + 1..], '.')
  {
    hide LineEnd, Trim, Pieces;
    if dot.Some? {
      NextPiece(path, '.', start, dot.value);
    } else {
      OnePiece(path[start..]);
    }
  }

  lemma OnePiece(s: string)
    ensures LineEnd(s, '.') == |s| ==> Pieces(s, '.') == [s]
  {
  }

  /** Where a pointer into the document stands: the objects passed on the way, each with the key taken. */
  type Spine = seq<(map<string, Json>, string)>

  /** The document with the node the pointer stands at in place. */
  function Plug(spine: Spine, node: Json): Json {
    if spine == [] then node
    else
      var (fields, key) := spine[|spine| - 1];
      Plug(spine[..|spine| - 1], Object(fields[key := node]))
  }

  function Replug(spine: Spine, r: Result<Json>): Result<Json> {
    match r
    case Ok(node) => Ok(Plug(spine, node))
    case other => other
  }

  /** The parent with a changed child. */
  function Wrap(fields: map<string, Json>, key: string, r: Result<Json>): Result<Json> {
    match r
    case Ok(child) => Ok(Object(fields[key := child]))
    case other => other
  }

  lemma StepDown(spine: Spine, fields: map<string, Json>, key: string, r: Result<Json>)
    ensures Replug(spine + [(fields, key)], r) == Replug(spine, Wrap(fields, key, r))
  {
    assert (spine + [(fields, key)])[..|spine|] == spine;
  }

  /** QuantClawConfig::SetValue, from the parsed file to the document written back. */
  method SetValue(root: Json, path: string, v: Json) returns (r: Result<Json>)
    ensures r == Put(root, Parts(path), v)
    ensures r.EmptyPath? <==> path == ""
  {
    hide Parts, Plug, Replug;
    var parts := SplitDotPath(path);
    NoParts(path);
    PutErrors(root, parts, v);
    if parts == [] {
      return EmptyPath;
    }
    var node := root;
    var spine: Spine := [];
    var i := 0;
    PlugNothing(Put(root, parts, v));
    assert parts[0..] == parts;
    while i + 1 < |parts|
      invariant 0 <= i < |parts|
      invariant Put(root, parts, v) == Replug(spine, Put(node, parts[i..], v))
    {
      var key := parts[i];
      assert parts[i..][0] == key && parts[i..][1..] == parts[i + 1..];
      if !node.Object? && !node.Null? {
        PlugResult(spine, node);
        return TypeError;
      }
      var fields := if node.Object? then node.fields else map[];
      if key !in fields || !fields[key].Object? {
        fields := fields[key := Object(map[])];
      }
      PutThrough(node, parts[i..], v, fields);
      StepDown(spine, fields, key, Put(fields[key], parts[i + 1..], v));
      spine := spine + [(fields, key)];
      node := fields[key];
      i := i + 1;
    }
    var key := parts[|parts| - 1];
    assert parts[i..] == [key];
    if !node.Object? && !node.Null? {
      PlugResult(spine, node);
      return TypeError;
    }
    var fields := if node.Object? then node.fields else map[];
    PlugResult(spine, Object(fields[key := v]));
    return Ok(Plug(spine, Object(fields[key := v])));
  }

  lemma PlugNothing(r: Result<Json>)
    ensures Replug([], r) == r
  {
  }

  lemma PlugResult(spine: Spine, node: Json)
    ensures Replug(spine, Ok(node)) == Ok(Plug(spine, node)) && Replug(spine, TypeError) == TypeError
  {
  }

  /** Making room for the child first changes nothing about the result. */
  lemma PutThrough(node: Json, keys: seq<string>, v: Json, fields: map<string, Json>)
    requires |keys| > 1 && (node.Object? || node.Null?)
    requires var was := if node.Object? then node.fields else map[];
             fields == if keys[0] in was && was[keys[0]].Object? then was else was[keys[0] := Object(map[])]
    ensures keys[0] in fields && fields[keys[0]] == Child(node, keys[0])
    ensures Put(node, keys, v) == Wrap(fields, keys[0], Put(fields[keys[0]], keys[1..], v))
  {
    var was := if node.Object? then node.fields else map[];
    var r := Put(Child(node, keys[0]), keys[1..], v);
    if r.Ok? {
      assert was[keys[0] := r.value] == fields[keys[0] := r.value];
    }
  }

  /** QuantClawConfig::UnsetValue; the file is left alone when the way to the place is missing. */
  method UnsetValue(root: Json, path: string) returns (r: Result<Json>)
    ensures r == Remove(root, Parts(path))
    ensures r.EmptyPath? <==> path == ""
  {
    hide Parts, Plug, Replug;
    var parts := SplitDotPath(path);
    NoParts(path);
    PutErrors(root, parts, Null);
    if parts == [] {
      return EmptyPath;
    }
    var node := root;
    var spine: Spine := [];
    var i := 0;
    PlugNothing(Remove(root, parts));
    PlugNothing(Ok(root));
    assert parts[0..] == parts;
    while i + 1 < |parts|
      invariant 0 <= i < |parts|
      invariant Remove(root, parts) == Replug(spine, Remove(node, parts[i..]))
      invariant Replug(spine, Ok(node)) == Ok(root)
    {
      var key := parts[i];
      assert parts[i..][0] == key && parts[i..][1..] == parts[i + 1..];
      if !node.Object? || key !in node.fields || !node.fields[key].Object? {
        return Ok(root);
      }
      StepDown(spine, node.fields, key, Remove(node.fields[key], parts[i + 1..]));
      StepDown(spine, node.fields, key, Ok(node.fields[key]));
      assert node.fields[key := node.fields[key]] == node.fields;
      PlugResult(spine, node);
      spine := spine + [(node.fields, key)];
      node := node.fields[key];
      i := i + 1;
    }
    var key := parts[|parts| - 1];
    assert parts[i..] == [key];
    if !node.Object? {
      PlugResult(spine, node);
      return TypeError;
    }
    PlugResult(spine, Object(node.fields - {key}));
    return Ok(Plug(spine, Object(node.fields - {key})));
  }

  lemma NoParts(path: string)
    ensures Parts(path) == [] <==> path == ""
  {
  }

  /** The only failures: an empty path, and a root that cannot hold the field. */
  lemma {:induction false} PutErrors(doc: Json, keys: seq<string>, v: Json)
    ensures Put(doc, keys, v).Ok? <==> keys != [] && (doc.Object? || doc.Null?)
    ensures Remove(doc, keys).Ok? <==> keys != [] && (doc.Object? || |keys| > 1)
    ensures keys != [] ==> !Put(doc, keys, v).EmptyPath? && !Remove(doc, keys).EmptyPath?
    decreases |keys|
  {
    if |keys| <= 1 {
    } else {
      PutErrors(Child(doc, keys[0]), keys[1..], v);
    }
  }

  // ---------------------------------------------------------------- laws

  /** Neither list of keys starts with the other. */
  ghost predicate Unrelated(a: seq<string>, b: seq<string>) {
    !(a <= b) && !(b <= a)
  }

  /** Setting a value: it is found where it was put, with everything in it; nothing else changes; and
      every place on the way there is an object. */
  lemma {:induction false} PutLaw(doc: Json, keys: seq<string>, v: Json, other: seq<string>)
    requires keys != [] && doc.Object?
    ensures Put(doc, keys, v).Ok? && Put(doc, keys, v).value.Object?
    ensures keys <= other ==> Lookup(Put(doc, keys, v).value, other) == Lookup(v, other[|keys|..])
    ensures Unrelated(keys, other) ==> Lookup(Put(doc, keys, v).value, other) == Lookup(doc, other)
    ensures other < keys ==>
              Lookup(Put(doc, keys, v).value, other).Some? && Lookup(Put(doc, keys, v).value, other).value.Object?
    decreases |keys|
  {
    if |keys| > 1 {
      var child := Child(doc, keys[0]);
      if other != [] && other[0] == keys[0] {
        PutLaw(child, keys[1..], v, other[1..]);
      } else {
        PutLaw(child, keys[1..], v, []);
      }
    } else if other != [] && other[0] == keys[0] {
      assert keys <= other;
    }
  }

  /** Setting into null is setting into an empty object. */
  lemma PutIntoNull(keys: seq<string>, v: Json)
    ensures Put(Null, keys, v) == Put(Object(map[]), keys, v)
  {
  }

  /** Unsetting a path: nothing is found there any more, what stands on the way there stays, a value that is no
      object unchanged, and nothing else changes. */
  lemma {:induction false} RemoveLaw(doc: Json, keys: seq<string>, other: seq<string>)
    requires keys != [] && doc.Object?
    ensures Remove(doc, keys).Ok?
    ensures keys <= other ==> Lookup(Remove(doc, keys).value, other).None?
    ensures Unrelated(keys, other) ==> Lookup(Remove(doc, keys).value, other) == Lookup(doc, other)
    ensures other < keys ==>
              match Lookup(doc, other)
              case None => Lookup(Remove(doc, keys).value, other) == None
              case Some(Object(_)) =>
                Lookup(Remove(doc, keys).value, other).Some? && Lookup(Remove(doc, keys).value, other).value.Object?
              case v => Lookup(Remove(doc, keys).value, other) == v
    decreases |keys|
  {
    if |keys| > 1 && keys[0] in doc.fields && doc.fields[keys[0]].Object? {
      if other != [] && other[0] == keys[0] {
        RemoveLaw(doc.fields[keys[0]], keys[1..], other[1..]);
      } else {
        RemoveLaw(doc.fields[keys[0]], keys[1..], []);
      }
    } else if other != [] && other[0] == keys[0] {
      if |keys| > 1 && keys <= other {
        assert other[1..] != [];
      }
    }
  }

  /** Where there is nothing, unsetting changes nothing, whatever blocks the way. */
  lemma {:induction false} RemoveNothing(doc: Json, keys: seq<string>)
    requires keys != [] && Lookup(doc, keys).None? && (doc.Object? || |keys| > 1)
    ensures Remove(doc, keys) == Ok(doc)
    decreases |keys|
  {
    if |keys| > 1 && doc.Object? && keys[0] in doc.fields && doc.fields[keys[0]].Object? {
      RemoveNothing(doc.fields[keys[0]], keys[1..]);
      assert doc.fields[keys[0] := doc.fields[keys[0]]] == doc.fields;
    } else if |keys| == 1 {
      assert Lookup(doc, keys).None? ==> keys[0] !in doc.fields;
      assert doc.fields - {keys[0]} == doc.fields;
    }
  }

  /** How a path is read: up to the first dot, and on behind it. */
  lemma PiecesRead(key: string, rest: string)
    requires '.' !in key
    ensures Pieces(key, '.') == [key]
    ensures Pieces(key + "." + rest, '.') == [key] + Pieces(rest, '.')
  {
    hide Pieces;
    LineEndUnique(key, |key|, '.');
    OnePiece(key);
    var path := key + "." + rest;
    assert path[..|key|] == key && path[|key| + 1..] == rest && path[0..] == path;
    LineEndUnique(path, |key|, '.');
    NextPiece(path, '.', 0, |key|);
  }

  /** The two readings of a path differ by an empty component, exactly when the path ends in a dot. */
  lemma {:induction false} PathReadings(path: string)
    requires path != ""
    ensures Pieces(path, '.') == Parts(path) + if path[|path| - 1] == '.' then [""] else []
  {
    hide Pieces, LineEnd, Trim, Last;
    LastPieceEmpty(path, '.');
    TrimAndRest(Pieces(path, '.'));
  }

  lemma TrimAndRest(p: seq<string>)
    ensures p != [] ==> p == Trim(p) + if Last(p) == "" then [""] else []
  {
  }

  /** config.get answers what config.set has put there exactly when the path is not answered live and does not
      end in a dot, or happens to have that live value anyway. */
  lemma {:induction false} GetAfterSet(live: map<string, Json>, root: Json, path: string, v: Json)
    requires root.Object? && path != ""
    ensures Put(root, Parts(path), v).Ok?
    ensures Get(live, Put(root, Parts(path), v).value, path) == Ok(v) <==>
            if path in live then live[path] == v else path[|path| - 1] != '.'
  {
    NoParts(path);
    PathReadings(path);
    PutLaw(root, Parts(path), v, Pieces(path, '.'));
    if path[|path| - 1] == '.' {
      assert (Parts(path) + [""])[|Parts(path)|..] == [""];
    } else {
      assert Parts(path)[|Parts(path)|..] == [];
    }
  }

  /** config.get finds nothing after config.unset exactly when the path is not answered live. */
  lemma GetAfterUnset(live: map<string, Json>, root: Json, path: string)
    requires root.Object? && path != ""
    ensures Remove(root, Parts(path)).Ok?
    ensures Get(live, Remove(root, Parts(path)).value, path) == UnknownPath <==> path !in live
  {
    NoParts(path);
    PathReadings(path);
    RemoveLaw(root, Parts(path), Pieces(path, '.'));
  }

  /** Paths that are not related are answered alike before and after either change. */
  lemma OtherPathsUnchanged(live: map<string, Json>, root: Json, path: string, v: Json, other: string)
    requires root.Object? && path != "" && Unrelated(Parts(path), Pieces(other, '.'))
    ensures Put(root, Parts(path), v).Ok? && Remove(root, Parts(path)).Ok?
    ensures Get(live, Put(root, Parts(path), v).value, other) == Get(live, root, other)
    ensures Get(live, Remove(root, Parts(path)).value, other) == Get(live, root, other)
  {
    NoParts(path);
    PutLaw(root, Parts(path), v, Pieces(other, '.'));
    RemoveLaw(root, Parts(path), Pieces(other, '.'));
  }
}
