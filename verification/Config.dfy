/** Loading a configuration: a first-wins merge of JSON trees, driven by a
    recursive, depth-bounded `include`.

    A JSON value is copied and merged in place by the program; here a tree is a
    value and the methods return the changed tree. The file system enters as a
    `World`: what a path contains and which paths an include name stands for.
 */
module Config {
  import opened Wrappers

  datatype Error = TooDeep | Unreadable | NotAnObject | NotAString
  datatype Result<+T> = Ok(value: T) | Err(error: Error)

  datatype Json =
    | Null
    | Bool(b: bool)
    | Num(n: int)
    | Str(s: string)
    | Arr(items: seq<Json>)
    | Obj(fields: map<string, Json>)

  /** `read` is the parsed contents of a path, or None when it cannot be opened or parsed;
      `find` lists the existing paths an include name expands to; `numText` prints a number. */
  datatype World = World(read: string -> Option<Json>, find: string -> seq<string>, numText: int -> string)

  const INCLUDE := "include"
  const MAX_DEPTH := 100

  // --- merging ---------------------------------------------------------------------------------

  /** First wins: what `a` has is kept, objects are merged key by key, and null counts as unset
      only for the whole tree. */
  function Merge(a: Json, b: Json): Json {
    if a.Null? then b
    else if a.Obj? && b.Obj? then
      Obj(map k | k in a.fields.Keys + b.fields.Keys :: MergeField(a, b, k))
    else a
  }

  function MergeField(a: Json, b: Json, k: string): Json
    requires a.Obj? && b.Obj? && k in a.fields.Keys + b.fields.Keys
    decreases a, b, 0
  {
    if k !in a.fields then b.fields[k]
    else if k in b.fields && a.fields[k].Obj? && b.fields[k].Obj? then Merge(a.fields[k], b.fields[k])
    else a.fields[k]
  }

  /** `a` is `a0` with the members of `b` outside `names` merged in. */
  ghost predicate MergedExcept(a0: Json, b: Json, names: set<string>, a: Json)
    requires a0.Obj? && b.Obj?
  {
    && a.Obj? && names <= b.fields.Keys
    && a.fields.Keys == a0.fields.Keys + (b.fields.Keys - names)
    && forall k :: k in a.fields ==> a.fields[k] == if k in names then a0.fields[k] else MergeField(a0, b, k)
  }

  lemma MergeOneMore(a0: Json, b: Json, names: set<string>, a: Json, key: string)
    requires a0.Obj? && b.Obj? && MergedExcept(a0, b, names, a) && key in names
    ensures MergedExcept(a0, b, names - {key}, Obj(a.fields[key := MergeField(a0, b, key)]))
  {
  }

  /** Visits the member names of `b` in some order; any order gives the same tree. */
  method MergeConfig(a0: Json, b: Json) returns (a: Json)
    ensures a == Merge(a0, b)
    decreases b, 1
  {
    a := a0;
    if a.Null? {
      a := b;
    } else if a.Obj? && b.Obj? {
      var names := b.fields.Keys;
      while names != {}
        invariant MergedExcept(a0, b, names, a)
        decreases names
      {
        var key :| key in names;
        assert key in a.fields <==> key in a0.fields;
        assert key in a.fields ==> a.fields[key] == a0.fields[key];
        MergeOneMore(a0, b, names, a, key);
        names := names - {key};
        a := MergeMember(a, b, key);
      }
      assert a.fields == Merge(a0, b).fields;
    }
  }

  method MergeMember(a0: Json, b: Json, key: string) returns (a: Json)
    requires a0.Obj? && b.Obj? && key in b.fields
    ensures a == Obj(a0.fields[key := MergeField(a0, b, key)])
    decreases b, 0
  {
    a := a0;
    if key in a.fields && a.fields[key].Obj? && b.fields[key].Obj? {
      var merged := MergeConfig(a.fields[key], b.fields[key]);
      a := Obj(a.fields[key := merged]);
    } else if key !in a.fields {
      a := Obj(a.fields[key := b.fields[key]]);
    } else {
      assert a.fields == a.fields[key := a.fields[key]];
    }
  }

  /** The value at a path of member names. */
  function At(j: Json, path: seq<string>): Option<Json>
    decreases |path|
  {
    if path == [] then Some(j)
    else if j.Obj? && path[0] in j.fields then At(j.fields[path[0]], path[1..])
    else None
  }

  /** Merging never changes a value that is set and is not an object. */
  lemma {:induction false} MergeKeeps(a: Json, b: Json, path: seq<string>)
    requires At(a, path).Some? && !At(a, path).value.Obj? && !a.Null?
    ensures At(Merge(a, b), path) == At(a, path)
    decreases |path|
  {
    if path != [] && b.Obj? && path[0] in b.fields && a.fields[path[0]].Obj? && b.fields[path[0]].Obj? {
      MergeKeeps(a.fields[path[0]], b.fields[path[0]], path[1..]);
    }
  }

  lemma {:induction false} MergeSelf(a: Json)
    ensures Merge(a, a) == a
  {
    if !a.Obj? {
    } else {
      forall k | k in a.fields ensures MergeField(a, a, k) == a.fields[k] {
        MergeSelf(a.fields[k]);
      }
      assert Merge(a, a).fields == a.fields;
    }
  }

  /** Merging the same tree a second time changes nothing. */
  lemma {:induction false} MergeTwice(a: Json, b: Json)
    ensures Merge(Merge(a, b), b) == Merge(a, b)
  {
    var m := Merge(a, b);
    if a.Null? {
      MergeSelf(b);
    } else if a.Obj? && b.Obj? {
      forall k | k in m.fields ensures MergeField(m, b, k) == m.fields[k] {
        assert m.fields[k] == MergeField(a, b, k);
        if k !in a.fields {
          MergeSelf(b.fields[k]);
        } else if k in b.fields {
          MergeTwice(a.fields[k], b.fields[k]);
        }
      }
      assert Merge(m, b).fields == m.fields;
    }
  }

  // --- when merging is associative ---------------------------------------------------------------

  /** Somewhere along a common path `a` has an object, `b` hides it with a non-object, and `c` has
      an object with something to add. */
  ghost predicate Clash(a: Json, b: Json, c: Json) {
    && a.Obj? && c.Obj?
    && if b.Obj? then exists k :: k in a.fields && k in b.fields && k in c.fields
                                  && Clash(a.fields[k], b.fields[k], c.fields[k])
       else Merge(a, c) != a
  }

  lemma {:induction false} MergeAssociative(a: Json, b: Json, c: Json)
    requires a.Obj? && b.Obj? && c.Obj?
    ensures Merge(Merge(a, b), c) == Merge(a, Merge(b, c)) <==> !Clash(a, b, c)
    decreases a
  {
    var ab, bc := Merge(a, b), Merge(b, c);
    var l, r := Merge(ab, c), Merge(a, bc);
    assert l.fields.Keys == r.fields.Keys == a.fields.Keys + b.fields.Keys + c.fields.Keys;
    forall k | k in l.fields
      ensures l.fields[k] == r.fields[k] <==>
              !(k in a.fields && k in b.fields && k in c.fields && Clash(a.fields[k], b.fields[k], c.fields[k]))
    {
      assert l.fields[k] == MergeField(ab, c, k) && r.fields[k] == MergeField(a, bc, k);
      assert k in ab.fields ==> ab.fields[k] == MergeField(a, b, k);
      assert k in bc.fields ==> bc.fields[k] == MergeField(b, c, k);
      if k in a.fields && a.fields[k].Obj? && k in b.fields && k in c.fields && c.fields[k].Obj? && b.fields[k].Obj? {
        MergeAssociative(a.fields[k], b.fields[k], c.fields[k]);
      }
    }
    if !Clash(a, b, c) {
      assert l.fields == r.fields;
    }
  }

  /** An object, a string and an object at the same key: the grouping shows. */
  lemma MergeIsNotAssociative()
    ensures exists a: Json, b: Json, c: Json ::
              a.Obj? && b.Obj? && c.Obj? && Merge(Merge(a, b), c) != Merge(a, Merge(b, c))
  {
    var a, b, c := Obj(map["k" := Obj(map[])]), Obj(map["k" := Null]), Obj(map["k" := Obj(map["x" := Null])]);
    var ak, ck := a.fields["k"], c.fields["k"];
    assert "x" in Merge(ak, ck).fields;
    assert Clash(ak, b.fields["k"], ck);
    MergeAssociative(a, b, c);
  }

  /** The two trees agree on which common key paths hold objects. */
  ghost predicate Agree(a: Json, b: Json) {
    && (a.Obj? <==> b.Obj?)
    && (a.Obj? ==> forall k :: k in a.fields && k in b.fields ==> Agree(a.fields[k], b.fields[k]))
  }

  lemma {:induction false} AgreeingNeverClash(a: Json, b: Json, c: Json)
    requires Agree(a, b)
    ensures !Clash(a, b, c)
    decreases a
  {
    if a.Obj? && b.Obj? && c.Obj? {
      forall k | k in a.fields && k in b.fields && k in c.fields
        ensures !Clash(a.fields[k], b.fields[k], c.fields[k])
      {
        AgreeingNeverClash(a.fields[k], b.fields[k], c.fields[k]);
      }
    }
  }

  lemma {:induction false} MergeAgrees(a: Json, b: Json, c: Json)
    requires Agree(a, c) && Agree(b, c)
    ensures Agree(Merge(a, b), c)
    decreases a
  {
    if !a.Obj? {
    } else {
      var m := Merge(a, b);
      forall k | k in m.fields && k in c.fields ensures Agree(m.fields[k], c.fields[k]) {
        assert m.fields[k] == MergeField(a, b, k);
        if k in a.fields && k in b.fields {
          MergeAgrees(a.fields[k], b.fields[k], c.fields[k]);
        }
      }
    }
  }

  lemma {:induction false} AgreeSymmetric(a: Json, b: Json)
    requires Agree(a, b)
    ensures Agree(b, a)
  {
    if !a.Obj? {
    } else {
      forall k | k in a.fields && k in b.fields ensures Agree(b.fields[k], a.fields[k]) {
        AgreeSymmetric(a.fields[k], b.fields[k]);
      }
    }
  }

  // --- loading ------------------------------------------------------------------------------------

  /** Reading `config["include"]` creates the member, as null, where it is missing. */
  function WithInclude(config: Json): Json
    requires config.Obj?
  {
    if INCLUDE in config.fields then config else Obj(config.fields[INCLUDE := Null])
  }

  /** The entries an `include` member asks for, in order. */
  function Includes(config: Json): seq<Json>
    requires config.Obj? && INCLUDE in config.fields
  {
    match config.fields[INCLUDE]
    case Arr(items) => items
    case Str(s) => [Str(s)]
    case _ => []
  }

  function AsString(w: World, j: Json): Result<string> {
    match j
    case Null => Ok("")
    case Bool(b) => Ok(if b then "true" else "false")
    case Num(n) => Ok(w.numText(n))
    case Str(s) => Ok(s)
    case _ => Err(NotAString)
  }

  function Setup(w: World, dst: Json, path: string, depth: nat): Result<Json>
    decreases MAX_DEPTH + 1 - depth, 4, 0
  {
    if depth > MAX_DEPTH then Err(TooDeep)
    else
      match w.read(path)
      case None => Err(Unreadable)
      case Some(Arr(parts)) =>
        (match ResolveParts(w, parts, depth)
         case Err(e) => Err(e)
         case Ok(resolved) => Ok(Merge(dst, Arr(resolved))))
      case Some(j) =>
        (match Resolve(w, j, depth)
         case Err(e) => Err(e)
         case Ok(resolved) => Ok(Merge(dst, resolved)))
  }

  function ResolveParts(w: World, parts: seq<Json>, depth: nat): Result<seq<Json>>
    requires depth <= MAX_DEPTH
    decreases MAX_DEPTH + 1 - depth, 3, |parts|
  {
    if parts == [] then Ok([])
    else
      match Resolve(w, parts[0], depth)
      case Err(e) => Err(e)
      case Ok(part) =>
        match ResolveParts(w, parts[1..], depth)
        case Err(e) => Err(e)
        case Ok(rest) => Ok([part] + rest)
  }

  /** A null configuration becomes an object; any other non-object throws. */
  function Resolve(w: World, config: Json, depth: nat): Result<Json>
    requires depth <= MAX_DEPTH
    decreases MAX_DEPTH + 1 - depth, 2, 0
  {
    if config.Null? then Ok(Obj(map[INCLUDE := Null]))
    else if !config.Obj? then Err(NotAnObject)
    else ResolveEntries(w, WithInclude(config), Includes(WithInclude(config)), depth)
  }

  function ResolveEntries(w: World, config: Json, entries: seq<Json>, depth: nat): Result<Json>
    requires depth <= MAX_DEPTH
    decreases MAX_DEPTH + 1 - depth, 1, |entries|
  {
    if entries == [] then Ok(config)
    else
      match AsString(w, entries[0])
      case Err(e) => Err(e)
      case Ok(name) =>
        match SetupEach(w, config, w.find(name), depth)
        case Err(e) => Err(e)
        case Ok(next) => ResolveEntries(w, next, entries[1..], depth)
  }

  function SetupEach(w: World, config: Json, paths: seq<string>, depth: nat): Result<Json>
    requires depth <= MAX_DEPTH
    decreases MAX_DEPTH + 1 - depth, 0, |paths|
  {
    if paths == [] then Ok(config)
    else
      match Setup(w, config, paths[0], depth + 1)
      case Err(e) => Err(e)
      case Ok(next) => SetupEach(w, next, paths[1..], depth)
  }

  method SetupConfig(w: World, dst: Json, path: string, depth: nat) returns (r: Result<Json>)
    ensures r == Setup(w, dst, path, depth)
    decreases MAX_DEPTH + 1 - depth, 1
  {
    if depth > MAX_DEPTH {
      return Err(TooDeep);
    }
    var contents := w.read(path);
    if contents.None? {
      return Err(Unreadable);
    }
    var tmp := contents.value;
    if tmp.Arr? {
      var parts := tmp.items;
      assert tmp.items[0..] == tmp.items && forall rest: seq<Json> :: parts[..0] + rest == rest;
      for i := 0 to |parts|
        invariant |parts| == |tmp.items| && parts[i..] == tmp.items[i..]
        invariant forall rest :: ResolveParts(w, tmp.items[i..], depth) == Ok(rest) ==>
          ResolveParts(w, tmp.items, depth) == Ok(parts[..i] + rest)
        invariant ResolveParts(w, tmp.items[i..], depth).Err? ==>
          ResolveParts(w, tmp.items, depth) == ResolveParts(w, tmp.items[i..], depth)
      {
        assert tmp.items[i..][0] == parts[i] && tmp.items[i..][1..] == tmp.items[i + 1..];
        var part := ResolveConfigIncludes(w, parts[i], depth);
        if part.Err? {
          return Err(part.error);
        }
        forall rest | ResolveParts(w, tmp.items[i + 1..], depth) == Ok(rest)
          ensures ResolveParts(w, tmp.items, depth) == Ok(parts[..i] + [part.value] + rest)
        {
          assert parts[..i] + ([part.value] + rest) == parts[..i] + [part.value] + rest;
        }
        parts := parts[i := part.value];
        assert parts[..i + 1] == parts[..i] + [part.value];
      }
      assert ResolveParts(w, tmp.items[|parts|..], depth) == Ok([]);
      assert parts[..|parts|] + [] == parts;
      tmp := Arr(parts);
    } else {
      var resolved := ResolveConfigIncludes(w, tmp, depth);
      if resolved.Err? {
        return Err(resolved.error);
      }
      tmp := resolved.value;
    }
    var merged := MergeConfig(dst, tmp);
    return Ok(merged);
  }

  method ResolveConfigIncludes(w: World, config0: Json, depth: nat) returns (r: Result<Json>)
    requires depth <= MAX_DEPTH
    ensures r == Resolve(w, config0, depth)
    decreases MAX_DEPTH + 1 - depth, 0
  {
    if config0.Null? {
      return Ok(Obj(map[INCLUDE := Null]));
    }
    if !config0.Obj? {
      return Err(NotAnObject);
    }
    var config := WithInclude(config0);
    var includes := config.fields[INCLUDE];
    if includes.Arr? {
      for i := 0 to |includes.items|
        invariant Resolve(w, config0, depth) == ResolveEntries(w, config, includes.items[i..], depth)
      {
        assert includes.items[i..][0] == includes.items[i] && includes.items[i..][1..] == includes.items[i + 1..];
        var name := AsString(w, includes.items[i]);
        if name.Err? {
          return Err(name.error);
        }
        var next := SetupMatches(w, config, w.find(name.value), depth);
        if next.Err? {
          return next;
        }
        config := next.value;
      }
    } else if includes.Str? {
      var next := SetupMatches(w, config, w.find(includes.s), depth);
      assert next.Ok? ==> ResolveEntries(w, next.value, [includes][1..], depth) == next;
      return next;
    }
    return Ok(config);
  }

  method SetupMatches(w: World, config0: Json, paths: seq<string>, depth: nat) returns (r: Result<Json>)
    requires depth <= MAX_DEPTH
    ensures r == SetupEach(w, config0, paths, depth)
    decreases MAX_DEPTH + 1 - depth, -1
  {
    var config := config0;
    for i := 0 to |paths|
      invariant SetupEach(w, config0, paths, depth) == SetupEach(w, config, paths[i..], depth)
    {
      assert paths[i..][0] == paths[i] && paths[i..][1..] == paths[i + 1..];
      var next := SetupConfig(w, config, paths[i], depth + 1);
      if next.Err? {
        return next;
      }
      config := next.value;
    }
    return Ok(config);
  }

  // --- what a load amounts to ---------------------------------------------------------------------

  /** The files a load visits, each an object, in depth-first preorder; or why the visit stops. */
  ghost function Preorder(w: World, path: string, depth: nat): Result<seq<Json>>
    decreases MAX_DEPTH + 1 - depth, 2, 0
  {
    if depth > MAX_DEPTH then Err(TooDeep)
    else if w.read(path).None? then Err(Unreadable)
    else if !w.read(path).value.Obj? then Err(NotAnObject)
    else
      var file := WithInclude(w.read(path).value);
      match PreorderEntries(w, Includes(file), depth)
      case Err(e) => Err(e)
      case Ok(rest) => Ok([file] + rest)
  }

  ghost function PreorderEntries(w: World, entries: seq<Json>, depth: nat): Result<seq<Json>>
    requires depth <= MAX_DEPTH
    decreases MAX_DEPTH + 1 - depth, 1, |entries|
  {
    if entries == [] then Ok([])
    else if AsString(w, entries[0]).Err? then Err(AsString(w, entries[0]).error)
    else
      match PreorderEach(w, w.find(AsString(w, entries[0]).value), depth)
      case Err(e) => Err(e)
      case Ok(first) =>
        match PreorderEntries(w, entries[1..], depth)
        case Err(e) => Err(e)
        case Ok(rest) => Ok(first + rest)
  }

  ghost function PreorderEach(w: World, paths: seq<string>, depth: nat): Result<seq<Json>>
    requires depth <= MAX_DEPTH
    decreases MAX_DEPTH + 1 - depth, 0, |paths|
  {
    if paths == [] then Ok([])
    else
      match Preorder(w, paths[0], depth + 1)
      case Err(e) => Err(e)
      case Ok(first) =>
        match PreorderEach(w, paths[1..], depth)
        case Err(e) => Err(e)
        case Ok(rest) => Ok(first + rest)
  }

  /** Merging a list of trees from left to right. */
  ghost function MergeAll(acc: Json, files: seq<Json>): Json
    decreases |files|
  {
    if files == [] then acc else MergeAll(Merge(acc, files[0]), files[1..])
  }

  ghost predicate AllObjects(files: seq<Json>) {
    forall i :: 0 <= i < |files| ==> files[i].Obj?
  }

  ghost predicate AllAgree(files: seq<Json>) {
    forall i, j :: 0 <= i < j < |files| ==> Agree(files[i], files[j])
  }

  ghost predicate AgreesWith(a: Json, files: seq<Json>) {
    forall i :: 0 <= i < |files| ==> Agree(a, files[i])
  }

  lemma {:induction false} MergeAllAppend(acc: Json, f: seq<Json>, g: seq<Json>)
    ensures MergeAll(acc, f + g) == MergeAll(MergeAll(acc, f), g)
    decreases |f|
  {
    if f == [] {
      assert f + g == g;
    } else {
      assert (f + g)[0] == f[0] && (f + g)[1..] == f[1..] + g;
      MergeAllAppend(Merge(acc, f[0]), f[1..], g);
    }
  }

  lemma {:induction false} MergeAllAgrees(acc: Json, f: seq<Json>, g: seq<Json>)
    requires acc.Obj? && AllObjects(f + g) && AgreesWith(acc, f + g) && AllAgree(f + g)
    ensures MergeAll(acc, f).Obj? && AgreesWith(MergeAll(acc, f), g)
    decreases |f|
  {
    var all := f + g;
    if f == [] {
      assert all == g;
    } else {
      var next := Merge(acc, f[0]);
      assert all[0] == f[0] && all[1..] == f[1..] + g;
      forall i | 0 <= i < |all[1..]| ensures Agree(next, all[1..][i]) {
        assert Agree(all[0], all[i + 1]);
        MergeAgrees(acc, f[0], all[i + 1]);
      }
      MergeAllAgrees(next, f[1..], g);
    }
  }

  /** Under agreement, merging in a left-to-right merge is merging its parts one after the other. */
  lemma {:induction false} MergeOfMergeAll(a: Json, x: Json, files: seq<Json>)
    requires a.Obj? && x.Obj? && AllObjects(files) && Agree(a, x) && AgreesWith(a, files)
    ensures Merge(a, MergeAll(x, files)) == MergeAll(Merge(a, x), files)
    decreases |files|
  {
    if files == [] {
    } else {
      AgreeingNeverClash(a, x, files[0]);
      MergeAssociative(a, x, files[0]);
      AgreeSymmetric(a, x);
      AgreeSymmetric(a, files[0]);
      MergeAgrees(x, files[0], a);
      AgreeSymmetric(Merge(x, files[0]), a);
      MergeOfMergeAll(a, Merge(x, files[0]), files[1..]);
    }
  }

  /** What a visit that is not stopped by a non-object tells about a load into `dst`. */
  ghost predicate LoadsAs(dst: Json, visit: Result<seq<Json>>, r: Result<Json>) {
    match visit
    case Err(e) => e != NotAnObject ==> r == Err(e)
    case Ok(files) =>
      && AllObjects(files)
      && r.Ok?
      && (dst.Obj? ==> r.value.Obj?)
      && (dst.Obj? && AllAgree(files) && AgreesWith(dst, files) ==> r.value == MergeAll(dst, files))
  }

  lemma {:induction false} SetupLoads(w: World, dst: Json, path: string, depth: nat)
    requires dst.Obj?
    ensures LoadsAs(dst, Preorder(w, path, depth), Setup(w, dst, path, depth))
    decreases MAX_DEPTH + 1 - depth, 2, 0
  {
    var visit := Preorder(w, path, depth);
    if depth <= MAX_DEPTH && w.read(path).Some? && w.read(path).value.Obj? {
      var file := WithInclude(w.read(path).value);
      EntriesLoad(w, file, Includes(file), depth);
      if visit.Ok? {
        var files := visit.value;
        var rest := files[1..];
        assert files == [file] + rest && AllObjects(rest);
        if AllAgree(files) && AgreesWith(dst, files) {
          assert AgreesWith(file, rest) by {
            assert forall i :: 0 <= i < |rest| ==> Agree(files[0], files[i + 1]) && files[i + 1] == rest[i];
          }
          assert Agree(dst, files[0]);
          assert AgreesWith(dst, rest);
          MergeOfMergeAll(dst, file, rest);
        }
      }
    }
  }

  lemma {:induction false} EntriesLoad(w: World, config: Json, entries: seq<Json>, depth: nat)
    requires config.Obj? && depth <= MAX_DEPTH
    ensures LoadsAs(config, PreorderEntries(w, entries, depth), ResolveEntries(w, config, entries, depth))
    decreases MAX_DEPTH + 1 - depth, 1, |entries|
  {
    if entries != [] && AsString(w, entries[0]).Ok? {
      var paths := w.find(AsString(w, entries[0]).value);
      EachLoads(w, config, paths, depth);
      var next := SetupEach(w, config, paths, depth);
      if next.Ok? && PreorderEach(w, paths, depth).Ok? {
        EntriesLoad(w, next.value, entries[1..], depth);
        if PreorderEntries(w, entries[1..], depth).Err? {
          return;
        }
        LoadsInSequence(config, PreorderEach(w, paths, depth).value, next.value,
                        PreorderEntries(w, entries[1..], depth), ResolveEntries(w, next.value, entries[1..], depth));
      }
    }
  }

  lemma {:induction false} EachLoads(w: World, config: Json, paths: seq<string>, depth: nat)
    requires config.Obj? && depth <= MAX_DEPTH
    ensures LoadsAs(config, PreorderEach(w, paths, depth), SetupEach(w, config, paths, depth))
    decreases MAX_DEPTH + 1 - depth, 0, |paths|
  {
    if paths == [] {
    } else {
      SetupLoads(w, config, paths[0], depth + 1);
      var next := Setup(w, config, paths[0], depth + 1);
      if next.Ok? && Preorder(w, paths[0], depth + 1).Ok? {
        EachLoads(w, next.value, paths[1..], depth);
        if PreorderEach(w, paths[1..], depth).Err? {
          return;
        }
        LoadsInSequence(config, Preorder(w, paths[0], depth + 1).value, next.value,
                        PreorderEach(w, paths[1..], depth), SetupEach(w, next.value, paths[1..], depth));
      }
    }
  }

  /** Two loads one after the other are the load of both lists of files. */
  lemma LoadsInSequence(dst: Json, first: seq<Json>, mid: Json, visit: Result<seq<Json>>, r: Result<Json>)
    requires dst.Obj? && LoadsAs(dst, Ok(first), Ok(mid)) && LoadsAs(mid, visit, r) && visit.Ok?
    ensures LoadsAs(dst, Ok(first + visit.value), r)
  {
    var rest := visit.value;
    var files := first + rest;
    if AllAgree(files) && AgreesWith(dst, files) {
      assert AllAgree(first) by {
        assert forall i :: 0 <= i < |first| ==> files[i] == first[i];
      }
      assert AgreesWith(dst, first) by {
        assert forall i :: 0 <= i < |first| ==> files[i] == first[i];
      }
      assert AllAgree(rest) by {
        assert forall i :: 0 <= i < |rest| ==> files[|first| + i] == rest[i];
      }
      MergeAllAgrees(dst, first, rest);
      MergeAllAppend(dst, first, rest);
    }
  }

  /** All files agree with the first, and the others with each other. */
  lemma AgreeingTail(files: seq<Json>)
    requires files != [] && AllAgree(files)
    ensures AgreesWith(files[0], files[1..]) && AllAgree(files[1..])
  {
    var rest := files[1..];
    forall i | 0 <= i < |rest| ensures Agree(files[0], rest[i]) {
      assert rest[i] == files[i + 1];
    }
    forall i, j | 0 <= i < j < |rest| ensures Agree(rest[i], rest[j]) {
      assert rest[i] == files[i + 1] && rest[j] == files[j + 1];
    }
  }

  /** The files that one configuration is made of: itself, and what it includes, in depth-first preorder. */
  ghost function PartVisit(w: World, part: Json, depth: nat): Result<seq<Json>>
    requires part.Obj? && depth <= MAX_DEPTH
  {
    match PreorderEntries(w, Includes(WithInclude(part)), depth)
    case Err(e) => Err(e)
    case Ok(rest) => Ok([WithInclude(part)] + rest)
  }

  lemma PartLoads(w: World, part: Json, depth: nat)
    requires part.Obj? && depth <= MAX_DEPTH
    ensures match PartVisit(w, part, depth)
      case Err(e) => e != NotAnObject ==> Resolve(w, part, depth) == Err(e)
      case Ok(files) =>
        Resolve(w, part, depth).Ok? && (AllAgree(files) ==> Resolve(w, part, depth) == Ok(MergeAll(Null, files)))
  {
    var file := WithInclude(part);
    EntriesLoad(w, file, Includes(file), depth);
    var rest := PreorderEntries(w, Includes(file), depth);
    hide Agree, AgreesWith, ResolveEntries, PreorderEntries, Includes, WithInclude;
    if rest.Ok? {
      var files := [file] + rest.value;
      assert files[1..] == rest.value;
      if AllAgree(files) {
        AgreeingTail(files);
      }
    }
  }

  /** The whole load, for object-valued files: it stops with the first reason met in depth-first
      preorder, or succeeds; and when the files agree on which key paths are objects, the result is
      their first-wins merge in that order. */
  lemma LoadIsPreorderMerge(w: World, path: string)
    ensures var visit, r := Preorder(w, path, 0), Setup(w, Null, path, 0);
      match visit
      case Err(e) => e != NotAnObject ==> r == Err(e)
      case Ok(files) => r.Ok? && (AllAgree(files) ==> r == Ok(MergeAll(Null, files)))
  {
    if w.read(path).Some? && w.read(path).value.Obj? {
      PartLoads(w, w.read(path).value, 0);
      hide AllAgree, Resolve, PreorderEntries;
    }
  }

  /** `path` is the value some file sets while no earlier file does. */
  ghost predicate FirstSetBy(files: seq<Json>, i: nat, path: seq<string>) {
    i < |files| && At(files[i], path).Some? && forall j :: 0 <= j < i ==> At(files[j], path).None?
  }

  lemma {:induction false} MergeAt(a: Json, b: Json, path: seq<string>)
    requires a.Obj? && b.Obj? && Agree(a, b)
    ensures At(a, path).None? ==> At(Merge(a, b), path) == At(b, path)
    decreases |path|
  {
    if path != [] && path[0] in a.fields && path[0] in b.fields {
      assert Merge(a, b).fields[path[0]] == MergeField(a, b, path[0]);
      if a.fields[path[0]].Obj? {
        MergeAt(a.fields[path[0]], b.fields[path[0]], path[1..]);
      }
    }
  }

  lemma {:induction false} MergeAllKeeps(acc: Json, files: seq<Json>, path: seq<string>)
    requires acc.Obj? && At(acc, path).Some? && !At(acc, path).value.Obj?
    ensures At(MergeAll(acc, files), path) == At(acc, path)
    decreases |files|
  {
    if files == [] {
    } else {
      MergeKeeps(acc, files[0], path);
      MergeAllKeeps(if files[0].Obj? then Merge(acc, files[0]) else acc, files[1..], path);
    }
  }

  /** In the merge of agreeing files a non-object option has the value of the first file that sets it. */
  lemma {:induction false} FirstFileWins(acc: Json, files: seq<Json>, i: nat, path: seq<string>)
    requires acc.Obj? && AllObjects(files) && AllAgree(files) && AgreesWith(acc, files)
    requires At(acc, path).None? && FirstSetBy(files, i, path) && !At(files[i], path).value.Obj?
    ensures At(MergeAll(acc, files), path) == At(files[i], path)
    decreases |files|
  {
    var next, rest := Merge(acc, files[0]), files[1..];
    MergeAt(acc, files[0], path);
    if i == 0 {
      MergeAllKeeps(next, rest, path);
    } else {
      forall j | 0 <= j < |rest| ensures Agree(next, rest[j]) {
        assert Agree(files[0], files[j + 1]) && Agree(acc, files[j + 1]);
        MergeAgrees(acc, files[0], files[j + 1]);
      }
      assert forall j :: 0 <= j < |rest| ==> rest[j] == files[j + 1];
      FirstFileWins(next, rest, i - 1, path);
    }
  }

  /** The same for the files of a whole load, the first of which takes the place of no configuration. */
  lemma FirstOfAllWins(files: seq<Json>, i: nat, path: seq<string>)
    requires AllObjects(files) && AllAgree(files)
    requires FirstSetBy(files, i, path) && !At(files[i], path).value.Obj?
    ensures At(MergeAll(Null, files), path) == At(files[i], path)
  {
    var rest := files[1..];
    AgreeingTail(files);
    assert MergeAll(Null, files) == MergeAll(files[0], rest);
    hide Merge, Agree, AgreesWith, AllAgree;
    if i == 0 {
      MergeAllKeeps(files[0], rest, path);
    } else {
      assert At(files[0], path).None? && forall j :: 0 <= j < |rest| ==> rest[j] == files[j + 1];
      FirstFileWins(files[0], rest, i - 1, path);
    }
  }

  /** End to end: a non-object option of the loaded configuration is that of the first visited file
      that sets it. */
  lemma LoadedOption(w: World, path: string, files: seq<Json>, i: nat, option: seq<string>)
    requires Preorder(w, path, 0) == Ok(files) && AllAgree(files)
    requires FirstSetBy(files, i, option) && !At(files[i], option).value.Obj?
    ensures Setup(w, Null, path, 0).Ok? && At(Setup(w, Null, path, 0).value, option) == At(files[i], option)
  {
    hide Setup, Preorder, AllAgree, FirstSetBy, At;
    LoadIsPreorderMerge(w, path);
    SetupLoads(w, Obj(map[]), path, 0);
    FirstOfAllWins(files, i, option);
  }

  /** A file that includes itself never loads: the depth bound ends it. */
  lemma {:induction false} SelfIncludeAborts(w: World, dst: Json, path: string, depth: nat)
    requires w.read(path).Some? && w.read(path).value.Obj?
    requires var j := w.read(path).value;
      INCLUDE in j.fields && j.fields[INCLUDE].Str?
      && w.find(j.fields[INCLUDE].s) != [] && w.find(j.fields[INCLUDE].s)[0] == path
    ensures Setup(w, dst, path, depth) == Err(TooDeep)
    decreases MAX_DEPTH + 1 - depth
  {
    if depth > MAX_DEPTH {
    } else {
      var config := w.read(path).value;
      var name := config.fields[INCLUDE].s;
      SelfIncludeAborts(w, config, path, depth + 1);
      assert Includes(config) == [Str(name)] && AsString(w, Str(name)) == Ok(name);
      assert SetupEach(w, config, w.find(name), depth) == Err(TooDeep);
      assert Resolve(w, config, depth) == Err(TooDeep);
    }
  }

  // --- include cycles ---------------------------------------------------------------------------------------

  /** A file, or one of the configurations it lists, asks for this entry to be included. */
  ghost predicate Asks(j: Json, entry: Json) {
    match j
    case Obj(_) => entry in Includes(WithInclude(j))
    case Arr(parts) => exists part :: part in parts && part.Obj? && entry in Includes(WithInclude(part))
    case _ => false
  }

  ghost predicate IncludesFile(w: World, path: string, next: string) {
    w.read(path).Some?
    && exists entry ::
      Asks(w.read(path).value, entry) && AsString(w, entry).Ok? && next in w.find(AsString(w, entry).value)
  }

  /** A load of `next` at this depth, into some tree, succeeds. */
  ghost predicate Loads(w: World, next: string, depth: nat) {
    exists dst :: Setup(w, dst, next, depth).Ok?
  }

  lemma {:induction false} EachIsLoaded(w: World, config: Json, paths: seq<string>, depth: nat, next: string)
    requires depth <= MAX_DEPTH && SetupEach(w, config, paths, depth).Ok? && next in paths
    ensures Loads(w, next, depth + 1)
    decreases |paths|
  {
    if next == paths[0] {
      assert Setup(w, config, next, depth + 1).Ok?;
    } else {
      EachIsLoaded(w, Setup(w, config, paths[0], depth + 1).value, paths[1..], depth, next);
    }
  }

  lemma {:induction false} EntriesAreLoaded(w: World, config: Json, entries: seq<Json>, depth: nat, entry: Json,
                                            next: string)
    requires depth <= MAX_DEPTH && ResolveEntries(w, config, entries, depth).Ok? && entry in entries
    requires AsString(w, entry).Ok? && next in w.find(AsString(w, entry).value)
    ensures Loads(w, next, depth + 1)
    decreases |entries|
  {
    hide Setup;
    var paths := w.find(AsString(w, entries[0]).value);
    if entry == entries[0] {
      EachIsLoaded(w, config, paths, depth, next);
    } else {
      EntriesAreLoaded(w, SetupEach(w, config, paths, depth).value, entries[1..], depth, entry, next);
    }
  }

  lemma {:induction false} PartsAreLoaded(w: World, parts: seq<Json>, depth: nat, part: Json, entry: Json, next: string)
    requires depth <= MAX_DEPTH && ResolveParts(w, parts, depth).Ok? && part in parts && part.Obj?
    requires entry in Includes(WithInclude(part)) && AsString(w, entry).Ok? && next in w.find(AsString(w, entry).value)
    ensures Loads(w, next, depth + 1)
    decreases |parts|
  {
    hide Setup, ResolveEntries;
    if part == parts[0] {
      EntriesAreLoaded(w, WithInclude(part), Includes(WithInclude(part)), depth, entry, next);
    } else {
      PartsAreLoaded(w, parts[1..], depth, part, entry, next);
    }
  }

  lemma IncludedIsLoaded(w: World, dst: Json, path: string, depth: nat, next: string)
    requires Setup(w, dst, path, depth).Ok? && IncludesFile(w, path, next)
    ensures Loads(w, next, depth + 1)
  {
    var j := w.read(path).value;
    var entry :| Asks(j, entry) && AsString(w, entry).Ok? && next in w.find(AsString(w, entry).value);
    if j.Arr? {
      var part :| part in j.items && part.Obj? && entry in Includes(WithInclude(part));
      PartsAreLoaded(w, j.items, depth, part, entry, next);
    } else {
      EntriesAreLoaded(w, WithInclude(j), Includes(WithInclude(j)), depth, entry, next);
    }
  }

  /** Each file of the chain includes the next. */
  ghost predicate IsChain(w: World, chain: seq<string>) {
    chain != [] && forall i :: 0 <= i < |chain| - 1 ==> IncludesFile(w, chain[i], chain[i + 1])
  }

  /** A load that succeeds follows no include chain beyond the depth limit. */
  lemma {:induction false} ChainsStayWithinDepth(w: World, dst: Json, depth: nat, chain: seq<string>)
    requires IsChain(w, chain) && Setup(w, dst, chain[0], depth).Ok?
    ensures depth + |chain| - 1 <= MAX_DEPTH
    decreases |chain|
  {
    if |chain| == 1 {
    } else {
      assert IncludesFile(w, chain[0], chain[1]);
      IncludedIsLoaded(w, dst, chain[0], depth, chain[1]);
      hide Setup, IncludesFile;
      var below :| Setup(w, below, chain[1], depth + 1).Ok?;
      assert forall i :: 0 <= i < |chain[1..]| ==> chain[1..][i] == chain[i + 1];
      ChainsStayWithinDepth(w, below, depth + 1, chain[1..]);
    }
  }

  /** A chain that comes back to its `k`-th file can be made as long as one likes. */
  lemma {:induction false} GoRound(w: World, chain: seq<string>, k: nat, n: nat) returns (longer: seq<string>)
    requires IsChain(w, chain) && k < |chain| - 1 && chain[k] == chain[|chain| - 1]
    ensures IsChain(w, longer) && longer[0] == chain[0] && |longer| >= n && longer[|longer| - 1] == chain[k]
    decreases n
  {
    hide IncludesFile;
    if n <= |chain| {
      longer := chain;
    } else {
      var shorter := GoRound(w, chain, k, n - 1);
      longer := shorter + chain[k + 1..];
      forall i | 0 <= i < |longer| - 1 ensures IncludesFile(w, longer[i], longer[i + 1]) {
        if i < |shorter| - 1 {
          assert longer[i] == shorter[i] && longer[i + 1] == shorter[i + 1];
        } else {
          var at := i - (|shorter| - 1) + k;
          assert longer[i] == chain[at] && longer[i + 1] == chain[at + 1];
        }
      }
    }
  }

  /** No load that reaches an include cycle, of whatever length and through lists of configurations and of includes,
      ever succeeds. */
  lemma IncludeCycleAborts(w: World, dst: Json, depth: nat, chain: seq<string>, k: nat)
    requires IsChain(w, chain) && k < |chain| - 1 && chain[k] == chain[|chain| - 1]
    ensures Setup(w, dst, chain[0], depth).Err?
  {
    hide Setup, IsChain;
    var longer := GoRound(w, chain, k, MAX_DEPTH + 2);
    if Setup(w, dst, longer[0], depth).Ok? {
      ChainsStayWithinDepth(w, dst, depth, longer);
    }
  }

  // --- several bars --------------------------------------------------------------------------------------------

  lemma {:induction false} PartsLoad(w: World, parts: seq<Json>, depth: nat)
    requires AllObjects(parts) && depth <= MAX_DEPTH
    requires forall k :: 0 <= k < |parts| ==> PartVisit(w, parts[k], depth).Ok?
    ensures ResolveParts(w, parts, depth).Ok? && |ResolveParts(w, parts, depth).value| == |parts|
    ensures forall k :: 0 <= k < |parts| && AllAgree(PartVisit(w, parts[k], depth).value) ==>
      ResolveParts(w, parts, depth).value[k] == MergeAll(Null, PartVisit(w, parts[k], depth).value)
    decreases |parts|
  {
    if parts == [] {
    } else {
      hide PartVisit, Resolve, AllAgree, MergeAll;
      PartLoads(w, parts[0], depth);
      var rest := parts[1..];
      assert forall k :: 0 <= k < |rest| ==> rest[k] == parts[k + 1];
      PartsLoad(w, rest, depth);
      forall k | 0 <= k < |parts| && AllAgree(PartVisit(w, parts[k], depth).value)
        ensures ResolveParts(w, parts, depth).value[k] == MergeAll(Null, PartVisit(w, parts[k], depth).value)
      {
        if k > 0 {
          assert parts[k] == rest[k - 1];
        }
      }
    }
  }

  lemma {:induction false} FirstBadPartFails(w: World, parts: seq<Json>, depth: nat, bad: nat, error: Error)
    requires AllObjects(parts) && depth <= MAX_DEPTH && bad < |parts|
    requires forall k :: 0 <= k < bad ==> PartVisit(w, parts[k], depth).Ok?
    requires PartVisit(w, parts[bad], depth) == Err(error) && error != NotAnObject
    ensures ResolveParts(w, parts, depth) == Err(error)
    decreases |parts|
  {
    hide PartVisit, Resolve;
    PartLoads(w, parts[0], depth);
    if bad == 0 {
    } else {
      var rest := parts[1..];
      assert forall k :: 0 <= k < |rest| ==> rest[k] == parts[k + 1];
      FirstBadPartFails(w, rest, depth, bad - 1, error);
    }
  }

  /** A file that lists several bars loads to the list of these, an include affecting only the one it stands in: each
      becomes the first-wins merge of its own files in depth-first preorder, if these agree. */
  lemma EachBarIsItsOwnMerge(w: World, path: string)
    requires w.read(path).Some? && w.read(path).value.Arr? && AllObjects(w.read(path).value.items)
    requires forall k :: 0 <= k < |w.read(path).value.items| ==> PartVisit(w, w.read(path).value.items[k], 0).Ok?
    ensures var parts, r := w.read(path).value.items, Setup(w, Null, path, 0);
      && r.Ok? && r.value.Arr? && |r.value.items| == |parts|
      && forall k :: 0 <= k < |parts| && AllAgree(PartVisit(w, parts[k], 0).value) ==>
           r.value.items[k] == MergeAll(Null, PartVisit(w, parts[k], 0).value)
  {
    hide PartVisit, AllAgree, MergeAll, Resolve, ResolveParts;
    PartsLoad(w, w.read(path).value.items, 0);
  }

  /** ... and the load stops with the reason that stops the first visit that does not succeed. */
  lemma FirstBadBarStopsTheLoad(w: World, path: string, bad: nat)
    requires w.read(path).Some? && w.read(path).value.Arr? && AllObjects(w.read(path).value.items)
    requires bad < |w.read(path).value.items|
    requires forall k :: 0 <= k < bad ==> PartVisit(w, w.read(path).value.items[k], 0).Ok?
    requires PartVisit(w, w.read(path).value.items[bad], 0).Err?
    requires PartVisit(w, w.read(path).value.items[bad], 0).error != NotAnObject
    ensures Setup(w, Null, path, 0) == Err(PartVisit(w, w.read(path).value.items[bad], 0).error)
  {
    hide PartVisit, Resolve, ResolveParts;
    FirstBadPartFails(w, w.read(path).value.items, 0, bad, PartVisit(w, w.read(path).value.items[bad], 0).error);
  }

  // --- which files an include names -----------------------------------------------------------------------------

  /** The name that an entry stands for; a list or an object stands for none. */
  ghost predicate IsName(w: World, entry: Json, name: string) {
    match entry
    case Str(s) => name == s
    case Null => name == ""
    case Bool(b) => name == if b then "true" else "false"
    case Num(n) => name == w.numText(n)
    case _ => false
  }

  /** What a configuration asks to be included, as it stands in the file: the entries of its list, its one string, or
      nothing. */
  ghost predicate AsksFor(w: World, config: Json, names: seq<string>) {
    config.Obj?
    && if "include" !in config.fields then names == []
       else match config.fields["include"]
         case Arr(items) => |items| == |names| && forall k :: 0 <= k < |items| ==> IsName(w, items[k], names[k])
         case Str(s) => names == [s]
         case _ => names == []
  }

  /** The files found for the first `n` names, in order. */
  ghost function FoundFor(w: World, names: seq<string>, n: nat): seq<string>
    requires n <= |names|
  {
    if n == 0 then [] else FoundFor(w, names, n - 1) + w.find(names[n - 1])
  }

  /** The visits of the first `n` paths succeed. */
  ghost predicate AllVisited(w: World, paths: seq<string>, depth: nat, n: nat)
    requires n <= |paths|
  {
    forall k :: 0 <= k < n ==> Preorder(w, paths[k], depth).Ok?
  }

  /** The files of the visits of the first `n` paths, one visit after the other. */
  ghost function VisitsOf(w: World, paths: seq<string>, depth: nat, n: nat): seq<Json>
    requires n <= |paths| && AllVisited(w, paths, depth, n)
  {
    if n == 0 then [] else VisitsOf(w, paths, depth, n - 1) + Preorder(w, paths[n - 1], depth).value
  }

  lemma {:induction false} VisitsOfFront(w: World, path: string, paths: seq<string>, depth: nat, n: nat)
    requires n <= |paths| && AllVisited(w, [path] + paths, depth, n + 1)
    ensures AllVisited(w, paths, depth, n) && ([path] + paths)[0] == path && Preorder(w, path, depth).Ok?
    ensures VisitsOf(w, [path] + paths, depth, n + 1) == Preorder(w, path, depth).value + VisitsOf(w, paths, depth, n)
  {
    hide Preorder;
    var all := [path] + paths;
    assert all[0] == path && forall k :: 0 <= k < n ==> all[k + 1] == paths[k];
    if n == 0 {
      assert VisitsOf(w, all, depth, 1) == VisitsOf(w, all, depth, 0) + Preorder(w, all[0], depth).value;
      assert [] + Preorder(w, path, depth).value == Preorder(w, path, depth).value + [];
    } else {
      VisitsOfFront(w, path, paths, depth, n - 1);
      assert VisitsOf(w, all, depth, n + 1) == VisitsOf(w, all, depth, n) + Preorder(w, all[n], depth).value;
      hide AllVisited;
      var front, last := Preorder(w, path, depth).value, Preorder(w, paths[n - 1], depth).value;
      Associative(front, VisitsOf(w, paths, depth, n - 1), last);
    }
  }

  lemma {:induction false} VisitsOfAppend(w: World, a: seq<string>, b: seq<string>, depth: nat, n: nat)
    requires n <= |b| && AllVisited(w, a + b, depth, |a| + n)
    ensures AllVisited(w, a, depth, |a|) && AllVisited(w, b, depth, n)
    ensures VisitsOf(w, a + b, depth, |a| + n) == VisitsOf(w, a, depth, |a|) + VisitsOf(w, b, depth, n)
  {
    hide Preorder;
    var all := a + b;
    assert forall k :: 0 <= k < |a| ==> all[k] == a[k];
    assert forall k :: 0 <= k < n ==> all[|a| + k] == b[k];
    if n == 0 {
      VisitsOfPrefix(w, a, b, depth, |a|);
    } else {
      VisitsOfAppend(w, a, b, depth, n - 1);
    }
  }

  lemma {:induction false} VisitsOfPrefix(w: World, a: seq<string>, b: seq<string>, depth: nat, n: nat)
    requires n <= |a| && AllVisited(w, a + b, depth, n)
    ensures AllVisited(w, a, depth, n) && VisitsOf(w, a + b, depth, n) == VisitsOf(w, a, depth, n)
  {
    hide Preorder;
    assert forall k :: 0 <= k < n ==> (a + b)[k] == a[k];
    if n == 0 {
    } else {
      VisitsOfPrefix(w, a, b, depth, n - 1);
    }
  }

  lemma {:induction false} EachIsVisited(w: World, paths: seq<string>, depth: nat)
    requires depth <= MAX_DEPTH && AllVisited(w, paths, depth + 1, |paths|)
    ensures PreorderEach(w, paths, depth) == Ok(VisitsOf(w, paths, depth + 1, |paths|))
    decreases |paths|
  {
    hide Preorder;
    if paths == [] {
    } else {
      var rest := paths[1..];
      assert paths == [paths[0]] + rest;
      VisitsOfFront(w, paths[0], rest, depth + 1, |rest|);
      EachIsVisited(w, rest, depth);
    }
  }

  lemma {:induction false} FoundForFront(w: World, name: string, names: seq<string>, n: nat)
    requires n <= |names|
    ensures FoundFor(w, [name] + names, n + 1) == w.find(name) + FoundFor(w, names, n)
  {
    var all := [name] + names;
    if n == 0 {
      assert all[0] == name && FoundFor(w, all, 0) == [] && FoundFor(w, all, 1) == FoundFor(w, all, 0) + w.find(all[0]);
      assert [] + w.find(name) == w.find(name) + [];
    } else {
      FoundForFront(w, name, names, n - 1);
      assert all[n] == names[n - 1];
      assert FoundFor(w, all, n + 1) == FoundFor(w, all, n) + w.find(all[n]);
      Associative(w.find(name), FoundFor(w, names, n - 1), w.find(names[n - 1]));
    }
  }

  lemma Associative<T>(a: seq<T>, b: seq<T>, c: seq<T>)
    ensures (a + b) + c == a + (b + c)
  {
  }

  lemma {:induction false} EntriesAreVisited(w: World, entries: seq<Json>, names: seq<string>, depth: nat)
    requires depth <= MAX_DEPTH
    requires |entries| == |names| && forall k :: 0 <= k < |names| ==> IsName(w, entries[k], names[k])
    requires var paths := FoundFor(w, names, |names|); AllVisited(w, paths, depth + 1, |paths|)
    ensures var paths := FoundFor(w, names, |names|);
      PreorderEntries(w, entries, depth) == Ok(VisitsOf(w, paths, depth + 1, |paths|))
    decreases |names|
  {
    hide Preorder, PreorderEach, AllVisited, VisitsOf;
    if names == [] {
      EachIsVisited(w, [], depth);
      NoVisits(w, depth + 1);
    } else {
      var rest := names[1..];
      assert names == [names[0]] + rest && forall k :: 0 <= k < |rest| ==> rest[k] == names[k + 1];
      assert forall k :: 0 <= k < |rest| ==> entries[1..][k] == entries[k + 1];
      FoundForFront(w, names[0], rest, |rest|);
      var found, later := w.find(names[0]), FoundFor(w, rest, |rest|);
      VisitsOfAppend(w, found, later, depth + 1, |later|);
      EachIsVisited(w, found, depth);
      EntriesAreVisited(w, entries[1..], rest, depth);
    }
  }

  lemma NoVisits(w: World, depth: nat)
    ensures AllVisited(w, [], depth, 0) && VisitsOf(w, [], depth, 0) == []
  {
  }

  /** A configuration is visited with every file found for every name it asks to be included, in the order of the
      names, and of the files found for a name, however the include is written. */
  lemma IncludesAreVisitedInOrder(w: World, config: Json, names: seq<string>, depth: nat)
    requires depth <= MAX_DEPTH && AsksFor(w, config, names)
    requires var paths := FoundFor(w, names, |names|); AllVisited(w, paths, depth + 1, |paths|)
    ensures var paths := FoundFor(w, names, |names|);
      PartVisit(w, config, depth) == Ok([WithInclude(config)] + VisitsOf(w, paths, depth + 1, |paths|))
  {
    EntriesAreVisited(w, Includes(WithInclude(config)), names, depth);
    hide PreorderEntries, AllVisited, VisitsOf, Includes, WithInclude;
  }

  /** Reading the include changes no other option. */
  lemma OtherOptionsAreRead(config: Json, option: seq<string>)
    requires config.Obj? && option != [] && option[0] != "include"
    ensures At(WithInclude(config), option) == At(config, option)
  {
  }

  lemma VisitIsPartVisit(w: World, path: string, depth: nat)
    requires depth <= MAX_DEPTH && w.read(path).Some? && w.read(path).value.Obj?
    ensures Preorder(w, path, depth) == PartVisit(w, w.read(path).value, depth)
  {
  }

  /** The file at place `at` among all that the root file's names find sets an option that neither the root file nor any
      file visited before it sets: the loaded configuration has it, whichever name of the list it was found for. */
  lemma EveryIncludeCounts(w: World, path: string, names: seq<string>, at: nat, option: seq<string>)
    requires w.read(path).Some? && AsksFor(w, w.read(path).value, names)
    requires option != [] && option[0] != "include"
    requires var paths := FoundFor(w, names, |names|);
      && AllVisited(w, paths, 1, |paths|) && at < |paths|
      && AllAgree([WithInclude(w.read(path).value)] + VisitsOf(w, paths, 1, |paths|))
      && (forall j :: 0 <= j < |VisitsOf(w, paths, 1, at)| ==> At(VisitsOf(w, paths, 1, at)[j], option).None?)
      && w.read(paths[at]).Some? && w.read(paths[at]).value.Obj?
      && At(w.read(paths[at]).value, option).Some? && !At(w.read(paths[at]).value, option).value.Obj?
    requires At(w.read(path).value, option).None?
    ensures var paths := FoundFor(w, names, |names|);
      Setup(w, Null, path, 0).Ok?
      && At(Setup(w, Null, path, 0).value, option) == At(w.read(paths[at]).value, option)
  {
    hide Preorder, PartVisit, Setup, AllVisited, VisitsOf, At, WithInclude, FoundFor, AllAgree;
    var paths := FoundFor(w, names, |names|);
    var root, file := w.read(path).value, w.read(paths[at]).value;
    IncludesAreVisitedInOrder(w, root, names, 0);
    VisitIsPartVisit(w, path, 0);
    var files := [WithInclude(root)] + VisitsOf(w, paths, 1, |paths|);
    var place := FileAmongVisits(w, paths, 1, at, |paths|);
    OtherOptionsAreRead(root, option);
    OtherOptionsAreRead(file, option);
    assert files[1 + place] == WithInclude(file);
    assert FirstSetBy(files, 1 + place, option) by {
      forall j | 0 <= j < 1 + place ensures At(files[j], option).None? {
        if j > 0 {
          assert files[j] == VisitsOf(w, paths, 1, at)[j - 1];
        }
      }
    }
    LoadedOption(w, path, files, 1 + place, option);
  }

  /** A file stands in the list of visits after those of the paths before it. */
  lemma {:induction false} FileAmongVisits(w: World, paths: seq<string>, depth: nat, at: nat, n: nat)
    returns (place: nat)
    requires at < n <= |paths| && depth <= MAX_DEPTH && AllVisited(w, paths, depth, n)
    requires w.read(paths[at]).Some? && w.read(paths[at]).value.Obj?
    ensures AllVisited(w, paths, depth, at) && place == |VisitsOf(w, paths, depth, at)| < |VisitsOf(w, paths, depth, n)|
    ensures VisitsOf(w, paths, depth, at) <= VisitsOf(w, paths, depth, n)
    ensures VisitsOf(w, paths, depth, n)[place] == WithInclude(w.read(paths[at]).value)
  {
    if at == n - 1 {
      place := |VisitsOf(w, paths, depth, at)|;
      assert Preorder(w, paths[at], depth).value[0] == WithInclude(w.read(paths[at]).value);
    } else {
      hide Preorder, WithInclude;
      place := FileAmongVisits(w, paths, depth, at, n - 1);
    }
  }

  /** A list of includes with an entry that stands for no name never loads. */
  lemma ListedObjectAborts(w: World, dst: Json, path: string, depth: nat, k: nat)
    requires w.read(path).Some? && w.read(path).value.Obj? && "include" in w.read(path).value.fields
    requires w.read(path).value.fields["include"].Arr? && k < |w.read(path).value.fields["include"].items|
    requires var entry := w.read(path).value.fields["include"].items[k]; entry.Arr? || entry.Obj?
    ensures Setup(w, dst, path, depth).Err?
  {
    if Setup(w, dst, path, depth).Ok? {
      var config := w.read(path).value;
      assert Includes(WithInclude(config)) == config.fields["include"].items;
      assert Resolve(w, config, depth) == ResolveEntries(w, WithInclude(config), Includes(WithInclude(config)), depth);
      EntriesHaveNames(w, WithInclude(config), Includes(WithInclude(config)), depth, k);
    }
  }

  lemma {:induction false} EntriesHaveNames(w: World, config: Json, entries: seq<Json>, depth: nat, k: nat)
    requires depth <= MAX_DEPTH && k < |entries| && ResolveEntries(w, config, entries, depth).Ok?
    ensures !entries[k].Arr? && !entries[k].Obj?
    decreases |entries|
  {
    hide SetupEach;
    if k == 0 {
    } else {
      var next := SetupEach(w, config, w.find(AsString(w, entries[0]).value), depth).value;
      EntriesHaveNames(w, next, entries[1..], depth, k - 1);
    }
  }

  // --- single files ---------------------------------------------------------------------------------------------

  /** The depth limit is a hundred includes: a file that includes nothing loads exactly up to there. */
  lemma DepthLimit(w: World, dst: Json, path: string, depth: nat)
    requires w.read(path).Some? && AsksFor(w, w.read(path).value, [])
    ensures Setup(w, dst, path, depth).Ok? <==> depth <= 100
    ensures depth > 100 ==> Setup(w, dst, path, depth) == Err(TooDeep)
    ensures depth <= 100 ==> Setup(w, dst, path, depth) == Ok(Merge(dst, WithInclude(w.read(path).value)))
  {
    var config := w.read(path).value;
    assert Includes(WithInclude(config)) == [];
    if depth <= 100 {
      assert ResolveEntries(w, WithInclude(config), [], depth) == Ok(WithInclude(config));
      assert Resolve(w, config, depth) == Ok(WithInclude(config));
    }
  }

  /** A file that cannot be read, and one that is neither a configuration, a list nor empty, does not load; an empty one
      loads as one without options. */
  lemma OtherFiles(w: World, path: string, depth: nat)
    requires depth <= 100 && (w.read(path).Some? ==> !w.read(path).value.Obj? && !w.read(path).value.Arr?)
    ensures Setup(w, Null, path, depth)
         == if w.read(path).None? then Err(Unreadable)
            else if w.read(path).value.Null? then Ok(Obj(map["include" := Null]))
            else Err(NotAnObject)
  {
  }
}
