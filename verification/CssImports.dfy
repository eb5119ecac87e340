/** Which style sheets are watched: those reached from the root sheet through
    imports, found by rounds over a map from file to "already parsed".

    Reading and path lookup enter as one function: for each import statement of
    a file, in order, the file it names, or None when there is no such file.
    What a file is called does not matter, so files are of any type.
 */
module CssImports {
  import opened Wrappers

  datatype Sheets<!F> = Sheets(imports: F -> seq<Option<F>>)

  const MAX_ITERATIONS := 100

  // --- reachability ------------------------------------------------------------------------------------

  /** The files that the files of `s` import and that can be found. */
  ghost function Successors<F>(g: Sheets<F>, s: set<F>): set<F> {
    set f, m | f in s && m in g.imports(f) && m.Some? :: m.value
  }

  lemma SuccessorsMembers<F>(g: Sheets<F>, s: set<F>, f: F)
    ensures f in Successors(g, s) <==> exists f0 :: f0 in s && Imports(g, f0, f)
  {
  }

  ghost predicate Imports<F>(g: Sheets<F>, f: F, f': F) {
    Some(f') in g.imports(f)
  }

  /** The files at most `k` imports away from the root. */
  ghost function Within<F>(g: Sheets<F>, root: F, k: nat): set<F> {
    if k == 0 then {root} else Within(g, root, k - 1) + Successors(g, Within(g, root, k - 1))
  }

  ghost predicate IsPath<F>(g: Sheets<F>, p: seq<F>) {
    p != [] && forall i :: 0 <= i < |p| - 1 ==> Imports(g, p[i], p[i + 1])
  }

  /** A path from the root to `f` with at most `k` imports. */
  ghost predicate Connects<F>(g: Sheets<F>, root: F, f: F, k: nat, p: seq<F>) {
    IsPath(g, p) && p[0] == root && p[|p| - 1] == f && |p| - 1 <= k
  }

  lemma {:induction false} PathTo<F>(g: Sheets<F>, root: F, f: F, k: nat) returns (p: seq<F>)
    requires f in Within(g, root, k)
    ensures Connects(g, root, f, k, p)
    decreases k
  {
    if k == 0 {
      p := [root];
    } else if f in Within(g, root, k - 1) {
      p := PathTo(g, root, f, k - 1);
    } else {
      hide Successors, Imports;
      SuccessorsMembers(g, Within(g, root, k - 1), f);
      var f0 :| f0 in Within(g, root, k - 1) && Imports(g, f0, f);
      var q := PathTo(g, root, f0, k - 1);
      p := q + [f];
      PathExtends(g, q, f);
    }
  }

  lemma PathExtends<F>(g: Sheets<F>, q: seq<F>, f: F)
    requires IsPath(g, q) && Imports(g, q[|q| - 1], f)
    ensures IsPath(g, q + [f])
  {
    hide Imports;
    var p := q + [f];
    forall i | 0 <= i < |p| - 1 ensures Imports(g, p[i], p[i + 1]) {
      if i < |q| - 1 {
        assert p[i] == q[i] && p[i + 1] == q[i + 1];
      }
    }
  }

  lemma {:induction false} PathWithin<F>(g: Sheets<F>, root: F, f: F, k: nat, p: seq<F>)
    requires Connects(g, root, f, k, p)
    ensures f in Within(g, root, k)
    decreases k
  {
    if k > 0 && |p| > 1 {
      var q := p[..|p| - 1];
      PathWithin(g, root, q[|q| - 1], k - 1, q);
      assert Imports(g, p[|p| - 2], p[|p| - 1]);
    } else if k > 0 {
      PathWithin(g, root, f, k - 1, p);
    }
  }

  /** The layers are the shortest-path layers. */
  lemma WithinIsByPath<F>(g: Sheets<F>, root: F, f: F, k: nat)
    ensures f in Within(g, root, k) <==> exists p :: Connects(g, root, f, k, p)
  {
    if f in Within(g, root, k) {
      var p := PathTo(g, root, f, k);
    }
    forall p | Connects(g, root, f, k, p) ensures f in Within(g, root, k) {
      PathWithin(g, root, f, k, p);
    }
  }

  /** A file is watched if and only if it is at the end of an import path of at most a hundred imports. */
  lemma WatchedByPath<F>(g: Sheets<F>, root: F, f: F)
    ensures f in Within(g, root, MAX_ITERATIONS) <==>
      exists p :: IsPath(g, p) && p[0] == root && p[|p| - 1] == f && |p| <= 101
  {
    hide Within;
    WithinIsByPath(g, root, f, MAX_ITERATIONS);
    forall p | IsPath(g, p) && p[0] == root && p[|p| - 1] == f && |p| <= 101
      ensures f in Within(g, root, MAX_ITERATIONS)
    {
      assert Connects(g, root, f, MAX_ITERATIONS, p);
    }
  }

  lemma {:induction false} WithinGrows<F>(g: Sheets<F>, root: F, j: nat, k: nat)
    requires j <= k
    ensures Within(g, root, j) <= Within(g, root, k)
    decreases k - j
  {
    if j == k {
    } else {
      WithinGrows(g, root, j, k - 1);
    }
  }

  lemma NextLayer<F>(g: Sheets<F>, root: F, k: nat)
    ensures Within(g, root, k + 1) == Within(g, root, k) + Successors(g, Within(g, root, k))
  {
  }

  /** Once a layer adds nothing, no later one does: the transitive closure is reached. */
  lemma {:induction false} NoGrowthIsClosure<F>(g: Sheets<F>, root: F, j: nat, k: nat)
    requires Within(g, root, j + 1) == Within(g, root, j) && j <= k
    ensures Within(g, root, k) == Within(g, root, j)
    decreases k - j
  {
    hide *;
    if j == k {
    } else {
      NoGrowthIsClosure(g, root, j, k - 1);
      NextLayer(g, root, j);
      NextLayer(g, root, k - 1);
    }
  }

  /** One round over the files new in layer `k` gives layer `k + 1`. */
  lemma NewLayerSuffices<F>(g: Sheets<F>, root: F, k: nat)
    ensures var old' := if k == 0 then {} else Within(g, root, k - 1);
      Within(g, root, k) + Successors(g, Within(g, root, k) - old') == Within(g, root, k + 1)
  {
    var now, old' := Within(g, root, k), if k == 0 then {} else Within(g, root, k - 1);
    if k > 0 {
      assert Successors(g, old') <= now;
    }
    assert Successors(g, now) == Successors(g, now - old') + Successors(g, now * old');
    assert Successors(g, now * old') <= Successors(g, old');
  }

  // --- the search ----------------------------------------------------------------------------------------

  function Parsed<F(==)>(imports: map<F, bool>): set<F> {
    set f | f in imports && imports[f]
  }

  /** Marks a file as parsed after entering the files it imports that are new. */
  method ParseFile<F(==)>(g: Sheets<F>, file: F, imports0: map<F, bool>) returns (imports: map<F, bool>)
    requires file in imports0
    ensures imports0[file] ==> imports == imports0
    ensures !imports0[file] ==>
      && imports.Keys == imports0.Keys + Successors(g, {file})
      && Parsed(imports) == Parsed(imports0) + {file}
  {
    imports := imports0;
    if imports[file] {
      return;
    }
    var contents := g.imports(file);
    for i := 0 to |contents|
      invariant imports.Keys == imports0.Keys + set j | 0 <= j < i && contents[j].Some? :: contents[j].value
      invariant Parsed(imports) == Parsed(imports0)
    {
      var importFile := contents[i];
      if importFile.Some? && importFile.value !in imports {
        imports := imports[importFile.value := false];
      }
    }
    assert (set j | 0 <= j < |contents| && contents[j].Some? :: contents[j].value) == Successors(g, {file});
    imports := imports[file := true];
  }

  /** The keys of the map with the given mark, in some order. */
  method Marked<F(==)>(imports: map<F, bool>, mark: bool) returns (files: seq<F>)
    ensures forall f :: f in files <==> f in imports && imports[f] == mark
    ensures forall i, j :: 0 <= i < j < |files| ==> files[i] != files[j]
  {
    files := [];
    var left := imports.Keys;
    while left != {}
      invariant left <= imports.Keys
      invariant forall f :: f in files <==> f in imports.Keys - left && imports[f] == mark
      invariant forall i, j :: 0 <= i < j < |files| ==> files[i] != files[j]
      decreases left
    {
      var f :| f in left;
      left := left - {f};
      if imports[f] == mark {
        files := files + [f];
      }
    }
  }

  /** One round: every file not parsed at its start is parsed, whatever the order. */
  method Round<F(==)>(g: Sheets<F>, imports0: map<F, bool>) returns (imports: map<F, bool>)
    ensures imports.Keys == imports0.Keys + Successors(g, imports0.Keys - Parsed(imports0))
    ensures Parsed(imports) == imports0.Keys
  {
    imports := imports0;
    var toParse := Marked(imports0, false);
    for i := 0 to |toParse|
      invariant imports.Keys == imports0.Keys + Successors(g, set f | f in toParse[..i])
      invariant Parsed(imports) == Parsed(imports0) + set f | f in toParse[..i]
    {
      assert toParse[i] !in toParse[..i];
      assert toParse[..i + 1] == toParse[..i] + [toParse[i]];
      imports := ParseFile(g, toParse[i], imports);
    }
    assert (set f | f in toParse[..|toParse|]) == imports0.Keys - Parsed(imports0);
  }

  /** At the start of round `k` the map holds layer `k`, and exactly the layer before is parsed. */
  ghost predicate AtRound<F>(g: Sheets<F>, root: F, k: nat, imports: map<F, bool>) {
    && imports.Keys == Within(g, root, k)
    && Parsed(imports) == if k == 0 then {} else Within(g, root, k - 1)
  }

  lemma AtStart<F>(g: Sheets<F>, root: F)
    ensures AtRound(g, root, 0, map[root := false])
  {
  }

  /** A round moves on by one layer; if the map did not grow, the layer was the transitive closure. */
  lemma RoundAdvances<F>(g: Sheets<F>, root: F, k: nat, imports: map<F, bool>, next: map<F, bool>, limit: nat)
    requires AtRound(g, root, k, imports)
    requires next.Keys == imports.Keys + Successors(g, imports.Keys - Parsed(imports)) && Parsed(next) == imports.Keys
    ensures AtRound(g, root, k + 1, next)
    ensures Parsed(next) == Within(g, root, k)
    ensures |next| <= |imports| && k <= limit ==> Parsed(next) == Within(g, root, limit)
  {
    NewLayerSuffices(g, root, k);
    if |next| <= |imports| {
      SameSize(imports.Keys, next.Keys);
      if k <= limit {
        NoGrowthIsClosure(g, root, k, limit);
      }
    }
  }

  /** The watch list is exactly the files at most a hundred imports from the root, each once; it is
      empty when the root cannot be found. */
  method ParseImports<F(==)>(g: Sheets<F>, cssFile: Option<F>) returns (result: seq<F>)
    ensures forall f :: f in result <==> cssFile.Some? && f in Within(g, cssFile.value, MAX_ITERATIONS)
    ensures forall i, j :: 0 <= i < j < |result| ==> result[i] != result[j]
  {
    if cssFile.None? {
      return [];
    }
    var imports := ParseRounds(g, cssFile.value, MAX_ITERATIONS);
    result := Marked(imports, true);
    assert forall f :: f in result <==> f in Parsed(imports);
  }

  /** Rounds until nothing is new, or the limit is used up: the files at most `limit` imports away. */
  method ParseRounds<F(==)>(g: Sheets<F>, root: F, limit: nat) returns (imports: map<F, bool>)
    ensures Parsed(imports) == Within(g, root, limit)
  {
    hide *;
    AtStart(g, root);
    var maxIterations := limit;
    ghost var rounds: nat := 0;
    var current: map<F, bool> := map[root := false];
    imports := RoundFrom(g, root, rounds, current, limit);
    while |imports| > |current| && maxIterations > 0
      invariant 0 <= maxIterations && rounds + maxIterations == limit
      invariant AtRound(g, root, rounds + 1, imports)
      invariant Parsed(imports) == Within(g, root, rounds)
      invariant |imports| <= |current| ==> Parsed(imports) == Within(g, root, limit)
      decreases maxIterations
    {
      maxIterations := maxIterations - 1;
      rounds := rounds + 1;
      current := imports;
      imports := RoundFrom(g, root, rounds, current, limit);
    }
  }

  /** The same round, told by layers. */
  method RoundFrom<F(==)>(g: Sheets<F>, ghost root: F, ghost k: nat, imports: map<F, bool>, ghost limit: nat)
    returns (next: map<F, bool>)
    requires AtRound(g, root, k, imports)
    ensures AtRound(g, root, k + 1, next)
    ensures Parsed(next) == Within(g, root, k)
    ensures |next| <= |imports| && k <= limit ==> Parsed(next) == Within(g, root, limit)
  {
    next := Round(g, imports);
    RoundAdvances(g, root, k, imports, next, limit);
  }

  lemma SameSize<F>(a: set<F>, b: set<F>)
    requires a <= b && |b| <= |a|
    ensures a == b
  {
    if exists x :: x in b && x !in a {
      var x :| x in b && x !in a;
      SubsetSize(a + {x}, b);
    }
  }

  lemma {:induction false} SubsetSize<F>(a: set<F>, b: set<F>)
    requires a <= b
    ensures |a| <= |b|
  {
    if a == {} {
    } else {
      var x :| x in a;
      SubsetSize(a - {x}, b - {x});
    }
  }
}
