/** The feature worklist, and the two checks of hand-written feature lists built on it. */
module Features {
  /** A manifest's `[features]` table: what each feature enables. */
  type FeatureTable = map<string, seq<string>>

  const BACKEND := "jwt-p256"
  const EXCLUDED_FROM_NO_RAR := "rar"
  const DEFAULT := "default"

  /** Entries `dep:x` and `x/y` are not features of the crate. */
  predicate NamesFeature(entry: string) { !("dep:" <= entry) && '/' !in entry }

  predicate Enables(table: FeatureTable, a: string, b: string) {
    a in table && b in table && b in table[a] && NamesFeature(b)
  }

  // ----- reaching a feature, by a path

  ghost predicate Path(table: FeatureTable, path: seq<string>) {
    && path != [] && path[0] in table
    && forall i | 0 < i < |path| :: Enables(table, path[i - 1], path[i])
  }

  ghost predicate Reachable(table: FeatureTable, seeds: seq<string>, name: string) {
    exists path :: Path(table, path) && path[0] in seeds && path[|path| - 1] == name
  }

  ghost predicate Closed(table: FeatureTable, names: set<string>) {
    forall a, b | a in names && Enables(table, a, b) :: b in names
  }

  lemma {:induction false} PathStaysIn(table: FeatureTable, names: set<string>, path: seq<string>)
    requires Closed(table, names) && Path(table, path) && path[0] in names
    ensures path[|path| - 1] in names
    decreases |path|
  {
    if |path| > 1 {
      var n := |path| - 1;
      PathStaysIn(table, names, path[..n]);
      assert Enables(table, path[n - 1], path[n]);
    }
  }

  /** Whatever can be reached lies in every closed set that contains the known seeds. */
  lemma ReachableIsLeast(table: FeatureTable, seeds: seq<string>, names: set<string>, name: string)
    requires Closed(table, names) && (forall s | s in seeds && s in table :: s in names)
    requires Reachable(table, seeds, name)
    ensures name in names
  {
    var path :| Path(table, path) && path[0] in seeds && path[|path| - 1] == name;
    PathStaysIn(table, names, path);
  }

  lemma SeedReachable(table: FeatureTable, seeds: seq<string>, name: string)
    requires name in seeds && name in table
    ensures Reachable(table, seeds, name)
  {
    assert Path(table, [name]);
  }

  lemma StepReachable(table: FeatureTable, seeds: seq<string>, a: string, b: string)
    requires Reachable(table, seeds, a) && Enables(table, a, b)
    ensures Reachable(table, seeds, b)
  {
    var path :| Path(table, path) && path[0] in seeds && path[|path| - 1] == a;
    assert Path(table, path + [b]) && (path + [b])[|path|] == b;
  }

  // ----- the worklist

  /** Pushes the features an entry list names. */
  method Push(stack: seq<string>, entries: seq<string>) returns (stack': seq<string>)
    ensures forall s :: s in stack' <==> s in stack || (s in entries && NamesFeature(s))
  {
    stack' := stack;
    for i := 0 to |entries|
      invariant forall s :: s in stack' <==> s in stack || (s in entries[..i] && NamesFeature(s))
    {
      if NamesFeature(entries[i]) {
        stack' := stack' + [entries[i]];
      }
      assert entries[..i + 1] == entries[..i] + [entries[i]];
    }
    assert entries[..|entries|] == entries;
  }

  /** What is known of the worklist: it holds only what can be reached, and everything a seen feature
  enables is seen or still on it. */
  ghost predicate WorkInv(table: FeatureTable, seeds: seq<string>, seen: set<string>, stack: seq<string>) {
    && seen <= table.Keys
    && (forall s | s in seeds && s in table :: s in seen || s in stack)
    && (forall a, b | a in seen && Enables(table, a, b) :: b in seen || b in stack)
    && (forall name | name in seen :: Reachable(table, seeds, name))
    && (forall name | name in stack && name in table :: Reachable(table, seeds, name))
  }

  lemma Started(table: FeatureTable, seeds: seq<string>)
    ensures WorkInv(table, seeds, {}, seeds)
  {
    forall s | s in seeds && s in table ensures Reachable(table, seeds, s) { SeedReachable(table, seeds, s); }
  }

  lemma Skipped(table: FeatureTable, seeds: seq<string>, seen: set<string>, stack: seq<string>, name: string)
    requires WorkInv(table, seeds, seen, stack + [name]) && (name in seen || name !in table)
    ensures WorkInv(table, seeds, seen, stack)
  {
  }

  lemma Visited(table: FeatureTable, seeds: seq<string>, seen: set<string>, stack: seq<string>, name: string,
                stack': seq<string>)
    requires WorkInv(table, seeds, seen, stack + [name]) && name in table
    requires forall s :: s in stack' <==> s in stack || (s in table[name] && NamesFeature(s))
    ensures WorkInv(table, seeds, seen + {name}, stack')
  {
    assert Reachable(table, seeds, name);
    forall b | b in stack' && b in table ensures Reachable(table, seeds, b) {
      if b !in stack { StepReachable(table, seeds, name, b); }
    }
  }

  method Closure(table: FeatureTable, seeds: seq<string>) returns (seen: set<string>)
    ensures forall name :: name in seen <==> Reachable(table, seeds, name)
    ensures Closed(table, seen) && seen <= table.Keys
  {
    seen := {};
    var stack := seeds;
    Started(table, seeds);
    while stack != []
      invariant WorkInv(table, seeds, seen, stack)
      decreases table.Keys - seen, |stack|
    {
      var name, rest := stack[|stack| - 1], stack[..|stack| - 1];
      assert stack == rest + [name];
      if name in seen || name !in table {
        Skipped(table, seeds, seen, rest, name);
        stack := rest;
      } else {
        stack := Push(rest, table[name]);
        Visited(table, seeds, seen, rest, name, stack);
        seen := seen + {name};
      }
    }
    forall name | Reachable(table, seeds, name) ensures name in seen {
      ReachableIsLeast(table, seeds, seen, name);
    }
  }

  // ----- the checks

  datatype Problem = Undeclared(name: string) | NotReached(name: string) | MustNotReach(name: string)

  /** The features that enable the backend, found by one closure for each. */
  method BackendFeatures(table: FeatureTable) returns (names: set<string>)
    ensures forall f :: f in names <==> f in table && Reachable(table, [f], BACKEND)
  {
    names := {};
    var rest := table.Keys;
    while rest != {}
      invariant rest <= table.Keys
      invariant forall f :: f in names <==> f in table.Keys - rest && Reachable(table, [f], BACKEND)
      decreases |rest|
    {
      var f :| f in rest;
      var reached := Closure(table, [f]);
      if f == BACKEND { SeedReachable(table, [f], f); }
      if f == BACKEND || BACKEND in reached {
        names := names + {f};
      }
      rest := rest - {f};
    }
  }

  lemma ReachCompose(table: FeatureTable, seeds: seq<string>, a: string, b: string)
    requires Reachable(table, seeds, a) && Reachable(table, [a], b)
    ensures Reachable(table, seeds, b)
  {
    var p :| Path(table, p) && p[0] in seeds && p[|p| - 1] == a;
    var q :| Path(table, q) && q[0] in [a] && q[|q| - 1] == b;
    var path := p + q[1..];
    forall i | 0 < i < |path| ensures Enables(table, path[i - 1], path[i]) {
      if i >= |p| { assert path[i] == q[i - |p| + 1] && path[i - 1] == q[i - |p|]; }
    }
    assert Path(table, path) && path[|path| - 1] == b;
  }

  /** The no-backend step passes exactly when every listed name is declared and, `default` aside, it
  reaches precisely the features that do not reach the backend. */
  method CheckNoBackend(table: FeatureTable, listed: seq<string>) returns (problems: set<Problem>)
    ensures problems == {} <==>
              && (forall f | f in listed :: f in table)
              && (forall f | f in table && f != DEFAULT ::
                    Reachable(table, listed, f) <==> !Reachable(table, [f], BACKEND))
  {
    var backend := BackendFeatures(table);
    var required := table.Keys - {DEFAULT} - backend;
    var reached := Closure(table, listed);
    problems := Report(listed, table, required - reached, reached * backend);
    if DEFAULT in reached && DEFAULT in backend {
      ReachCompose(table, listed, DEFAULT, BACKEND);
      BackendReachesItself(table, listed);
      assert BACKEND in reached * backend;
    }
    ExactlyTheOthers(table.Keys, reached, backend);
  }

  lemma ExactlyTheOthers(names: set<string>, reached: set<string>, forbidden: set<string>)
    requires reached <= names
    requires DEFAULT in reached * forbidden ==> exists f :: f in reached * forbidden && f != DEFAULT
    ensures names - {DEFAULT} - forbidden - reached == {} && reached * forbidden == {} <==>
              forall f | f in names && f != DEFAULT :: f in reached <==> f !in forbidden
  {
    var missing, wrong := names - {DEFAULT} - forbidden - reached, reached * forbidden;
    assert forall f :: f in missing <==> f in names && f != DEFAULT && f !in forbidden && f !in reached;
    assert forall f :: f in wrong <==> f in reached && f in forbidden;
    if wrong != {} {
      var f :| f in wrong && f != DEFAULT;
      assert f in names && f in reached && f in forbidden;
    }
  }

  /** One report for each undeclared, unreached or forbidden name. */
  function Report(listed: seq<string>, table: FeatureTable, missing: set<string>,
                  forbidden: set<string>): (problems: set<Problem>)
    ensures problems == {} <==> (forall f | f in listed :: f in table) && missing == {} && forbidden == {}
  {
    var problems := (set f | f in listed && f !in table :: Undeclared(f)) + (set f | f in missing :: NotReached(f))
                    + (set f | f in forbidden :: MustNotReach(f));
    assert forall f | f in listed && f !in table :: Undeclared(f) in problems;
    assert forall f | f in missing :: NotReached(f) in problems;
    assert forall f | f in forbidden :: MustNotReach(f) in problems;
    problems
  }

  lemma BackendReachesItself(table: FeatureTable, listed: seq<string>)
    requires Reachable(table, listed, BACKEND)
    ensures BACKEND in table && Reachable(table, [BACKEND], BACKEND)
  {
    var path :| Path(table, path) && path[0] in listed && path[|path| - 1] == BACKEND;
    assert |path| > 1 ==> Enables(table, path[|path| - 2], path[|path| - 1]);
    SeedReachable(table, [BACKEND], BACKEND);
  }

  /** The step without `rar` passes exactly when every listed name is declared and, `default` aside, it
  reaches every feature but `rar`. */
  method CheckNoRar(table: FeatureTable, listed: seq<string>) returns (problems: set<Problem>)
    ensures problems == {} <==>
              && (forall f | f in listed :: f in table)
              && (forall f | f in table && f != DEFAULT :: Reachable(table, listed, f) <==> f != EXCLUDED_FROM_NO_RAR)
  {
    var required := table.Keys - {DEFAULT, EXCLUDED_FROM_NO_RAR};
    var reached := Closure(table, listed);
    problems := Report(listed, table, required - reached, reached * {EXCLUDED_FROM_NO_RAR});
    assert required == table.Keys - {DEFAULT} - {EXCLUDED_FROM_NO_RAR};
    ExactlyTheOthers(table.Keys, reached, {EXCLUDED_FROM_NO_RAR});
  }
}
