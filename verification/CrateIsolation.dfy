/** The worklist `e2e_crate_is_isolated` of `ci_gate.py`: nothing in the
    workspace may depend on the end-to-end test harness. */
module CrateIsolation {

  import opened Text

  /** A parsed manifest.  Tables keep their entries in order. */
  datatype Toml = Table(entries: seq<(string, Toml)>) | Str(text: string) | Array(items: seq<Toml>) | Scalar

  /** The checkout: `Canon` resolves a path, `manifests` holds the readable,
      parseable manifests by resolved path, `Expand` globs a member pattern. */
  datatype Tree = Tree(root: string, Canon: string -> string, manifests: map<string, Toml>, Expand: string -> Expansion)

  /** What globbing gives: directories, an error that is caught, or one that is not. */
  datatype Expansion = Found(directories: seq<string>) | Caught | Uncaught

  datatype Verdict = Yes | No | Raises

  const HARNESS := "e2e_test"

  function Join(directory: string, rest: string): string {
    if "/" <= rest then rest else directory + "/" + rest
  }

  function Parent(path: string): string {
    if path == "" || path[|path| - 1] == '/' then (if path == "" then "" else path[..|path| - 1])
    else Parent(path[..|path| - 1])
  }

  function ManifestIn(directory: string): string { Join(directory, "Cargo.toml") }

  predicate InTree(path: string, root: string) { path == root || root + "/" <= path }

  function Target(tree: Tree): string { tree.Canon(Join(tree.root, "crates/e2e_test")) }

  /** `dict.get`, on a table. */
  function Get(entries: seq<(string, Toml)>, key: string): Option<Toml> {
    if entries == [] then None
    else if entries[0].0 == key then Some(entries[0].1)
    else Get(entries[1..], key)
  }

  function Elements(table: seq<(string, Toml)>): set<(string, Toml)> { set d | d in table }

  predicate DependencyTable(key: string) {
    key == "dependencies" || key == "dev-dependencies" || key == "build-dependencies"
  }

  function PathOf(dependency: Toml): Option<string> {
    if !dependency.Table? then None
    else
      match Get(dependency.entries, "path")
      case Some(Str(p)) => Some(p)
      case _ => None
  }

  /** The dependency names, renames or points at the harness, or leaves the tree. */
  predicate NamesHarness(tree: Tree, directory: string, d: (string, Toml)) {
    || d.0 == HARNESS
    || (d.1.Table? && Get(d.1.entries, "package") == Some(Str(HARNESS)))
    || (PathOf(d.1).Some? &&
        var root := tree.Canon(Join(directory, PathOf(d.1).value));
        root == Target(tree) || !InTree(root, tree.Canon(tree.root)))
  }

  /** The manifests a dependency pulls in. */
  function Pulls(tree: Tree, directory: string, d: (string, Toml)): set<string> {
    if PathOf(d.1).None? then {} else {ManifestIn(tree.Canon(Join(directory, PathOf(d.1).value)))}
  }

  /** All entries of dependency tables, at any depth of a manifest. */
  function Dependencies(value: Toml): set<(string, Toml)>
    decreases value, 1
  {
    if value.Table? then DependenciesOf(value, |value.entries|) else {}
  }

  /** Those found in the first `n` entries of a table. */
  function DependenciesOf(value: Toml, n: nat): set<(string, Toml)>
    requires value.Table? && n <= |value.entries|
    decreases value, 0, n
  {
    if n == 0 then {}
    else
      var (key, item) := value.entries[n - 1];
      DependenciesOf(value, n - 1) + Direct(key, item) + Dependencies(item)
  }

  function Direct(key: string, item: Toml): set<(string, Toml)> {
    if DependencyTable(key) && item.Table? then Elements(item.entries) else {}
  }

  ghost predicate Hits(tree: Tree, directory: string, deps: set<(string, Toml)>) {
    exists d :: d in deps && NamesHarness(tree, directory, d)
  }

  ghost predicate PulledBy(tree: Tree, directory: string, deps: set<(string, Toml)>, m: string) {
    exists d :: d in deps && m in Pulls(tree, directory, d)
  }

  /** After scanning `deps` the pending set has grown by exactly what they pull in. */
  ghost predicate Grown(tree: Tree, directory: string, deps: set<(string, Toml)>, before: set<string>, after: set<string>) {
    forall m :: m in after <==> m in before || PulledBy(tree, directory, deps, m)
  }

  lemma GrownTwice(tree: Tree, directory: string, a: set<(string, Toml)>, b: set<(string, Toml)>,
                   s0: set<string>, s1: set<string>, s2: set<string>)
    requires Grown(tree, directory, a, s0, s1) && Grown(tree, directory, b, s1, s2)
    ensures Grown(tree, directory, a + b, s0, s2)
    ensures Hits(tree, directory, a + b) <==> Hits(tree, directory, a) || Hits(tree, directory, b)
  {
    hide Pulls, NamesHarness;
    forall m ensures PulledBy(tree, directory, a + b, m) <==> PulledBy(tree, directory, a, m) || PulledBy(tree, directory, b, m) {
      if d :| d in a + b && m in Pulls(tree, directory, d) {}
    }
  }

  method ScanDependencies(tree: Tree, directory: string, table: seq<(string, Toml)>, pending: set<string>)
    returns (hit: bool, pending': set<string>)
    ensures hit <==> Hits(tree, directory, Elements(table))
    ensures !hit ==> Grown(tree, directory, Elements(table), pending, pending')
  {
    pending' := pending;
    for i := 0 to |table|
      invariant !Hits(tree, directory, Elements(table[..i]))
      invariant Grown(tree, directory, Elements(table[..i]), pending, pending')
    {
      ghost var before := pending';
      assert Elements(table[..i + 1]) == Elements(table[..i]) + {table[i]};
      if NamesHarness(tree, directory, table[i]) {
        assert table[i] in Elements(table);
        return true, pending';
      }
      pending' := pending' + Pulls(tree, directory, table[i]);
      OneDependency(tree, directory, table[i], before);
      GrownTwice(tree, directory, Elements(table[..i]), {table[i]}, pending, before, pending');
    }
    assert table[..|table|] == table;
    return false, pending';
  }

  lemma OneDependency(tree: Tree, directory: string, d: (string, Toml), before: set<string>)
    ensures Grown(tree, directory, {d}, before, before + Pulls(tree, directory, d))
    ensures Hits(tree, directory, {d}) <==> NamesHarness(tree, directory, d)
  {
    hide Pulls, NamesHarness;
    forall m ensures PulledBy(tree, directory, {d}, m) <==> m in Pulls(tree, directory, d) {
      assert d in {d};
    }
    assert d in {d};
  }

  method ReferencesHarness(tree: Tree, value: Toml, directory: string, pending: set<string>)
    returns (hit: bool, pending': set<string>)
    ensures hit <==> Hits(tree, directory, Dependencies(value))
    ensures !hit ==> Grown(tree, directory, Dependencies(value), pending, pending')
    decreases value
  {
    hide Hits, Grown, NamesHarness, Elements;
    NoDependencies(tree, directory, pending);
    pending' := pending;
    if !value.Table? {
      return false, pending';
    }
    for i := 0 to |value.entries|
      invariant !Hits(tree, directory, DependenciesOf(value, i))
      invariant Grown(tree, directory, DependenciesOf(value, i), pending, pending')
    {
      var (key, item) := value.entries[i];
      ghost var before, sofar := DependenciesOf(value, i), pending';
      NoDependencies(tree, directory, pending');
      hit := false;
      if DependencyTable(key) && item.Table? {
        hit, pending' := ScanDependencies(tree, directory, item.entries, pending');
      }
      OneEntry(value, i);
      if hit {
        HitsGrow(tree, directory, Direct(key, item), Dependencies(value));
        return;
      }
      GrownTwice(tree, directory, before, Direct(key, item), pending, sofar, pending');
      ghost var middle := pending';
      hit, pending' := ReferencesHarness(tree, item, directory, pending');
      if hit {
        HitsGrow(tree, directory, Dependencies(item), Dependencies(value));
        return;
      }
      GrownTwice(tree, directory, before + Direct(key, item), Dependencies(item), pending, middle, pending');
    }
    return false, pending';
  }

  lemma OneEntry(value: Toml, i: nat)
    requires value.Table? && i < |value.entries|
    ensures var (key, item) := value.entries[i];
            && DependenciesOf(value, i + 1) == DependenciesOf(value, i) + Direct(key, item) + Dependencies(item)
            && Direct(key, item) <= Dependencies(value)
            && Dependencies(item) <= Dependencies(value)
  {
    MoreEntries(value, i + 1, |value.entries|);
  }

  lemma {:induction false} MoreEntries(value: Toml, m: nat, n: nat)
    requires value.Table? && m <= n <= |value.entries|
    ensures DependenciesOf(value, m) <= DependenciesOf(value, n)
  {
    if m < n {
      MoreEntries(value, m, n - 1);
    }
  }

  lemma NoDependencies(tree: Tree, directory: string, s: set<string>)
    ensures Grown(tree, directory, {}, s, s) && !Hits(tree, directory, {})
  {
  }

  lemma HitsGrow(tree: Tree, directory: string, a: set<(string, Toml)>, b: set<(string, Toml)>)
    requires a <= b
    ensures Hits(tree, directory, a) ==> Hits(tree, directory, b)
  {
  }

  // ----- the specification

  /** What the loop over `workspace["workspace"]["members"]` runs through. */
  function Members(workspace: Toml): Option<seq<Toml>> {
    if !workspace.Table? then None
    else
      match Get(workspace.entries, "workspace")
      case Some(Table(section)) =>
        (match Get(section, "members")
         case Some(Array(items)) => Some(items)
         case Some(Str(t)) => Some(seq(|t|, k requires 0 <= k < |t| => Str([t[k]])))
         case Some(Table(e)) => Some(seq(|e|, k requires 0 <= k < |e| => Str(e[k].0)))
         case _ => None)
      case _ => None
  }

  /** `root.glob(member)`; a member that is no string is a caught type error. */
  function Glob(tree: Tree, member: Toml): Expansion { if member.Str? then tree.Expand(member.text) else Caught }

  function Matches(tree: Tree, member: Toml): seq<string> {
    if Glob(tree, member).Found? then Glob(tree, member).directories else []
  }

  ghost predicate AllMatch(tree: Tree, patterns: seq<Toml>) {
    forall k :: 0 <= k < |patterns| ==> Matches(tree, patterns[k]) != []
  }

  /** Globbing raises an uncaught error before any member has failed to match. */
  ghost predicate RaisesAt(tree: Tree, patterns: seq<Toml>, k: nat) {
    k < |patterns| && Glob(tree, patterns[k]).Uncaught? && AllMatch(tree, patterns[..k])
  }

  ghost predicate Start(tree: Tree, patterns: seq<Toml>, m: string) {
    || m == ManifestIn(tree.root)
    || exists k, d :: 0 <= k < |patterns| && d in Matches(tree, patterns[k]) && tree.Canon(d) != Target(tree) && m == ManifestIn(d)
  }

  /** The manifest at `p` pulls in the (unresolved) manifest `m`. */
  ghost predicate Edge(tree: Tree, p: string, m: string) {
    p in tree.manifests && PulledBy(tree, Parent(p), Dependencies(tree.manifests[p]), m)
  }

  ghost predicate Begins(tree: Tree, patterns: seq<Toml>, p: string) {
    exists m :: Start(tree, patterns, m) && p == tree.Canon(m)
  }

  ghost predicate Link(tree: Tree, p: string, q: string) {
    exists m :: Edge(tree, p, m) && q == tree.Canon(m)
  }

  /** `path` leads from a start manifest along path dependencies, all resolved. */
  ghost predicate Leads(tree: Tree, patterns: seq<Toml>, path: seq<string>) {
    var n := |path| - 1;
    n >= 0 &&
    if n == 0 then Begins(tree, patterns, path[0])
    else Leads(tree, patterns, path[..n]) && Link(tree, path[n - 1], path[n])
  }

  ghost predicate Reachable(tree: Tree, patterns: seq<Toml>, p: string) {
    exists path :: Leads(tree, patterns, path) && path[|path| - 1] == p
  }

  ghost predicate Clean(tree: Tree, p: string) {
    p in tree.manifests && !Hits(tree, Parent(p), Dependencies(tree.manifests[p]))
  }

  ghost predicate Isolated(tree: Tree) {
    var rootManifest := tree.Canon(ManifestIn(tree.root));
    && rootManifest in tree.manifests
    && Members(tree.manifests[rootManifest]).Some?
    && var patterns := Members(tree.manifests[rootManifest]).value;
       && AllMatch(tree, patterns)
       && forall p :: Reachable(tree, patterns, p) ==> Clean(tree, p)
  }

  /** The error that `e2e_crate_is_isolated` lets through. */
  ghost predicate Raising(tree: Tree) {
    var rootManifest := tree.Canon(ManifestIn(tree.root));
    && rootManifest in tree.manifests
    && Members(tree.manifests[rootManifest]).Some?
    && exists k: nat :: RaisesAt(tree, Members(tree.manifests[rootManifest]).value, k)
  }

  lemma StartIsReachable(tree: Tree, patterns: seq<Toml>, m: string)
    requires Start(tree, patterns, m)
    ensures Reachable(tree, patterns, tree.Canon(m))
  {
    assert Leads(tree, patterns, [tree.Canon(m)]);
  }

  lemma EdgeIsReachable(tree: Tree, patterns: seq<Toml>, p: string, m: string)
    requires Reachable(tree, patterns, p) && Edge(tree, p, m)
    ensures Reachable(tree, patterns, tree.Canon(m))
  {
    hide Edge, Start;
    var path :| Leads(tree, patterns, path) && path[|path| - 1] == p;
    var longer := path + [tree.Canon(m)];
    assert longer[..|path|] == path;
    assert Leads(tree, patterns, longer);
  }

  /** A set that holds the start and is closed under edges holds all that is reachable. */
  ghost predicate Closed(tree: Tree, patterns: seq<Toml>, visited: set<string>, pending: set<string>) {
    && (forall m :: Start(tree, patterns, m) ==> m in pending || tree.Canon(m) in visited)
    && (forall v, m :: v in visited && Edge(tree, v, m) ==> m in pending || tree.Canon(m) in visited)
  }

  lemma ClosedHoldsReachable(tree: Tree, patterns: seq<Toml>, visited: set<string>, p: string)
    requires Closed(tree, patterns, visited, {}) && Reachable(tree, patterns, p)
    ensures p in visited
  {
    hide Edge, Start, Closed;
    var path :| Leads(tree, patterns, path) && path[|path| - 1] == p;
    PathStaysVisited(tree, patterns, visited, path);
  }

  lemma {:induction false} PathStaysVisited(tree: Tree, patterns: seq<Toml>, visited: set<string>, path: seq<string>)
    requires Closed(tree, patterns, visited, {}) && Leads(tree, patterns, path)
    ensures path[|path| - 1] in visited
  {
    hide Edge, Start;
    if |path| > 1 {
      PathStaysVisited(tree, patterns, visited, path[..|path| - 1]);
    }
  }

  // ----- the worklist

  method StartSet(tree: Tree, patterns: seq<Toml>) returns (verdict: Verdict, pending: set<string>)
    ensures verdict == Yes <==> AllMatch(tree, patterns)
    ensures verdict == Raises <==> exists k: nat :: RaisesAt(tree, patterns, k)
    ensures verdict == Yes ==> forall m :: m in pending <==> Start(tree, patterns, m)
  {
    hide Start, Glob;
    pending := {ManifestIn(tree.root)};
    StartOfNothing(tree, patterns[..0]);
    for k := 0 to |patterns|
      invariant AllMatch(tree, patterns[..k])
      invariant forall m :: m in pending <==> Start(tree, patterns[..k], m)
    {
      MatchStep(tree, patterns, k);
      match Glob(tree, patterns[k]) {
        case Uncaught =>
          assert RaisesAt(tree, patterns, k);
          return Raises, pending;
        case Caught =>
          return No, pending;
        case Found(found) =>
          if found == [] {
            return No, pending;
          }
          var more := set d | d in found && tree.Canon(d) != Target(tree) :: ManifestIn(d);
          StartStep(tree, patterns, k, more);
          pending := pending + more;
      }
    }
    assert patterns[..|patterns|] == patterns;
    NothingRaises(tree, patterns);
    return Yes, pending;
  }

  lemma StartOfNothing(tree: Tree, patterns: seq<Toml>)
    requires patterns == []
    ensures forall m :: Start(tree, patterns, m) <==> m == ManifestIn(tree.root)
  {
  }

  /** What the first member not yet looked at decides. */
  lemma MatchStep(tree: Tree, patterns: seq<Toml>, k: nat)
    requires k < |patterns| && AllMatch(tree, patterns[..k])
    ensures AllMatch(tree, patterns[..k + 1]) <==> Matches(tree, patterns[k]) != []
    ensures Matches(tree, patterns[k]) == [] ==> !AllMatch(tree, patterns)
    ensures Matches(tree, patterns[k]) == [] && !Glob(tree, patterns[k]).Uncaught? ==>
            forall j: nat :: !RaisesAt(tree, patterns, j)
  {
    var a, b := patterns[..k], patterns[..k + 1];
    assert b[k] == patterns[k] && forall j :: 0 <= j < k ==> a[j] == b[j] == patterns[j];
    if Matches(tree, patterns[k]) == [] && !Glob(tree, patterns[k]).Uncaught? {
      forall j: nat ensures !RaisesAt(tree, patterns, j) {
        if j < k {
          assert Matches(tree, a[j]) != [];
        } else if k < j < |patterns| {
          assert patterns[..j][k] == patterns[k];
        }
      }
    }
  }

  lemma NothingRaises(tree: Tree, patterns: seq<Toml>)
    requires AllMatch(tree, patterns)
    ensures forall k: nat :: !RaisesAt(tree, patterns, k)
  {
  }

  lemma StartStep(tree: Tree, patterns: seq<Toml>, k: nat, more: set<string>)
    requires k < |patterns|
    requires more == set d | d in Matches(tree, patterns[k]) && tree.Canon(d) != Target(tree) :: ManifestIn(d)
    ensures forall m :: Start(tree, patterns[..k + 1], m) <==> Start(tree, patterns[..k], m) || m in more
  {
    hide ManifestIn, Target;
    var a, b := patterns[..k], patterns[..k + 1];
    forall m ensures Start(tree, b, m) <==> Start(tree, a, m) || m in more {
      if j, d :| 0 <= j < |a| && d in Matches(tree, a[j]) && tree.Canon(d) != Target(tree) && m == ManifestIn(d) {
        assert b[j] == a[j];
      }
      if m in more {
        var d :| d in Matches(tree, patterns[k]) && tree.Canon(d) != Target(tree) && m == ManifestIn(d);
        assert b[k] == patterns[k];
      }
      if j, d :| 0 <= j < |b| && d in Matches(tree, b[j]) && tree.Canon(d) != Target(tree) && m == ManifestIn(d) {
        assert j < k ==> a[j] == b[j];
      }
    }
  }

  /** The work list answers exactly whether the harness is isolated, in whatever
      order pending manifests are taken, unless globbing raises. */
  method IsIsolated(tree: Tree) returns (verdict: Verdict)
    ensures verdict == Yes <==> Isolated(tree)
    ensures verdict == Raises <==> Raising(tree)
  {
    hide Reachable, Clean, RaisesAt, AllMatch;
    var rootManifest := tree.Canon(ManifestIn(tree.root));
    if rootManifest !in tree.manifests {
      return No;
    }
    var members := Members(tree.manifests[rootManifest]);
    if members.None? {
      return No;
    }
    var patterns := members.value;
    var started, pending := StartSet(tree, patterns);
    if started != Yes {
      return started;
    }
    forall m | m in pending ensures Reachable(tree, patterns, tree.Canon(m)) {
      StartIsReachable(tree, patterns, m);
    }
    var isolated := Drain(tree, patterns, pending);
    return if isolated then Yes else No;
  }

  /** The loop over `manifests` and `visited`. */
  method Drain(tree: Tree, patterns: seq<Toml>, start: set<string>) returns (isolated: bool)
    requires forall m :: m in start <==> Start(tree, patterns, m)
    requires forall m :: m in start ==> Reachable(tree, patterns, tree.Canon(m))
    ensures isolated <==> forall p :: Reachable(tree, patterns, p) ==> Clean(tree, p)
  {
    hide Start, Edge, Reachable, Hits, Dependencies, Grown, Parent;
    var pending := start;
    var visited: set<string> := {};
    while pending != {}
      invariant visited <= tree.manifests.Keys && Closed(tree, patterns, visited, pending)
      invariant forall v :: v in visited ==> Clean(tree, v)
      invariant forall m :: m in pending ==> Reachable(tree, patterns, tree.Canon(m))
      decreases tree.manifests.Keys - visited, |pending|
    {
      var m :| m in pending;
      var rest := pending - {m};
      var path := tree.Canon(m);
      assert rest + {m} == pending && Reachable(tree, patterns, path);
      if path in visited {
        pending := rest;
        continue;
      }
      if path !in tree.manifests {
        assert !Clean(tree, path);
        return false;
      }
      var hit;
      hit, pending := ReferencesHarness(tree, tree.manifests[path], Parent(path), rest);
      if hit {
        assert !Clean(tree, path);
        return false;
      }
      Visit(tree, patterns, visited, rest, m, pending);
      visited := visited + {path};
    }
    forall p | Reachable(tree, patterns, p) ensures Clean(tree, p) {
      ClosedHoldsReachable(tree, patterns, visited, p);
    }
    return true;
  }

  lemma Visit(tree: Tree, patterns: seq<Toml>, visited: set<string>, pending: set<string>, m: string, pending': set<string>)
    requires Closed(tree, patterns, visited, pending + {m})
    requires var path := tree.Canon(m);
             && path in tree.manifests && Reachable(tree, patterns, path)
             && Grown(tree, Parent(path), Dependencies(tree.manifests[path]), pending, pending')
    requires forall x :: x in pending ==> Reachable(tree, patterns, tree.Canon(x))
    ensures Closed(tree, patterns, visited + {tree.Canon(m)}, pending')
    ensures forall x :: x in pending' ==> Reachable(tree, patterns, tree.Canon(x))
  {
    hide Start, Reachable, Dependencies, PulledBy;
    var path := tree.Canon(m);
    forall x | x in pending' ensures Reachable(tree, patterns, tree.Canon(x)) {
      if x !in pending {
        EdgeIsReachable(tree, patterns, path, x);
      }
    }
  }
}
