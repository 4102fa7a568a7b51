/** A desired state written into a directory, where a path holds one file, and loaded from it in the
    order the directory happens to list its files. */
module GitopsRepository {
  import opened Text
  import opened GitopsContracts
  import opened Folding
  import opened GitopsCodec

  type Directory = map<string, Content>

  const YAML_NAMES := ["yaml", "yml"]

  /** Writing the files one after the other: a path keeps what is written to it last. */
  function Written(files: seq<File>): Directory {
    if files == [] then map[]
    else Written(files[..|files| - 1])[files[|files| - 1].path := files[|files| - 1].content]
  }

  function Lower(c: char): char { if 'A' <= c <= 'Z' then c - 'A' + 'a' else c }

  /** A name, one dot and an extension in either case. */
  predicate DocFilename(name: string) {
    var parts := Split(name, '.');
    '/' !in name && |parts| == 2 && parts[0] != "" && Map(Lower, parts[1]) in YAML_NAMES
  }

  /** The paths the loader picks up. */
  predicate DesiredStatePath(path: string) {
    var segments := Split(path, '/');
    var last := segments[|segments| - 1];
    if path == MANIFEST || path == ASSIGNMENTS_FILE then true
    else if StartsWith(path, ROLES_DIR + "/") then DocFilename(last)
    else if StartsWith(path, Dir(Agent) + "/") || StartsWith(path, Dir(Workflow) + "/") || StartsWith(path, Dir(Skill) + "/")
    then DocFilename(last)
    else
      && StartsWith(path, SCOPES_DIR + "/")
      && (last == SCOPE_FILE || (|segments| >= 2 && KindDir(segments[|segments| - 2]) && DocFilename(last)))
  }

  predicate KindDir(dir: string) {
    dir == Dir(Agent) || dir == Dir(Workflow) || dir == Dir(Skill)
  }

  function PathOf(): File -> string { (f: File) => f.path }

  ghost predicate NoRepeats<A, K(!new)>(key: A -> K, xs: seq<A>) {
    forall i, j | 0 <= i < j < |xs| :: key(xs[i]) != key(xs[j])
  }

  /** The files of the directory that the loader picks up, each once, in some order. */
  ghost predicate Loaded(files: seq<File>, dir: Directory) {
    && NoRepeats(PathOf(), files)
    && (forall f | f in files :: f.path in dir && dir[f.path] == f.content && DesiredStatePath(f.path))
    && (forall p | p in dir && DesiredStatePath(p) :: File(p, dir[p]) in files)
  }

  /** The same documents in any order. */
  ghost predicate SameDocuments(s: DesiredState, t: DesiredState) {
    && multiset(s.nodes) == multiset(t.nodes) && multiset(s.roles) == multiset(t.roles)
    && multiset(s.assignments) == multiset(t.assignments)
    && multiset(s.agents) == multiset(t.agents) && multiset(s.workflows) == multiset(t.workflows)
    && multiset(s.skills) == multiset(t.skills)
    && multiset(s.agentOverrides) == multiset(t.agentOverrides)
    && multiset(s.workflowOverrides) == multiset(t.workflowOverrides)
    && multiset(s.skillOverrides) == multiset(t.skillOverrides)
  }

  /** The files are parsed to the documents of the state. */
  ghost predicate ReadsBack(files: seq<File>, s: DesiredState) {
    ParsedFiles(files).Parsed? && SameDocuments(ParsedFiles(files).state, s)
  }

  /* ---------- what a list of files contributes, file by file ---------- */

  predicate Taken(f: File) {
    Route(f.path).Some? && Accepts(Route(f.path).value, f.content)
  }

  function NodesOf(): File -> seq<PlacedNode> {
    (f: File) => if Taken(f) && f.content.NodeContent? then [PlacedNode(ScopeDirOf(f.path), f.content.node)] else []
  }

  function RolesOf(): File -> seq<RoleDoc> {
    (f: File) => if Taken(f) && f.content.RoleContent? then [f.content.role] else []
  }

  function AssignmentsOf(): File -> seq<Assignment> {
    (f: File) => if Taken(f) && f.content.AssignmentsContent? then f.content.assignments else []
  }

  function DefinitionsOf(kind: Kind): File -> seq<DefinitionDoc> {
    (f: File) => if Taken(f) && f.content.DefinitionContent? && f.content.kind == kind then [f.content.definition] else []
  }

  function OverridesOf(kind: Kind): File -> seq<OverrideDoc> {
    (f: File) => if Taken(f) && f.content.OverrideContent? && f.content.kind == kind then [f.content.override] else []
  }

  function ErrorsOf(): File -> seq<string> {
    (f: File) => if Route(f.path).Some? && !Taken(f) then [f.path] else []
  }

  function Collected(files: seq<File>): DesiredState {
    DesiredState(
      FlatMap(NodesOf(), files), FlatMap(RolesOf(), files), FlatMap(AssignmentsOf(), files),
      FlatMap(DefinitionsOf(Agent), files), FlatMap(DefinitionsOf(Workflow), files), FlatMap(DefinitionsOf(Skill), files),
      FlatMap(OverridesOf(Agent), files), FlatMap(OverridesOf(Workflow), files), FlatMap(OverridesOf(Skill), files))
  }

  function Added(s: DesiredState, f: File): DesiredState {
    DesiredState(
      s.nodes + NodesOf()(f), s.roles + RolesOf()(f), s.assignments + AssignmentsOf()(f),
      s.agents + DefinitionsOf(Agent)(f), s.workflows + DefinitionsOf(Workflow)(f), s.skills + DefinitionsOf(Skill)(f),
      s.agentOverrides + OverridesOf(Agent)(f), s.workflowOverrides + OverridesOf(Workflow)(f),
      s.skillOverrides + OverridesOf(Skill)(f))
  }

  lemma {:induction false} StepAdds(p: Progress<DesiredState>, f: File)
    ensures Step(p, f) == Progress(Added(p.draft, f), p.errors + ErrorsOf()(f))
  {
    var d := p.draft;
    assert d.nodes + [] == d.nodes && d.roles + [] == d.roles && d.assignments + [] == d.assignments;
    assert d.agents + [] == d.agents && d.workflows + [] == d.workflows && d.skills + [] == d.skills;
    assert d.agentOverrides + [] == d.agentOverrides && d.workflowOverrides + [] == d.workflowOverrides;
    assert d.skillOverrides + [] == d.skillOverrides && p.errors + [] == p.errors;
  }

  lemma {:induction false} FlatMapLast<A, B>(f: A -> seq<B>, xs: seq<A>)
    requires xs != []
    ensures FlatMap(f, xs) == FlatMap(f, xs[..|xs| - 1]) + f(xs[|xs| - 1])
  {
    assert xs == xs[..|xs| - 1] + [xs[|xs| - 1]];
    FlatMapConcat(f, xs[..|xs| - 1], [xs[|xs| - 1]]);
    FlatMapOne(f, xs[|xs| - 1]);
  }

  lemma {:induction false} CollectedLast(files: seq<File>)
    requires files != []
    ensures Collected(files) == Added(Collected(files[..|files| - 1]), files[|files| - 1])
  {
    FlatMapLast(NodesOf(), files);
    FlatMapLast(RolesOf(), files);
    FlatMapLast(AssignmentsOf(), files);
    FlatMapLast(DefinitionsOf(Agent), files);
    FlatMapLast(DefinitionsOf(Workflow), files);
    FlatMapLast(DefinitionsOf(Skill), files);
    FlatMapLast(OverridesOf(Agent), files);
    FlatMapLast(OverridesOf(Workflow), files);
    FlatMapLast(OverridesOf(Skill), files);
  }

  /** Parsing collects what each file contributes. */
  lemma {:induction false} StepsCollect(files: seq<File>)
    ensures Steps(Progress(EMPTY_STATE, []), files) == Progress(Collected(files), FlatMap(ErrorsOf(), files))
  {
    var start := Progress(EMPTY_STATE, []);
    if files != [] {
      var before, last := files[..|files| - 1], files[|files| - 1];
      assert files == before + [last];
      StepsCollect(before);
      FoldConcat(Step, start, before, [last]);
      assert Fold(Step, Steps(start, before), [last]) == Step(Steps(start, before), last);
      StepAdds(Steps(start, before), last);
      CollectedLast(files);
      FlatMapLast(ErrorsOf(), files);
    }
  }

  lemma {:induction false} CollectedPermuted(a: seq<File>, b: seq<File>)
    requires multiset(a) == multiset(b)
    ensures SameDocuments(Collected(a), Collected(b))
    ensures FlatMap(ErrorsOf(), a) == [] <==> FlatMap(ErrorsOf(), b) == []
  {
    FlatMapPermuted(NodesOf(), a, b);
    FlatMapPermuted(RolesOf(), a, b);
    FlatMapPermuted(AssignmentsOf(), a, b);
    FlatMapPermuted(DefinitionsOf(Agent), a, b);
    FlatMapPermuted(DefinitionsOf(Workflow), a, b);
    FlatMapPermuted(DefinitionsOf(Skill), a, b);
    FlatMapPermuted(OverridesOf(Agent), a, b);
    FlatMapPermuted(OverridesOf(Workflow), a, b);
    FlatMapPermuted(OverridesOf(Skill), a, b);
    FlatMapPermuted(ErrorsOf(), a, b);
    assert |multiset(FlatMap(ErrorsOf(), a))| == |FlatMap(ErrorsOf(), a)|;
    assert |multiset(FlatMap(ErrorsOf(), b))| == |FlatMap(ErrorsOf(), b)|;
  }

  lemma {:induction false} SameMembers<A>(xs: seq<A>, ys: seq<A>)
    requires multiset(xs) == multiset(ys)
    ensures |xs| == |ys| && forall x :: x in xs <==> x in ys
  {
    assert |multiset(xs)| == |xs| && |multiset(ys)| == |ys|;
    forall x ensures x in xs <==> x in ys {
      assert x in multiset(xs) <==> x in multiset(ys);
    }
  }

  lemma {:induction false} SameDocumentsFacts(s: DesiredState, t: DesiredState)
    requires SameDocuments(s, t)
    ensures ValidState(s) <==> ValidState(t)
    ensures Size(s) == Size(t)
  {
    SameMembers(s.nodes, t.nodes);
    SameMembers(s.roles, t.roles);
    SameMembers(s.assignments, t.assignments);
    SameMembers(s.agents, t.agents);
    SameMembers(s.workflows, t.workflows);
    SameMembers(s.skills, t.skills);
    SameMembers(s.agentOverrides, t.agentOverrides);
    SameMembers(s.workflowOverrides, t.workflowOverrides);
    SameMembers(s.skillOverrides, t.skillOverrides);
  }

  /* ---------- counting ---------- */

  /** The documents that have files of their own. */
  function Size(s: DesiredState): nat {
    |s.nodes| + |s.roles| + |s.agents| + |s.workflows| + |s.skills|
    + |s.agentOverrides| + |s.workflowOverrides| + |s.skillOverrides|
  }

  lemma {:induction false} SerializedSize(s: DesiredState)
    ensures |Serialized(s)| == Size(s) + 1
    ensures File(ASSIGNMENTS_FILE, AssignmentsContent(s.assignments)) in Serialized(s)
  {
    assert Serialized(s)[|s.nodes| + |s.roles|] == File(ASSIGNMENTS_FILE, AssignmentsContent(s.assignments));
  }

  lemma {:induction false} CollectedSize(files: seq<File>)
    ensures Size(Collected(files)) <= |files|
    ensures (exists f | f in files :: f.path == ASSIGNMENTS_FILE) ==> Size(Collected(files)) < |files|
  {
    if files != [] {
      CollectedSize(files[..|files| - 1]);
      CollectedLast(files);
      AddedSize(Collected(files[..|files| - 1]), files[|files| - 1]);
    }
  }

  lemma {:induction false} AddedSize(s: DesiredState, f: File)
    ensures Size(Added(s, f)) <= Size(s) + if f.path == ASSIGNMENTS_FILE then 0 else 1
  {
    AssignmentsRoute();
  }

  function Paths(files: seq<File>): set<string> {
    set f | f in files :: f.path
  }

  lemma {:induction false} WrittenKeys(files: seq<File>)
    ensures Written(files).Keys == Paths(files)
    ensures forall p | p in Written(files) :: File(p, Written(files)[p]) in files
  {
    if files != [] {
      var before := files[..|files| - 1];
      WrittenKeys(before);
      assert files == before + [files[|files| - 1]];
    }
  }

  lemma {:induction false} WrittenValues(files: seq<File>)
    requires NoRepeats(PathOf(), files)
    ensures forall f | f in files :: f.path in Written(files) && Written(files)[f.path] == f.content
  {
    if files != [] {
      var before, last := files[..|files| - 1], files[|files| - 1];
      WrittenValues(before);
      forall f | f in files
        ensures f.path in Written(files) && Written(files)[f.path] == f.content
      {
        var i :| 0 <= i < |files| && files[i] == f;
        if i < |files| - 1 {
          assert before[i] == f && f in before;
          assert PathOf()(files[i]) != PathOf()(files[|files| - 1]);
        }
      }
    }
  }

  lemma {:induction false} OneMorePath(before: seq<File>, last: File)
    ensures Paths(before + [last]) == Paths(before) + {last.path}
    ensures NoRepeats(PathOf(), before + [last]) <==> NoRepeats(PathOf(), before) && last.path !in Paths(before)
  {
    var files := before + [last];
    if last.path in Paths(before) {
      var f :| f in before && f.path == last.path;
      var i :| 0 <= i < |before| && before[i] == f;
      assert PathOf()(files[i]) == PathOf()(files[|before|]);
    }
    assert forall i | 0 <= i < |before| :: files[i] == before[i] && before[i] in before && before[i].path in Paths(before);
  }

  /** There are no more paths than files, and as many only if no path repeats. */
  lemma {:induction false} PathCount(files: seq<File>)
    ensures |Paths(files)| <= |files|
    ensures |Paths(files)| == |files| <==> NoRepeats(PathOf(), files)
  {
    if files != [] {
      var before, last := files[..|files| - 1], files[|files| - 1];
      assert files == before + [last];
      PathCount(before);
      OneMorePath(before, last);
      if last.path in Paths(before) {
        assert Paths(before) + {last.path} == Paths(before);
      }
    }
  }

  lemma {:induction false} EachOnce(files: seq<File>)
    requires NoRepeats(PathOf(), files)
    ensures forall f :: multiset(files)[f] == if f in files then 1 else 0
  {
    if files != [] {
      var before, last := files[..|files| - 1], files[|files| - 1];
      assert files == before + [last];
      EachOnce(before);
      assert last !in before;
    }
  }

  /** As many files are loaded as were written only if no path repeats and all are picked up. */
  lemma {:induction false} LoadedCount(files: seq<File>, loaded: seq<File>)
    requires Loaded(loaded, Written(files))
    ensures |loaded| <= |files|
    ensures |loaded| == |files| <==> NoRepeats(PathOf(), files) && forall p | p in Paths(files) :: DesiredStatePath(p)
  {
    WrittenKeys(files);
    PathCount(files);
    PathCount(loaded);
    var picked := set p | p in Paths(files) && DesiredStatePath(p);
    assert Paths(loaded) == picked by {
      forall p | p in picked ensures p in Paths(loaded) {
        assert File(p, Written(files)[p]) in loaded;
      }
    }
    Subset(picked, Paths(files));
  }

  /** Then what is loaded is what was written, in another order. */
  lemma {:induction false} LoadedPermuted(files: seq<File>, loaded: seq<File>)
    requires Loaded(loaded, Written(files)) && NoRepeats(PathOf(), files)
    requires forall p | p in Paths(files) :: DesiredStatePath(p)
    ensures multiset(loaded) == multiset(files)
  {
    EachOnce(files);
    EachOnce(loaded);
    WrittenKeys(files);
    WrittenValues(files);
    forall f ensures f in files <==> f in loaded {
      if f in files {
        assert f.path in Paths(files);
        assert File(f.path, Written(files)[f.path]) in loaded;
      }
    }
    assert forall f :: multiset(loaded)[f] == multiset(files)[f];
  }

  lemma {:induction false} Subset<A>(a: set<A>, b: set<A>)
    requires a <= b
    ensures |a| <= |b| && (|a| == |b| <==> a == b)
  {
    assert b == a + (b - a) && |b| == |a| + |b - a|;
  }

  /* ---------- which paths documents share ---------- */

  /** The sections of a serialized state, numbered in order. */
  function Section(schema: Schema): nat {
    match schema
    case NodeSchema => 0
    case RoleSchema => 1
    case AssignmentsSchema => 2
    case DefinitionSchema(Agent) => 3
    case DefinitionSchema(Workflow) => 4
    case DefinitionSchema(Skill) => 5
    case OverrideSchema(Agent) => 6
    case OverrideSchema(Workflow) => 7
    case OverrideSchema(Skill) => 8
  }

  /** The path is picked up by the loader and read as a document of a section from `lo` to before `hi`. */
  ghost predicate Routed(path: string, lo: nat, hi: nat) {
    DesiredStatePath(path) && Route(path).Some? && lo <= Section(Route(path).value) < hi
  }

  ghost predicate AllRouted(files: seq<File>, lo: nat, hi: nat) {
    forall f | f in files :: Routed(f.path, lo, hi)
  }

  lemma {:induction false} RoutedApart(p: string, q: string, lo: nat, mid: nat, hi: nat)
    requires Routed(p, lo, mid) && Routed(q, mid, hi)
    ensures p != q
  {
  }

  lemma {:induction false} RoutedMore(files: seq<File>, lo: nat, hi: nat, lower: nat, higher: nat)
    requires AllRouted(files, lo, hi) && lower <= lo && hi <= higher
    ensures AllRouted(files, lower, higher)
  {
    forall f | f in files ensures Routed(f.path, lower, higher) {
      assert Routed(f.path, lo, hi);
    }
  }

  /** Files that are read as different documents lie on different paths. */
  lemma {:induction false} SectionsApart(a: seq<File>, b: seq<File>, lo: nat, mid: nat, hi: nat)
    requires AllRouted(a, lo, mid) && AllRouted(b, mid, hi) && lo <= mid <= hi
    ensures NoRepeats(PathOf(), a + b) <==> NoRepeats(PathOf(), a) && NoRepeats(PathOf(), b)
    ensures AllRouted(a + b, lo, hi)
  {
    var files := a + b;
    if NoRepeats(PathOf(), files) {
      assert forall i | 0 <= i < |a| :: files[i] == a[i];
      assert forall i | 0 <= i < |b| :: files[|a| + i] == b[i];
    }
    forall i, j | 0 <= i < |a| <= j < |files| ensures files[i].path != files[j].path {
      assert files[i] in a && files[j] == b[j - |a|] && b[j - |a|] in b;
      RoutedApart(files[i].path, files[j].path, lo, mid, hi);
    }
    RoutedMore(a, lo, mid, lo, hi);
    RoutedMore(b, mid, hi, lo, hi);
  }

  lemma {:induction false} ThreeSectionsApart(a: seq<File>, b: seq<File>, c: seq<File>, lo: nat, i: nat, j: nat, hi: nat)
    requires AllRouted(a, lo, i) && AllRouted(b, i, j) && AllRouted(c, j, hi) && lo <= i <= j <= hi
    ensures NoRepeats(PathOf(), a + b + c)
       <==> NoRepeats(PathOf(), a) && NoRepeats(PathOf(), b) && NoRepeats(PathOf(), c)
    ensures AllRouted(a + b + c, lo, hi)
  {
    SectionsApart(a, b, lo, i, j);
    SectionsApart(a + b, c, lo, j, hi);
  }

  lemma {:induction false} WrittenApart<A, K(!new)>(write: A -> File, key: A -> K, xs: seq<A>)
    requires forall x, y | x in xs && y in xs :: PathOf()(write(x)) == PathOf()(write(y)) <==> key(x) == key(y)
    ensures NoRepeats(PathOf(), Map(write, xs)) <==> NoRepeats(key, xs)
  {
    var files := Map(write, xs);
    forall i, j | 0 <= i < |xs| && 0 <= j < |xs|
      ensures PathOf()(files[i]) == PathOf()(files[j]) <==> key(xs[i]) == key(xs[j])
    {
      assert xs[i] in xs && xs[j] in xs && files[i] == write(xs[i]) && files[j] == write(xs[j]);
    }
  }

  function NodeKey(): PlacedNode -> string { (n: PlacedNode) => n.path }

  function RoleKey(): RoleDoc -> string { (r: RoleDoc) => r.name }

  function DefinitionKey(): DefinitionDoc -> string { (d: DefinitionDoc) => d.name }

  function OverrideKey(): OverrideDoc -> (string, string) { (o: OverrideDoc) => (o.scope, o.name) }

  /** No two nodes on one path, no two roles or definitions of a kind with one name, no two overrides of
      a kind with one name and scope. */
  ghost predicate DistinctDocuments(s: DesiredState) {
    && NoRepeats(NodeKey(), s.nodes) && NoRepeats(RoleKey(), s.roles)
    && NoRepeats(DefinitionKey(), s.agents) && NoRepeats(DefinitionKey(), s.workflows)
    && NoRepeats(DefinitionKey(), s.skills)
    && NoRepeats(OverrideKey(), s.agentOverrides) && NoRepeats(OverrideKey(), s.workflowOverrides)
    && NoRepeats(OverrideKey(), s.skillOverrides)
  }

  lemma {:induction false} YamlNames(a: string, b: string)
    ensures a + ".yaml" == b + ".yaml" <==> a == b
  {
    assert (a + ".yaml")[..|a|] == a && (b + ".yaml")[..|b|] == b;
  }

  lemma {:induction false} FileUnder(top: string, file: string)
    requires '/' !in file
    ensures Split(top + "/" + file, '/') == Split(top, '/') + [file]
  {
    SplitConcat(top, '/', file);
    SplitWhole(file, '/');
  }

  lemma {:induction false} ScopeFileParts(path: string)
    requires ValidScopePath(path)
    ensures Split(ScopeFilePath(path), '/') == [SCOPES_DIR] + ScopeSegments(path) + [SCOPE_FILE]
  {
    ScopeParts(SCOPES_DIR, path);
    FileUnder(if path == "/" then SCOPES_DIR else SCOPES_DIR + path, SCOPE_FILE);
  }

  /** Under the scopes directory the last two parts decide. */
  lemma {:induction false} ScopedPathPicked(path: string)
    requires var parts := Split(path, '/');
      && |parts| >= 2 && parts[0] == SCOPES_DIR
      && (parts[|parts| - 1] == SCOPE_FILE
          || (KindDir(parts[|parts| - 2]) && DocFilename(parts[|parts| - 1])))
    ensures DesiredStatePath(path)
  {
    StartsWithPart(path, '/', SCOPES_DIR);
    FixedPaths(path);
    KindPaths(path, Agent);
    KindPaths(path, Workflow);
    KindPaths(path, Skill);
  }

  lemma {:induction false} YamlIsDocFilename(name: string)
    requires Slug(name)
    ensures DocFilename(name + ".yaml")
  {
    YamlName(name);
    SlugHasNoSeparator(name);
    SplitWhole(name, '.');
    SplitWhole("yaml", '.');
    SplitConcat(name, '.', "yaml");
    assert name + ".yaml" == name + ['.'] + "yaml";
    assert Map(Lower, "yaml") == "yaml";
  }

  lemma {:induction false} FlatPathPicked(path: string, name: string)
    requires Slug(name) && |Split(path, '/')| == 2 && Split(path, '/')[1] == name + ".yaml"
    requires Split(path, '/')[0] == ROLES_DIR || KindDir(Split(path, '/')[0])
    ensures DesiredStatePath(path)
  {
    YamlIsDocFilename(name);
    FixedPaths(path);
    KindPaths(path, Agent);
    KindPaths(path, Workflow);
    KindPaths(path, Skill);
  }

  lemma {:induction false} OverridePathPicked(kind: Kind, o: OverrideDoc)
    requires ValidOverride(o)
    ensures DesiredStatePath(OverrideFile(kind, o).path)
  {
    var path := OverrideFile(kind, o).path;
    OverridePathParts(kind, o);
    YamlIsDocFilename(o.name);
    assert Split(path, '/')[|Split(path, '/')| - 2] == Dir(kind);
    ScopedPathPicked(path);
  }

  lemma {:induction false} NodesRouted(xs: seq<PlacedNode>)
    requires forall n | n in xs :: ValidScopePath(n.path)
    ensures AllRouted(NodeFiles(xs), 0, 1)
  {
    forall n | n in xs ensures Routed(ScopeFilePath(n.path), 0, 1) {
      ScopeFileRoute(n.path);
      ScopeFileParts(n.path);
      ScopedPathPicked(ScopeFilePath(n.path));
    }
  }

  lemma {:induction false} NodesDistinct(xs: seq<PlacedNode>)
    requires forall n | n in xs :: ValidScopePath(n.path)
    ensures NoRepeats(PathOf(), NodeFiles(xs)) <==> NoRepeats(NodeKey(), xs)
  {
    forall n | n in xs ensures ScopeDirOf(ScopeFilePath(n.path)) == n.path {
      ScopeDirInverse(n.path);
    }
    WrittenApart(NodeFile, NodeKey(), xs);
  }

  lemma {:induction false} RolesRouted(xs: seq<RoleDoc>)
    requires forall r | r in xs :: ValidRole(r) && r.name != "scope"
    ensures AllRouted(RoleFiles(xs), 1, 2)
  {
    forall r | r in xs ensures Routed(RoleFile(r).path, 1, 2) {
      FlatFileParts(ROLES_DIR, r.name);
      FlatPathPicked(RoleFile(r).path, r.name);
      RoleRoute(r);
    }
  }

  lemma {:induction false} RolesDistinct(xs: seq<RoleDoc>)
    requires forall r | r in xs :: ValidRole(r)
    ensures NoRepeats(PathOf(), RoleFiles(xs)) <==> NoRepeats(RoleKey(), xs)
  {
    forall x, y | x in xs && y in xs
      ensures PathOf()(RoleFile(x)) == PathOf()(RoleFile(y)) <==> RoleKey()(x) == RoleKey()(y)
    {
      FlatFileParts(ROLES_DIR, x.name);
      FlatFileParts(ROLES_DIR, y.name);
      YamlNames(x.name, y.name);
    }
    WrittenApart(RoleFile, RoleKey(), xs);
  }

  ghost predicate AllNamed(xs: seq<DefinitionDoc>) { forall d | d in xs :: ValidDefinition(d) }

  ghost predicate AllSound(xs: seq<OverrideDoc>) { forall o | o in xs :: ValidOverride(o) }

  lemma {:induction false} DefinitionsRouted(kind: Kind, xs: seq<DefinitionDoc>, section: nat)
    requires NoneNamedScope(xs) && AllNamed(xs) && section == Section(DefinitionSchema(kind))
    ensures AllRouted(DefinitionFiles(kind, xs), section, section + 1)
  {
    forall d | d in xs ensures Routed(DefinitionFile(kind, d).path, section, section + 1) {
      FlatFileParts(Dir(kind), d.name);
      FlatPathPicked(DefinitionFile(kind, d).path, d.name);
      DefinitionRoute(kind, d);
    }
  }

  lemma {:induction false} DefinitionsDistinct(kind: Kind, xs: seq<DefinitionDoc>)
    requires AllNamed(xs)
    ensures NoRepeats(PathOf(), DefinitionFiles(kind, xs)) <==> NoRepeats(DefinitionKey(), xs)
  {
    forall x, y | x in xs && y in xs
      ensures PathOf()(DefinitionWriter(kind)(x)) == PathOf()(DefinitionWriter(kind)(y)) <==> DefinitionKey()(x) == DefinitionKey()(y)
    {
      FlatFileParts(Dir(kind), x.name);
      FlatFileParts(Dir(kind), y.name);
      YamlNames(x.name, y.name);
    }
    WrittenApart(DefinitionWriter(kind), DefinitionKey(), xs);
  }

  lemma {:induction false} SegmentsNameScope(a: string, b: string)
    requires ValidScopePath(a) && ValidScopePath(b) && ScopeSegments(a) == ScopeSegments(b)
    ensures a == b
  {
    ScopeParts("", a);
    ScopeParts("", b);
    if a != "/" {
      assert "" + a == a && "" + b == b;
      JoinSplit(a, '/');
      JoinSplit(b, '/');
    }
  }

  lemma {:induction false} OverridePaths(kind: Kind, x: OverrideDoc, y: OverrideDoc)
    requires ValidOverride(x) && ValidOverride(y)
    ensures OverrideFile(kind, x).path == OverrideFile(kind, y).path <==> (x.scope, x.name) == (y.scope, y.name)
  {
    OverridePathParts(kind, x);
    OverridePathParts(kind, y);
    YamlNames(x.name, y.name);
    var a, b := Split(OverrideFile(kind, x).path, '/'), Split(OverrideFile(kind, y).path, '/');
    if OverrideFile(kind, x).path == OverrideFile(kind, y).path {
      assert ScopeSegments(x.scope) == a[1..|a| - 2] == b[1..|b| - 2] == ScopeSegments(y.scope);
      assert a[|a| - 1] == x.name + ".yaml" && b[|b| - 1] == y.name + ".yaml";
      SegmentsNameScope(x.scope, y.scope);
    }
  }

  lemma {:induction false} OverridesRouted(kind: Kind, xs: seq<OverrideDoc>, section: nat)
    requires AllAddressable(kind, xs) && AllSound(xs) && section == Section(OverrideSchema(kind))
    ensures AllRouted(OverrideFiles(kind, xs), section, section + 1)
  {
    forall o | o in xs ensures Routed(OverrideFile(kind, o).path, section, section + 1) {
      OverrideRoute(kind, o);
      OverridePathPicked(kind, o);
    }
  }

  lemma {:induction false} OverridesDistinct(kind: Kind, xs: seq<OverrideDoc>)
    requires AllSound(xs)
    ensures NoRepeats(PathOf(), OverrideFiles(kind, xs)) <==> NoRepeats(OverrideKey(), xs)
  {
    forall x, y | x in xs && y in xs
      ensures PathOf()(OverrideWriter(kind)(x)) == PathOf()(OverrideWriter(kind)(y)) <==> OverrideKey()(x) == OverrideKey()(y)
    {
      OverridePaths(kind, x, y);
    }
    WrittenApart(OverrideWriter(kind), OverrideKey(), xs);
  }

  function AssignmentFiles(xs: seq<Assignment>): seq<File> { [File(ASSIGNMENTS_FILE, AssignmentsContent(xs))] }

  lemma {:induction false} AssignmentsRouted(xs: seq<Assignment>)
    ensures AllRouted(AssignmentFiles(xs), 2, 3)
  {
    AssignmentsRoute();
  }

  lemma {:induction false} AccessApart(s: DesiredState)
    requires forall n | n in s.nodes :: ValidScopePath(n.path)
    requires forall r | r in s.roles :: ValidRole(r) && r.name != "scope"
    ensures AllRouted(AccessFiles(s), 0, 3)
    ensures NoRepeats(PathOf(), AccessFiles(s)) <==> NoRepeats(PathOf(), NodeFiles(s.nodes)) && NoRepeats(PathOf(), RoleFiles(s.roles))
  {
    NodesRouted(s.nodes);
    RolesRouted(s.roles);
    AssignmentsRouted(s.assignments);
    ThreeSectionsApart(NodeFiles(s.nodes), RoleFiles(s.roles), AssignmentFiles(s.assignments), 0, 1, 2, 3);
  }

  lemma {:induction false} PlatformApart(s: DesiredState)
    requires NoneNamedScope(s.agents) && NoneNamedScope(s.workflows) && NoneNamedScope(s.skills)
    requires AllNamed(s.agents) && AllNamed(s.workflows) && AllNamed(s.skills)
    ensures AllRouted(PlatformFiles(s), 3, 6)
    ensures NoRepeats(PathOf(), PlatformFiles(s))
       <==> NoRepeats(PathOf(), DefinitionFiles(Agent, s.agents)) && NoRepeats(PathOf(), DefinitionFiles(Workflow, s.workflows))
            && NoRepeats(PathOf(), DefinitionFiles(Skill, s.skills))
  {
    DefinitionsRouted(Agent, s.agents, 3);
    DefinitionsRouted(Workflow, s.workflows, 4);
    DefinitionsRouted(Skill, s.skills, 5);
    ThreeSectionsApart(DefinitionFiles(Agent, s.agents), DefinitionFiles(Workflow, s.workflows),
                       DefinitionFiles(Skill, s.skills), 3, 4, 5, 6);
  }

  lemma {:induction false} ScopedApart(s: DesiredState)
    requires AllAddressable(Agent, s.agentOverrides) && AllAddressable(Workflow, s.workflowOverrides)
    requires AllAddressable(Skill, s.skillOverrides)
    requires AllSound(s.agentOverrides) && AllSound(s.workflowOverrides) && AllSound(s.skillOverrides)
    ensures AllRouted(ScopedFiles(s), 6, 9)
    ensures NoRepeats(PathOf(), ScopedFiles(s))
       <==> NoRepeats(PathOf(), OverrideFiles(Agent, s.agentOverrides))
            && NoRepeats(PathOf(), OverrideFiles(Workflow, s.workflowOverrides))
            && NoRepeats(PathOf(), OverrideFiles(Skill, s.skillOverrides))
  {
    OverridesRouted(Agent, s.agentOverrides, 6);
    OverridesRouted(Workflow, s.workflowOverrides, 7);
    OverridesRouted(Skill, s.skillOverrides, 8);
    ThreeSectionsApart(OverrideFiles(Agent, s.agentOverrides), OverrideFiles(Workflow, s.workflowOverrides),
                       OverrideFiles(Skill, s.skillOverrides), 6, 7, 8, 9);
  }

  /** Two documents of an addressable state share a path only within one section, and only under one key;
      the loader picks up every path written. */
  lemma {:induction false} PathsAreKeys(s: DesiredState)
    requires ValidState(s) && Addressable(s)
    ensures NoRepeats(PathOf(), Serialized(s)) <==> DistinctDocuments(s)
    ensures forall p | p in Paths(Serialized(s)) :: DesiredStatePath(p)
  {
    AccessApart(s);
    PlatformApart(s);
    ScopedApart(s);
    ThreeSectionsApart(AccessFiles(s), PlatformFiles(s), ScopedFiles(s), 0, 3, 6, 9);
    NodesDistinct(s.nodes);
    RolesDistinct(s.roles);
    DefinitionsDistinct(Agent, s.agents);
    DefinitionsDistinct(Workflow, s.workflows);
    DefinitionsDistinct(Skill, s.skills);
    OverridesDistinct(Agent, s.agentOverrides);
    OverridesDistinct(Workflow, s.workflowOverrides);
    OverridesDistinct(Skill, s.skillOverrides);
  }

  /* ---------- main result ---------- */

  lemma {:induction false} NothingLost(s: DesiredState, loaded: seq<File>)
    requires Loaded(loaded, Written(Serialized(s)))
    requires SameDocuments(Collected(loaded), s)
    ensures multiset(loaded) == multiset(Serialized(s)) && NoRepeats(PathOf(), Serialized(s))
  {
    var files := Serialized(s);
    SerializedSize(s);
    WrittenKeys(files);
    assert ASSIGNMENTS_FILE in Paths(files);
    assert File(ASSIGNMENTS_FILE, Written(files)[ASSIGNMENTS_FILE]) in loaded;
    SameDocumentsFacts(Collected(loaded), s);
    CollectedSize(loaded);
    LoadedCount(files, loaded);
    LoadedPermuted(files, loaded);
  }

  /** A state written into a directory is loaded as the same documents, whatever the order the directory
      lists its files in, if and only if it satisfies the schemas, all of it is addressable, and no two
      documents share a path. */
  lemma {:induction false} RepositoryRoundTrip(s: DesiredState, loaded: seq<File>)
    requires Loaded(loaded, Written(Serialized(s)))
    ensures ReadsBack(loaded, s) <==> ValidState(s) && Addressable(s) && DistinctDocuments(s)
  {
    var files := Serialized(s);
    StepsCollect(loaded);
    StepsCollect(files);
    if ParsedFiles(loaded).Parsed? && SameDocuments(ParsedFiles(loaded).state, s) {
      NothingLost(s, loaded);
      CollectedPermuted(loaded, files);
      SameDocumentsFacts(Collected(loaded), s);
      SerializedSteps(s);
      PathsAreKeys(s);
    }
    if ValidState(s) && Addressable(s) && DistinctDocuments(s) {
      PathsAreKeys(s);
      LoadedPermuted(files, loaded);
      CollectedPermuted(loaded, files);
      SerializedSteps(s);
      SameDocumentsFacts(Collected(loaded), s);
    }
  }

  // ----- with a manifest -----

  lemma {:induction false} HasSlash(dir: string, rest: string)
    ensures '/' in dir + "/" + rest
  {
    assert (dir + "/" + rest)[|dir|] == '/';
  }

  lemma {:induction false} NodePathHasSlash(n: PlacedNode)
    ensures '/' in NodeFile(n).path
  {
    HasSlash(if n.path == "/" then SCOPES_DIR else SCOPES_DIR + n.path, SCOPE_FILE);
  }

  lemma {:induction false} NameHasSlash(dir: string, name: string)
    ensures '/' in dir + "/" + name + ".yaml"
  {
    assert (dir + "/" + name + ".yaml")[|dir|] == '/';
  }

  predicate AllSlashed(files: seq<File>) {
    forall i | 0 <= i < |files| :: '/' in files[i].path
  }

  lemma {:induction false} SectionHasSlashes<A>(write: A -> File, xs: seq<A>)
    requires forall x :: '/' in write(x).path
    ensures AllSlashed(Map(write, xs))
  {
  }

  lemma {:induction false} DefinitionsSlashed(kind: Kind, xs: seq<DefinitionDoc>)
    ensures AllSlashed(DefinitionFiles(kind, xs))
  {
    forall d ensures '/' in DefinitionWriter(kind)(d).path { NameHasSlash(Dir(kind), d.name); }
    SectionHasSlashes(DefinitionWriter(kind), xs);
  }

  lemma {:induction false} OverridesSlashed(kind: Kind, xs: seq<OverrideDoc>)
    ensures AllSlashed(OverrideFiles(kind, xs))
  {
    forall o ensures '/' in OverrideWriter(kind)(o).path { NameHasSlash(OverrideDir(o.scope, Dir(kind)), o.name); }
    SectionHasSlashes(OverrideWriter(kind), xs);
  }

  lemma {:induction false} ThreeSlashed(a: seq<File>, b: seq<File>, c: seq<File>)
    requires AllSlashed(a) && AllSlashed(b) && AllSlashed(c)
    ensures AllSlashed(a + b + c)
  {
  }

  lemma {:induction false} SectionsHaveSlashes(s: DesiredState)
    ensures AllSlashed(NodeFiles(s.nodes)) && AllSlashed(RoleFiles(s.roles))
    ensures AllSlashed(PlatformFiles(s)) && AllSlashed(ScopedFiles(s))
  {
    forall n ensures '/' in NodeFile(n).path { NodePathHasSlash(n); }
    forall r ensures '/' in RoleFile(r).path { NameHasSlash(ROLES_DIR, r.name); }
    SectionHasSlashes(NodeFile, s.nodes);
    SectionHasSlashes(RoleFile, s.roles);
    DefinitionsSlashed(Agent, s.agents);
    DefinitionsSlashed(Workflow, s.workflows);
    DefinitionsSlashed(Skill, s.skills);
    OverridesSlashed(Agent, s.agentOverrides);
    OverridesSlashed(Workflow, s.workflowOverrides);
    OverridesSlashed(Skill, s.skillOverrides);
    ThreeSlashed(DefinitionFiles(Agent, s.agents), DefinitionFiles(Workflow, s.workflows), DefinitionFiles(Skill, s.skills));
    ThreeSlashed(OverrideFiles(Agent, s.agentOverrides), OverrideFiles(Workflow, s.workflowOverrides),
                 OverrideFiles(Skill, s.skillOverrides));
  }

  /** No file that is written is the manifest. */
  lemma {:induction false} ManifestIsNotWritten(s: DesiredState)
    ensures "gitops.yaml" !in Paths(Serialized(s))
  {
    SectionsHaveSlashes(s);
    var list := [File(ASSIGNMENTS_FILE, AssignmentsContent(s.assignments))];
    NotAmong(NodeFiles(s.nodes));
    NotAmong(RoleFiles(s.roles));
    NotAmong(PlatformFiles(s));
    NotAmong(ScopedFiles(s));
    PathsConcat(NodeFiles(s.nodes), RoleFiles(s.roles));
    PathsConcat(NodeFiles(s.nodes) + RoleFiles(s.roles), list);
    PathsConcat(AccessFiles(s), PlatformFiles(s));
    PathsConcat(AccessFiles(s) + PlatformFiles(s), ScopedFiles(s));
  }

  lemma {:induction false} NotAmong(files: seq<File>)
    requires AllSlashed(files)
    ensures "gitops.yaml" !in Paths(files)
  {
    assert '/' !in "gitops.yaml";
  }

  lemma {:induction false} PathsConcat(a: seq<File>, b: seq<File>)
    ensures Paths(a + b) == Paths(a) + Paths(b)
  {
  }

  function Dropped(files: seq<File>, n: nat): (rest: seq<File>)
    requires n < |files|
    ensures |rest| == |files| - 1
    ensures forall i | 0 <= i < |rest| :: rest[i] == files[if i < n then i else i + 1]
  {
    files[..n] + files[n + 1..]
  }

  lemma {:induction false} DroppedHasNoRepeats(files: seq<File>, n: nat)
    requires n < |files| && NoRepeats(PathOf(), files)
    ensures NoRepeats(PathOf(), Dropped(files, n))
    ensures forall f | f in Dropped(files, n) :: f.path != files[n].path
    ensures forall f | f in files && f.path != files[n].path :: f in Dropped(files, n)
  {
    var rest := Dropped(files, n);
    forall i, j | 0 <= i < j < |rest| ensures PathOf()(rest[i]) != PathOf()(rest[j]) {
      assert PathOf()(files[if i < n then i else i + 1]) != PathOf()(files[if j < n then j else j + 1]);
    }
    forall i | 0 <= i < |rest| ensures rest[i].path != files[n].path {
      assert PathOf()(files[if i < n then i else i + 1]) != PathOf()(files[n]);
    }
    forall f | f in files && f.path != files[n].path ensures f in rest {
      var k :| 0 <= k < |files| && files[k] == f;
      assert rest[if k < n then k else k - 1] == f;
    }
  }

  lemma {:induction false} LoadedWithout(dir: Directory, m: File, loaded: seq<File>, n: nat)
    requires m.path !in dir && Loaded(loaded, dir[m.path := m.content])
    requires n < |loaded| && loaded[n] == m
    ensures Loaded(Dropped(loaded, n), dir)
  {
    var rest, all := Dropped(loaded, n), dir[m.path := m.content];
    DroppedHasNoRepeats(loaded, n);
    forall f: File | f in rest ensures f.path in dir && dir[f.path] == f.content && DesiredStatePath(f.path) {
      assert f in loaded;
    }
    forall p | p in dir && DesiredStatePath(p) ensures File(p, dir[p]) in rest {
      assert all[p] == dir[p] && File(p, all[p]) in loaded;
    }
  }

  lemma {:induction false} ManifestLoaded(dir: Directory, m: File, loaded: seq<File>) returns (n: nat)
    requires m.path == "gitops.yaml" && Loaded(loaded, dir[m.path := m.content])
    ensures n < |loaded| && loaded[n] == m
  {
    assert DesiredStatePath(m.path);
    assert File(m.path, dir[m.path := m.content][m.path]) in loaded;
    n :| 0 <= n < |loaded| && loaded[n] == m;
  }

  lemma {:induction false} ParsedWithout(loaded: seq<File>, n: nat)
    requires n < |loaded| && loaded[n].path == "gitops.yaml"
    ensures ParsedFiles(loaded) == ParsedFiles(Dropped(loaded, n))
  {
    assert loaded == loaded[..n] + [File("gitops.yaml", loaded[n].content)] + loaded[n + 1..];
    ManifestIsIgnored(loaded[..n], loaded[n + 1..], loaded[n].content);
  }

  lemma {:induction false} WithoutManifest(dir: Directory, m: File, loaded: seq<File>) returns (rest: seq<File>)
    requires m.path == "gitops.yaml" && m.path !in dir && Loaded(loaded, dir[m.path := m.content])
    ensures Loaded(rest, dir) && ParsedFiles(rest) == ParsedFiles(loaded)
  {
    var n := ManifestLoaded(dir, m, loaded);
    LoadedWithout(dir, m, loaded, n);
    ParsedWithout(loaded, n);
    rest := Dropped(loaded, n);
  }

  lemma {:induction false} SameReading(a: seq<File>, b: seq<File>, s: DesiredState)
    requires ParsedFiles(a) == ParsedFiles(b)
    ensures ReadsBack(a, s) <==> ReadsBack(b, s)
  {
  }

  /** The round trip is not disturbed by a manifest of any content in the same directory. */
  lemma {:induction false} RoundTripBesideManifest(s: DesiredState, manifest: Content, loaded: seq<File>)
    requires Loaded(loaded, Written(Serialized(s))["gitops.yaml" := manifest])
    ensures ReadsBack(loaded, s) <==> ValidState(s) && Addressable(s) && DistinctDocuments(s)
  {
    ManifestIsNotWritten(s);
    WrittenKeys(Serialized(s));
    var rest := WithoutManifest(Written(Serialized(s)), File("gitops.yaml", manifest), loaded);
    SameReading(loaded, rest, s);
    RepositoryRoundTrip(s, rest);
  }
}
