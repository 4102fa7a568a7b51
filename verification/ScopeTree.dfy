/** Referential integrity of a desired state: the checks that need more than one document. */
module ScopeTree {
  import opened Text
  import opened Folding
  import opened GitopsContracts

  datatype Issue =
    | OrphanParent(path: string)
    | DuplicateSlug(path: string, slug: string)
    | UnknownPermission(role: string, permission: string)
    | UnknownOwnerScope(role: string)
    | UnknownRole(assignment: Assignment)
    | UnknownScope(assignment: Assignment)
    | UnknownUser(assignment: Assignment)
    | OverrideUnknownScope(kind: Kind, name: string, scope: string)
    | OverrideUnknownDefault(kind: Kind, name: string)

  /** What the caller already knows to exist. */
  datatype Context = Context(
    permissions: set<string>, systemRoles: set<string>, users: Option<set<string>>,
    defaults: map<Kind, set<string>>)

  function LastIndexOf(s: string, c: char): (i: int)
    ensures -1 <= i < |s|
  {
    if s == "" then -1
    else if s[|s| - 1] == c then |s| - 1
    else LastIndexOf(s[..|s| - 1], c)
  }

  lemma {:induction false} LastIndexIsLast(s: string, c: char)
    ensures var i := LastIndexOf(s, c); (i >= 0 ==> s[i] == c) && forall k | i < k < |s| :: s[k] != c
  {
    if s != "" && s[|s| - 1] != c {
      LastIndexIsLast(s[..|s| - 1], c);
    }
  }

  /** `null` for the root; otherwise the path without its last segment. A path with no slash at
      all loses its last character, as `slice(0, -1)` does. */
  function ParentPath(path: string): Option<string> {
    if path == "/" then None
    else
      var i := LastIndexOf(path, '/');
      if i == 0 then Some("/")
      else if i > 0 then Some(path[..i])
      else Some(if path == "" then "" else path[..|path| - 1])
  }

  /** The parent of a path is what precedes its last slash, or the root; without a slash the last
      character is cut off. */
  lemma {:induction false} ParentOf(above: string, segment: string)
    requires '/' !in segment
    ensures ParentPath(above + "/" + segment)
         == if above == "" && segment == "" then None else Some(if above == "" then "/" else above)
    ensures segment == "" ==> ParentPath(segment) == Some("")
    ensures segment != "" ==> ParentPath(segment) == Some(segment[..|segment| - 1])
  {
    var path := above + "/" + segment;
    LastIndexIsLast(path, '/');
    LastIndexIsLast(segment, '/');
    assert path[|above|] == '/';
    assert forall k | |above| < k < |path| :: path[k] == segment[k - |above| - 1];
    assert LastIndexOf(path, '/') == |above| && path[..|above|] == above;
  }

  function NodePaths(nodes: seq<PlacedNode>): set<string> { set n | n in nodes :: n.path }

  /* ---------- issues, document by document ---------- */

  /** One of the first n nodes, the root aside, has this slug under this parent. */
  predicate Used(nodes: seq<PlacedNode>, n: nat, parent: string, slug: string)
    requires n <= |nodes|
  {
    n > 0 && (Used(nodes, n - 1, parent, slug) || Occupies(nodes[n - 1], parent, slug))
  }

  lemma {:induction false} UsedBySome(nodes: seq<PlacedNode>, n: nat, parent: string, slug: string)
    requires n <= |nodes|
    ensures Used(nodes, n, parent, slug) <==> exists j | 0 <= j < n :: Occupies(nodes[j], parent, slug)
  {
    if n > 0 {
      UsedBySome(nodes, n - 1, parent, slug);
    }
  }

  predicate Occupies(node: PlacedNode, parent: string, slug: string) {
    node.path != "/" && ParentPath(node.path) == Some(parent) && node.doc.slug == slug
  }

  function NodeIssues(nodes: seq<PlacedNode>, paths: set<string>, i: nat): seq<Issue>
    requires i < |nodes|
  {
    var n := nodes[i];
    if n.path == "/" then []
    else
      var parent := ParentPath(n.path).value;
      (if parent !in paths then [OrphanParent(n.path)] else [])
      + (if Used(nodes, i, parent, n.doc.slug) then [DuplicateSlug(n.path, n.doc.slug)] else [])
  }

  function NodeCheck(nodes: seq<PlacedNode>, paths: set<string>): nat -> seq<Issue> {
    (i: nat) => if i < |nodes| then NodeIssues(nodes, paths, i) else []
  }

  function TreeIssues(nodes: seq<PlacedNode>, paths: set<string>): seq<Issue> {
    Collect(NodeCheck(nodes, paths), |nodes|)
  }

  /** The map of seen slugs records exactly what the first n nodes use. */
  ghost predicate Records(seen: map<string, set<string>>, nodes: seq<PlacedNode>, n: nat)
    requires n <= |nodes|
  {
    forall key, slug :: Used(nodes, n, key, slug) <==> (key in seen && slug in seen[key])
  }

  lemma {:induction false} RecordsNext(seen: map<string, set<string>>, nodes: seq<PlacedNode>, n: nat,
          parent: string, slugs: set<string>)
    requires n < |nodes| && Records(seen, nodes, n) && nodes[n].path != "/"
    requires parent == ParentPath(nodes[n].path).value
    requires slugs == if parent in seen then seen[parent] else {}
    ensures Records(seen[parent := slugs + {nodes[n].doc.slug}], nodes, n + 1)
  {
    var m, slug0 := n + 1, nodes[n].doc.slug;
    var next := seen[parent := slugs + {slug0}];
    forall key, slug ensures Used(nodes, m, key, slug) <==> (key in next && slug in next[key]) {
      assert Used(nodes, n, key, slug) <==> (key in seen && slug in seen[key]);
      assert Used(nodes, m, key, slug) <==> Used(nodes, n, key, slug) || (parent == key && slug0 == slug);
    }
  }

  /** The issues of node i and the map after it. */
  method CheckNode(nodes: seq<PlacedNode>, paths: set<string>, i: nat, seen: map<string, set<string>>)
    returns (found: seq<Issue>, next: map<string, set<string>>)
    requires i < |nodes| && Records(seen, nodes, i)
    ensures found == NodeIssues(nodes, paths, i) && Records(next, nodes, i + 1)
  {
    var n := nodes[i];
    found, next := [], seen;
    if n.path != "/" {
      var parent := ParentPath(n.path).value;
      if parent !in paths {
        found := found + [OrphanParent(n.path)];
      }
      var slugs := if parent in seen then seen[parent] else {};
      assert Used(nodes, i, parent, n.doc.slug) <==> n.doc.slug in slugs;
      if n.doc.slug in slugs {
        found := found + [DuplicateSlug(n.path, n.doc.slug)];
      }
      next := seen[parent := slugs + {n.doc.slug}];
      RecordsNext(seen, nodes, i, parent, slugs);
    } else {
      RecordsUnchanged(seen, nodes, i);
    }
  }

  lemma {:induction false} RecordsUnchanged(seen: map<string, set<string>>, nodes: seq<PlacedNode>, n: nat)
    requires n < |nodes| && Records(seen, nodes, n) && nodes[n].path == "/"
    ensures Records(seen, nodes, n + 1)
  {
    var m := n + 1;
    forall key, slug ensures Used(nodes, m, key, slug) <==> (key in seen && slug in seen[key]) {
      assert Used(nodes, m, key, slug) <==> Used(nodes, n, key, slug);
    }
  }

  lemma {:induction false} CollectNext(nodes: seq<PlacedNode>, paths: set<string>, i: nat, before: seq<Issue>)
    requires i < |nodes|
    ensures before + Collect(NodeCheck(nodes, paths), i + 1)
         == before + Collect(NodeCheck(nodes, paths), i) + NodeIssues(nodes, paths, i)
  {
  }

  method ValidateScopeTree(nodes: seq<PlacedNode>, paths: set<string>, before: seq<Issue>) returns (errors: seq<Issue>)
    ensures errors == before + TreeIssues(nodes, paths)
  {
    errors := before;
    var seenByParent: map<string, set<string>> := map[];
    for i := 0 to |nodes|
      invariant errors == before + Collect(NodeCheck(nodes, paths), i)
      invariant Records(seenByParent, nodes, i)
    {
      var found, next := CheckNode(nodes, paths, i, seenByParent);
      CollectNext(nodes, paths, i, before);
      errors, seenByParent := errors + found, next;
    }
  }

  function PermissionCheck(role: string, ctx: Context): string -> seq<Issue> {
    p => if p in ctx.permissions then [] else [UnknownPermission(role, p)]
  }

  function RoleCheck(paths: set<string>, ctx: Context): RoleDoc -> seq<Issue> {
    r => RoleIssues(r, paths, ctx)
  }

  function AssignmentCheck(paths: set<string>, roles: set<string>, ctx: Context): Assignment -> seq<Issue> {
    a => AssignmentIssues(a, paths, roles, ctx)
  }

  function OverrideCheck(paths: set<string>, names: set<string>, kind: Kind): OverrideDoc -> seq<Issue> {
    o => OverrideIssues(o, paths, names, kind)
  }

  function RoleNames(roles: seq<RoleDoc>, ctx: Context): set<string> {
    ctx.systemRoles + set r | r in roles :: r.name
  }

  function RoleIssues(role: RoleDoc, paths: set<string>, ctx: Context): seq<Issue> {
    PermissionIssues(role, role.permissions, ctx)
    + if role.ownerScope.Some? && role.ownerScope.value !in paths then [UnknownOwnerScope(role.name)] else []
  }

  function PermissionIssues(role: RoleDoc, perms: seq<string>, ctx: Context): seq<Issue> {
    FlatMap(PermissionCheck(role.name, ctx), perms)
  }

  function AssignmentIssues(a: Assignment, paths: set<string>, roles: set<string>, ctx: Context): seq<Issue> {
    (if a.role in roles then [] else [UnknownRole(a)])
    + (if a.scope in paths then [] else [UnknownScope(a)])
    + (if ctx.users.Some? && a.user !in ctx.users.value then [UnknownUser(a)] else [])
  }

  function OverrideIssues(o: OverrideDoc, paths: set<string>, defaults: set<string>, kind: Kind): seq<Issue> {
    (if o.scope in paths then [] else [OverrideUnknownScope(kind, o.name, o.scope)])
    + (if o.name in defaults then [] else [OverrideUnknownDefault(kind, o.name)])
  }

  /** One loop over documents that pushes each document's issues. */
  method PushIssues<A>(issuesOf: A -> seq<Issue>, docs: seq<A>, before: seq<Issue>) returns (errors: seq<Issue>)
    ensures errors == before + FlatMap(issuesOf, docs)
  {
    errors := before;
    assert docs[..0] == [];
    for i := 0 to |docs|
      invariant errors == before + FlatMap(issuesOf, docs[..i])
    {
      assert docs[..i + 1] == docs[..i] + [docs[i]];
      FlatMapConcat(issuesOf, docs[..i], [docs[i]]);
      FlatMapOne(issuesOf, docs[i]);
      errors := errors + issuesOf(docs[i]);
    }
    assert docs[..|docs|] == docs;
  }

  function DefinitionNames(definitions: seq<DefinitionDoc>, kind: Kind, ctx: Context): set<string> {
    (if kind in ctx.defaults then ctx.defaults[kind] else {}) + set d | d in definitions :: d.name
  }

  function AccessIssues(s: DesiredState, paths: set<string>, ctx: Context): seq<Issue> {
    TreeIssues(s.nodes, paths)
    + FlatMap(RoleCheck(paths, ctx), s.roles)
    + FlatMap(AssignmentCheck(paths, RoleNames(s.roles, ctx), ctx), s.assignments)
  }

  function ScopedIssues(s: DesiredState, paths: set<string>, ctx: Context): seq<Issue> {
    FlatMap(OverrideCheck(paths, DefinitionNames(s.agents, Agent, ctx), Agent), s.agentOverrides)
    + FlatMap(OverrideCheck(paths, DefinitionNames(s.workflows, Workflow, ctx), Workflow), s.workflowOverrides)
    + FlatMap(OverrideCheck(paths, DefinitionNames(s.skills, Skill, ctx), Skill), s.skillOverrides)
  }

  function AllIssues(s: DesiredState, ctx: Context): seq<Issue> {
    AccessIssues(s, NodePaths(s.nodes), ctx) + ScopedIssues(s, NodePaths(s.nodes), ctx)
  }

  /** What an accepted state promises. */
  ghost predicate Integral(s: DesiredState, ctx: Context) {
    var paths := NodePaths(s.nodes);
    NoOrphans(s.nodes, paths) && NoRepeatedSlugs(s.nodes)
    && (forall r | r in s.roles :: SoundRole(r, paths, ctx))
    && (forall a | a in s.assignments :: SoundAssignment(a, paths, s.roles, ctx))
    && (forall o | o in s.agentOverrides :: Grounded(o, s.agents, Agent, paths, ctx))
    && (forall o | o in s.workflowOverrides :: Grounded(o, s.workflows, Workflow, paths, ctx))
    && (forall o | o in s.skillOverrides :: Grounded(o, s.skills, Skill, paths, ctx))
  }

  /** Every permission is in the catalogue and the owner scope, if any, exists. */
  ghost predicate SoundRole(r: RoleDoc, paths: set<string>, ctx: Context) {
    (forall p | p in r.permissions :: p in ctx.permissions) && (r.ownerScope.Some? ==> r.ownerScope.value in paths)
  }

  /** The role is defined or built in, the scope exists, and the user exists where users are known. */
  ghost predicate SoundAssignment(a: Assignment, paths: set<string>, roles: seq<RoleDoc>, ctx: Context) {
    (a.role in ctx.systemRoles || exists r | r in roles :: r.name == a.role)
    && a.scope in paths && (ctx.users.Some? ==> a.user in ctx.users.value)
  }

  /** The scope exists and the name is a platform default or a definition of the state. */
  ghost predicate Grounded(o: OverrideDoc, definitions: seq<DefinitionDoc>, kind: Kind, paths: set<string>,
          ctx: Context) {
    o.scope in paths
    && ((kind in ctx.defaults && o.name in ctx.defaults[kind]) || exists d | d in definitions :: d.name == o.name)
  }

  method CollectIssues(s: DesiredState, ctx: Context) returns (errors: seq<Issue>)
    ensures errors == AllIssues(s, ctx)
  {
    errors := CollectAccessIssues(s, NodePaths(s.nodes), ctx);
    errors := CollectOverrideIssues(s, NodePaths(s.nodes), ctx, errors);
  }

  method CollectAccessIssues(s: DesiredState, paths: set<string>, ctx: Context) returns (errors: seq<Issue>)
    ensures errors == AccessIssues(s, paths, ctx)
  {
    var tree := ValidateScopeTree(s.nodes, paths, []);
    var roles := PushIssues(RoleCheck(paths, ctx), s.roles, tree);
    errors := PushIssues(AssignmentCheck(paths, RoleNames(s.roles, ctx), ctx), s.assignments, roles);
    assert tree == TreeIssues(s.nodes, paths);
  }

  method CollectOverrideIssues(s: DesiredState, paths: set<string>, ctx: Context, before: seq<Issue>)
    returns (errors: seq<Issue>)
    ensures errors == before + ScopedIssues(s, paths, ctx)
  {
    errors := PushIssues(OverrideCheck(paths, DefinitionNames(s.agents, Agent, ctx), Agent), s.agentOverrides, before);
    errors := PushIssues(OverrideCheck(paths, DefinitionNames(s.workflows, Workflow, ctx), Workflow),
                         s.workflowOverrides, errors);
    errors := PushIssues(OverrideCheck(paths, DefinitionNames(s.skills, Skill, ctx), Skill), s.skillOverrides, errors);
    ConcatAssociates(before,
                     FlatMap(OverrideCheck(paths, DefinitionNames(s.agents, Agent, ctx), Agent), s.agentOverrides),
                     FlatMap(OverrideCheck(paths, DefinitionNames(s.workflows, Workflow, ctx), Workflow), s.workflowOverrides),
                     FlatMap(OverrideCheck(paths, DefinitionNames(s.skills, Skill, ctx), Skill), s.skillOverrides));
  }

  method ValidateDesiredState(s: DesiredState, ctx: Context) returns (ok: bool, errors: seq<Issue>)
    ensures errors == AllIssues(s, ctx)
    ensures ok <==> Integral(s, ctx)
  {
    errors := CollectIssues(s, ctx);
    ok := |errors| == 0;
    NoIssuesIffIntegral(s, ctx);
  }

  /* ---------- exactness of the scope tree check ---------- */

  ghost predicate NoOrphans(nodes: seq<PlacedNode>, paths: set<string>) {
    forall i | 0 <= i < |nodes| && nodes[i].path != "/" :: ParentPath(nodes[i].path).value in paths
  }

  ghost predicate NoRepeatedSlugs(nodes: seq<PlacedNode>) {
    forall i, j | 0 <= j < i < |nodes| && nodes[i].path != "/" && nodes[j].path != "/" ::
      ParentPath(nodes[j].path) == ParentPath(nodes[i].path) ==> nodes[j].doc.slug != nodes[i].doc.slug
  }

  /** The tree check is silent exactly on trees without orphans and without repeated slugs. */
  lemma {:induction false} TreeExact(nodes: seq<PlacedNode>, paths: set<string>)
    ensures TreeIssues(nodes, paths) == [] <==> NoOrphans(nodes, paths) && NoRepeatedSlugs(nodes)
  {
    CollectEmpty(NodeCheck(nodes, paths), |nodes|);
    forall i: nat | i < |nodes| ensures NodeCheck(nodes, paths)(i) == [] <==> CleanNode(nodes, paths, i) {
      NodeExact(nodes, paths, i);
    }
    CleanNodesExact(nodes, paths);
  }

  ghost predicate CleanNode(nodes: seq<PlacedNode>, paths: set<string>, i: nat)
    requires i < |nodes|
  {
    var n := nodes[i];
    n.path != "/" ==>
      ParentPath(n.path).value in paths && !Used(nodes, i, ParentPath(n.path).value, n.doc.slug)
  }

  lemma {:induction false} NodeExact(nodes: seq<PlacedNode>, paths: set<string>, i: nat)
    requires i < |nodes|
    ensures NodeCheck(nodes, paths)(i) == [] <==> CleanNode(nodes, paths, i)
  {
  }

  lemma {:induction false} CleanNodesExact(nodes: seq<PlacedNode>, paths: set<string>)
    ensures (forall i | 0 <= i < |nodes| :: CleanNode(nodes, paths, i)) <==> NoOrphans(nodes, paths) && NoRepeatedSlugs(nodes)
  {
    if forall i | 0 <= i < |nodes| :: CleanNode(nodes, paths, i) {
      forall i, j | 0 <= j < i < |nodes| && nodes[i].path != "/" && nodes[j].path != "/"
        ensures ParentPath(nodes[j].path) == ParentPath(nodes[i].path) ==> nodes[j].doc.slug != nodes[i].doc.slug
      {
        assert CleanNode(nodes, paths, i);
        UsedBySome(nodes, i, ParentPath(nodes[i].path).value, nodes[i].doc.slug);
        assert !Occupies(nodes[j], ParentPath(nodes[i].path).value, nodes[i].doc.slug);
      }
      forall i | 0 <= i < |nodes| && nodes[i].path != "/" ensures ParentPath(nodes[i].path).value in paths {
        assert CleanNode(nodes, paths, i);
      }
    } else {
      var i :| 0 <= i < |nodes| && !CleanNode(nodes, paths, i);
      UsedBySome(nodes, i, ParentPath(nodes[i].path).value, nodes[i].doc.slug);
    }
  }

  lemma {:induction false} RoleExact(r: RoleDoc, paths: set<string>, ctx: Context)
    ensures RoleIssues(r, paths, ctx) == [] <==> SoundRole(r, paths, ctx)
  {
    FlatMapEmpty(PermissionCheck(r.name, ctx), r.permissions);
  }

  lemma {:induction false} OverrideExact(os: seq<OverrideDoc>, ds: seq<DefinitionDoc>, kind: Kind,
          paths: set<string>, ctx: Context)
    ensures FlatMap(OverrideCheck(paths, DefinitionNames(ds, kind, ctx), kind), os) == []
       <==> forall o | o in os :: Grounded(o, ds, kind, paths, ctx)
  {
    FlatMapEmpty(OverrideCheck(paths, DefinitionNames(ds, kind, ctx), kind), os);
    forall o ensures OverrideIssues(o, paths, DefinitionNames(ds, kind, ctx), kind) == [] <==> Grounded(o, ds, kind, paths, ctx) {
    }
  }

  lemma {:induction false} AssignmentExact(xs: seq<Assignment>, roles: seq<RoleDoc>, paths: set<string>, ctx: Context)
    ensures FlatMap(AssignmentCheck(paths, RoleNames(roles, ctx), ctx), xs) == []
       <==> forall a | a in xs :: SoundAssignment(a, paths, roles, ctx)
  {
    FlatMapEmpty(AssignmentCheck(paths, RoleNames(roles, ctx), ctx), xs);
    forall a ensures AssignmentIssues(a, paths, RoleNames(roles, ctx), ctx) == [] <==> SoundAssignment(a, paths, roles, ctx) {
    }
  }

  lemma {:induction false} NoIssuesIffIntegral(s: DesiredState, ctx: Context)
    ensures AllIssues(s, ctx) == [] <==> Integral(s, ctx)
  {
    var paths := NodePaths(s.nodes);
    TreeExact(s.nodes, paths);
    FlatMapEmpty(RoleCheck(paths, ctx), s.roles);
    forall r | r in s.roles ensures RoleIssues(r, paths, ctx) == [] <==> SoundRole(r, paths, ctx) {
      RoleExact(r, paths, ctx);
    }
    AssignmentExact(s.assignments, s.roles, paths, ctx);
    OverrideExact(s.agentOverrides, s.agents, Agent, paths, ctx);
    OverrideExact(s.workflowOverrides, s.workflows, Workflow, paths, ctx);
    OverrideExact(s.skillOverrides, s.skills, Skill, paths, ctx);
  }

  /* ---------- what acceptance means for the tree ---------- */

  /** `q` lies above `p`: it is the root, or `p` continues below it. */
  predicate Above(q: string, p: string) {
    p != "/" && (q == "/" || StartsWith(p, q + "/"))
  }

  lemma {:induction false} ParentIsShorter(p: string)
    requires ValidScopePath(p) && p != "/"
    ensures ParentPath(p).Some? && Above(ParentPath(p).value, p)
    ensures var q := ParentPath(p).value; ValidScopePath(q) && |q| < |p|
  {
    var i := LastIndexOf(p, '/');
    LastIndexIsLast(p, '/');
    assert p[0] == '/';
    if i == 0 {
      var rest := p[1..];
      SplitWhole(rest, '/');
      assert Slug(rest);
    } else {
      var rest := p[1..];
      var a, b := rest[..i - 1], rest[i..];
      assert rest == a + ['/'] + b;
      SplitConcat(a, '/', b);
      assert p[..i] == "/" + a && p[..i][1..] == a;
    }
  }

  /** Everything above a path is its parent or above its parent. */
  lemma {:induction false} AboveViaParent(q: string, p: string)
    requires ValidScopePath(p) && ValidScopePath(q) && Above(q, p)
    ensures q == ParentPath(p).value || Above(q, ParentPath(p).value)
  {
    var i := LastIndexOf(p, '/');
    LastIndexIsLast(p, '/');
    if q != "/" {
      assert p[|q|] == '/';
      assert |q| <= i;
      if |q| < i {
        assert p[..i][..|q| + 1] == q + "/";
      } else {
        assert p[..i] == q;
      }
    }
  }

  /** A tree the check accepts contains every scope above every one of its nodes, up to the root. */
  lemma {:induction false} AcceptedTreeIsClosed(nodes: seq<PlacedNode>, p: string, q: string)
    requires forall n | n in nodes :: ValidScopePath(n.path)
    requires TreeIssues(nodes, NodePaths(nodes)) == []
    requires p in NodePaths(nodes) && ValidScopePath(q) && Above(q, p)
    ensures q in NodePaths(nodes)
    decreases |p|
  {
    TreeExact(nodes, NodePaths(nodes));
    var i :| 0 <= i < |nodes| && nodes[i].path == p;
    ParentIsShorter(p);
    AboveViaParent(q, p);
    if q != ParentPath(p).value {
      AcceptedTreeIsClosed(nodes, ParentPath(p).value, q);
    }
  }

  ghost predicate DistinctPaths(nodes: seq<PlacedNode>) {
    forall i, j | 0 <= j < i < |nodes| :: nodes[j].path != nodes[i].path
  }

  ghost predicate OneRoot(nodes: seq<PlacedNode>) {
    forall i, j | 0 <= j < i < |nodes| :: !(nodes[j].path == nodes[i].path == "/")
  }

  /** Documents for one path below the root carry one slug. */
  ghost predicate OneSlugPerPath(nodes: seq<PlacedNode>) {
    forall i, j | 0 <= j < i < |nodes| && nodes[j].path == nodes[i].path != "/" :: nodes[j].doc.slug == nodes[i].doc.slug
  }

  /** An accepted tree has one document per path exactly when at most one is for the root and documents
      for one path below it carry one slug: the check does not look at paths themselves. */
  lemma {:induction false} AcceptedPathsDistinct(nodes: seq<PlacedNode>)
    requires TreeIssues(nodes, NodePaths(nodes)) == []
    ensures DistinctPaths(nodes) <==> OneRoot(nodes) && OneSlugPerPath(nodes)
  {
    TreeExact(nodes, NodePaths(nodes));
  }

  /** Two documents for one path pass when their slugs differ. */
  lemma {:induction false} TwoNodesOnOnePathAccepted() returns (nodes: seq<PlacedNode>)
    ensures TreeIssues(nodes, NodePaths(nodes)) == []
    ensures exists i, j :: 0 <= j < i < |nodes| && nodes[j].path == nodes[i].path != "/" && nodes[j] != nodes[i]
  {
    nodes := [PlacedNode("/", ScopeNodeDoc(None, Platform, "P", "p", None)),
              PlacedNode("/a", ScopeNodeDoc(None, Org, "A", "a", None)),
              PlacedNode("/a", ScopeNodeDoc(None, Org, "B", "b", None))];
    assert ParentPath("/a") == Some("/");
    assert nodes[0].path in NodePaths(nodes);
    TreeExact(nodes, NodePaths(nodes));
    assert nodes[1].path == nodes[2].path;
  }

  /** Any two documents for the root pass. */
  lemma {:induction false} TwoRootsAccepted(a: ScopeNodeDoc, b: ScopeNodeDoc)
    ensures var nodes := [PlacedNode("/", a), PlacedNode("/", b)]; TreeIssues(nodes, NodePaths(nodes)) == []
  {
    var nodes := [PlacedNode("/", a), PlacedNode("/", b)];
    TreeExact(nodes, NodePaths(nodes));
  }

  /** Each node's slug is the last segment of its path. */
  predicate SlugsMatchPaths(nodes: seq<PlacedNode>) {
    forall i | 0 <= i < |nodes| && nodes[i].path != "/" ::
      var k := LastIndexOf(nodes[i].path, '/'); k >= 0 && nodes[i].doc.slug == nodes[i].path[k + 1..]
  }

  /** When slugs are the last path segments, paths are distinct exactly when the check finds no repeated
      slug and at most one document is for the root. */
  lemma {:induction false} SlugCheckKeepsPathsApart(nodes: seq<PlacedNode>)
    requires SlugsMatchPaths(nodes)
    requires forall n | n in nodes :: ValidScopePath(n.path)
    ensures DistinctPaths(nodes) <==> NoRepeatedSlugs(nodes) && OneRoot(nodes)
  {
    forall i, j | 0 <= j < i < |nodes| && nodes[i].path != "/" && nodes[j].path != "/"
      ensures nodes[j].path == nodes[i].path
         <==> ParentPath(nodes[j].path) == ParentPath(nodes[i].path) && nodes[j].doc.slug == nodes[i].doc.slug
    {
      PathIsParentAndSlug(nodes, i, j);
    }
  }

  lemma {:induction false} PathIsParentAndSlug(nodes: seq<PlacedNode>, i: nat, j: nat)
    requires SlugsMatchPaths(nodes) && i < |nodes| && j < |nodes|
    requires ValidScopePath(nodes[i].path) && ValidScopePath(nodes[j].path)
    requires nodes[i].path != "/" && nodes[j].path != "/"
    ensures nodes[j].path == nodes[i].path
       <==> ParentPath(nodes[j].path) == ParentPath(nodes[i].path) && nodes[j].doc.slug == nodes[i].doc.slug
  {
    var p, q := nodes[i].path, nodes[j].path;
    if ParentPath(q) == ParentPath(p) && nodes[j].doc.slug == nodes[i].doc.slug {
      SamePath(p, q);
    }
  }

  lemma {:induction false} SamePath(p: string, q: string)
    requires ValidScopePath(p) && ValidScopePath(q) && p != "/" && q != "/"
    requires ParentPath(p) == ParentPath(q)
    requires LastIndexOf(p, '/') >= 0 && LastIndexOf(q, '/') >= 0
    requires p[LastIndexOf(p, '/') + 1..] == q[LastIndexOf(q, '/') + 1..]
    ensures p == q
  {
    var i, j := LastIndexOf(p, '/'), LastIndexOf(q, '/');
    LastIndexIsLast(p, '/');
    LastIndexIsLast(q, '/');
    NoEmptySegment(p);
    NoEmptySegment(q);
    assert i != 1 && j != 1;
    CutAt(p, i);
    CutAt(q, j);
  }

  lemma {:induction false} CutAt(p: string, i: nat)
    requires i < |p| && p[i] == '/'
    ensures p == p[..i] + "/" + p[i + 1..]
  {
  }

  /** The second character of a path below the root starts a slug. */
  lemma {:induction false} NoEmptySegment(p: string)
    requires ValidScopePath(p) && p != "/"
    ensures |p| >= 2 && p[1] != '/'
  {
    var parts := Split(p[1..], '/');
    assert Slug(parts[0]);
    JoinSplit(p[1..], '/');
    SlugHasNoSeparator(parts[0]);
    assert p[1..][0] == parts[0][0];
  }
}
