/** The documents of a GitOps repository and the schema rules the file codec and the validator
    depend on: slugs, scope paths and the body rule of overrides. */
module GitopsContracts {
  import opened Text
  import opened JsonValues

  datatype Kind = Agent | Workflow | Skill
  datatype NodeType = Platform | Org | Region | Team | Project
  datatype Source = Seeded | Admin | Repository | Imported | AgentFactory
  datatype Strategy = Replace | Merge

  datatype ScopeNodeDoc = ScopeNodeDoc(
    id: Option<string>, nodeType: NodeType, name: string, slug: string, metadata: Option<Record>)
  datatype PlacedNode = PlacedNode(path: string, doc: ScopeNodeDoc)
  datatype RoleDoc = RoleDoc(
    name: string, description: Option<string>, ownerScope: Option<string>, permissions: seq<string>)
  datatype Assignment = Assignment(user: string, role: string, scope: string)
  datatype DefinitionDoc = DefinitionDoc(name: string, source: Source, locked: bool, definition: Record)
  datatype OverrideDoc = OverrideDoc(
    name: string, scope: string, source: Source, locked: bool, strategy: Strategy,
    definition: Option<Record>, overrides: Option<Record>, bodyRef: Option<string>)

  datatype DesiredState = DesiredState(
    nodes: seq<PlacedNode>, roles: seq<RoleDoc>, assignments: seq<Assignment>,
    agents: seq<DefinitionDoc>, workflows: seq<DefinitionDoc>, skills: seq<DefinitionDoc>,
    agentOverrides: seq<OverrideDoc>, workflowOverrides: seq<OverrideDoc>, skillOverrides: seq<OverrideDoc>)

  const EMPTY_STATE := DesiredState([], [], [], [], [], [], [], [], [])

  predicate LowerOrDigit(c: char) { 'a' <= c <= 'z' || '0' <= c <= '9' }

  /** Lower-case letters and digits, with single hyphens strictly inside. */
  predicate Slug(s: string) {
    |s| >= 1
    && (forall i | 0 <= i < |s| :: LowerOrDigit(s[i]) || s[i] == '-')
    && s[0] != '-' && s[|s| - 1] != '-'
    && (forall i | 0 < i < |s| :: s[i - 1] == '-' ==> s[i] != '-')
  }

  /** The slugs of a scope path, root first; none for the root itself. */
  function ScopeSegments(path: string): seq<string> {
    if path == "/" then [] else Split(path, '/')[1..]
  }

  predicate ValidScopePath(path: string) {
    path == "/" || (StartsWith(path, "/") && forall seg | seg in Split(path[1..], '/') :: Slug(seg))
  }

  predicate ValidNode(doc: ScopeNodeDoc) {
    1 <= |doc.name| <= 255 && Slug(doc.slug)
  }

  /** `resource:action`: lower-case letters and underscores, a colon, lower-case letters. */
  predicate PermissionName(s: string) {
    var parts := Split(s, ':');
    |parts| == 2 && |parts[0]| >= 1 && |parts[1]| >= 1
    && (forall c | c in parts[0] :: 'a' <= c <= 'z' || c == '_')
    && (forall c | c in parts[1] :: 'a' <= c <= 'z')
  }

  predicate ValidRole(doc: RoleDoc) {
    Slug(doc.name)
    && (doc.description.Some? ==> |doc.description.value| <= 1024)
    && (doc.ownerScope.Some? ==> ValidScopePath(doc.ownerScope.value))
    && |doc.permissions| >= 1
    && forall p | p in doc.permissions :: PermissionName(p)
  }

  predicate ValidAssignment(a: Assignment) {
    |a.user| >= 1 && |a.role| >= 1 && ValidScopePath(a.scope)
  }

  predicate ValidDefinition(doc: DefinitionDoc) { Slug(doc.name) }

  /** A replacement carries a body or names one; a merge carries a patch. */
  predicate ValidOverride(doc: OverrideDoc) {
    Slug(doc.name) && ValidScopePath(doc.scope)
    && (doc.bodyRef.Some? ==> |doc.bodyRef.value| >= 1)
    && (doc.strategy == Replace ==> doc.definition.Some? || doc.bodyRef.Some?)
    && (doc.strategy == Merge ==> doc.overrides.Some?)
  }

  predicate ValidState(s: DesiredState) {
    (forall n | n in s.nodes :: ValidScopePath(n.path) && ValidNode(n.doc))
    && (forall r | r in s.roles :: ValidRole(r))
    && (forall a | a in s.assignments :: ValidAssignment(a))
    && (forall d | d in s.agents + s.workflows + s.skills :: ValidDefinition(d))
    && (forall o | o in s.agentOverrides + s.workflowOverrides + s.skillOverrides :: ValidOverride(o))
  }

  /** Nothing a path is built from can contain a separator or a dot. */
  lemma {:induction false} SlugHasNoSeparator(s: string)
    requires Slug(s)
    ensures '/' !in s && '.' !in s
  {
  }

  /** A scope path under a leading directory splits into that directory and the scope's slugs. */
  lemma {:induction false} ScopeParts(dir: string, path: string)
    requires '/' !in dir && ValidScopePath(path)
    ensures path == "/" ==> Split(dir, '/') == [dir]
    ensures path != "/" ==> Split(dir + path, '/') == [dir] + ScopeSegments(path)
    ensures path != "/" ==> '.' !in path && |ScopeSegments(path)| >= 1
    ensures forall seg | seg in ScopeSegments(path) :: Slug(seg)
  {
    SplitWhole(dir, '/');
    if path != "/" {
      var rest := path[1..];
      assert path == "" + ['/'] + rest && dir + path == dir + ['/'] + rest;
      SplitConcat("", '/', rest);
      SplitConcat(dir, '/', rest);
      JoinOfSlugsHasNoDot(Split(rest, '/'));
      JoinSplit(rest, '/');
    }
  }

  lemma {:induction false} JoinOfSlugsHasNoDot(parts: seq<string>)
    requires |parts| >= 1 && forall p | p in parts :: Slug(p)
    ensures '.' !in Join(parts, '/')
  {
    SlugHasNoSeparator(parts[0]);
    if |parts| > 1 {
      JoinOfSlugsHasNoDot(parts[1..]);
    }
  }
}
