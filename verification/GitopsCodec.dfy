/** The file codec of a GitOps repository: a desired state is spread over file paths and is
    recovered by looking at the paths alone. */
module GitopsCodec {
  import opened Text
  import opened JsonValues
  import opened GitopsContracts
  import opened Folding

  /** What one file holds. `Unrecognised` is any record that fits none of the schemas. */
  datatype Content =
    | NodeContent(node: ScopeNodeDoc)
    | RoleContent(role: RoleDoc)
    | AssignmentsContent(assignments: seq<Assignment>)
    | DefinitionContent(kind: Kind, definition: DefinitionDoc)
    | OverrideContent(kind: Kind, override: OverrideDoc)
    | Unrecognised(record: Record)

  datatype File = File(path: string, content: Content)

  datatype Schema =
    | NodeSchema | RoleSchema | AssignmentsSchema
    | DefinitionSchema(kind: Kind) | OverrideSchema(kind: Kind)

  datatype ParseResult = Parsed(state: DesiredState) | Failed(errorPaths: seq<string>)

  const MANIFEST := "gitops.yaml"
  const ASSIGNMENTS_FILE := "assignments.yaml"
  const SCOPE_FILE := "scope.yaml"
  const SCOPES_DIR := "scopes"
  const ROLES_DIR := "roles"

  function Dir(kind: Kind): string {
    match kind case Agent => "agents" case Workflow => "workflows" case Skill => "skills"
  }

  /* ---------- writing ---------- */

  function ScopeFilePath(path: string): string {
    if path == "/" then SCOPES_DIR + "/" + SCOPE_FILE else SCOPES_DIR + path + "/" + SCOPE_FILE
  }

  /** Drops the leading directory name and the first "/scope.yaml". */
  function ScopeDirOf(filePath: string): string {
    var tail := if |SCOPES_DIR| <= |filePath| then filePath[|SCOPES_DIR|..] else "";
    var rel := ReplaceFirst(tail, "/" + SCOPE_FILE, "");
    if rel == "" then "/" else rel
  }

  function OverrideDir(scope: string, dir: string): string {
    if scope == "/" then SCOPES_DIR + "/" + dir else SCOPES_DIR + scope + "/" + dir
  }

  function NodeFile(n: PlacedNode): File { File(ScopeFilePath(n.path), NodeContent(n.doc)) }

  function RoleFile(r: RoleDoc): File { File(ROLES_DIR + "/" + r.name + ".yaml", RoleContent(r)) }

  function DefinitionFile(kind: Kind, d: DefinitionDoc): File {
    File(Dir(kind) + "/" + d.name + ".yaml", DefinitionContent(kind, d))
  }

  function OverrideFile(kind: Kind, o: OverrideDoc): File {
    File(OverrideDir(o.scope, Dir(kind)) + "/" + o.name + ".yaml", OverrideContent(kind, o))
  }

  function NodeFiles(xs: seq<PlacedNode>): seq<File> { Map(NodeFile, xs) }

  function RoleFiles(xs: seq<RoleDoc>): seq<File> { Map(RoleFile, xs) }

  function DefinitionWriter(kind: Kind): DefinitionDoc -> File { d => DefinitionFile(kind, d) }

  function OverrideWriter(kind: Kind): OverrideDoc -> File { o => OverrideFile(kind, o) }

  function DefinitionFiles(kind: Kind, xs: seq<DefinitionDoc>): seq<File> { Map(DefinitionWriter(kind), xs) }

  function OverrideFiles(kind: Kind, xs: seq<OverrideDoc>): seq<File> { Map(OverrideWriter(kind), xs) }

  function AccessFiles(s: DesiredState): seq<File> {
    NodeFiles(s.nodes) + RoleFiles(s.roles) + [File(ASSIGNMENTS_FILE, AssignmentsContent(s.assignments))]
  }

  function PlatformFiles(s: DesiredState): seq<File> {
    DefinitionFiles(Agent, s.agents) + DefinitionFiles(Workflow, s.workflows) + DefinitionFiles(Skill, s.skills)
  }

  function ScopedFiles(s: DesiredState): seq<File> {
    OverrideFiles(Agent, s.agentOverrides) + OverrideFiles(Workflow, s.workflowOverrides)
    + OverrideFiles(Skill, s.skillOverrides)
  }

  function Serialized(s: DesiredState): seq<File> {
    AccessFiles(s) + PlatformFiles(s) + ScopedFiles(s)
  }

  /** One `for (const x of docs) files.push(write(x))`. */
  method Emit<A>(write: A -> File, docs: seq<A>, before: seq<File>) returns (files: seq<File>)
    ensures files == before + Map(write, docs)
  {
    files := before;
    for i := 0 to |docs|
      invariant files == before + Map(write, docs)[..i]
    {
      files := files + [write(docs[i])];
    }
  }

  method EmitPlatformFiles(s: DesiredState, before: seq<File>) returns (files: seq<File>)
    ensures files == before + PlatformFiles(s)
  {
    files := Emit(DefinitionWriter(Agent), s.agents, before);
    files := Emit(DefinitionWriter(Workflow), s.workflows, files);
    files := Emit(DefinitionWriter(Skill), s.skills, files);
    ConcatAssociates(before, DefinitionFiles(Agent, s.agents), DefinitionFiles(Workflow, s.workflows),
                     DefinitionFiles(Skill, s.skills));
  }

  method EmitScopedFiles(s: DesiredState, before: seq<File>) returns (files: seq<File>)
    ensures files == before + ScopedFiles(s)
  {
    files := Emit(OverrideWriter(Agent), s.agentOverrides, before);
    files := Emit(OverrideWriter(Workflow), s.workflowOverrides, files);
    files := Emit(OverrideWriter(Skill), s.skillOverrides, files);
    ConcatAssociates(before, OverrideFiles(Agent, s.agentOverrides), OverrideFiles(Workflow, s.workflowOverrides),
                     OverrideFiles(Skill, s.skillOverrides));
  }

  method EmitAccessFiles(s: DesiredState) returns (files: seq<File>)
    ensures files == AccessFiles(s)
  {
    files := Emit(NodeFile, s.nodes, []);
    files := Emit(RoleFile, s.roles, files);
    files := files + [File(ASSIGNMENTS_FILE, AssignmentsContent(s.assignments))];
  }

  method SerializeDesiredState(s: DesiredState) returns (files: seq<File>)
    ensures files == Serialized(s)
  {
    files := EmitAccessFiles(s);
    files := EmitPlatformFiles(s, files);
    files := EmitScopedFiles(s, files);
  }

  /* ---------- reading ---------- */

  /** Which schema a path selects; `None` for files that are not documents. */
  function Route(path: string): Option<Schema> {
    if path == MANIFEST then None
    else if EndsWith(path, "/" + SCOPE_FILE) then Some(NodeSchema)
    else if path == ASSIGNMENTS_FILE then Some(AssignmentsSchema)
    else if StartsWith(path, ROLES_DIR + "/") then Some(RoleSchema)
    else if StartsWith(path, Dir(Agent) + "/") then Some(DefinitionSchema(Agent))
    else if StartsWith(path, Dir(Workflow) + "/") then Some(DefinitionSchema(Workflow))
    else if StartsWith(path, Dir(Skill) + "/") then Some(DefinitionSchema(Skill))
    else if Includes(path, "/" + Dir(Agent) + "/") then Some(OverrideSchema(Agent))
    else if Includes(path, "/" + Dir(Workflow) + "/") then Some(OverrideSchema(Workflow))
    else if Includes(path, "/" + Dir(Skill) + "/") then Some(OverrideSchema(Skill))
    else None
  }

  /** `schema.safeParse(content).success`: the document's kind is the schema's kind and its fields are valid. */
  predicate Accepts(schema: Schema, content: Content) {
    match content
    case NodeContent(d) => schema == NodeSchema && ValidNode(d)
    case RoleContent(d) => schema == RoleSchema && ValidRole(d)
    case AssignmentsContent(xs) => schema == AssignmentsSchema && forall a | a in xs :: ValidAssignment(a)
    case DefinitionContent(k, d) => schema == DefinitionSchema(k) && ValidDefinition(d)
    case OverrideContent(k, o) => schema == OverrideSchema(k) && ValidOverride(o)
    case Unrecognised(_) => false
  }

  /** The draft with one accepted document added. */
  function Insert(draft: DesiredState, file: File): DesiredState {
    match file.content
    case NodeContent(d) => draft.(nodes := draft.nodes + [PlacedNode(ScopeDirOf(file.path), d)])
    case RoleContent(d) => draft.(roles := draft.roles + [d])
    case AssignmentsContent(xs) => draft.(assignments := draft.assignments + xs)
    case DefinitionContent(Agent, d) => draft.(agents := draft.agents + [d])
    case DefinitionContent(Workflow, d) => draft.(workflows := draft.workflows + [d])
    case DefinitionContent(Skill, d) => draft.(skills := draft.skills + [d])
    case OverrideContent(Agent, o) => draft.(agentOverrides := draft.agentOverrides + [o])
    case OverrideContent(Workflow, o) => draft.(workflowOverrides := draft.workflowOverrides + [o])
    case OverrideContent(Skill, o) => draft.(skillOverrides := draft.skillOverrides + [o])
    case Unrecognised(_) => draft
  }

  function Step(p: Progress<DesiredState>, file: File): Progress<DesiredState> {
    match Route(file.path)
    case None => p
    case Some(schema) =>
      if Accepts(schema, file.content) then p.(draft := Insert(p.draft, file))
      else p.(errors := p.errors + [file.path])
  }

  function Steps(p: Progress<DesiredState>, files: seq<File>): Progress<DesiredState> {
    Fold(Step, p, files)
  }

  function Finish(p: Progress<DesiredState>): ParseResult {
    if p.errors != [] then Failed(p.errors)
    else if !ValidState(p.draft) then Failed(["<aggregate>"])
    else Parsed(p.draft)
  }

  function ParsedFiles(files: seq<File>): ParseResult {
    Finish(Steps(Progress(EMPTY_STATE, []), files))
  }

  /** The draft and the error list that one parse fills in. */
  class ParseRun {
    var draft: DesiredState
    var errors: seq<string>

    function Now(): Progress<DesiredState>
      reads this
    {
      Progress(draft, errors)
    }

    constructor ()
      ensures Now() == Progress(EMPTY_STATE, [])
    {
      draft, errors := EMPTY_STATE, [];
    }

    method TryParse(schema: Schema, file: File) returns (ok: bool)
      modifies this`errors
      ensures ok == Accepts(schema, file.content)
      ensures errors == if ok then old(errors) else old(errors) + [file.path]
    {
      ok := Accepts(schema, file.content);
      if !ok {
        errors := errors + [file.path];
      }
    }

    method DispatchPlatformConfigFile(file: File) returns (handled: bool)
      requires file.path != MANIFEST && !EndsWith(file.path, "/" + SCOPE_FILE)
      requires file.path != ASSIGNMENTS_FILE && !StartsWith(file.path, ROLES_DIR + "/")
      modifies this
      ensures handled <==> exists k :: StartsWith(file.path, Dir(k) + "/")
      ensures Now() == if handled then Step(old(Now()), file) else old(Now())
    {
      handled := true;
      if StartsWith(file.path, Dir(Agent) + "/") {
        var ok := TryParse(DefinitionSchema(Agent), file);
        if ok { draft := draft.(agents := draft.agents + [file.content.definition]); }
      } else if StartsWith(file.path, Dir(Workflow) + "/") {
        var ok := TryParse(DefinitionSchema(Workflow), file);
        if ok { draft := draft.(workflows := draft.workflows + [file.content.definition]); }
      } else if StartsWith(file.path, Dir(Skill) + "/") {
        var ok := TryParse(DefinitionSchema(Skill), file);
        if ok { draft := draft.(skills := draft.skills + [file.content.definition]); }
      } else {
        handled := false;
        forall k ensures !StartsWith(file.path, Dir(k) + "/") {
          match k case Agent => case Workflow => case Skill =>
        }
      }
    }

    method DispatchScopedConfigFile(file: File) returns (handled: bool)
      requires file.path != MANIFEST && !EndsWith(file.path, "/" + SCOPE_FILE)
      requires file.path != ASSIGNMENTS_FILE && !StartsWith(file.path, ROLES_DIR + "/")
      requires forall k :: !StartsWith(file.path, Dir(k) + "/")
      modifies this
      ensures handled <==> Route(file.path).Some?
      ensures Now() == Step(old(Now()), file)
    {
      handled := true;
      if Includes(file.path, "/" + Dir(Agent) + "/") {
        var ok := TryParse(OverrideSchema(Agent), file);
        if ok { draft := draft.(agentOverrides := draft.agentOverrides + [file.content.override]); }
      } else if Includes(file.path, "/" + Dir(Workflow) + "/") {
        var ok := TryParse(OverrideSchema(Workflow), file);
        if ok { draft := draft.(workflowOverrides := draft.workflowOverrides + [file.content.override]); }
      } else if Includes(file.path, "/" + Dir(Skill) + "/") {
        var ok := TryParse(OverrideSchema(Skill), file);
        if ok { draft := draft.(skillOverrides := draft.skillOverrides + [file.content.override]); }
      } else {
        handled := false;
      }
    }

    method DispatchFile(file: File)
      modifies this
      ensures Now() == Step(old(Now()), file)
    {
      if file.path == MANIFEST {
        return;
      }
      if EndsWith(file.path, "/" + SCOPE_FILE) {
        var ok := TryParse(NodeSchema, file);
        if ok { draft := draft.(nodes := draft.nodes + [PlacedNode(ScopeDirOf(file.path), file.content.node)]); }
      } else if file.path == ASSIGNMENTS_FILE {
        var ok := TryParse(AssignmentsSchema, file);
        if ok { draft := draft.(assignments := draft.assignments + file.content.assignments); }
      } else if StartsWith(file.path, ROLES_DIR + "/") {
        var ok := TryParse(RoleSchema, file);
        if ok { draft := draft.(roles := draft.roles + [file.content.role]); }
      } else {
        var handled := DispatchPlatformConfigFile(file);
        if !handled {
          handled := DispatchScopedConfigFile(file);
        }
      }
    }
  }

  method ParseDesiredStateFiles(files: seq<File>) returns (result: ParseResult)
    ensures result == ParsedFiles(files)
  {
    var run := new ParseRun();
    for i := 0 to |files|
      invariant Steps(run.Now(), files[i..]) == Steps(Progress(EMPTY_STATE, []), files)
    {
      assert files[i..][1..] == files[i + 1..];
      run.DispatchFile(files[i]);
    }
    if |run.errors| > 0 {
      return Failed(run.errors);
    }
    result := if ValidState(run.draft) then Parsed(run.draft) else Failed(["<aggregate>"]);
  }

  /* ---------- when the codec can address a state ---------- */

  /** The kinds whose directory is looked for before `kind`'s own. */
  function EarlierKinds(kind: Kind): set<Kind> {
    match kind case Agent => {} case Workflow => {Agent} case Skill => {Agent, Workflow}
  }

  /** No file of this override is taken for a scope node or for an override of another kind. */
  predicate AddressableOverride(kind: Kind, o: OverrideDoc) {
    o.name != "scope" && forall k | k in EarlierKinds(kind) :: Dir(k) !in ScopeSegments(o.scope)
  }

  predicate NoneNamedScope(xs: seq<DefinitionDoc>) { forall d | d in xs :: d.name != "scope" }

  predicate AllAddressable(kind: Kind, xs: seq<OverrideDoc>) { forall o | o in xs :: AddressableOverride(kind, o) }

  predicate Addressable(s: DesiredState) {
    (forall r | r in s.roles :: r.name != "scope")
    && NoneNamedScope(s.agents) && NoneNamedScope(s.workflows) && NoneNamedScope(s.skills)
    && AllAddressable(Agent, s.agentOverrides) && AllAddressable(Workflow, s.workflowOverrides)
    && AllAddressable(Skill, s.skillOverrides)
  }

  /* ---------- routing by path parts ---------- */

  ghost predicate Inner(parts: seq<string>, part: string) {
    exists k :: 0 < k < |parts| - 1 && parts[k] == part
  }

  ghost function RouteOfParts(parts: seq<string>): Option<Schema>
    requires |parts| >= 2
  {
    if parts[|parts| - 1] == SCOPE_FILE then Some(NodeSchema)
    else if parts[0] == ROLES_DIR then Some(RoleSchema)
    else if parts[0] == Dir(Agent) then Some(DefinitionSchema(Agent))
    else if parts[0] == Dir(Workflow) then Some(DefinitionSchema(Workflow))
    else if parts[0] == Dir(Skill) then Some(DefinitionSchema(Skill))
    else if Inner(parts, Dir(Agent)) then Some(OverrideSchema(Agent))
    else if Inner(parts, Dir(Workflow)) then Some(OverrideSchema(Workflow))
    else if Inner(parts, Dir(Skill)) then Some(OverrideSchema(Skill))
    else None
  }

  lemma {:induction false} KindPaths(path: string, kind: Kind)
    ensures StartsWith(path, Dir(kind) + "/") <==> |Split(path, '/')| >= 2 && Split(path, '/')[0] == Dir(kind)
    ensures Includes(path, "/" + Dir(kind) + "/") <==> Inner(Split(path, '/'), Dir(kind))
  {
    StartsWithPart(path, '/', Dir(kind));
    IncludesPart(path, '/', Dir(kind));
  }

  lemma {:induction false} FixedPaths(path: string)
    ensures EndsWith(path, "/" + SCOPE_FILE)
       <==> |Split(path, '/')| >= 2 && Split(path, '/')[|Split(path, '/')| - 1] == SCOPE_FILE
    ensures StartsWith(path, ROLES_DIR + "/") <==> |Split(path, '/')| >= 2 && Split(path, '/')[0] == ROLES_DIR
  {
    EndsWithPart(path, '/', SCOPE_FILE);
    StartsWithPart(path, '/', ROLES_DIR);
  }

  lemma {:induction false} TopLevelPaths(path: string)
    requires '/' in path
    ensures path != MANIFEST && path != ASSIGNMENTS_FILE
  {
  }

  /** The tests on the path string depend only on its parts. */
  lemma {:induction false} RouteByParts(path: string)
    requires |Split(path, '/')| >= 2
    ensures Route(path) == RouteOfParts(Split(path, '/'))
  {
    if '/' !in path {
      SplitWhole(path, '/');
    }
    TopLevelPaths(path);
    FixedPaths(path);
    KindPaths(path, Agent);
    KindPaths(path, Workflow);
    KindPaths(path, Skill);
  }

  lemma {:induction false} YamlName(name: string)
    requires '/' !in name
    ensures '/' !in name + ".yaml"
    ensures name + ".yaml" == SCOPE_FILE <==> name == "scope"
    ensures Split(name + ".yaml", '/') == [name + ".yaml"]
  {
    SplitWhole(name + ".yaml", '/');
    assert SCOPE_FILE == "scope" + ".yaml";
    if name + ".yaml" == SCOPE_FILE {
      assert (name + ".yaml")[..|name|] == name;
    }
  }

  lemma {:induction false} FlatFileParts(dir: string, name: string)
    requires '/' !in dir && '/' !in name
    ensures Split(dir + "/" + name + ".yaml", '/') == [dir, name + ".yaml"]
  {
    YamlName(name);
    SplitWhole(dir, '/');
    SplitConcat(dir, '/', name + ".yaml");
    assert dir + "/" + name + ".yaml" == dir + ['/'] + (name + ".yaml");
  }

  lemma {:induction false} RoleRoute(r: RoleDoc)
    requires ValidRole(r)
    ensures Route(RoleFile(r).path) == Some(if r.name == "scope" then NodeSchema else RoleSchema)
  {
    FlatFileParts(ROLES_DIR, r.name);
    YamlName(r.name);
    RouteByParts(RoleFile(r).path);
  }

  lemma {:induction false} DefinitionRoute(kind: Kind, d: DefinitionDoc)
    requires ValidDefinition(d)
    ensures Route(DefinitionFile(kind, d).path)
         == Some(if d.name == "scope" then NodeSchema else DefinitionSchema(kind))
  {
    FlatFileParts(Dir(kind), d.name);
    YamlName(d.name);
    RouteByParts(DefinitionFile(kind, d).path);
    DefinitionParts(kind, d.name + ".yaml");
  }

  lemma {:induction false} DefinitionParts(kind: Kind, file: string)
    ensures RouteOfParts([Dir(kind), file]) == Some(if file == SCOPE_FILE then NodeSchema else DefinitionSchema(kind))
  {
  }

  lemma {:induction false} AssignmentsRoute()
    ensures Route(ASSIGNMENTS_FILE) == Some(AssignmentsSchema)
  {
    SplitWhole(ASSIGNMENTS_FILE, '/');
    EndsWithPart(ASSIGNMENTS_FILE, '/', SCOPE_FILE);
  }

  /** Dropping the directory and the first file name undoes the placement of a scope file. */
  lemma {:induction false} ScopeDirInverse(path: string)
    requires ValidScopePath(path)
    ensures ScopeDirOf(ScopeFilePath(path)) == path
  {
    ScopeParts(SCOPES_DIR, path);
    var pre := if path == "/" then "" else path;
    assert ScopeFilePath(path) == SCOPES_DIR + (pre + ("/" + SCOPE_FILE));
    FirstAfterPlainPrefix(pre);
  }

  /** In a prefix without dots "/scope.yaml" cannot start, so the first occurrence is the one appended. */
  lemma {:induction false} FirstAfterPlainPrefix(pre: string)
    requires '.' !in pre
    ensures ReplaceFirst(pre + ("/" + SCOPE_FILE), "/" + SCOPE_FILE, "") == pre
  {
    var pattern := "/" + SCOPE_FILE;
    var s := pre + pattern;
    assert OccursAt(s, pattern, |pre|);
    forall i | 0 <= i < |pre| ensures !OccursAt(s, pattern, i) {
      NoEarlyOccurrence(pre, i);
    }
  }

  lemma {:induction false} NoEarlyOccurrence(pre: string, i: nat)
    requires '.' !in pre && i < |pre|
    ensures !OccursAt(pre + ("/" + SCOPE_FILE), "/" + SCOPE_FILE, i)
  {
    var pattern := "/" + SCOPE_FILE;
    var s := pre + pattern;
    assert s[i..i + |pattern|][6] == s[i + 6];
    assert s[i + 6] == if i + 6 < |pre| then pre[i + 6] else pattern[i + 6 - |pre|];
    assert s[i + 6] != '.' && pattern[6] == '.';
  }

  lemma {:induction false} ScopeFileRoute(path: string)
    requires ValidScopePath(path)
    ensures Route(ScopeFilePath(path)) == Some(NodeSchema)
  {
  }

  lemma {:induction false} OverridePathParts(kind: Kind, o: OverrideDoc)
    requires ValidOverride(o)
    ensures Split(OverrideFile(kind, o).path, '/')
         == [SCOPES_DIR] + ScopeSegments(o.scope) + [Dir(kind), o.name + ".yaml"]
  {
    PlacedFileParts(if o.scope == "/" then SCOPES_DIR else SCOPES_DIR + o.scope, Dir(kind), o.name);
    ScopeParts(SCOPES_DIR, o.scope);
  }

  lemma {:induction false} PlacedFileParts(top: string, dir: string, name: string)
    requires '/' !in dir && '/' !in name
    ensures Split(top + "/" + dir + "/" + name + ".yaml", '/') == Split(top, '/') + [dir, name + ".yaml"]
  {
    FlatFileParts(dir, name);
    SplitConcat(top, '/', dir + "/" + name + ".yaml");
    assert top + "/" + dir + "/" + name + ".yaml" == top + ['/'] + (dir + "/" + name + ".yaml");
  }

  /** The directory just above the file decides, unless an earlier kind's directory lies higher up. */
  lemma {:induction false} OverridePartsRoute(kind: Kind, segs: seq<string>, last: string)
    ensures var r := RouteOfParts([SCOPES_DIR] + segs + [Dir(kind), last]);
      r.Some?
      && (r == Some(OverrideSchema(kind)) <==> last != SCOPE_FILE && forall k | k in EarlierKinds(kind) :: Dir(k) !in segs)
      && (r != Some(OverrideSchema(kind)) ==> r.value.NodeSchema? || r.value.OverrideSchema?)
  {
    var parts := [SCOPES_DIR] + segs + [Dir(kind), last];
    assert parts[0] == SCOPES_DIR && parts[|parts| - 1] == last;
    assert parts[|segs| + 1] == Dir(kind);
    assert Inner(parts, Dir(kind));
    forall k | k != kind
      ensures Inner(parts, Dir(k)) <==> Dir(k) in segs
    {
      InnerOfOverride(segs, Dir(kind), last, Dir(k));
    }
  }

  lemma {:induction false} InnerOfOverride(segs: seq<string>, dir: string, last: string, part: string)
    requires part != dir
    ensures Inner([SCOPES_DIR] + segs + [dir, last], part) <==> part in segs
  {
    var parts := [SCOPES_DIR] + segs + [dir, last];
    if part in segs {
      var i :| 0 <= i < |segs| && segs[i] == part;
      assert parts[i + 1] == part;
    }
  }

  /** An override lands under its own schema exactly when it is addressable, and is never ignored. */
  lemma {:induction false} OverrideRoute(kind: Kind, o: OverrideDoc)
    requires ValidOverride(o)
    ensures var r := Route(OverrideFile(kind, o).path);
      r.Some? && (r == Some(OverrideSchema(kind)) <==> AddressableOverride(kind, o))
  {
    OverridePathParts(kind, o);
    YamlName(o.name);
    OverridePartsRoute(kind, ScopeSegments(o.scope), o.name + ".yaml");
    RouteByParts(OverrideFile(kind, o).path);
  }

  /* ---------- one file at a time ---------- */

  function WithNode(draft: DesiredState, n: PlacedNode): DesiredState {
    draft.(nodes := draft.nodes + [n])
  }

  function WithRole(draft: DesiredState, r: RoleDoc): DesiredState {
    draft.(roles := draft.roles + [r])
  }

  function WithDefinitions(draft: DesiredState, kind: Kind, xs: seq<DefinitionDoc>): DesiredState {
    match kind
    case Agent => draft.(agents := draft.agents + xs)
    case Workflow => draft.(workflows := draft.workflows + xs)
    case Skill => draft.(skills := draft.skills + xs)
  }

  function WithOverrides(draft: DesiredState, kind: Kind, xs: seq<OverrideDoc>): DesiredState {
    match kind
    case Agent => draft.(agentOverrides := draft.agentOverrides + xs)
    case Workflow => draft.(workflowOverrides := draft.workflowOverrides + xs)
    case Skill => draft.(skillOverrides := draft.skillOverrides + xs)
  }

  lemma {:induction false} NodeStep(p: Progress<DesiredState>, n: PlacedNode)
    requires ValidScopePath(n.path) && ValidNode(n.doc)
    ensures Step(p, NodeFile(n)) == p.(draft := WithNode(p.draft, n))
  {
    ScopeDirInverse(n.path);
    ScopeFileRoute(n.path);
  }

  lemma {:induction false} RoleStep(p: Progress<DesiredState>, r: RoleDoc)
    requires ValidRole(r)
    ensures Step(p, RoleFile(r)) == if r.name != "scope" then p.(draft := WithRole(p.draft, r))
                                    else p.(errors := p.errors + [RoleFile(r).path])
  {
    RoleRoute(r);
  }

  lemma {:induction false} DefinitionStep(p: Progress<DesiredState>, kind: Kind, d: DefinitionDoc)
    requires ValidDefinition(d)
    ensures Step(p, DefinitionFile(kind, d))
         == if d.name != "scope" then p.(draft := WithDefinitions(p.draft, kind, [d]))
            else p.(errors := p.errors + [DefinitionFile(kind, d).path])
  {
    DefinitionRoute(kind, d);
  }

  lemma {:induction false} OverrideStep(p: Progress<DesiredState>, kind: Kind, o: OverrideDoc)
    requires ValidOverride(o)
    ensures Step(p, OverrideFile(kind, o))
         == if AddressableOverride(kind, o) then p.(draft := WithOverrides(p.draft, kind, [o]))
            else p.(errors := p.errors + [OverrideFile(kind, o).path])
  {
    OverrideRoute(kind, o);
  }

  /* ---------- one section at a time ---------- */

  lemma {:induction false} NodeSection(p: Progress<DesiredState>, xs: seq<PlacedNode>)
    requires forall n | n in xs :: ValidScopePath(n.path) && ValidNode(n.doc)
    ensures Steps(p, NodeFiles(xs)) == p.(draft := p.draft.(nodes := p.draft.nodes + xs))
  {
    forall n, st, e | n in xs
      ensures Step(Progress(st, e), NodeFile(n)) == Progress(WithNode(st, n), e)
    {
      NodeStep(Progress(st, e), n);
    }
    Section(Step, (f: File) => f.path, NodeFile, p, xs, _ => true, WithNode);
    NodesAdded(p.draft, xs);
  }

  lemma {:induction false} RoleSection(p: Progress<DesiredState>, xs: seq<RoleDoc>)
    requires forall r | r in xs :: ValidRole(r)
    ensures SectionResult(p, Steps(p, RoleFiles(xs)), forall r | r in xs :: r.name != "scope",
                          p.draft.(roles := p.draft.roles + xs))
  {
    var good := (r: RoleDoc) => r.name != "scope";
    var pathOf := (f: File) => f.path;
    forall r, st, e | r in xs
      ensures Step(Progress(st, e), RoleFile(r))
           == (if good(r) then Progress(WithRole(st, r), e) else Progress(st, e + [pathOf(RoleFile(r))]))
    {
      RoleStep(Progress(st, e), r);
    }
    Section(Step, pathOf, RoleFile, p, xs, good, WithRole);
    RolesAdded(p.draft, xs);
  }

  lemma {:induction false} AssignmentsSection(p: Progress<DesiredState>, xs: seq<Assignment>)
    requires forall a | a in xs :: ValidAssignment(a)
    ensures Steps(p, [File(ASSIGNMENTS_FILE, AssignmentsContent(xs))])
         == p.(draft := p.draft.(assignments := p.draft.assignments + xs))
  {
    AssignmentsRoute();
    var files := [File(ASSIGNMENTS_FILE, AssignmentsContent(xs))];
    assert Fold(Step, p, files) == Fold(Step, Step(p, files[0]), files[1..]);
  }

  lemma {:induction false} DefinitionSection(p: Progress<DesiredState>, kind: Kind, xs: seq<DefinitionDoc>)
    requires forall d | d in xs :: ValidDefinition(d)
    ensures SectionResult(p, Steps(p, DefinitionFiles(kind, xs)), forall d | d in xs :: d.name != "scope",
                          WithDefinitions(p.draft, kind, xs))
  {
    var good := (d: DefinitionDoc) => d.name != "scope";
    var write := DefinitionWriter(kind);
    var add := (st, d) => WithDefinitions(st, kind, [d]);
    var pathOf := (f: File) => f.path;
    forall d, st, e | d in xs
      ensures Step(Progress(st, e), write(d))
           == (if good(d) then Progress(add(st, d), e) else Progress(st, e + [pathOf(write(d))]))
    {
      DefinitionStep(Progress(st, e), kind, d);
    }
    Section(Step, pathOf, write, p, xs, good, add);
    DefinitionsAdded(p.draft, kind, xs, add);
  }

  lemma {:induction false} OverrideSection(p: Progress<DesiredState>, kind: Kind, xs: seq<OverrideDoc>)
    requires forall o | o in xs :: ValidOverride(o)
    ensures SectionResult(p, Steps(p, OverrideFiles(kind, xs)), forall o | o in xs :: AddressableOverride(kind, o),
                          WithOverrides(p.draft, kind, xs))
  {
    var good := (o: OverrideDoc) => AddressableOverride(kind, o);
    var write := OverrideWriter(kind);
    var add := (st, o) => WithOverrides(st, kind, [o]);
    var pathOf := (f: File) => f.path;
    forall o, st, e | o in xs
      ensures Step(Progress(st, e), write(o))
           == (if good(o) then Progress(add(st, o), e) else Progress(st, e + [pathOf(write(o))]))
    {
      OverrideStep(Progress(st, e), kind, o);
    }
    Section(Step, pathOf, write, p, xs, good, add);
    OverridesAdded(p.draft, kind, xs, add);
  }

  lemma {:induction false} NodesAdded(st: DesiredState, xs: seq<PlacedNode>)
    ensures Fold(WithNode, st, xs) == st.(nodes := st.nodes + xs)
    decreases xs
  {
    if xs != [] {
      NodesAdded(WithNode(st, xs[0]), xs[1..]);
      assert st.nodes + [xs[0]] + xs[1..] == st.nodes + xs;
    }
  }

  lemma {:induction false} RolesAdded(st: DesiredState, xs: seq<RoleDoc>)
    ensures Fold(WithRole, st, xs) == st.(roles := st.roles + xs)
    decreases xs
  {
    if xs != [] {
      RolesAdded(WithRole(st, xs[0]), xs[1..]);
      assert st.roles + [xs[0]] + xs[1..] == st.roles + xs;
    }
  }

  lemma {:induction false} DefinitionsAdded(st: DesiredState, kind: Kind, xs: seq<DefinitionDoc>,
                                            add: (DesiredState, DefinitionDoc) -> DesiredState)
    requires forall s, d :: add(s, d) == WithDefinitions(s, kind, [d])
    ensures Fold(add, st, xs) == WithDefinitions(st, kind, xs)
    decreases xs
  {
    if xs != [] {
      var next := add(st, xs[0]);
      DefinitionsAdded(next, kind, xs[1..], add);
      assert xs == [xs[0]] + xs[1..];
    }
  }

  lemma {:induction false} OverridesAdded(st: DesiredState, kind: Kind, xs: seq<OverrideDoc>,
                                          add: (DesiredState, OverrideDoc) -> DesiredState)
    requires forall s, o :: add(s, o) == WithOverrides(s, kind, [o])
    ensures Fold(add, st, xs) == WithOverrides(st, kind, xs)
    decreases xs
  {
    if xs != [] {
      var next := add(st, xs[0]);
      OverridesAdded(next, kind, xs[1..], add);
      assert xs == [xs[0]] + xs[1..];
    }
  }

  function WithAccess(st: DesiredState, s: DesiredState): DesiredState {
    st.(nodes := st.nodes + s.nodes, roles := st.roles + s.roles, assignments := st.assignments + s.assignments)
  }

  function WithPlatform(st: DesiredState, s: DesiredState): DesiredState {
    st.(agents := st.agents + s.agents, workflows := st.workflows + s.workflows, skills := st.skills + s.skills)
  }

  function WithScoped(st: DesiredState, s: DesiredState): DesiredState {
    st.(agentOverrides := st.agentOverrides + s.agentOverrides,
        workflowOverrides := st.workflowOverrides + s.workflowOverrides,
        skillOverrides := st.skillOverrides + s.skillOverrides)
  }

  lemma {:induction false} AccessSteps(p: Progress<DesiredState>, s: DesiredState)
    requires ValidState(s)
    ensures SectionResult(p, Steps(p, AccessFiles(s)), forall r | r in s.roles :: r.name != "scope",
                          WithAccess(p.draft, s))
  {
    var f := NodeFiles(s.nodes);
    NodeSection(p, s.nodes);
    FoldConcat(Step, p, f, RoleFiles(s.roles));
    RoleSection(Steps(p, f), s.roles);
    FoldConcat(Step, p, f + RoleFiles(s.roles), [File(ASSIGNMENTS_FILE, AssignmentsContent(s.assignments))]);
    AssignmentsSection(Steps(p, f + RoleFiles(s.roles)), s.assignments);
  }

  lemma {:induction false} PlatformSteps(p: Progress<DesiredState>, s: DesiredState)
    requires ValidState(s)
    ensures SectionResult(p, Steps(p, PlatformFiles(s)),
                          NoneNamedScope(s.agents) && NoneNamedScope(s.workflows) && NoneNamedScope(s.skills),
                          WithPlatform(p.draft, s))
  {
    var a, w := DefinitionFiles(Agent, s.agents), DefinitionFiles(Workflow, s.workflows);
    var k := DefinitionFiles(Skill, s.skills);
    FoldConcat(Step, p, a, w);
    FoldConcat(Step, p, a + w, k);
    var p1, p2, p3 := Steps(p, a), Steps(p, a + w), Steps(p, a + w + k);
    DefinitionSection(p, Agent, s.agents);
    DefinitionSection(p1, Workflow, s.workflows);
    DefinitionSection(p2, Skill, s.skills);
    var d2 := WithDefinitions(p1.draft, Workflow, s.workflows);
    SectionThen(p, p1, p2, NoneNamedScope(s.agents), NoneNamedScope(s.workflows), WithDefinitions(p.draft, Agent, s.agents), d2);
    SectionThen(p, p2, p3, NoneNamedScope(s.agents) && NoneNamedScope(s.workflows), NoneNamedScope(s.skills),
                d2, WithDefinitions(p2.draft, Skill, s.skills));
  }

  lemma {:induction false} ScopedSteps(p: Progress<DesiredState>, s: DesiredState)
    requires ValidState(s)
    ensures SectionResult(p, Steps(p, ScopedFiles(s)),
                          AllAddressable(Agent, s.agentOverrides) && AllAddressable(Workflow, s.workflowOverrides)
                          && AllAddressable(Skill, s.skillOverrides),
                          WithScoped(p.draft, s))
  {
    var a, w := OverrideFiles(Agent, s.agentOverrides), OverrideFiles(Workflow, s.workflowOverrides);
    var k := OverrideFiles(Skill, s.skillOverrides);
    FoldConcat(Step, p, a, w);
    FoldConcat(Step, p, a + w, k);
    var p1, p2, p3 := Steps(p, a), Steps(p, a + w), Steps(p, a + w + k);
    OverrideSection(p, Agent, s.agentOverrides);
    OverrideSection(p1, Workflow, s.workflowOverrides);
    OverrideSection(p2, Skill, s.skillOverrides);
    var d2 := WithOverrides(p1.draft, Workflow, s.workflowOverrides);
    var c1, c2, c3 := AllAddressable(Agent, s.agentOverrides), AllAddressable(Workflow, s.workflowOverrides),
      AllAddressable(Skill, s.skillOverrides);
    SectionThen(p, p1, p2, c1, c2, WithOverrides(p.draft, Agent, s.agentOverrides), d2);
    SectionThen(p, p2, p3, c1 && c2, c3, d2, WithOverrides(p2.draft, Skill, s.skillOverrides));
  }

  lemma {:induction false} AllSteps(p: Progress<DesiredState>, s: DesiredState)
    requires ValidState(s)
    ensures SectionResult(p, Steps(p, Serialized(s)), Addressable(s), WithScoped(WithPlatform(WithAccess(p.draft, s), s), s))
  {
    var a, b, c := AccessFiles(s), PlatformFiles(s), ScopedFiles(s);
    FoldConcat(Step, p, a, b);
    FoldConcat(Step, p, a + b, c);
    var p1, p2, p3 := Steps(p, a), Steps(p, a + b), Steps(p, a + b + c);
    AccessSteps(p, s);
    PlatformSteps(p1, s);
    ScopedSteps(p2, s);
    var c1 := forall r | r in s.roles :: r.name != "scope";
    var c2 := NoneNamedScope(s.agents) && NoneNamedScope(s.workflows) && NoneNamedScope(s.skills);
    var c3 := AllAddressable(Agent, s.agentOverrides) && AllAddressable(Workflow, s.workflowOverrides)
      && AllAddressable(Skill, s.skillOverrides);
    SectionThen(p, p1, p2, c1, c2, WithAccess(p.draft, s), WithPlatform(p1.draft, s));
    SectionThen(p, p2, p3, c1 && c2, c3, WithPlatform(p1.draft, s), WithScoped(p2.draft, s));
    assert Addressable(s) <==> c1 && c2 && c3;
  }

  /** Reading back what was written: the state itself with no error, or at least one error. */
  lemma {:induction false} SerializedSteps(s: DesiredState)
    requires ValidState(s)
    ensures SectionResult(Progress(EMPTY_STATE, []), Steps(Progress(EMPTY_STATE, []), Serialized(s)), Addressable(s), s)
  {
    AllSteps(Progress(EMPTY_STATE, []), s);
    assert WithScoped(WithPlatform(WithAccess(EMPTY_STATE, s), s), s) == s;
  }

  /* ---------- main results ---------- */

  /** Serializing and parsing returns exactly the state that went in, list order included, if and
      only if the state satisfies the schemas and every object in it is addressable. */
  lemma {:induction false} RoundTrip(s: DesiredState)
    ensures ParsedFiles(Serialized(s)) == Parsed(s) <==> ValidState(s) && Addressable(s)
  {
    if ValidState(s) {
      SerializedSteps(s);
    }
  }

  /** The failure is never silent: a valid state that does not survive is reported as an error. */
  lemma {:induction false} UnaddressableIsReported(s: DesiredState)
    requires ValidState(s) && !Addressable(s)
    ensures ParsedFiles(Serialized(s)).Failed?
  {
    SerializedSteps(s);
  }

  /* ---------- files that are no documents ---------- */

  /** At the top level only the assignment list is read: the manifest, or any other file, is not. */
  lemma {:induction false} TopLevelFiles(path: string)
    requires '/' !in path
    ensures Route(path) == if path == "assignments.yaml" then Some(AssignmentsSchema) else None
  {
    SplitWhole(path, '/');
    FixedPaths(path);
    KindPaths(path, Agent);
    KindPaths(path, Workflow);
    KindPaths(path, Skill);
  }

  /** Such files, whatever they hold, make no difference wherever they come in the list. */
  lemma {:induction false} TopLevelFilesAreIgnored(a: seq<File>, b: seq<File>, path: string, c: Content)
    requires '/' !in path && path != "assignments.yaml"
    ensures ParsedFiles(a + [File(path, c)] + b) == ParsedFiles(a + b)
  {
    var start := Progress(EMPTY_STATE, []);
    var p := Steps(start, a);
    TopLevelFiles(path);
    FoldConcat(Step, start, a + [File(path, c)], b);
    FoldConcat(Step, start, a, [File(path, c)]);
    FoldConcat(Step, start, a, b);
    assert Steps(p, [File(path, c)]) == Steps(Step(p, File(path, c)), []) == p;
  }

  /** A repository with a manifest of any content is read as the one without it. */
  lemma {:induction false} ManifestIsIgnored(a: seq<File>, b: seq<File>, c: Content)
    ensures ParsedFiles(a + [File("gitops.yaml", c)] + b) == ParsedFiles(a + b)
  {
    TopLevelFilesAreIgnored(a, b, "gitops.yaml", c);
  }
}
