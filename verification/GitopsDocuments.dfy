/** What a parse answers for any list of files: each file is judged alone, by its directory and by
    the rules of its document, and the accepted documents are joined section by section. */
module GitopsDocuments {
  import opened Text
  import opened JsonValues
  import opened GitopsContracts
  import opened Folding
  import opened GitopsCodec

  /* ---------- the expressions of the schemas ---------- */

  const LETTERS: set<char> := {
    'a', 'b', 'c', 'd', 'e', 'f', 'g', 'h', 'i', 'j', 'k', 'l', 'm',
    'n', 'o', 'p', 'q', 'r', 's', 't', 'u', 'v', 'w', 'x', 'y', 'z'}

  const DIGITS: set<char> := {'0', '1', '2', '3', '4', '5', '6', '7', '8', '9'}

  /** `[a-z0-9]+` */
  predicate Word(w: string) {
    w != "" && forall c | c in w :: c in LETTERS || c in DIGITS
  }

  /** `^[a-z0-9]+(?:-[a-z0-9]+)*$` */
  ghost predicate Hyphenated(s: string) {
    exists words: seq<string> :: |words| >= 1 && (forall w | w in words :: Word(w)) && s == Join(words, '-')
  }

  /** "/" alone, or `^(\/[a-z0-9]+(?:-[a-z0-9]+)*)+$` */
  ghost predicate Chain(path: string) {
    path == "/" || exists slugs: seq<string> ::
      |slugs| >= 1 && (forall slug | slug in slugs :: Hyphenated(slug)) && path == "/" + Join(slugs, '/')
  }

  /** `^[a-z_]+:[a-z]+$` */
  predicate ResourceAction(s: string) {
    exists i | 0 < i < |s| - 1 :: s[i] == ':' && Resource(s[..i]) && Letters(s[i + 1..])
  }

  predicate Resource(s: string) { forall c | c in s :: c in LETTERS || c == '_' }

  predicate Letters(s: string) { forall c | c in s :: c in LETTERS }

  predicate Plain(w: string) {
    w != "" && forall c | c in w :: LowerOrDigit(c)
  }

  lemma {:induction false} LettersOf(c: char)
    ensures c in LETTERS <==> 'a' <= c <= 'z'
    ensures c in DIGITS <==> '0' <= c <= '9'
  {
  }

  lemma {:induction false} WordIsPlain(w: string)
    ensures Word(w) <==> Plain(w)
  {
    forall c ensures LowerOrDigit(c) <==> c in LETTERS || c in DIGITS {
      LettersOf(c);
    }
  }

  /** A slug is its first word and, after a hyphen, the slug of the rest. */
  lemma {:induction false} SlugWords(s: string)
    ensures Slug(s) <==> forall w | w in Split(s, '-') :: Plain(w)
    decreases |s|
  {
    var parts := Split(s, '-');
    JoinSplit(s, '-');
    if |parts| == 1 {
      SlugOfWord(s);
    } else {
      var rest := parts[1..];
      SplitJoin(rest, '-');
      SlugWords(Join(rest, '-'));
      SlugAfterWord(parts[0], Join(rest, '-'));
      assert parts == [parts[0]] + rest;
    }
  }

  lemma {:induction false} SlugOfWord(s: string)
    requires '-' !in s
    ensures Slug(s) <==> Plain(s)
  {
    if Plain(s) {
      assert forall i | 0 <= i < |s| :: s[i] in s;
    }
  }

  lemma {:induction false} SlugAfterWord(a: string, b: string)
    requires '-' !in a
    ensures Slug(a + ['-'] + b) <==> Plain(a) && Slug(b)
  {
    var s := a + ['-'] + b;
    assert s[|a|] == '-' && forall i | 0 <= i < |b| :: b[i] == s[|a| + 1 + i];
    assert forall i | 0 <= i < |a| :: a[i] == s[i];
    if a != "" && b != "" {
      WordThenSlug(a, b);
    } else {
      assert s[0] == '-' || s[|s| - 1] == '-';
    }
  }

  lemma {:induction false} WordThenSlug(a: string, b: string)
    requires '-' !in a && a != "" && b != ""
    ensures Slug(a + ['-'] + b) <==> Plain(a) && Slug(b)
  {
    var s := a + ['-'] + b;
    assert s[|a|] == '-' && forall i | 0 <= i < |b| :: b[i] == s[|a| + 1 + i];
    assert forall i | 0 <= i < |a| :: a[i] == s[i];
    assert a[0] in a && s[0] == a[0] && s[|a| + 1] == b[0] && s[|s| - 1] == b[|b| - 1];
    if Plain(a) && Slug(b) {
      forall i | 0 <= i < |s| ensures LowerOrDigit(s[i]) || s[i] == '-' {
        if i < |a| {
          assert a[i] in a;
        } else if i > |a| {
          assert s[i] == b[i - |a| - 1];
        }
      }
    }
  }

  lemma {:induction false} SlugIsHyphenated(s: string)
    ensures Slug(s) <==> Hyphenated(s)
  {
    SlugWords(s);
    forall w ensures Word(w) <==> Plain(w) {
      WordIsPlain(w);
    }
    if Slug(s) {
      JoinSplit(s, '-');
    }
    if words: seq<string> :| |words| >= 1 && (forall w | w in words :: Word(w)) && s == Join(words, '-') {
      forall w | w in words ensures '-' !in w {
        assert Plain(w);
      }
      SplitJoin(words, '-');
    }
  }

  lemma {:induction false} SplitJoin(parts: seq<string>, sep: char)
    requires |parts| >= 1 && forall p | p in parts :: sep !in p
    ensures Split(Join(parts, sep), sep) == parts
  {
    SplitWhole(parts[0], sep);
    if |parts| > 1 {
      SplitJoin(parts[1..], sep);
      SplitConcat(parts[0], sep, Join(parts[1..], sep));
    }
  }

  lemma {:induction false} ScopePathIsChain(path: string)
    ensures ValidScopePath(path) <==> Chain(path)
  {
    forall s ensures Slug(s) <==> Hyphenated(s) {
      SlugIsHyphenated(s);
    }
    if path != "/" && ValidScopePath(path) {
      JoinSplit(path[1..], '/');
      assert path == "/" + Join(Split(path[1..], '/'), '/');
    }
    if slugs: seq<string> :| |slugs| >= 1 && (forall s | s in slugs :: Hyphenated(s)) && path == "/" + Join(slugs, '/') {
      forall s | s in slugs ensures '/' !in s {
        assert Slug(s);
      }
      SplitJoin(slugs, '/');
      assert path[1..] == Join(slugs, '/');
    }
  }

  lemma {:induction false} LettersAreLower(s: string)
    ensures Letters(s) <==> forall c | c in s :: 'a' <= c <= 'z'
    ensures Resource(s) <==> forall c | c in s :: 'a' <= c <= 'z' || c == '_'
  {
    forall c ensures c in LETTERS <==> 'a' <= c <= 'z' {
      LettersOf(c);
    }
  }

  lemma {:induction false} PermissionReads(s: string)
    requires ResourceAction(s)
    ensures PermissionName(s)
  {
    var i :| 0 < i < |s| - 1 && s[i] == ':' && Resource(s[..i]) && Letters(s[i + 1..]);
    var resource, action := s[..i], s[i + 1..];
    assert s == resource + [':'] + action;
    LettersAreLower(resource);
    LettersAreLower(action);
    SplitConcat(resource, ':', action);
    SplitWhole(resource, ':');
    SplitWhole(action, ':');
  }

  lemma {:induction false} PermissionIsResourceAction(s: string)
    ensures PermissionName(s) <==> ResourceAction(s)
  {
    if PermissionName(s) {
      var parts := Split(s, ':');
      JoinSplit(s, ':');
      assert s == parts[0] + [':'] + parts[1];
      var i := |parts[0]|;
      assert s[..i] == parts[0] && s[i + 1..] == parts[1] && s[i] == ':';
      LettersAreLower(parts[0]);
      LettersAreLower(parts[1]);
    }
    if ResourceAction(s) {
      PermissionReads(s);
    }
  }

  /* ---------- the rules of the documents ---------- */

  ghost predicate NodeRules(d: ScopeNodeDoc) {
    d.name != "" && |d.name| <= 255 && Hyphenated(d.slug)
  }

  /** An owner is a scope, a description is short, and at least one well-formed permission is given. */
  ghost predicate RoleRules(d: RoleDoc) {
    Hyphenated(d.name) && d.permissions != [] && (forall p | p in d.permissions :: ResourceAction(p))
    && match d.description {
         case None => true
         case Some(text) => |text| <= 1024
       }
    && match d.ownerScope {
         case None => true
         case Some(path) => Chain(path)
       }
  }

  ghost predicate AssignmentRules(a: Assignment) {
    a.user != "" && a.role != "" && Chain(a.scope)
  }

  /** A replacement has a body or names the file of one, a merge has a patch; a named file has a name. */
  ghost predicate OverrideRules(o: OverrideDoc) {
    Hyphenated(o.name) && Chain(o.scope) && o.bodyRef != Some("")
    && match o.strategy {
         case Replace => !(o.definition == None && o.bodyRef == None)
         case Merge => o.overrides != None
       }
  }

  lemma {:induction false} RulesAreSchemas(content: Content)
    ensures match content
      case NodeContent(d) => ValidNode(d) <==> NodeRules(d)
      case RoleContent(d) => ValidRole(d) <==> RoleRules(d)
      case AssignmentsContent(xs) => (forall a | a in xs :: ValidAssignment(a) <==> AssignmentRules(a))
      case DefinitionContent(_, d) => ValidDefinition(d) <==> Hyphenated(d.name)
      case OverrideContent(_, o) => ValidOverride(o) <==> OverrideRules(o)
      case Unrecognised(_) => true
  {
    forall s ensures Slug(s) <==> Hyphenated(s) {
      SlugIsHyphenated(s);
    }
    forall p ensures ValidScopePath(p) <==> Chain(p) {
      ScopePathIsChain(p);
    }
    forall p ensures PermissionName(p) <==> ResourceAction(p) {
      PermissionIsResourceAction(p);
    }
  }

  /* ---------- one file ---------- */

  /** The document is of the kind asked for and follows its rules. */
  ghost predicate Fits(schema: Schema, c: Content) {
    match schema
    case NodeSchema => c.NodeContent? && NodeRules(c.node)
    case RoleSchema => c.RoleContent? && RoleRules(c.role)
    case AssignmentsSchema => c.AssignmentsContent? && forall a | a in c.assignments :: AssignmentRules(a)
    case DefinitionSchema(k) => c.DefinitionContent? && c.kind == k && Hyphenated(c.definition.name)
    case OverrideSchema(k) => c.OverrideContent? && c.kind == k && OverrideRules(c.override)
  }

  /** The state a single document makes up. */
  function Only(path: string, c: Content): DesiredState {
    match c
    case NodeContent(d) => DesiredState([PlacedNode(ScopeDirOf(path), d)], [], [], [], [], [], [], [], [])
    case RoleContent(d) => DesiredState([], [d], [], [], [], [], [], [], [])
    case AssignmentsContent(xs) => DesiredState([], [], xs, [], [], [], [], [], [])
    case DefinitionContent(Agent, d) => DesiredState([], [], [], [d], [], [], [], [], [])
    case DefinitionContent(Workflow, d) => DesiredState([], [], [], [], [d], [], [], [], [])
    case DefinitionContent(Skill, d) => DesiredState([], [], [], [], [], [d], [], [], [])
    case OverrideContent(Agent, o) => DesiredState([], [], [], [], [], [], [o], [], [])
    case OverrideContent(Workflow, o) => DesiredState([], [], [], [], [], [], [], [o], [])
    case OverrideContent(Skill, o) => DesiredState([], [], [], [], [], [], [], [], [o])
    case Unrecognised(_) => EMPTY_STATE
  }

  lemma {:induction false} FitsIsAccepts(schema: Schema, c: Content)
    ensures Accepts(schema, c) <==> Fits(schema, c)
  {
    RulesAreSchemas(c);
  }

  lemma {:induction false} OnlyIsInserted(path: string, c: Content)
    ensures Insert(EMPTY_STATE, File(path, c)) == Only(path, c)
  {
  }

  lemma {:induction false} OnlyDefinition(path: string, kind: Kind, d: DefinitionDoc)
    requires ValidDefinition(d)
    ensures ValidState(Only(path, DefinitionContent(kind, d)))
  {
    var s := Only(path, DefinitionContent(kind, d));
    assert s.agents + s.workflows + s.skills == [d];
  }

  lemma {:induction false} OnlyOverride(path: string, kind: Kind, o: OverrideDoc)
    requires ValidOverride(o)
    ensures ValidState(Only(path, OverrideContent(kind, o)))
  {
    var s := Only(path, OverrideContent(kind, o));
    assert s.agentOverrides + s.workflowOverrides + s.skillOverrides == [o];
  }

  lemma {:induction false} OnlyNode(path: string, d: ScopeNodeDoc)
    requires ValidNode(d)
    ensures ValidState(Only(path, NodeContent(d))) <==> ValidScopePath(ScopeDirOf(path))
  {
    var s := Only(path, NodeContent(d));
    assert s.nodes[0] in s.nodes && s.nodes[0].path == ScopeDirOf(path);
  }

  lemma {:induction false} OnlyIsValid(schema: Schema, path: string, c: Content)
    requires Accepts(schema, c)
    ensures ValidState(Only(path, c)) <==> (c.NodeContent? ==> ValidScopePath(ScopeDirOf(path)))
  {
    match c
    case NodeContent(d) => OnlyNode(path, d);
    case RoleContent(d) =>
    case AssignmentsContent(xs) =>
    case DefinitionContent(k, d) => OnlyDefinition(path, k, d);
    case OverrideContent(k, o) => OnlyOverride(path, k, o);
  }

  lemma {:induction false} OneFile(path: string, c: Content, schema: Schema)
    requires Route(path) == Some(schema)
    ensures ParsedFiles([File(path, c)])
         == if !Fits(schema, c) then Failed([path])
            else if c.NodeContent? && !Chain(ScopeDirOf(path)) then Failed(["<aggregate>"])
            else Parsed(Only(path, c))
  {
    var start := Progress(EMPTY_STATE, []);
    var p := Step(start, File(path, c));
    assert Steps(start, [File(path, c)]) == Steps(p, [File(path, c)][1..]) == p;
    FitsIsAccepts(schema, c);
    OnlyIsInserted(path, c);
    if Accepts(schema, c) {
      OnlyIsValid(schema, path, c);
      ScopePathIsChain(ScopeDirOf(path));
    }
  }

  lemma {:induction false} FlatRoute(dir: string, name: string)
    requires '/' !in dir && '/' !in name && name != "scope"
    ensures var path := dir + "/" + name + ".yaml";
      (dir == "roles" ==> Route(path) == Some(RoleSchema))
      && (dir == "agents" ==> Route(path) == Some(DefinitionSchema(Agent)))
      && (dir == "workflows" ==> Route(path) == Some(DefinitionSchema(Workflow)))
      && (dir == "skills" ==> Route(path) == Some(DefinitionSchema(Skill)))
  {
    var path := dir + "/" + name + ".yaml";
    FlatFileParts(dir, name);
    YamlName(name);
    RouteByParts(path);
  }

  /** A file directly in "roles/" is a role or an error. */
  lemma {:induction false} RoleFileParses(name: string, c: Content)
    requires '/' !in name && name != "scope"
    ensures var path := "roles" + "/" + name + ".yaml";
      ParsedFiles([File(path, c)])
      == if c.RoleContent? && RoleRules(c.role) then Parsed(DesiredState([], [c.role], [], [], [], [], [], [], []))
         else Failed([path])
  {
    FlatRoute("roles", name);
    OneFile("roles" + "/" + name + ".yaml", c, RoleSchema);
  }

  /** The list of assignments is taken whole: one bad entry refuses the file. */
  lemma {:induction false} AssignmentsFileParses(c: Content)
    ensures ParsedFiles([File("assignments.yaml", c)])
         == if c.AssignmentsContent? && forall a | a in c.assignments :: AssignmentRules(a)
            then Parsed(DesiredState([], [], c.assignments, [], [], [], [], [], []))
            else Failed(["assignments.yaml"])
  {
    TopLevelFiles("assignments.yaml");
    OneFile("assignments.yaml", c, AssignmentsSchema);
  }

  lemma {:induction false} DefinitionFileParses(dir: string, kind: Kind, name: string, c: Content)
    requires '/' !in name && name != "scope"
    requires dir == KindName(kind)
    ensures var path := dir + "/" + name + ".yaml";
      ParsedFiles([File(path, c)])
      == if c.DefinitionContent? && c.kind == kind && Hyphenated(c.definition.name)
         then Parsed(Only(path, c))
         else Failed([path])
  {
    FlatRoute(dir, name);
    OneFile(dir + "/" + name + ".yaml", c, DefinitionSchema(kind));
  }

  /** A scope file names its node's place by the directories above it; a place that is no scope path
      spoils the whole parse. */
  lemma {:induction false} NodeFileParses(dir: string, c: Content)
    requires '.' !in dir
    ensures var path, place := "scopes" + dir + "/scope.yaml", if dir == "" then "/" else dir;
      ParsedFiles([File(path, c)])
      == if !(c.NodeContent? && NodeRules(c.node)) then Failed([path])
         else if Chain(place) then Parsed(DesiredState([PlacedNode(place, c.node)], [], [], [], [], [], [], [], []))
         else Failed(["<aggregate>"])
  {
    var path := "scopes" + dir + "/scope.yaml";
    assert path == "scopes" + (dir + ("/" + SCOPE_FILE));
    FirstAfterPlainPrefix(dir);
    assert path[|SCOPES_DIR|..] == dir + ("/" + SCOPE_FILE);
    assert EndsWith(path, "/" + SCOPE_FILE);
    OneFile(path, c, NodeSchema);
  }

  lemma {:induction false} ScopedParts(dir: string, file: string)
    requires dir != "" && dir[0] == '/' && '/' !in file
    ensures Split("scopes" + dir + "/" + file, '/') == ["scopes"] + Split(dir, '/')[1..] + [file]
    ensures Split(dir, '/')[0] == ""
  {
    assert "scopes" + dir == "scopes" + ['/'] + dir[1..] && dir == "" + ['/'] + dir[1..];
    SplitConcat("scopes", '/', dir[1..]);
    SplitConcat("", '/', dir[1..]);
    SplitWhole("scopes", '/');
    SplitConcat("scopes" + dir, '/', file);
    SplitWhole(file, '/');
  }

  /** Agents are looked for before workflows, and workflows before skills. */
  function FirstKind(dirs: seq<string>): Kind {
    if "agents" in dirs then Agent else if "workflows" in dirs then Workflow else Skill
  }

  lemma {:induction false} ScopedRoute(parts: seq<string>, last: string)
    requires |parts| >= 1 && parts[0] == "" && last != "scope.yaml"
    requires "agents" in parts || "workflows" in parts || "skills" in parts
    ensures RouteOfParts(["scopes"] + parts[1..] + [last]) == Some(OverrideSchema(FirstKind(parts)))
  {
    InnerParts(parts, last, "agents");
    InnerParts(parts, last, "workflows");
    InnerParts(parts, last, "skills");
  }

  /** Below "scopes/" the directory of a kind makes a file an override of that kind, wherever it lies. */
  lemma {:induction false} OverrideFileParses(dir: string, name: string, c: Content)
    requires dir != "" && dir[0] == '/' && '/' !in name && name != "scope"
    requires "agents" in Split(dir, '/') || "workflows" in Split(dir, '/') || "skills" in Split(dir, '/')
    ensures var path := "scopes" + dir + "/" + (name + ".yaml");
      ParsedFiles([File(path, c)])
      == if c.OverrideContent? && c.kind == FirstKind(Split(dir, '/')) && OverrideRules(c.override)
         then Parsed(Only(path, c))
         else Failed([path])
  {
    var path := "scopes" + dir + "/" + (name + ".yaml");
    YamlName(name);
    ScopedParts(dir, name + ".yaml");
    ScopedRoute(Split(dir, '/'), name + ".yaml");
    RouteByParts(path);
    OneFile(path, c, OverrideSchema(FirstKind(Split(dir, '/'))));
  }

  lemma {:induction false} InnerParts(parts: seq<string>, last: string, part: string)
    requires |parts| >= 1 && parts[0] == "" && part != ""
    ensures Inner(["scopes"] + parts[1..] + [last], part) <==> part in parts
  {
    var all := ["scopes"] + parts[1..] + [last];
    if part in parts {
      var i :| 0 <= i < |parts| && parts[i] == part;
      assert all[i] == part;
    }
    if k :| 0 < k < |all| - 1 && all[k] == part {
      assert parts[k] == part;
    }
  }

  /* ---------- many files ---------- */

  function Joined(x: DesiredState, y: DesiredState): DesiredState {
    DesiredState(x.nodes + y.nodes, x.roles + y.roles, x.assignments + y.assignments,
                 x.agents + y.agents, x.workflows + y.workflows, x.skills + y.skills,
                 x.agentOverrides + y.agentOverrides, x.workflowOverrides + y.workflowOverrides,
                 x.skillOverrides + y.skillOverrides)
  }

  /** The files complained about; a spoiled whole complains of none. */
  function Refused(r: ParseResult): seq<string> {
    if r.Parsed? || r.errorPaths == ["<aggregate>"] then [] else r.errorPaths
  }

  lemma {:induction false} InsertJoins(draft: DesiredState, f: File)
    ensures Insert(draft, f) == Joined(draft, Insert(EMPTY_STATE, f))
  {
    JoinedEmpty(draft);
    match f.content
    case NodeContent(d) =>
    case RoleContent(d) =>
    case AssignmentsContent(xs) =>
      assert EMPTY_STATE.assignments + xs == xs;
    case DefinitionContent(k, d) =>
      match k { case Agent => case Workflow => case Skill => }
    case OverrideContent(k, o) =>
      match k { case Agent => case Workflow => case Skill => }
    case Unrecognised(_) =>
  }

  lemma {:induction false} StepJoins(p: Progress<DesiredState>, f: File)
    ensures var q := Step(Progress(EMPTY_STATE, []), f);
      Step(p, f) == Progress(Joined(p.draft, q.draft), p.errors + q.errors)
  {
    JoinedEmpty(p.draft);
    InsertJoins(p.draft, f);
  }

  lemma {:induction false} StepsJoin(p: Progress<DesiredState>, files: seq<File>)
    ensures var q := Steps(Progress(EMPTY_STATE, []), files);
      Steps(p, files) == Progress(Joined(p.draft, q.draft), p.errors + q.errors)
    decreases files
  {
    if files != [] {
      var start := Progress(EMPTY_STATE, []);
      var one, rest := Step(start, files[0]), Steps(start, files[1..]);
      StepJoins(p, files[0]);
      StepsJoin(Step(p, files[0]), files[1..]);
      StepsJoin(one, files[1..]);
      JoinedAssociates(p.draft, one.draft, rest.draft);
    } else {
      JoinedEmpty(p.draft);
    }
  }

  lemma {:induction false} JoinedAssociates(x: DesiredState, y: DesiredState, z: DesiredState)
    ensures Joined(Joined(x, y), z) == Joined(x, Joined(y, z))
  {
  }

  lemma {:induction false} JoinedEmpty(x: DesiredState)
    ensures Joined(x, EMPTY_STATE) == x
  {
  }

  lemma {:induction false} JoinedValid(x: DesiredState, y: DesiredState)
    ensures ValidState(Joined(x, y)) <==> ValidState(x) && ValidState(y)
  {
  }

  lemma {:induction false} ErrorsAreRouted(files: seq<File>)
    ensures forall e | e in Steps(Progress(EMPTY_STATE, []), files).errors :: Route(e).Some?
    decreases files
  {
    if files != [] {
      ErrorsAreRouted(files[1..]);
      StepsJoin(Step(Progress(EMPTY_STATE, []), files[0]), files[1..]);
    }
  }

  /** The answer for one list after another: the states joined when both are read, else the files that
      either half complains about, else the complaint about the whole. */
  lemma {:induction false} ParseJoins(a: seq<File>, b: seq<File>)
    ensures ParsedFiles([]) == Parsed(DesiredState([], [], [], [], [], [], [], [], []))
    ensures var x, y := ParsedFiles(a), ParsedFiles(b);
      ParsedFiles(a + b)
      == if x.Parsed? && y.Parsed? then Parsed(Joined(x.state, y.state))
         else if Refused(x) + Refused(y) != [] then Failed(Refused(x) + Refused(y))
         else Failed(["<aggregate>"])
  {
    var start := Progress(EMPTY_STATE, []);
    var p, q := Steps(start, a), Steps(start, b);
    FoldConcat(Step, start, a, b);
    StepsJoin(p, b);
    JoinedValid(p.draft, q.draft);
    ErrorsAreRouted(a);
    ErrorsAreRouted(b);
    TopLevelFiles("<aggregate>");
    assert "<aggregate>" in ["<aggregate>"];
  }

  /* ---------- where things are written ---------- */

  function KindName(kind: Kind): string {
    match kind case Agent => "agents" case Workflow => "workflows" case Skill => "skills"
  }

  function Place(scope: string): string { if scope == "/" then "" else scope }

  lemma {:induction false} InMap<A, B>(f: A -> B, xs: seq<A>, y: B)
    ensures y in Map(f, xs) <==> exists i | 0 <= i < |xs| :: y == f(xs[i])
  {
    if y in Map(f, xs) {
      var i :| 0 <= i < |xs| && Map(f, xs)[i] == y;
      assert y == f(xs[i]);
    }
    if i :| 0 <= i < |xs| && y == f(xs[i]) {
      assert Map(f, xs)[i] == y;
    }
  }

  lemma {:induction false} WrittenNodes(xs: seq<PlacedNode>, f: File)
    ensures f in NodeFiles(xs) <==>
      f.content.NodeContent?
      && exists n | n in xs :: n.doc == f.content.node && f.path == "scopes" + Place(n.path) + "/scope.yaml"
  {
    InMap(NodeFile, xs, f);
    forall n: PlacedNode ensures NodeFile(n) == File("scopes" + Place(n.path) + "/scope.yaml", NodeContent(n.doc)) {
      assert "scopes" + Place(n.path) + "/scope.yaml" == "scopes" + Place(n.path) + "/" + "scope.yaml";
    }
  }

  lemma {:induction false} WrittenRoles(xs: seq<RoleDoc>, f: File)
    ensures f in RoleFiles(xs) <==>
      f.content.RoleContent? && f.content.role in xs && f.path == "roles/" + f.content.role.name + ".yaml"
  {
    InMap(RoleFile, xs, f);
    assert "roles/" == "roles" + "/";
  }

  lemma {:induction false} WrittenDefinitions(kind: Kind, xs: seq<DefinitionDoc>, f: File)
    ensures f in DefinitionFiles(kind, xs) <==>
      f.content.DefinitionContent? && f.content.kind == kind && f.content.definition in xs
      && f.path == KindName(kind) + "/" + f.content.definition.name + ".yaml"
  {
    InMap(DefinitionWriter(kind), xs, f);
  }

  lemma {:induction false} WrittenOverrides(kind: Kind, xs: seq<OverrideDoc>, f: File)
    ensures f in OverrideFiles(kind, xs) <==>
      f.content.OverrideContent? && f.content.kind == kind && f.content.override in xs
      && f.path == "scopes" + Place(f.content.override.scope) + "/" + KindName(kind) + "/" + f.content.override.name + ".yaml"
  {
    InMap(OverrideWriter(kind), xs, f);
    forall o: OverrideDoc
      ensures OverrideFile(kind, o) == File("scopes" + Place(o.scope) + "/" + KindName(kind) + "/" + o.name + ".yaml",
                                            OverrideContent(kind, o))
    {
      assert "scopes" + "" + "/" + KindName(kind) == "scopes" + "/" + KindName(kind);
    }
  }

  /** The files of a state are its objects, each at its place; the assignments share one file. */
  lemma {:induction false} WrittenFiles(s: DesiredState, f: File)
    ensures f in Serialized(s) <==> match f.content
      case NodeContent(d) => (exists n | n in s.nodes :: n.doc == d && f.path == "scopes" + Place(n.path) + "/scope.yaml")
      case RoleContent(d) => d in s.roles && f.path == "roles/" + d.name + ".yaml"
      case AssignmentsContent(xs) => xs == s.assignments && f.path == "assignments.yaml"
      case DefinitionContent(k, d) =>
        d in (match k case Agent => s.agents case Workflow => s.workflows case Skill => s.skills)
        && f.path == KindName(k) + "/" + d.name + ".yaml"
      case OverrideContent(k, o) =>
        o in (match k case Agent => s.agentOverrides case Workflow => s.workflowOverrides case Skill => s.skillOverrides)
        && f.path == "scopes" + Place(o.scope) + "/" + KindName(k) + "/" + o.name + ".yaml"
      case Unrecognised(_) => false
  {
    WrittenNodes(s.nodes, f);
    WrittenRoles(s.roles, f);
    WrittenDefinitions(Agent, s.agents, f);
    WrittenDefinitions(Workflow, s.workflows, f);
    WrittenDefinitions(Skill, s.skills, f);
    WrittenOverrides(Agent, s.agentOverrides, f);
    WrittenOverrides(Workflow, s.workflowOverrides, f);
    WrittenOverrides(Skill, s.skillOverrides, f);
  }
}
