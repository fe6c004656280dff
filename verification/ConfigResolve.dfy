/** A project resolved from all its config layers (cli/src/config.rs), and a shared file
    checked before it is written (cli/src/config_cmd.rs).

    A file is what it reads as: a project and a set of actions, either of which it may fail to
    be. `expand` stands for writing out the home directory in a root, `trim` for trimming. */
module ConfigResolve {
  import opened Hex
  import opened Layers

  datatype Path = ProjectFile(name: string) | GlobalFile | TemplateFile(name: string, ext: string) | RepoFile(root: string)

  datatype Parse<+T> = Parsed(value: T) | Malformed(error: string)

  datatype Ssh = Ssh(host: string, user: string, dir: string)

  datatype ProjectYaml = ProjectYaml(
    name: string, root: string, title: string, parentName: string, worktree: bool, ssh: Option<Ssh>,
    services: map<string, Service>, profiles: map<string, seq<string>>)

  datatype ActionsYaml = ActionsYaml(templates: seq<string>, terminals: map<string, Action>, actions: map<string, Action>)

  datatype File = File(project: Parse<ProjectYaml>, actions: Parse<ActionsYaml>)

  type Files = map<Path, File>

  /** The files, with one of them perhaps replaced by a candidate that is not written yet. */
  datatype Source = Source(files: Files, candidate: Option<(Path, File)>)

  datatype Env = Env(expand: string -> string, trim: string -> string, missing: Path -> string)

  datatype Project = Project(
    fileName: string, session: string, root: string, displayRoot: string, title: string, isRemote: bool,
    parentName: string, worktree: bool, services: map<string, Service>, profiles: map<string, seq<string>>,
    actions: map<string, Action>)

  // ---- reading -----------------------------------------------------------------------------

  function At(src: Source, path: Path): Option<File>
  {
    if src.candidate.Some? && src.candidate.value.0 == path then Some(src.candidate.value.1)
    else if path in src.files then Some(src.files[path])
    else None
  }

  /** `read_yaml_with`: what cannot be read is as if it were not there. */
  function ReadActions(src: Source, path: Path): Option<ActionsYaml>
  {
    match At(src, path)
    case Some(file) => if file.actions.Parsed? then Some(file.actions.value) else None
    case None => None
  }

  function ReadProject(src: Source, path: Path): Option<ProjectYaml>
  {
    match At(src, path)
    case Some(file) => if file.project.Parsed? then Some(file.project.value) else None
    case None => None
  }

  /** `parse_project_yaml_with`: a project's own file must be there and parse. */
  function ParseProject(env: Env, src: Source, name: string): Parse<ProjectYaml>
  {
    match At(src, ProjectFile(name))
    case Some(file) => file.project
    case None => Malformed(env.missing(ProjectFile(name)))
  }

  predicate IsRemote(y: ProjectYaml) { y.ssh.Some? && y.ssh.value.host != "" && y.ssh.value.user != "" }

  // ---- the layers of a project ----------------------------------------------------------------

  function AsTerminal(a: Action): Action
  {
    a.(kind := if a.kind == "" then "terminal" else a.kind, fromTerminals := true)
  }

  function AsAction(a: Action): Action { a.(fromTerminals := false) }

  /** One file's own entries: its actions, and its terminals where no action has the name. */
  function BaseLayer(y: ActionsYaml): Layer<Action>
  {
    map k | k in y.actions.Keys + y.terminals.Keys ::
      if k in y.actions then AsAction(y.actions[k]) else AsTerminal(y.terminals[k])
  }

  function Template(src: Source, name: string): Option<ActionsYaml>
  {
    var yml := ReadActions(src, TemplateFile(name, "yml"));
    if yml.Some? then yml else ReadActions(src, TemplateFile(name, "yaml"))
  }

  function TemplateLayers(src: Source, names: seq<string>): seq<Layer<Action>>
  {
    if names == [] then []
    else
      var init := TemplateLayers(src, names[..|names| - 1]);
      match Template(src, names[|names| - 1])
      case Some(t) => init + [BaseLayer(t)]
      case None => init
  }

  /** A file's entries and those of the templates it extends, as one flat list. */
  function FileLayers(src: Source, y: Option<ActionsYaml>): seq<Layer<Action>>
  {
    if y.None? then [] else [BaseLayer(y.value)] + TemplateLayers(src, y.value.templates)
  }

  function Parent(y: ProjectYaml): Option<string> { if y.parentName == "" then None else Some(y.parentName) }

  function RepoPath(env: Env, y: ProjectYaml): Option<Path>
  {
    var root := env.expand(y.root);
    if IsRemote(y) || root == "" then None else Some(RepoFile(root))
  }

  /** Every layer a project's actions come from, the highest first: its own file and templates,
      its parent's, the folder's, and the global file's. */
  function ActionLayers(env: Env, src: Source, name: string, y: ProjectYaml): seq<Layer<Action>>
  {
    var parent := Parent(y);
    var repo := RepoPath(env, y);
    FileLayers(src, ReadActions(src, ProjectFile(name)))
    + (if parent.Some? then FileLayers(src, ReadActions(src, ProjectFile(parent.value))) else [])
    + (if repo.Some? then FileLayers(src, ReadActions(src, repo.value)) else [])
    + FileLayers(src, ReadActions(src, GlobalFile))
  }

  /** The projects its services and profiles come from; never the global file. */
  function ServiceFiles(env: Env, src: Source, y: ProjectYaml): seq<ProjectYaml>
  {
    var parent := Parent(y);
    var repo := RepoPath(env, y);
    [y]
    + (if parent.Some? then Found(ReadProject(src, ProjectFile(parent.value))) else [])
    + (if repo.Some? then Found(ReadProject(src, repo.value)) else [])
  }

  function Found<T>(o: Option<T>): seq<T> { if o.Some? then [o.value] else [] }

  function First<V>(d: V, s: V): V { d }

  /** `resolve_project_with_source`, with every merge made at once. */
  function Resolve(env: Env, src: Source, name: string): Parse<Project>
  {
    match ParseProject(env, src, name)
    case Malformed(e) => Malformed(e)
    case Parsed(y) =>
      var files := ServiceFiles(env, src, y);
      var root := env.expand(y.root);
      Parsed(Project(
        name, if y.name == "" then name else y.name, root,
        if IsRemote(y) then env.trim(y.ssh.value.dir) else root, y.title, IsRemote(y), y.parentName, y.worktree,
        Flat(ServiceOver, Map(files, (f: ProjectYaml) => f.services)),
        Flat(First, Map(files, (f: ProjectYaml) => f.profiles)),
        Flat(Over, ActionLayers(env, src, name, y))))
  }

  // ---- the program's own way: one merge into the map at a time -----------------------------------

  /** Both maps' entries, those of `src` under those of `dst`, key by key. */
  method MergeInto<V>(over: (V, V) -> V, dst: Layer<V>, src: Layer<V>) returns (r: Layer<V>)
    ensures r == Under(over, dst, src)
  {
    r := dst;
    var left := src.Keys;
    while left != {}
      invariant left <= src.Keys
      invariant r.Keys == dst.Keys + (src.Keys - left)
      invariant forall k :: k in r ==>
        && (k !in src || k in left ==> r[k] == dst[k])
        && (k in src && k !in left ==> r[k] == if k in dst then over(dst[k], src[k]) else src[k])
      decreases left
    {
      var k :| k in left;
      r := r[k := if k in r then over(r[k], src[k]) else src[k]];
      left := left - {k};
    }
    assert r.Keys == Under(over, dst, src).Keys;
  }

  /** The entries of `src` whose key is still free, each as `f` writes it. */
  method AddMissing<V>(dst: Layer<V>, src: Layer<V>, f: V -> V) returns (m: Layer<V>)
    ensures m == map k | k in dst.Keys + src.Keys :: if k in dst then dst[k] else f(src[k])
  {
    m := dst;
    var left := src.Keys;
    while left != {}
      invariant left <= src.Keys
      invariant m == map k | k in dst.Keys + (src.Keys - left) :: if k in dst then dst[k] else f(src[k])
      decreases left
    {
      var k :| k in left;
      if k !in m {
        m := m[k := f(src[k])];
      }
      left := left - {k};
    }
  }

  method BuildBaseLayer(y: ActionsYaml) returns (m: Layer<Action>)
    ensures m == BaseLayer(y)
  {
    m := AddMissing(map[], y.actions, AsAction);
    m := AddMissing(m, y.terminals, AsTerminal);
  }

  lemma OverAssociates()
    ensures Associative(Over) && Associative(ServiceOver) && Associative<seq<string>>(First)
  {
    forall a, b, c
      ensures Over(a, Over(b, c)) == Over(Over(a, b), c)
    {
      OverIsAssociative(a, b, c);
    }
    forall a, b, c
      ensures ServiceOver(a, ServiceOver(b, c)) == ServiceOver(ServiceOver(a, b), c)
    {
      ServiceOverIsAssociative(a, b, c);
    }
  }

  lemma FlatOne<V>(over: (V, V) -> V, layer: Layer<V>)
    ensures Flat(over, [layer]) == layer
  {
    assert [layer][1..] == [];
    assert Under(over, layer, map[]).Keys == layer.Keys;
  }

  lemma FlatAppend<V(!new)>(over: (V, V) -> V, layers: seq<Layer<V>>, layer: Layer<V>)
    requires Associative(over)
    ensures Flat(over, layers + [layer]) == Under(over, Flat(over, layers), layer)
  {
    FlatConcat(over, layers, [layer]);
    FlatOne(over, layer);
  }

  method FindTemplate(src: Source, name: string) returns (t: Option<ActionsYaml>)
    ensures t == Template(src, name)
  {
    var exts := ["yml", "yaml"];
    var i := 0;
    while i < 2
      invariant 0 <= i <= 2
      invariant i >= 1 ==> ReadActions(src, TemplateFile(name, "yml")).None?
      invariant i == 2 ==> ReadActions(src, TemplateFile(name, "yaml")).None?
    {
      t := ReadActions(src, TemplateFile(name, exts[i]));
      if t.Some? {
        return;
      }
      i := i + 1;
    }
    t := None;
  }

  lemma OneMoreTemplate(src: Source, y: ActionsYaml, i: nat)
    requires i < |y.templates|
    ensures Flat(Over, [BaseLayer(y)] + TemplateLayers(src, y.templates[..i + 1]))
         == match Template(src, y.templates[i])
            case Some(t) => Under(Over, Flat(Over, [BaseLayer(y)] + TemplateLayers(src, y.templates[..i])), BaseLayer(t))
            case None => Flat(Over, [BaseLayer(y)] + TemplateLayers(src, y.templates[..i]))
  {
    assert y.templates[..i + 1][..i] == y.templates[..i];
    var t := Template(src, y.templates[i]);
    if t.Some? {
      OverAssociates();
      var before := [BaseLayer(y)] + TemplateLayers(src, y.templates[..i]);
      FlatAppend(Over, before, BaseLayer(t.value));
      assert before + [BaseLayer(t.value)] == [BaseLayer(y)] + TemplateLayers(src, y.templates[..i + 1]);
    }
  }

  /** `build_layer_with`: a file's entries, then one pass over its templates. */
  method BuildLayer(src: Source, y: ActionsYaml) returns (m: Layer<Action>)
    ensures m == Flat(Over, FileLayers(src, Some(y)))
  {
    m := BuildBaseLayer(y);
    FlatOne(Over, BaseLayer(y));
    assert [BaseLayer(y)] + [] == [BaseLayer(y)];
    var i := 0;
    while i < |y.templates|
      invariant 0 <= i <= |y.templates|
      invariant m == Flat(Over, [BaseLayer(y)] + TemplateLayers(src, y.templates[..i]))
    {
      OneMoreTemplate(src, y, i);
      var t := FindTemplate(src, y.templates[i]);
      if t.Some? {
        var layer := BuildBaseLayer(t.value);
        m := MergeInto(Over, m, layer);
      }
      i := i + 1;
    }
    assert y.templates[..|y.templates|] == y.templates;
  }

  /** One more file merged under what there is, if it reads. */
  method MergeFile(src: Source, path: Path, above: Layer<Action>, ghost layers: seq<Layer<Action>>)
      returns (m: Layer<Action>)
    requires above == Flat(Over, layers)
    ensures m == Flat(Over, layers + FileLayers(src, ReadActions(src, path)))
  {
    OverAssociates();
    m := above;
    var y := ReadActions(src, path);
    if y.Some? {
      var layer := BuildLayer(src, y.value);
      FlatConcat(Over, layers, FileLayers(src, y));
      m := MergeInto(Over, m, layer);
    } else {
      assert layers + [] == layers;
    }
  }

  method MergeActions(env: Env, src: Source, name: string, y: ProjectYaml) returns (m: Layer<Action>)
    ensures m == Flat(Over, ActionLayers(env, src, name, y))
  {
    ghost var own := FileLayers(src, ReadActions(src, ProjectFile(name)));
    assert [] + own == own;
    m := MergeFile(src, ProjectFile(name), map[], []);
    ghost var layers := own;
    var parent := Parent(y);
    if parent.Some? {
      m := MergeFile(src, ProjectFile(parent.value), m, layers);
      layers := layers + FileLayers(src, ReadActions(src, ProjectFile(parent.value)));
    }
    assert layers == own + (if parent.Some? then FileLayers(src, ReadActions(src, ProjectFile(parent.value))) else []);
    var repo := RepoPath(env, y);
    if repo.Some? {
      m := MergeFile(src, repo.value, m, layers);
      layers := layers + FileLayers(src, ReadActions(src, repo.value));
    }
    assert layers == own
      + (if parent.Some? then FileLayers(src, ReadActions(src, ProjectFile(parent.value))) else [])
      + (if repo.Some? then FileLayers(src, ReadActions(src, repo.value)) else []);
    m := MergeFile(src, GlobalFile, m, layers);
  }

  lemma FileAppend<V(!new)>(over: (V, V) -> V, files: seq<ProjectYaml>, f: ProjectYaml, field: ProjectYaml -> Layer<V>)
    requires Associative(over)
    ensures Flat(over, Map(files + [f], field)) == Under(over, Flat(over, Map(files, field)), field(f))
  {
    assert Map(files + [f], field) == Map(files, field) + [field(f)];
    FlatAppend(over, Map(files, field), field(f));
  }

  method MergeServices(env: Env, src: Source, y: ProjectYaml)
      returns (services: Layer<Service>, profiles: Layer<seq<string>>)
    ensures services == Flat(ServiceOver, Map(ServiceFiles(env, src, y), (f: ProjectYaml) => f.services))
    ensures profiles == Flat(First, Map(ServiceFiles(env, src, y), (f: ProjectYaml) => f.profiles))
  {
    OverAssociates();
    ghost var files := [y];
    services, profiles := y.services, y.profiles;
    FlatOne(ServiceOver, y.services);
    FlatOne(First, y.profiles);
    assert Map([y], (f: ProjectYaml) => f.services) == [y.services];
    assert Map([y], (f: ProjectYaml) => f.profiles) == [y.profiles];
    var parent := Parent(y);
    var py := if parent.Some? then ReadProject(src, ProjectFile(parent.value)) else None;
    if py.Some? {
      FileAppend(ServiceOver, files, py.value, (f: ProjectYaml) => f.services);
      FileAppend(First, files, py.value, (f: ProjectYaml) => f.profiles);
      services := MergeInto(ServiceOver, services, py.value.services);
      profiles := MergeInto(First, profiles, py.value.profiles);
      files := files + [py.value];
    }
    var repo := RepoPath(env, y);
    var ry := if repo.Some? then ReadProject(src, repo.value) else None;
    if ry.Some? {
      FileAppend(ServiceOver, files, ry.value, (f: ProjectYaml) => f.services);
      FileAppend(First, files, ry.value, (f: ProjectYaml) => f.profiles);
      services := MergeInto(ServiceOver, services, ry.value.services);
      profiles := MergeInto(First, profiles, ry.value.profiles);
      files := files + [ry.value];
    }
    assert files == ServiceFiles(env, src, y);
  }

  /** Merging layer by layer, templates into their file and file under file, gives what one
      flat list of all layers gives. */
  method ResolveProject(env: Env, src: Source, name: string) returns (r: Parse<Project>)
    ensures r == Resolve(env, src, name)
  {
    var parsed := ParseProject(env, src, name);
    if parsed.Malformed? {
      return Malformed(parsed.error);
    }
    var y := parsed.value;
    var root := env.expand(y.root);
    var services, profiles := MergeServices(env, src, y);
    var actions := MergeActions(env, src, name, y);
    return Parsed(Project(
      name, if y.name == "" then name else y.name, root,
      if IsRemote(y) then env.trim(y.ssh.value.dir) else root, y.title, IsRemote(y), y.parentName, y.worktree,
      services, profiles, actions));
  }

  // ---- what comes out of the layers ---------------------------------------------------------------

  /** A merged action: it is there when some layer declares it; each field is the first one
      that is not empty, confirming and reusing hold when any layer says so, and it is a
      terminal when the first layer to declare it has it as one. */
  lemma ActionFromLayers(layers: seq<Layer<Action>>, k: string)
    ensures k in Flat(Over, layers) <==> Declared(layers, k) != []
    ensures k in Flat(Over, layers) ==> FromEntries(Declared(layers, k), Flat(Over, layers)[k])
  {
    FlatIsCombined(Over, layers, k);
    if k in Flat(Over, layers) {
      ActionFromEntries(Declared(layers, k));
    }
  }

  ghost predicate FromEntries(entries: seq<Action>, a: Action)
    requires entries != []
  {
    && IsFirst(Map(entries, (e: Action) => e.cmd), NoText, a.cmd)
    && IsFirst(Map(entries, (e: Action) => e.title), NoText, a.title)
    && IsFirst(Map(entries, (e: Action) => e.emoji), NoText, a.emoji)
    && IsFirst(Map(entries, (e: Action) => e.shortcut), NoText, a.shortcut)
    && IsFirst(Map(entries, (e: Action) => e.cwd), NoText, a.cwd)
    && IsFirst(Map(entries, (e: Action) => e.port), NoPorts, a.port)
    && IsFirst(Map(entries, (e: Action) => e.portConflict), NoText, a.portConflict)
    && IsFirst(Map(entries, (e: Action) => e.env), NoEnv, a.env)
    && IsFirst(Map(entries, (e: Action) => e.display), NoText, a.display)
    && IsFirst(Map(entries, (e: Action) => e.kind), NoText, a.kind)
    && IsFirst(Map(entries, (e: Action) => e.mode), NoText, a.mode)
    && IsFirst(Map(entries, (e: Action) => e.position), NoPosition, a.position)
    && IsFirst(Map(entries, (e: Action) => e.children), NoChildren, a.children)
    && (a.confirm <==> exists e :: e in entries && e.confirm)
    && (a.reuse <==> exists e :: e in entries && e.reuse)
    && a.fromTerminals == entries[0].fromTerminals
  }

  lemma ActionFromEntries(entries: seq<Action>)
    requires entries != []
    ensures FromEntries(entries, Combined(Over, entries))
  {
    FieldIsFirst(Over, entries, (e: Action) => e.cmd, NoText);
    FieldIsFirst(Over, entries, (e: Action) => e.title, NoText);
    FieldIsFirst(Over, entries, (e: Action) => e.emoji, NoText);
    FieldIsFirst(Over, entries, (e: Action) => e.shortcut, NoText);
    FieldIsFirst(Over, entries, (e: Action) => e.cwd, NoText);
    FieldIsFirst(Over, entries, (e: Action) => e.port, NoPorts);
    FieldIsFirst(Over, entries, (e: Action) => e.portConflict, NoText);
    FieldIsFirst(Over, entries, (e: Action) => e.env, NoEnv);
    FieldIsFirst(Over, entries, (e: Action) => e.display, NoText);
    FieldIsFirst(Over, entries, (e: Action) => e.kind, NoText);
    FieldIsFirst(Over, entries, (e: Action) => e.mode, NoText);
    FieldIsFirst(Over, entries, (e: Action) => e.position, NoPosition);
    FieldIsFirst(Over, entries, (e: Action) => e.children, NoChildren);
    AnyLayerSays(entries);
  }

  lemma {:induction false} AnyLayerSays(entries: seq<Action>)
    requires entries != []
    ensures var a := Combined(Over, entries);
      && (a.confirm <==> exists e :: e in entries && e.confirm)
      && (a.reuse <==> exists e :: e in entries && e.reuse)
      && a.fromTerminals == entries[0].fromTerminals
  {
    if |entries| > 1 {
      AnyLayerSays(entries[1..]);
      assert forall e :: e in entries <==> e == entries[0] || e in entries[1..];
    }
  }

  /** A merged service: fields fall back as an action's do, but what it depends on is only what
      the first layer to declare it says. */
  lemma ServiceFromLayers(layers: seq<Layer<Service>>, k: string)
    ensures k in Flat(ServiceOver, layers) <==> Declared(layers, k) != []
    ensures k in Flat(ServiceOver, layers) ==>
              var entries, v := Declared(layers, k), Flat(ServiceOver, layers)[k];
              && IsFirst(Map(entries, (e: Service) => e.cmd), NoText, v.cmd)
              && IsFirst(Map(entries, (e: Service) => e.cwd), NoText, v.cwd)
              && IsFirst(Map(entries, (e: Service) => e.port), NoPort, v.port)
              && IsFirst(Map(entries, (e: Service) => e.portConflict), NoText, v.portConflict)
              && IsFirst(Map(entries, (e: Service) => e.env), NoEnv, v.env)
              && IsFirst(Map(entries, (e: Service) => e.ready), NoReady, v.ready)
              && v.dependsOn == entries[0].dependsOn
  {
    FlatIsCombined(ServiceOver, layers, k);
    if k in Flat(ServiceOver, layers) {
      var entries := Declared(layers, k);
      FieldIsFirst(ServiceOver, entries, (e: Service) => e.cmd, NoText);
      FieldIsFirst(ServiceOver, entries, (e: Service) => e.cwd, NoText);
      FieldIsFirst(ServiceOver, entries, (e: Service) => e.port, NoPort);
      FieldIsFirst(ServiceOver, entries, (e: Service) => e.portConflict, NoText);
      FieldIsFirst(ServiceOver, entries, (e: Service) => e.env, NoEnv);
      FieldIsFirst(ServiceOver, entries, (e: Service) => e.ready, NoReady);
    }
  }
}
