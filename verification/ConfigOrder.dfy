/** Which file has the say over what of a project (cli/src/config.rs), told from the files. */
module ConfigOrder {
  import opened Hex
  import opened Layers
  import opened ConfigResolve

  /** The first of the values that says something. */
  function FirstSet<T(==)>(values: seq<T>, none: T): T
  {
    if values == [] then none else if values[0] != none then values[0] else FirstSet(values[1..], none)
  }

  lemma {:induction false} FirstSetConcat<T>(a: seq<T>, b: seq<T>, none: T)
    ensures FirstSet(a + b, none) == if FirstSet(a, none) != none then FirstSet(a, none) else FirstSet(b, none)
  {
    if a == [] {
      assert a + b == b;
    } else {
      assert (a + b)[1..] == a[1..] + b;
      FirstSetConcat(a[1..], b, none);
    }
  }

  /** The field of a merged entry is the higher one's, or else the lower one's. */
  ghost predicate FallsBack<V(!new), T>(over: (V, V) -> V, field: V -> T, none: T)
  {
    forall d, s :: field(over(d, s)) == if field(d) == none then field(s) else field(d)
  }

  function SaysIn<V, T>(layer: Layer<V>, k: string, field: V -> T, none: T): T
  {
    if k in layer then field(layer[k]) else none
  }

  function Says<V, T>(layers: seq<Layer<V>>, k: string, field: V -> T, none: T): seq<T>
  {
    seq(|layers|, i requires 0 <= i < |layers| => SaysIn(layers[i], k, field, none))
  }

  lemma {:induction false} FlatSays<V(!new), T>(over: (V, V) -> V, layers: seq<Layer<V>>, k: string,
                                                    field: V -> T, none: T)
    requires FallsBack(over, field, none)
    ensures SaysIn(Flat(over, layers), k, field, none) == FirstSet(Says(layers, k, field, none), none)
  {
    if layers != [] {
      FlatSays(over, layers[1..], k, field, none);
      assert Says(layers, k, field, none)[1..] == Says(layers[1..], k, field, none);
    }
  }

  lemma SaysConcat<V, T>(a: seq<Layer<V>>, b: seq<Layer<V>>, k: string, field: V -> T, none: T)
    ensures Says(a + b, k, field, none) == Says(a, k, field, none) + Says(b, k, field, none)
  {
  }

  lemma TwoParts<V, T>(a: seq<Layer<V>>, b: seq<Layer<V>>, k: string, field: V -> T, none: T)
    ensures var x, y := FirstSet(Says(a, k, field, none), none), FirstSet(Says(b, k, field, none), none);
      FirstSet(Says(a + b, k, field, none), none) == if x != none then x else y
  {
    SaysConcat(a, b, k, field, none);
    FirstSetConcat(Says(a, k, field, none), Says(b, k, field, none), none);
  }

  // ---- one file -------------------------------------------------------------------------

  /** What a file says under a key: an action goes over a terminal of that name, and a terminal
      is of that kind when it names no other. */
  function EntrySays<T>(y: ActionsYaml, k: string, field: Action -> T, none: T): T
  {
    if k in y.actions then field(y.actions[k].(fromTerminals := false))
    else if k in y.terminals then
      var t := y.terminals[k].(fromTerminals := true);
      field(if t.kind == "" then t.(kind := "terminal") else t)
    else none
  }

  /** A template is read from its `yml` file, and from its `yaml` file only without that one. */
  function TemplateSays<T>(src: Source, name: string, k: string, field: Action -> T, none: T): T
  {
    match ReadActions(src, TemplateFile(name, "yml"))
    case Some(y) => EntrySays(y, k, field, none)
    case None =>
      match ReadActions(src, TemplateFile(name, "yaml"))
      case Some(y) => EntrySays(y, k, field, none)
      case None => none
  }

  function TemplatesSay<T>(src: Source, names: seq<string>, k: string, field: Action -> T, none: T): seq<T>
  {
    seq(|names|, i requires 0 <= i < |names| => TemplateSays(src, names[i], k, field, none))
  }

  /** A file goes over the templates it extends, and they go one over the next. */
  function FileSays<T(==)>(src: Source, path: Path, k: string, field: Action -> T, none: T): T
  {
    match ReadActions(src, path)
    case Some(y) => FirstSet([EntrySays(y, k, field, none)] + TemplatesSay(src, y.templates, k, field, none), none)
    case None => none
  }

  lemma BaseSays<T>(y: ActionsYaml, k: string, field: Action -> T, none: T)
    ensures SaysIn(BaseLayer(y), k, field, none) == EntrySays(y, k, field, none)
  {
  }

  lemma OneLayer<T>(y: ActionsYaml, k: string, field: Action -> T, none: T)
    ensures FirstSet(Says([BaseLayer(y)], k, field, none), none) == EntrySays(y, k, field, none)
  {
    BaseSays(y, k, field, none);
    assert Says([BaseLayer(y)], k, field, none) == [EntrySays(y, k, field, none)];
    OneSet(EntrySays(y, k, field, none), none);
  }

  lemma OneSet<T>(v: T, none: T)
    ensures FirstSet([v], none) == v
  {
    assert [v][1..] == [];
  }

  lemma TemplatesGrow<T>(src: Source, names: seq<string>, k: string, field: Action -> T, none: T)
    requires names != []
    ensures var init := FirstSet(TemplatesSay(src, names[..|names| - 1], k, field, none), none);
      FirstSet(TemplatesSay(src, names, k, field, none), none)
      == if init != none then init else TemplateSays(src, names[|names| - 1], k, field, none)
  {
    var init, last := TemplatesSay(src, names[..|names| - 1], k, field, none), names[|names| - 1];
    assert TemplatesSay(src, names, k, field, none) == init + [TemplateSays(src, last, k, field, none)];
    FirstSetConcat(init, [TemplateSays(src, last, k, field, none)], none);
    OneSet(TemplateSays(src, last, k, field, none), none);
  }

  lemma {:induction false} TemplateLayersSay<T>(src: Source, names: seq<string>, k: string, field: Action -> T, none: T)
    ensures FirstSet(Says(TemplateLayers(src, names), k, field, none), none)
         == FirstSet(TemplatesSay(src, names, k, field, none), none)
  {
    if names != [] {
      TemplateLayersSay(src, names[..|names| - 1], k, field, none);
      LastTemplateSays(src, names, k, field, none);
      TemplatesGrow(src, names, k, field, none);
    }
  }

  lemma LastTemplateSays<T>(src: Source, names: seq<string>, k: string, field: Action -> T, none: T)
    requires names != []
    ensures var init := FirstSet(Says(TemplateLayers(src, names[..|names| - 1]), k, field, none), none);
      FirstSet(Says(TemplateLayers(src, names), k, field, none), none)
      == if init != none then init else TemplateSays(src, names[|names| - 1], k, field, none)
  {
    var init, last := TemplateLayers(src, names[..|names| - 1]), names[|names| - 1];
    match Template(src, last)
    case Some(t) =>
      TwoParts(init, [BaseLayer(t)], k, field, none);
      OneLayer(t, k, field, none);
    case None =>
  }

  lemma FileLayersSay<T>(src: Source, path: Path, k: string, field: Action -> T, none: T)
    ensures FirstSet(Says(FileLayers(src, ReadActions(src, path)), k, field, none), none)
         == FileSays(src, path, k, field, none)
  {
    match ReadActions(src, path)
    case None =>
    case Some(y) =>
      TwoParts([BaseLayer(y)], TemplateLayers(src, y.templates), k, field, none);
      OneLayer(y, k, field, none);
      TemplateLayersSay(src, y.templates, k, field, none);
      var own := EntrySays(y, k, field, none);
      FirstSetConcat([own], TemplatesSay(src, y.templates, k, field, none), none);
      OneSet(own, none);
  }

  // ---- all files ---------------------------------------------------------------------------

  /** The project's own file has the first say, then its parent's, the folder's, and last the
      global one. A remote project, or one without a root, has no folder's file. */
  function ProjectSays<T(==)>(env: Env, src: Source, name: string, y: ProjectYaml, k: string,
                              field: Action -> T, none: T): T
  {
    var root := env.expand(y.root);
    FirstSet([
      FileSays(src, ProjectFile(name), k, field, none),
      if y.parentName == "" then none else FileSays(src, ProjectFile(y.parentName), k, field, none),
      if IsRemote(y) || root == "" then none else FileSays(src, RepoFile(root), k, field, none),
      FileSays(src, GlobalFile, k, field, none)], none)
  }

  lemma ThreeSet<T>(a: T, b: T, c: T, none: T)
    ensures FirstSet([a, b, c], none) == if a != none then a else if b != none then b else c
  {
    assert [a, b, c][1..] == [b, c] && [b, c][1..] == [c];
    OneSet(c, none);
  }

  lemma FourSet<T>(a: T, b: T, c: T, d: T, none: T)
    ensures FirstSet([a, b, c, d], none)
         == if a != none then a else if b != none then b else if c != none then c else d
  {
    assert [a, b, c, d][1..] == [b, c, d];
    ThreeSet(b, c, d, none);
  }

  lemma NoLayers<T>(k: string, field: Action -> T, none: T)
    ensures FirstSet(Says<Action, T>([], k, field, none), none) == none
  {
  }

  lemma LayersSay<T>(env: Env, src: Source, name: string, y: ProjectYaml, k: string, field: Action -> T, none: T)
    ensures FirstSet(Says(ActionLayers(env, src, name, y), k, field, none), none)
         == ProjectSays(env, src, name, y, k, field, none)
  {
    var root := env.expand(y.root);
    var own := FileLayers(src, ReadActions(src, ProjectFile(name)));
    var parent := if y.parentName == "" then [] else FileLayers(src, ReadActions(src, ProjectFile(y.parentName)));
    var repo := if IsRemote(y) || root == "" then [] else FileLayers(src, ReadActions(src, RepoFile(root)));
    var all := FileLayers(src, ReadActions(src, GlobalFile));
    assert ActionLayers(env, src, name, y) == own + parent + repo + all;
    TwoParts(own + parent + repo, all, k, field, none);
    TwoParts(own + parent, repo, k, field, none);
    TwoParts(own, parent, k, field, none);
    NoLayers(k, field, none);
    FileLayersSay(src, ProjectFile(name), k, field, none);
    FileLayersSay(src, ProjectFile(y.parentName), k, field, none);
    FileLayersSay(src, RepoFile(root), k, field, none);
    FileLayersSay(src, GlobalFile, k, field, none);
    FourSet(
      FileSays(src, ProjectFile(name), k, field, none),
      if y.parentName == "" then none else FileSays(src, ProjectFile(y.parentName), k, field, none),
      if IsRemote(y) || root == "" then none else FileSays(src, RepoFile(root), k, field, none),
      FileSays(src, GlobalFile, k, field, none), none);
  }

  /** A field of a merged action is what the first file that says anything of it says. */
  lemma FieldComesFrom<T>(env: Env, src: Source, name: string, y: ProjectYaml, k: string,
                              field: Action -> T, none: T)
    requires FallsBack(Over, field, none)
    ensures SaysIn(Flat(Over, ActionLayers(env, src, name, y)), k, field, none)
         == ProjectSays(env, src, name, y, k, field, none)
  {
    FlatSays(Over, ActionLayers(env, src, name, y), k, field, none);
    LayersSay(env, src, name, y, k, field, none);
  }

  lemma TextsFallBack()
    ensures FallsBack(Over, (a: Action) => a.cmd, "")
    ensures FallsBack(Over, (a: Action) => a.title, "")
    ensures FallsBack(Over, (a: Action) => a.emoji, "")
    ensures FallsBack(Over, (a: Action) => a.shortcut, "")
    ensures FallsBack(Over, (a: Action) => a.cwd, "")
    ensures FallsBack(Over, (a: Action) => a.portConflict, "")
    ensures FallsBack(Over, (a: Action) => a.display, "")
    ensures FallsBack(Over, (a: Action) => a.kind, "")
    ensures FallsBack(Over, (a: Action) => a.mode, "")
  {
  }

  lemma OthersFallBack()
    ensures FallsBack(Over, (a: Action) => Ports(a.port), [])
    ensures FallsBack(Over, (a: Action) => a.env, map[])
    ensures FallsBack(Over, (a: Action) => a.children, map[])
    ensures FallsBack(Over, (a: Action) => a.position, None)
    ensures FallsBack(Over, (a: Action) => a.confirm, false)
    ensures FallsBack(Over, (a: Action) => a.reuse, false)
    ensures FallsBack(Over, (a: Action) => Some(a.fromTerminals), None)
    ensures FallsBack(Over, (_: Action) => true, false)
  {
  }

  /** Every field of a merged action: what the first file in order says that says anything, and
      for the block it is shown in the first that declares it. */
  ghost predicate MergedFrom(env: Env, src: Source, name: string, y: ProjectYaml, k: string, a: Action)
  {
    && a.cmd == ProjectSays(env, src, name, y, k, (e: Action) => e.cmd, "")
    && a.title == ProjectSays(env, src, name, y, k, (e: Action) => e.title, "")
    && a.emoji == ProjectSays(env, src, name, y, k, (e: Action) => e.emoji, "")
    && a.shortcut == ProjectSays(env, src, name, y, k, (e: Action) => e.shortcut, "")
    && a.cwd == ProjectSays(env, src, name, y, k, (e: Action) => e.cwd, "")
    && a.portConflict == ProjectSays(env, src, name, y, k, (e: Action) => e.portConflict, "")
    && a.display == ProjectSays(env, src, name, y, k, (e: Action) => e.display, "")
    && a.kind == ProjectSays(env, src, name, y, k, (e: Action) => e.kind, "")
    && a.mode == ProjectSays(env, src, name, y, k, (e: Action) => e.mode, "")
    && Ports(a.port) == ProjectSays(env, src, name, y, k, (e: Action) => Ports(e.port), [])
    && a.env == ProjectSays(env, src, name, y, k, (e: Action) => e.env, map[])
    && a.children == ProjectSays(env, src, name, y, k, (e: Action) => e.children, map[])
    && a.position == ProjectSays(env, src, name, y, k, (e: Action) => e.position, None)
    && a.confirm == ProjectSays(env, src, name, y, k, (e: Action) => e.confirm, false)
    && a.reuse == ProjectSays(env, src, name, y, k, (e: Action) => e.reuse, false)
    && Some(a.fromTerminals) == ProjectSays(env, src, name, y, k, (e: Action) => Some(e.fromTerminals), None)
  }

  lemma ActionIsMerged(env: Env, src: Source, name: string, y: ProjectYaml, k: string)
    ensures var m := Flat(Over, ActionLayers(env, src, name, y));
      && (k in m <==> ProjectSays(env, src, name, y, k, (_: Action) => true, false))
      && (k in m ==> MergedFrom(env, src, name, y, k, m[k]))
  {
    TextsFallBack();
    OthersFallBack();
    FieldComesFrom(env, src, name, y, k, (_: Action) => true, false);
    FieldComesFrom(env, src, name, y, k, (e: Action) => e.cmd, "");
    FieldComesFrom(env, src, name, y, k, (e: Action) => e.title, "");
    FieldComesFrom(env, src, name, y, k, (e: Action) => e.emoji, "");
    FieldComesFrom(env, src, name, y, k, (e: Action) => e.shortcut, "");
    FieldComesFrom(env, src, name, y, k, (e: Action) => e.cwd, "");
    FieldComesFrom(env, src, name, y, k, (e: Action) => e.portConflict, "");
    FieldComesFrom(env, src, name, y, k, (e: Action) => e.display, "");
    FieldComesFrom(env, src, name, y, k, (e: Action) => e.kind, "");
    FieldComesFrom(env, src, name, y, k, (e: Action) => e.mode, "");
    FieldComesFrom(env, src, name, y, k, (e: Action) => Ports(e.port), []);
    FieldComesFrom(env, src, name, y, k, (e: Action) => e.env, map[]);
    FieldComesFrom(env, src, name, y, k, (e: Action) => e.children, map[]);
    FieldComesFrom(env, src, name, y, k, (e: Action) => e.position, None);
    FieldComesFrom(env, src, name, y, k, (e: Action) => e.confirm, false);
    FieldComesFrom(env, src, name, y, k, (e: Action) => e.reuse, false);
    FieldComesFrom(env, src, name, y, k, (e: Action) => Some(e.fromTerminals), None);
  }

  // ---- services and profiles -----------------------------------------------------------------

  function OtherSays<V, T>(src: Source, path: Path, k: string, layer: ProjectYaml -> Layer<V>, field: V -> T, none: T): T
  {
    match ReadProject(src, path)
    case Some(p) => SaysIn(layer(p), k, field, none)
    case None => none
  }

  /** The project's own file, then its parent's, then the folder's; never the global one. */
  function ServicesSay<V, T(==)>(env: Env, src: Source, y: ProjectYaml, k: string, layer: ProjectYaml -> Layer<V>,
                                 field: V -> T, none: T): T
  {
    var root := env.expand(y.root);
    FirstSet([
      SaysIn(layer(y), k, field, none),
      if y.parentName == "" then none else OtherSays(src, ProjectFile(y.parentName), k, layer, field, none),
      if IsRemote(y) || root == "" then none else OtherSays(src, RepoFile(root), k, layer, field, none)], none)
  }

  /** The layers one more file adds, if it reads. */
  lemma FileAdds<V, T>(files: seq<ProjectYaml>, more: Option<ProjectYaml>, k: string, layer: ProjectYaml -> Layer<V>,
                       field: V -> T, none: T)
    ensures var w := FirstSet(Says(Map(files, layer), k, field, none), none);
      FirstSet(Says(Map(files + Found(more), layer), k, field, none), none)
      == if w != none then w else if more.Some? then SaysIn(layer(more.value), k, field, none) else none
  {
    if more.Some? {
      assert Map(files + Found(more), layer) == Map(files, layer) + [layer(more.value)];
      TwoParts(Map(files, layer), [layer(more.value)], k, field, none);
      assert Says([layer(more.value)], k, field, none) == [SaysIn(layer(more.value), k, field, none)];
      OneSet(SaysIn(layer(more.value), k, field, none), none);
    } else {
      assert files + Found(more) == files;
    }
  }

  lemma FilesSay<V, T>(env: Env, src: Source, y: ProjectYaml, k: string, layer: ProjectYaml -> Layer<V>,
                       field: V -> T, none: T)
    ensures FirstSet(Says(Map(ServiceFiles(env, src, y), layer), k, field, none), none)
         == ServicesSay(env, src, y, k, layer, field, none)
  {
    var root := env.expand(y.root);
    var parent := if y.parentName == "" then None else ReadProject(src, ProjectFile(y.parentName));
    var repo := if IsRemote(y) || root == "" then None else ReadProject(src, RepoFile(root));
    assert ServiceFiles(env, src, y) == [y] + Found(parent) + Found(repo);
    FileAdds([y] + Found(parent), repo, k, layer, field, none);
    FileAdds([y], parent, k, layer, field, none);
    assert Says(Map([y], layer), k, field, none) == [SaysIn(layer(y), k, field, none)];
    OneSet(SaysIn(layer(y), k, field, none), none);
    ThreeSet(
      SaysIn(layer(y), k, field, none),
      if y.parentName == "" then none else OtherSays(src, ProjectFile(y.parentName), k, layer, field, none),
      if IsRemote(y) || root == "" then none else OtherSays(src, RepoFile(root), k, layer, field, none), none);
  }

  lemma FieldOfFiles<V(!new), T>(env: Env, src: Source, y: ProjectYaml, over: (V, V) -> V, k: string,
                                 layer: ProjectYaml -> Layer<V>, field: V -> T, none: T)
    requires FallsBack(over, field, none)
    ensures SaysIn(Flat(over, Map(ServiceFiles(env, src, y), layer)), k, field, none)
         == ServicesSay(env, src, y, k, layer, field, none)
  {
    FlatSays(over, Map(ServiceFiles(env, src, y), layer), k, field, none);
    FilesSay(env, src, y, k, layer, field, none);
  }

  function ServicesOf(): ProjectYaml -> Layer<Service> { (f: ProjectYaml) => f.services }

  function ProfilesOf(): ProjectYaml -> Layer<seq<string>> { (f: ProjectYaml) => f.profiles }

  /** Every field of a merged service; what it depends on is the first declaring file's word
      alone. */
  ghost predicate ServiceFrom(env: Env, src: Source, y: ProjectYaml, k: string, v: Service)
  {
    && v.cmd == ServicesSay(env, src, y, k, ServicesOf(), (e: Service) => e.cmd, "")
    && v.cwd == ServicesSay(env, src, y, k, ServicesOf(), (e: Service) => e.cwd, "")
    && v.port == ServicesSay(env, src, y, k, ServicesOf(), (e: Service) => e.port, 0)
    && v.portConflict == ServicesSay(env, src, y, k, ServicesOf(), (e: Service) => e.portConflict, "")
    && v.env == ServicesSay(env, src, y, k, ServicesOf(), (e: Service) => e.env, map[])
    && v.ready == ServicesSay(env, src, y, k, ServicesOf(), (e: Service) => e.ready, None)
    && Some(v.dependsOn) == ServicesSay(env, src, y, k, ServicesOf(), (e: Service) => Some(e.dependsOn), None)
  }

  lemma ServiceFieldsFallBack()
    ensures FallsBack(ServiceOver, (e: Service) => e.cmd, "") && FallsBack(ServiceOver, (e: Service) => e.cwd, "")
    ensures FallsBack(ServiceOver, (e: Service) => e.port, 0)
    ensures FallsBack(ServiceOver, (e: Service) => e.portConflict, "")
    ensures FallsBack(ServiceOver, (e: Service) => e.env, map[]) && FallsBack(ServiceOver, (e: Service) => e.ready, None)
    ensures FallsBack(ServiceOver, (e: Service) => Some(e.dependsOn), None)
    ensures FallsBack(ServiceOver, (_: Service) => true, false)
  {
  }

  lemma ServiceIsMerged(env: Env, src: Source, y: ProjectYaml, k: string)
    ensures var m := Flat(ServiceOver, Map(ServiceFiles(env, src, y), ServicesOf()));
      && (k in m <==> ServicesSay(env, src, y, k, ServicesOf(), (_: Service) => true, false))
      && (k in m ==> ServiceFrom(env, src, y, k, m[k]))
  {
    ServiceFieldsFallBack();
    FieldOfFiles(env, src, y, ServiceOver, k, ServicesOf(), (_: Service) => true, false);
    FieldOfFiles(env, src, y, ServiceOver, k, ServicesOf(), (e: Service) => e.cmd, "");
    FieldOfFiles(env, src, y, ServiceOver, k, ServicesOf(), (e: Service) => e.cwd, "");
    FieldOfFiles(env, src, y, ServiceOver, k, ServicesOf(), (e: Service) => e.port, 0);
    FieldOfFiles(env, src, y, ServiceOver, k, ServicesOf(), (e: Service) => e.portConflict, "");
    FieldOfFiles(env, src, y, ServiceOver, k, ServicesOf(), (e: Service) => e.env, map[]);
    FieldOfFiles(env, src, y, ServiceOver, k, ServicesOf(), (e: Service) => e.ready, None);
    FieldOfFiles(env, src, y, ServiceOver, k, ServicesOf(), (e: Service) => Some(e.dependsOn), None);
  }

  lemma ProfileIsMerged(env: Env, src: Source, y: ProjectYaml, k: string)
    ensures var m := Flat(First, Map(ServiceFiles(env, src, y), ProfilesOf()));
      (if k in m then Some(m[k]) else None)
        == ServicesSay(env, src, y, k, ProfilesOf(), (v: seq<string>) => Some(v), None)
  {
    assert FallsBack(First<seq<string>>, (v: seq<string>) => Some(v), None);
    FieldOfFiles(env, src, y, First, k, ProfilesOf(), (v: seq<string>) => Some(v), None);
  }

  // ---- the whole project ---------------------------------------------------------------------

  /** What is told of the project itself is its own file's word. */
  ghost predicate HeaderFrom(env: Env, name: string, y: ProjectYaml, p: Project)
  {
    && p.fileName == name && p.session == (if y.name != "" then y.name else name)
    && p.root == env.expand(y.root) && p.title == y.title && p.parentName == y.parentName && p.worktree == y.worktree
    && (p.isRemote <==> y.ssh.Some? && y.ssh.value.host != "" && y.ssh.value.user != "")
    && p.displayRoot == if p.isRemote then env.trim(y.ssh.value.dir) else p.root
  }

  /** A project resolves exactly when its own file is there and parses, and then all of it comes
      from the files, in this order. */
  lemma ProjectComesFrom(env: Env, src: Source, name: string)
    ensures var file, r := At(src, ProjectFile(name)), Resolve(env, src, name);
      && (r.Parsed? <==> file.Some? && file.value.project.Parsed?)
      && (r.Malformed? ==> r.error == if file.Some? then file.value.project.error else env.missing(ProjectFile(name)))
      && (r.Parsed? ==>
            var y, p := file.value.project.value, r.value;
            && HeaderFrom(env, name, y, p)
            && (forall k :: k in p.services ==> ServiceFrom(env, src, y, k, p.services[k]))
            && (forall k :: k in p.services <==> ServicesSay(env, src, y, k, ServicesOf(), (_: Service) => true, false))
            && (forall k :: (if k in p.profiles then Some(p.profiles[k]) else None)
                  == ServicesSay(env, src, y, k, ProfilesOf(), (v: seq<string>) => Some(v), None))
            && (forall k :: k in p.actions ==> MergedFrom(env, src, name, y, k, p.actions[k]))
            && (forall k :: k in p.actions <==> ProjectSays(env, src, name, y, k, (_: Action) => true, false)))
  {
    var r := Resolve(env, src, name);
    if r.Parsed? {
      var y := At(src, ProjectFile(name)).value.project.value;
      forall k
        ensures k in r.value.services ==> ServiceFrom(env, src, y, k, r.value.services[k])
        ensures k in r.value.services <==> ServicesSay(env, src, y, k, ServicesOf(), (_: Service) => true, false)
      {
        ServiceIsMerged(env, src, y, k);
      }
      forall k
        ensures (if k in r.value.profiles then Some(r.value.profiles[k]) else None)
             == ServicesSay(env, src, y, k, ProfilesOf(), (v: seq<string>) => Some(v), None)
      {
        ProfileIsMerged(env, src, y, k);
      }
      forall k
        ensures k in r.value.actions ==> MergedFrom(env, src, name, y, k, r.value.actions[k])
        ensures k in r.value.actions <==> ProjectSays(env, src, name, y, k, (_: Action) => true, false)
      {
        ActionIsMerged(env, src, name, y, k);
      }
    }
  }
}
