/** Whether a config file may be written as it would be (cli/src/config_cmd.rs): a shared file
    is held only against what it would break.

    `effective` stands for the checks of a resolved project, `schema` for the errors of the
    file on its own. */
module ConfigAccept {
  import opened Hex
  import opened ConfigResolve

  // ---- the candidate read in place of the file --------------------------------------------------

  function Today(files: Files): Source { Source(files, None) }

  function Instead(files: Files, path: Path, file: File): Source { Source(files, Some((path, file))) }

  function Written(files: Files, path: Path, file: File): Source { Today(files[path := file]) }

  lemma {:induction false} TemplatesAlike(files: Files, path: Path, file: File, names: seq<string>)
    ensures TemplateLayers(Instead(files, path, file), names) == TemplateLayers(Written(files, path, file), names)
  {
    if names != [] {
      TemplatesAlike(files, path, file, names[..|names| - 1]);
      assert forall p :: At(Instead(files, path, file), p) == At(Written(files, path, file), p);
    }
  }

  lemma FilesAlike(files: Files, path: Path, file: File, at: Path)
    ensures var a, b := Instead(files, path, file), Written(files, path, file);
      && ReadProject(a, at) == ReadProject(b, at) && ReadActions(a, at) == ReadActions(b, at)
      && FileLayers(a, ReadActions(a, at)) == FileLayers(b, ReadActions(b, at))
  {
    var a, b := Instead(files, path, file), Written(files, path, file);
    assert At(a, at) == At(b, at);
    var y := ReadActions(a, at);
    if y.Some? {
      TemplatesAlike(files, path, file, y.value.templates);
    }
  }

  /** A project resolved with the candidate in place of a file is the project as it would be
      once the candidate is written there. */
  lemma OverrideIsWriting(env: Env, files: Files, path: Path, file: File, name: string)
    ensures Resolve(env, Instead(files, path, file), name) == Resolve(env, Written(files, path, file), name)
  {
    var a, b := Instead(files, path, file), Written(files, path, file);
    assert At(a, ProjectFile(name)) == At(b, ProjectFile(name));
    var parsed := ParseProject(env, a, name);
    if parsed.Parsed? {
      var y := parsed.value;
      FilesAlike(files, path, file, ProjectFile(name));
      FilesAlike(files, path, file, GlobalFile);
      FilesAlike(files, path, file, ProjectFile(y.parentName));
      FilesAlike(files, path, file, RepoFile(env.expand(y.root)));
      assert ServiceFiles(env, a, y) == ServiceFiles(env, b, y);
      assert ActionLayers(env, a, name, y) == ActionLayers(env, b, name, y);
    }
  }

  /** A file that is not a project's own never decides whether a project loads. */
  lemma SharedFileKeepsLoading(env: Env, files: Files, path: Path, file: File, name: string)
    requires !path.ProjectFile?
    ensures Resolve(env, Written(files, path, file), name).Parsed? <==> Resolve(env, Today(files), name).Parsed?
  {
    assert At(Written(files, path, file), ProjectFile(name)) == At(Today(files), ProjectFile(name));
  }

  // ---- errors that are new ------------------------------------------------------------------------

  function Count(s: seq<string>, e: string): nat { multiset(s)[e] }

  /** The errors that were there already, or those that were not, in order: a copy of an error
      was there as long as the baseline has as many. */
  function Chosen(baseline: seq<string>, errors: seq<string>, known: bool): seq<string>
  {
    if errors == [] then []
    else
      var before, e := errors[..|errors| - 1], errors[|errors| - 1];
      Chosen(baseline, before, known) + if (Count(before, e) < Count(baseline, e)) == known then [e] else []
  }

  lemma CountAppend(s: seq<string>, x: string, e: string)
    ensures Count(s + [x], e) == Count(s, e) + if x == e then 1 else 0
  {
  }

  function CopiesLeft(remaining: map<string, nat>, e: string): nat { if e in remaining then remaining[e] else 0 }

  method CountAll(baseline: seq<string>) returns (remaining: map<string, nat>)
    ensures forall e :: CopiesLeft(remaining, e) == Count(baseline, e)
  {
    remaining := map[];
    var i := 0;
    while i < |baseline|
      invariant 0 <= i <= |baseline|
      invariant forall e :: CopiesLeft(remaining, e) == Count(baseline[..i], e)
    {
      ghost var before := remaining;
      remaining := remaining[baseline[i] := CopiesLeft(remaining, baseline[i]) + 1];
      forall e
        ensures CopiesLeft(remaining, e) == Count(baseline[..i + 1], e)
      {
        CountAppend(baseline[..i], baseline[i], e);
        assert baseline[..i + 1] == baseline[..i] + [baseline[i]];
        assert CopiesLeft(before, e) == Count(baseline[..i], e);
      }
      i := i + 1;
    }
    assert baseline[..i] == baseline;
  }

  /** The copies the baseline still has after some errors took theirs. */
  function Unclaimed(baseline: seq<string>, errors: seq<string>, e: string): nat
  {
    if Count(errors, e) < Count(baseline, e) then Count(baseline, e) - Count(errors, e) else 0
  }

  lemma ClaimOne(baseline: seq<string>, errors: seq<string>, x: string, e: string)
    ensures Unclaimed(baseline, errors + [x], e)
         == if e == x && Unclaimed(baseline, errors, e) > 0 then Unclaimed(baseline, errors, e) - 1
            else Unclaimed(baseline, errors, e)
  {
    CountAppend(errors, x, e);
  }

  lemma ChosenAppend(baseline: seq<string>, errors: seq<string>, x: string, known: bool)
    ensures Chosen(baseline, errors + [x], known)
         == Chosen(baseline, errors, known) + if (Unclaimed(baseline, errors, x) > 0) == known then [x] else []
  {
    assert (errors + [x])[..|errors|] == errors;
  }

  ghost predicate Tracks(remaining: map<string, nat>, baseline: seq<string>, errors: seq<string>)
  {
    forall e :: CopiesLeft(remaining, e) == Unclaimed(baseline, errors, e)
  }

  method TakeCopy(remaining: map<string, nat>, ghost baseline: seq<string>, ghost errors: seq<string>, x: string)
      returns (r: map<string, nat>, known: bool)
    requires Tracks(remaining, baseline, errors)
    ensures known <==> Unclaimed(baseline, errors, x) > 0
    ensures Tracks(r, baseline, errors + [x])
  {
    r, known := remaining, CopiesLeft(remaining, x) > 0;
    if known {
      r := remaining[x := remaining[x] - 1];
    }
    forall e
      ensures CopiesLeft(r, e) == Unclaimed(baseline, errors + [x], e)
    {
      ClaimOne(baseline, errors, x, e);
      assert CopiesLeft(remaining, e) == Unclaimed(baseline, errors, e);
    }
  }

  /** `partition_new_errors`. */
  method PartitionNewErrors(baseline: seq<string>, errors: seq<string>)
      returns (existing: seq<string>, added: seq<string>)
    ensures existing == Chosen(baseline, errors, true)
    ensures added == Chosen(baseline, errors, false)
  {
    var remaining := CountAll(baseline);
    existing, added := [], [];
    ghost var seen := [];
    var i := 0;
    while i < |errors|
      invariant 0 <= i <= |errors|
      invariant seen == errors[..i]
      invariant Tracks(remaining, baseline, seen)
      invariant existing == Chosen(baseline, seen, true)
      invariant added == Chosen(baseline, seen, false)
    {
      var x := errors[i];
      ChosenAppend(baseline, seen, x, true);
      ChosenAppend(baseline, seen, x, false);
      var known;
      remaining, known := TakeCopy(remaining, baseline, seen, x);
      if known {
        existing := existing + [x];
      } else {
        added := added + [x];
      }
      seen := seen + [x];
      i := i + 1;
    }
    assert seen == errors;
  }

  /** Of every error the smaller of its two counts was there already, and the rest is new. */
  lemma {:induction false} ChosenCounts(baseline: seq<string>, errors: seq<string>, e: string)
    ensures Count(Chosen(baseline, errors, true), e)
         == if Count(errors, e) < Count(baseline, e) then Count(errors, e) else Count(baseline, e)
    ensures Count(Chosen(baseline, errors, true), e) + Count(Chosen(baseline, errors, false), e) == Count(errors, e)
  {
    if errors != [] {
      var before, last := errors[..|errors| - 1], errors[|errors| - 1];
      assert errors == before + [last];
      ChosenCounts(baseline, before, e);
    }
  }

  lemma ExistingPart(baseline: seq<string>, errors: seq<string>)
    ensures multiset(Chosen(baseline, errors, true)) == multiset(errors) * multiset(baseline)
  {
    var existing, common := multiset(Chosen(baseline, errors, true)), multiset(errors) * multiset(baseline);
    forall e
      ensures existing[e] == common[e]
    {
      ChosenCounts(baseline, errors, e);
    }
  }

  lemma NewPart(baseline: seq<string>, errors: seq<string>)
    ensures multiset(Chosen(baseline, errors, false)) == multiset(errors) - multiset(baseline)
  {
    var added, rest := multiset(Chosen(baseline, errors, false)), multiset(errors) - multiset(baseline);
    forall e
      ensures added[e] == rest[e]
    {
      ChosenCounts(baseline, errors, e);
    }
  }

  lemma NothingLeft(a: multiset<string>, b: multiset<string>)
    ensures a - b == multiset{} <==> a <= b
  {
    if a - b == multiset{} {
      forall e
        ensures a[e] <= b[e]
      {
        assert (a - b)[e] == 0;
      }
    }
  }

  /** What was there already is what both lists have, counting copies; what is new is the rest. */
  lemma PartitionSplits(baseline: seq<string>, errors: seq<string>)
    ensures multiset(Chosen(baseline, errors, true)) == multiset(errors) * multiset(baseline)
    ensures multiset(Chosen(baseline, errors, false)) == multiset(errors) - multiset(baseline)
    ensures Chosen(baseline, errors, false) == [] <==> multiset(errors) <= multiset(baseline)
  {
    ExistingPart(baseline, errors);
    NewPart(baseline, errors);
    NothingLeft(multiset(errors), multiset(baseline));
    var added := Chosen(baseline, errors, false);
    if added != [] {
      assert added[0] in multiset(added);
    }
  }

  /** All of `part` is in `whole`, in that order, each where another one is. */
  predicate Subsequence(part: seq<string>, whole: seq<string>)
  {
    if part == [] then true
    else if whole == [] then false
    else
      || Subsequence(part, whole[..|whole| - 1])
      || (part[|part| - 1] == whole[|whole| - 1] && Subsequence(part[..|part| - 1], whole[..|whole| - 1]))
  }

  /** Either part has its errors in the order they were found in. */
  lemma {:induction false} PartsKeepOrder(baseline: seq<string>, errors: seq<string>, known: bool)
    ensures Subsequence(Chosen(baseline, errors, known), errors)
  {
    if errors != [] {
      var before := errors[..|errors| - 1];
      var part := Chosen(baseline, before, known);
      PartsKeepOrder(baseline, before, known);
      if Chosen(baseline, errors, known) != part {
        assert Chosen(baseline, errors, known)[..|part|] == part;
      }
    }
  }

  // ---- the whole check -------------------------------------------------------------------------------

  /** What `lpm` finds wrong with a project once all its layers are merged. */
  function Errors(env: Env, src: Source, name: string, effective: Project -> seq<string>): seq<string>
  {
    match Resolve(env, src, name)
    case Parsed(p) => effective(p)
    case Malformed(e) => ["config: " + e]
  }

  /** A project is without errors exactly when it loads and nothing is wrong with it then; one that
      does not load has the reason for its only error. */
  lemma NoErrorsMeansSound(env: Env, src: Source, name: string, effective: Project -> seq<string>)
    ensures var r, errors := Resolve(env, src, name), Errors(env, src, name, effective);
      && (errors == [] <==> r.Parsed? && effective(r.value) == [])
      && (r.Malformed? ==> errors == ["config: " + r.error])
  {
  }

  /** A project that loads today would have no error it does not have today, counting copies. */
  ghost predicate NoWorse(env: Env, files: Files, path: Path, file: File, name: string,
                          effective: Project -> seq<string>)
  {
    Resolve(env, Today(files), name).Parsed? ==>
      multiset(Errors(env, Written(files, path, file), name, effective))
        <= multiset(Errors(env, Today(files), name, effective))
  }

  /** The errors held against a candidate for one project: the new ones, none when the project
      does not load today. */
  function NewErrors(env: Env, files: Files, path: Path, file: File, name: string,
                     effective: Project -> seq<string>): (r: seq<string>)
    ensures r == [] <==> NoWorse(env, files, path, file, name, effective)
  {
    var today, after := Errors(env, Today(files), name, effective), Errors(env, Written(files, path, file), name, effective);
    PartitionSplits(today, after);
    if Resolve(env, Today(files), name).Parsed? then Chosen(today, after, false) else []
  }

  /** And they are exactly the errors the project does not have today, counting copies, in the
      order they are found in. */
  lemma NewErrorsAre(env: Env, files: Files, path: Path, file: File, name: string, effective: Project -> seq<string>)
    ensures var today := Errors(env, Today(files), name, effective);
      var after := Errors(env, Written(files, path, file), name, effective);
      var added := NewErrors(env, files, path, file, name, effective);
      && Subsequence(added, after)
      && multiset(added)
           == if Resolve(env, Today(files), name).Parsed? then multiset(after) - multiset(today) else multiset{}
  {
    var today := Errors(env, Today(files), name, effective);
    var after := Errors(env, Written(files, path, file), name, effective);
    PartitionSplits(today, after);
    PartsKeepOrder(today, after, false);
  }

  function Labelled(name: string, errors: seq<string>): (r: seq<string>)
    ensures |r| == |errors|
  {
    if errors == [] then []
    else Labelled(name, errors[..|errors| - 1]) + ["project " + name + ": " + errors[|errors| - 1]]
  }

  /** Every project's new errors in turn, labelled with its name. */
  function AllNewErrors(env: Env, files: Files, path: Path, file: File, names: seq<string>,
                        effective: Project -> seq<string>): seq<string>
  {
    if names == [] then []
    else
      AllNewErrors(env, files, path, file, names[..|names| - 1], effective)
      + Labelled(names[|names| - 1], NewErrors(env, files, path, file, names[|names| - 1], effective))
  }

  lemma {:induction false} AllNewErrorsAreNone(env: Env, files: Files, path: Path, file: File, names: seq<string>,
                                               effective: Project -> seq<string>)
    ensures AllNewErrors(env, files, path, file, names, effective) == []
       <==> forall name :: name in names ==> NoWorse(env, files, path, file, name, effective)
  {
    if names != [] {
      var before, name := names[..|names| - 1], names[|names| - 1];
      assert names == before + [name];
      AllNewErrorsAreNone(env, files, path, file, before, effective);
      assert |Labelled(name, NewErrors(env, files, path, file, name, effective))| == 0
        <==> NoWorse(env, files, path, file, name, effective);
    }
  }

  lemma {:induction false} InLabelled(name: string, errors: seq<string>, e: string)
    ensures e in Labelled(name, errors) <==> exists x :: x in errors && e == "project " + name + ": " + x
  {
    if errors != [] {
      var before, last := errors[..|errors| - 1], errors[|errors| - 1];
      assert errors == before + [last];
      InLabelled(name, before, e);
    }
  }

  /** What is reported against a shared file: the new errors of each project, with its name. */
  lemma {:induction false} AllNewErrorsAre(env: Env, files: Files, path: Path, file: File, names: seq<string>,
                                           effective: Project -> seq<string>, e: string)
    ensures e in AllNewErrors(env, files, path, file, names, effective)
       <==> exists name, x :: name in names && x in NewErrors(env, files, path, file, name, effective)
                              && e == "project " + name + ": " + x
  {
    if names != [] {
      var before, name := names[..|names| - 1], names[|names| - 1];
      assert names == before + [name];
      AllNewErrorsAre(env, files, path, file, before, effective, e);
      InLabelled(name, NewErrors(env, files, path, file, name, effective), e);
    }
  }

  method FindErrors(env: Env, files: Files, path: Path, file: File, name: string, effective: Project -> seq<string>)
      returns (errors: seq<string>)
    ensures errors == Errors(env, Written(files, path, file), name, effective)
  {
    OverrideIsWriting(env, files, path, file, name);
    var after := ResolveProject(env, Instead(files, path, file), name);
    return if after.Parsed? then effective(after.value) else ["config: " + after.error];
  }

  /** One project's part of the check; today's errors are only looked for when there are some
      to sort. */
  method FindNewErrors(env: Env, files: Files, path: Path, file: File, name: string, effective: Project -> seq<string>)
      returns (added: seq<string>)
    ensures added == NewErrors(env, files, path, file, name, effective)
  {
    var errors := FindErrors(env, files, path, file, name, effective);
    if errors == [] {
      return [];
    }
    var today := ResolveProject(env, Today(files), name);
    if today.Malformed? {
      return [];
    }
    var existing;
    existing, added := PartitionNewErrors(effective(today.value), errors);
  }

  /** The part of `validate_candidate` for a file all projects share. */
  method FindAllNewErrors(env: Env, files: Files, path: Path, file: File, names: seq<string>,
                          effective: Project -> seq<string>) returns (errors: seq<string>)
    ensures errors == AllNewErrors(env, files, path, file, names, effective)
  {
    errors := [];
    var i := 0;
    while i < |names|
      invariant 0 <= i <= |names|
      invariant errors == AllNewErrors(env, files, path, file, names[..i], effective)
    {
      OneMoreProject(env, files, path, file, names, i, effective);
      var added := FindNewErrors(env, files, path, file, names[i], effective);
      errors := errors + Labelled(names[i], added);
      i := i + 1;
    }
    assert names[..i] == names;
  }

  lemma OneMoreProject(env: Env, files: Files, path: Path, file: File, names: seq<string>, i: nat,
                       effective: Project -> seq<string>)
    requires i < |names|
    ensures AllNewErrors(env, files, path, file, names[..i + 1], effective)
         == AllNewErrors(env, files, path, file, names[..i], effective)
            + Labelled(names[i], NewErrors(env, files, path, file, names[i], effective))
  {
    assert names[..i + 1][..i] == names[..i];
  }

  /** `validate_candidate`: a project's or folder's own file must leave its project without
      errors, while a global or template file is accepted exactly when no project that loads
      today gets an error it does not have. */
  method ValidateCandidate(env: Env, files: Files, shared: bool, target: string, names: seq<string>,
                           path: Path, file: File, schema: seq<string>, effective: Project -> seq<string>)
      returns (errors: seq<string>)
    ensures schema != [] ==> errors == schema
    ensures schema == [] && !shared ==> errors == Errors(env, Written(files, path, file), target, effective)
    ensures schema == [] && shared ==>
      errors == AllNewErrors(env, files, path, file, names, effective)
    ensures schema == [] && shared ==>
      (errors == [] <==> forall name :: name in names ==> NoWorse(env, files, path, file, name, effective))
  {
    if schema != [] {
      errors := schema;
    } else if !shared {
      errors := FindErrors(env, files, path, file, target, effective);
    } else {
      errors := FindAllNewErrors(env, files, path, file, names, effective);
      AllNewErrorsAreNone(env, files, path, file, names, effective);
    }
  }
}
