/** Moving an automation between a project's config and global.yml, request by request
    (cli/src/job_move.rs, cli/src/job_edit.rs). */
module JobMove {
  import opened Hex
  import opened Mapping

  const PROJECT := "project"
  const GLOBAL := "global"
  const REPO := "repo"

  datatype Definition = Definition(source: string, project: string, id: string)

  // ---- where an automation is kept -----------------------------------------------------------------

  /** The projects it runs in; None is every project. */
  type Scope = Option<seq<string>>

  function HomeOf(id: string, projects: Scope): Definition
  {
    if projects.Some? && |projects.value| == 1 then Definition(PROJECT, projects.value[0], id)
    else Definition(GLOBAL, "", id)
  }

  function Names(list: seq<string>): seq<Value> { seq(|list|, i requires 0 <= i < |list| => Value.Text(list[i])) }

  function WriteProjects(body: Mapping, home: Definition, projects: Scope): Mapping
  {
    if projects.Some? && home.source == GLOBAL then Insert(body, "projects", List(Names(projects.value)))
    else Without(body, {"projects"})
  }

  function TextsOf(items: seq<Value>): seq<string>
  {
    seq(|items|, i requires 0 <= i < |items| => if items[i].Text? then items[i].text else "")
  }

  /** The scope an entry stands for, read off where it is and what it says. */
  function ScopeOf(home: Definition, body: Mapping): Scope
  {
    if home.source == PROJECT then Some([home.project])
    else match Get(body, "projects")
      case Some(List(items)) => Some(TextsOf(items))
      case _ => None
  }

  /** The home and the body that are saved say which scope was chosen, and nothing else of the
      body changes. */
  lemma ScopeIsKept(id: string, body: Mapping, projects: Scope)
    ensures var home := HomeOf(id, projects);
      && ScopeOf(home, WriteProjects(body, home, projects)) == projects
      && forall k :: k != "projects" ==> Get(WriteProjects(body, home, projects), k) == Get(body, k)
  {
    var home := HomeOf(id, projects);
    var written := WriteProjects(body, home, projects);
    if projects.Some? && home.source == GLOBAL {
      InsertGet(body, "projects", List(Names(projects.value)), "projects");
      assert TextsOf(Names(projects.value)) == projects.value;
    } else {
      WithoutGet(body, {"projects"}, "projects");
      assert projects.Some? ==> projects.value == [projects.value[0]];
    }
    forall k | k != "projects"
      ensures Get(written, k) == Get(body, k)
    {
      if projects.Some? && home.source == GLOBAL {
        InsertGet(body, "projects", List(Names(projects.value)), k);
      } else {
        WithoutGet(body, {"projects"}, k);
      }
    }
  }

  /** Exactly the automations of one project are kept in its own config, and only those kept
      globally for some projects list them. */
  lemma HomeIs(id: string, body: Mapping, projects: Scope)
    ensures var home := HomeOf(id, projects);
      && home.id == id
      && (home.source == PROJECT <==> exists p :: projects == Some([p]))
      && (home.source == PROJECT ==> projects == Some([home.project]))
      && (home.source != PROJECT ==> home.source == GLOBAL && home.project == "")
      && (Get(WriteProjects(body, home, projects), "projects").Some? <==> home.source == GLOBAL && projects.Some?)
  {
    var home := HomeOf(id, projects);
    if projects.Some? && |projects.value| == 1 {
      assert projects.value == [projects.value[0]];
    }
    InsertGet(body, "projects", List(if projects.Some? then Names(projects.value) else []), "projects");
    WithoutGet(body, {"projects"}, "projects");
  }

  lemma ScopesHaveOneForm(id: string, a: Mapping, b: Mapping, p: Scope, q: Scope)
    requires HomeOf(id, p) == HomeOf(id, q)
    requires WriteProjects(a, HomeOf(id, p), p) == WriteProjects(b, HomeOf(id, q), q)
    ensures p == q
  {
    ScopeIsKept(id, a, p);
    ScopeIsKept(id, b, q);
  }

  // ---- a move, request by request --------------------------------------------------------------------

  /** What a config file holds under an id; only a mapping can be read back. */
  datatype Entry = Body(body: Mapping) | NotAMapping

  type Jobs = map<Definition, Entry>

  /** What comes of a request that changes something: it may be carried out and still fail to
      be answered. */
  datatype Reply = Answered | Failed(applied: bool)

  /** How the requests of one move go: whether the body passes the check before saving, whether
      each read gets through, and whether the app then reports the automation as one it can
      run. */
  datatype Requests = Requests(valid: bool, firstRead: bool, save: Reply, runs: bool, secondRead: bool, delete: Reply)

  predicate Applied(r: Reply) { r.Answered? || r.applied }

  predicate Reads(jobs: Jobs, d: Definition) { d in jobs && jobs[d].Body? }

  function Saved(jobs: Jobs, d: Definition, body: Mapping, w: Requests): Jobs
  {
    if w.valid && Applied(w.save) then jobs[d := Body(body)] else jobs
  }

  predicate SaveSucceeds(w: Requests) { w.valid && w.save.Answered? && w.runs }

  /** Every state the configs go through, and whether the command reports success. */
  datatype Run = Run(states: seq<Jobs>, ok: bool)

  predicate SamePlace(a: Definition, b: Definition) { a.source == b.source && a.project == b.project }

  function Moved(jobs: Jobs, from: Definition, body: Mapping, projects: Scope, w: Requests): Run
  {
    var to := HomeOf(from.id, projects);
    var written := WriteProjects(body, to, projects);
    if from.source == REPO then Run([jobs], false)
    else if SamePlace(to, from) then Run([jobs, Saved(jobs, from, written, w)], SaveSucceeds(w))
    else if w.firstRead && Reads(jobs, to) then Run([jobs], false)
    else
      var saved := Saved(jobs, to, written, w);
      if w.secondRead && Reads(saved, to) then
        Run([jobs, saved, if Applied(w.delete) then saved - {from} else saved], SaveSucceeds(w) && w.delete.Answered?)
      else Run([jobs, saved], SaveSucceeds(w))
  }

  /** The app, as far as its socket shows it. */
  class App {
    var jobs: Jobs
    ghost var states: seq<Jobs>

    constructor (jobs: Jobs)
      ensures this.jobs == jobs && states == [jobs]
    {
      this.jobs := jobs;
      this.states := [jobs];
    }

    /** `read_body`. */
    method ReadBody(d: Definition, gotThrough: bool) returns (ok: bool)
      ensures ok <==> gotThrough && Reads(jobs, d)
    {
      ok := gotThrough && d in jobs && jobs[d].Body?;
    }

    /** `save`. */
    method Save(d: Definition, body: Mapping, w: Requests) returns (ok: bool)
      modifies this
      ensures jobs == Saved(old(jobs), d, body, w) && states == old(states) + [jobs]
      ensures ok <==> SaveSucceeds(w)
    {
      if w.valid && Applied(w.save) {
        jobs := jobs[d := Body(body)];
      }
      states := states + [jobs];
      ok := w.valid && w.save.Answered? && w.runs;
    }

    /** `delete_job`. */
    method Delete(d: Definition, reply: Reply) returns (ok: bool)
      modifies this
      ensures jobs == (if Applied(reply) then old(jobs) - {d} else old(jobs)) && states == old(states) + [jobs]
      ensures ok <==> reply.Answered?
    {
      if Applied(reply) {
        jobs := jobs - {d};
      }
      states := states + [jobs];
      ok := reply.Answered?;
    }

    /** The new entry, and once it can be read the old one taken out. */
    method MoveTo(from: Definition, to: Definition, written: Mapping, w: Requests) returns (ok: bool)
      modifies this
      ensures var saved := Saved(old(jobs), to, written, w);
        var gone := w.secondRead && Reads(saved, to);
        && states == old(states) + [saved] + (if gone then [jobs] else [])
        && jobs == (if gone && Applied(w.delete) then saved - {from} else saved)
        && (ok <==> SaveSucceeds(w) && (gone ==> w.delete.Answered?))
    {
      ok := Save(to, written, w);
      var there := ReadBody(to, w.secondRead);
      if there {
        var deleted := Delete(from, w.delete);
        ok := ok && deleted;
      }
    }

    /** `rescope`: written at the new home first, and only when it can be read there taken out
        of the old one. */
    method Rescope(from: Definition, body: Mapping, projects: Scope, w: Requests) returns (ok: bool)
      requires states == [jobs]
      modifies this
      ensures Run(states, ok) == Moved(old(jobs), from, body, projects, w)
      ensures jobs == states[|states| - 1]
    {
      if from.source == REPO {
        return false;
      }
      var to := HomeOf(from.id, projects);
      var written := WriteProjects(body, to, projects);
      if to.source == from.source && to.project == from.project {
        ok := Save(from, written, w);
        return;
      }
      var taken := ReadBody(to, w.firstRead);
      if taken {
        return false;
      }
      ok := MoveTo(from, to, written, w);
    }
  }

  // ---- what a move keeps -------------------------------------------------------------------------------

  /** The automation is still there: as it was, or as it was to be. */
  predicate Kept(before: Jobs, jobs: Jobs, from: Definition, to: Definition, written: Mapping)
  {
    || (from in before && from in jobs && jobs[from] == before[from])
    || (to in jobs && jobs[to] == Body(written))
  }

  predicate Moving(from: Definition, to: Definition) { from.source != REPO && !SamePlace(to, from) }

  /** Another automation that can be read is where this one is to go. */
  predicate Occupied(jobs: Jobs, to: Definition, written: Mapping)
  {
    Reads(jobs, to) && jobs[to] != Body(written)
  }

  /** Whatever requests fail, an automation can only be lost in one way: another one is at its
      new home, the read that would show it fails, nothing is saved, and the second read takes
      the other one for it. */
  lemma ExactlyWhenLost(jobs: Jobs, from: Definition, body: Mapping, projects: Scope, w: Requests)
    requires from in jobs
    ensures var to := HomeOf(from.id, projects);
      var written := WriteProjects(body, to, projects);
      (exists j :: j in Moved(jobs, from, body, projects, w).states && !Kept(jobs, j, from, to, written))
      <==> Moving(from, to) && Occupied(jobs, to, written) && !w.firstRead && !(w.valid && Applied(w.save))
           && w.secondRead && Applied(w.delete)
  {
    var to := HomeOf(from.id, projects);
    var written := WriteProjects(body, to, projects);
    var states := Moved(jobs, from, body, projects, w).states;
    assert forall j :: j in states ==> exists i :: 0 <= i < |states| && states[i] == j;
    if Moving(from, to) && Occupied(jobs, to, written) && !w.firstRead && !(w.valid && Applied(w.save))
       && w.secondRead && Applied(w.delete)
    {
      assert states[2] == jobs - {from};
      assert !Kept(jobs, states[2], from, to, written);
    }
  }

  /** So where the new home is free, no failure and no moment in between loses the automation;
      and where it is not, some failures do. */
  lemma NeverNeither(jobs: Jobs, from: Definition, body: Mapping, projects: Scope)
    requires from in jobs
    ensures var to := HomeOf(from.id, projects);
      var written := WriteProjects(body, to, projects);
      (forall w, j :: j in Moved(jobs, from, body, projects, w).states ==> Kept(jobs, j, from, to, written))
      <==> !(Moving(from, to) && Occupied(jobs, to, written))
  {
    var to := HomeOf(from.id, projects);
    var written := WriteProjects(body, to, projects);
    forall w
      ensures (exists j :: j in Moved(jobs, from, body, projects, w).states && !Kept(jobs, j, from, to, written))
        ==> Moving(from, to) && Occupied(jobs, to, written)
    {
      ExactlyWhenLost(jobs, from, body, projects, w);
    }
    if Moving(from, to) && Occupied(jobs, to, written) {
      var outage := Requests(true, false, Failed(false), true, true, Answered);
      ExactlyWhenLost(jobs, from, body, projects, outage);
    }
  }

  /** An entry of another automation changes exactly when it is at the new home, hidden from the
      first read, and written over. */
  lemma ExactlyWhenOverwritten(jobs: Jobs, from: Definition, body: Mapping, projects: Scope, w: Requests, d: Definition)
    requires d in jobs && d != from
    ensures var to := HomeOf(from.id, projects);
      var written := WriteProjects(body, to, projects);
      var states := Moved(jobs, from, body, projects, w).states;
      var end := states[|states| - 1];
      (d !in end || end[d] != jobs[d])
      <==> Moving(from, to) && d == to && jobs[to] != Body(written) && !(w.firstRead && jobs[to].Body?)
           && w.valid && Applied(w.save)
  {
  }

  /** With reads that get through, an entry that can be read is never written over. */
  lemma TruthfulReadsKeepOthers(jobs: Jobs, from: Definition, body: Mapping, projects: Scope, w: Requests, d: Definition)
    requires d in jobs && d != from && jobs[d].Body? && w.firstRead
    ensures var states := Moved(jobs, from, body, projects, w).states;
      var end := states[|states| - 1];
      d in end && end[d] == jobs[d]
  {
    ExactlyWhenOverwritten(jobs, from, body, projects, w, d);
  }

  /** A move that reports success has the automation at its new home; it is gone from the old
      one exactly when the second read got through, and nothing else changed. */
  lemma SuccessLeavesTheNewOne(jobs: Jobs, from: Definition, body: Mapping, projects: Scope, w: Requests)
    requires from in jobs && Moving(from, HomeOf(from.id, projects)) && Moved(jobs, from, body, projects, w).ok
    ensures var to := HomeOf(from.id, projects);
      var states := Moved(jobs, from, body, projects, w).states;
      var end := states[|states| - 1];
      && to in end && end[to] == Body(WriteProjects(body, to, projects))
      && (from in end <==> !w.secondRead)
      && (forall d :: d != from && d != to ==> (d in end <==> d in jobs) && (d in end ==> end[d] == jobs[d]))
  {
  }

  /** Success is reported exactly when the save was answered and the automation runs, and, where
      it moves, nothing was seen at its new home, and the old entry was deleted unless the new
      one could not be read. */
  lemma SucceedsExactlyWhen(jobs: Jobs, from: Definition, body: Mapping, projects: Scope, w: Requests)
    ensures var to := HomeOf(from.id, projects);
      Moved(jobs, from, body, projects, w).ok
      <==> && from.source != REPO && w.valid && w.save.Answered? && w.runs
           && (Moving(from, to) ==> !(w.firstRead && Reads(jobs, to)) && (w.secondRead ==> w.delete.Answered?))
  {
  }

  /** An automation that stays where it is kept is written over in place, and no other entry is
      touched. */
  lemma StaysInPlace(jobs: Jobs, from: Definition, body: Mapping, projects: Scope, w: Requests)
    requires from.source != REPO && !Moving(from, HomeOf(from.id, projects))
    ensures var states := Moved(jobs, from, body, projects, w).states;
      && |states| == 2 && states[0] == jobs
      && states[1] == if w.valid && Applied(w.save)
                      then jobs[from := Body(WriteProjects(body, HomeOf(from.id, projects), projects))] else jobs
  {
  }

  /** Changing where it runs can succeed for every automation but one that travels with its
      folder; for that one it never does, and nothing is touched. */
  lemma FolderKeepsIts(jobs: Jobs, from: Definition, body: Mapping, projects: Scope)
    ensures (forall w :: !Moved(jobs, from, body, projects, w).ok) <==> from.source == REPO
    ensures from.source == REPO ==>
              forall w, j :: j in Moved(jobs, from, body, projects, w).states ==> j == jobs
  {
    if from.source != REPO {
      var fair := Requests(true, false, Answered, true, true, Answered);
      assert Moved(jobs, from, body, projects, fair).ok;
    }
  }
}
