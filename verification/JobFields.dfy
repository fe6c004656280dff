/** The flags of `lpm automations add` and `edit` written into an automation's entry
    (cli/src/job_fields.rs). */
module JobFields {
  import opened Hex
  import opened Mapping

  datatype Fields = Fields(
    title: Option<string>, emoji: Option<string>,
    manual: bool, every: Option<string>, at: seq<string>, until: Option<string>, times: Option<nat>,
    days: Option<string>, pickDays: Option<nat>, shortMonths: Option<string>, cron: Option<string>,
    cmd: Option<string>, action: Option<string>, prompt: Option<string>, agent: Option<string>,
    model: Option<string>, effort: Option<string>, access: Option<string>, quiet: Option<bool>,
    memory: Option<bool>, claudeAccount: Option<string>,
    check: Option<string>, verify: Option<string>, duplicate: Option<string>, reinstallDeps: Option<bool>,
    pullLatest: Option<bool>, excludeUncommitted: Option<bool>, sendTo: Option<seq<string>>,
    machines: Option<seq<string>>)

  /** `trim` trims a text; `daysValue` is how the app writes a text of days. */
  datatype Env = Env(trim: string -> string, daysValue: string -> Option<Value>)

  // ---- what each flag does to its key ------------------------------------------------------------

  /** `put`: an empty text clears its key. */
  function TextChange(env: Env, value: Option<string>): Change
  {
    match value
    case None => Keep
    case Some(v) => if env.trim(v) == "" then Drop else Set(Text(env.trim(v)))
  }

  function BoolChange(value: Option<bool>): Change { if value.Some? then Set(Bool(value.value)) else Keep }

  function NumberChange(value: Option<nat>): Change { if value.Some? then Set(Number(value.value)) else Keep }

  /** A flag that is only ever written as true. */
  function FlagChange(value: Option<bool>): Change
  {
    match value
    case None => Keep
    case Some(on) => if on then Set(Bool(true)) else Drop
  }

  /** The app writes the main login as an empty text, which no flag can say. */
  function AccountChange(env: Env, value: Option<string>): Change
  {
    match value
    case None => Keep
    case Some(v) =>
      if env.trim(v) == "" then Drop
      else if env.trim(v) == "default" then Set(Text(""))
      else Set(Text(env.trim(v)))
  }

  function Trimmed(env: Env, list: seq<string>): seq<Value>
  {
    if list == [] then []
    else Trimmed(env, list[..|list| - 1])
         + if env.trim(list[|list| - 1]) != "" then [Text(env.trim(list[|list| - 1]))] else []
  }

  function OneOrMore(values: seq<Value>, none: Change): Change
  {
    if values == [] then none else if |values| == 1 then Set(values[0]) else Set(List(values))
  }

  function SendToChange(f: Fields, env: Env): Change
  {
    if f.sendTo.Some? then OneOrMore(Trimmed(env, f.sendTo.value), Drop) else Keep
  }

  function MachinesChange(f: Fields, env: Env): Change
  {
    if f.machines.Some? then Set(List(Trimmed(env, f.machines.value))) else Keep
  }

  // ---- the schedule ---------------------------------------------------------------------------------

  predicate ScheduleGiven(f: Fields)
  {
    f.manual || f.every.Some? || f.at != [] || f.until.Some? || f.times.Some? || f.days.Some? || f.pickDays.Some?
    || f.shortMonths.Some? || f.cron.Some?
  }

  function DaysChange(f: Fields, env: Env): Change
  {
    if f.days.Some? && env.daysValue(f.days.value).Some? then Set(env.daysValue(f.days.value).value) else Keep
  }

  function ScheduleEdits(f: Fields, env: Env): Edits
  {
    [("at", OneOrMore(Trimmed(env, f.at), Keep)),
     ("until", TextChange(env, f.until)),
     ("times", NumberChange(f.times)),
     ("days", DaysChange(f, env)),
     ("pickDays", NumberChange(f.pickDays)),
     ("shortMonths", TextChange(env, f.shortMonths)),
     ("every", TextChange(env, f.every))]
  }

  function Schedule(f: Fields, env: Env): Mapping
  {
    if f.manual then [("manual", Bool(true))]
    else if f.cron.Some? then Do([], "cron", TextChange(env, f.cron))
    else
      DoAll([], ScheduleEdits(f, env))
  }

  function ScheduleChange(f: Fields, env: Env): Change
  {
    if ScheduleGiven(f) then Set(Entries(Schedule(f, env))) else Keep
  }

  // ---- the copy it runs in --------------------------------------------------------------------------

  predicate CopyOptionsGiven(f: Fields) { f.reinstallDeps.Some? || f.pullLatest.Some? || f.excludeUncommitted.Some? }

  function ModeChange(f: Fields): Change
  {
    match f.duplicate
    case None => Keep
    case Some(mode) => if mode == "worktree" then Set(Text("worktree")) else Drop
  }

  /** Whether the copy is a worktree once its mode is written. */
  predicate IsWorktree(f: Fields, options: Mapping)
  {
    After(ModeChange(f), Get(options, "mode")) == Some(Text("worktree"))
  }

  /** The copy's options as they are to be: a worktree has none of a copy's own. */
  function OptionEdits(f: Fields, worktree: bool): Edits
  {
    [("mode", ModeChange(f)),
     ("reinstallDeps", BoolChange(f.reinstallDeps)),
     ("pullLatest", if worktree then Drop else BoolChange(f.pullLatest)),
     ("excludeUncommitted", if worktree then Drop else BoolChange(f.excludeUncommitted))]
  }

  function OptionsOf(was: Option<Value>): Mapping
  {
    if was.Some? && was.value.Entries? then was.value.entries else []
  }

  predicate IsCopy(was: Option<Value>) { was.Some? && (was.value == Bool(true) || was.value.Entries?) }

  function Options(f: Fields, was: Option<Value>): Mapping
  {
    DoAll(OptionsOf(was), OptionEdits(f, IsWorktree(f, OptionsOf(was))))
  }

  function DuplicateValue(options: Mapping): Value { if options == [] then Bool(true) else Entries(options) }

  /** `apply_duplicate`; None is one of its three errors. */
  function DuplicateChange(f: Fields, was: Option<Value>): Option<Change>
  {
    if f.duplicate.None? && !CopyOptionsGiven(f) then Some(Keep)
    else if f.duplicate == Some("off") then (if CopyOptionsGiven(f) then None else Some(Drop))
    else if f.duplicate.None? && !IsCopy(was) then None
    else if IsWorktree(f, OptionsOf(was)) && (f.pullLatest.Some? || f.excludeUncommitted.Some?) then None
    else Some(Set(DuplicateValue(Options(f, was))))
  }

  // ---- what it runs -----------------------------------------------------------------------------------

  predicate RunGiven(f: Fields)
  {
    f.cmd.Some? || f.action.Some? || f.prompt.Some? || f.agent.Some? || f.model.Some? || f.effort.Some?
    || f.access.Some? || f.claudeAccount.Some? || f.quiet.Some? || f.memory.Some?
  }

  /** Everything an action does not go with. */
  const AI_KEYS := {"cmd", "prompt", "agent", "model", "effort", "access", "quiet", "memory", "claudeAccount"}

  /** What the flag for a command, and then the one for an action, leave of the run. */
  function Target(f: Fields, env: Env, run: Mapping): Mapping
  {
    var r := if f.cmd.Some? then Do([], "cmd", TextChange(env, f.cmd)) else run;
    if f.action.Some? then Do(Without(r, AI_KEYS), "action", TextChange(env, f.action)) else r
  }

  function RunEdits(f: Fields, env: Env): Edits
  {
    [("cmd", if f.prompt.Some? then Drop else Keep),
     ("prompt", TextChange(env, f.prompt)),
     ("agent", TextChange(env, f.agent)),
     ("model", TextChange(env, f.model)),
     ("effort", TextChange(env, f.effort)),
     ("access", TextChange(env, f.access)),
     ("quiet", FlagChange(f.quiet)),
     ("memory", FlagChange(f.memory)),
     ("claudeAccount", AccountChange(env, f.claudeAccount))]
  }

  /** `apply_run`. */
  function RunOf(f: Fields, env: Env, run: Mapping): Mapping { DoAll(Target(f, env, run), RunEdits(f, env)) }

  function RunChange(f: Fields, env: Env, was: Option<Value>): Change
  {
    if RunGiven(f) then Set(Entries(RunOf(f, env, OptionsOf(was)))) else Keep
  }

  // ---- the whole entry ------------------------------------------------------------------------------------

  function JobEdits(f: Fields, env: Env, duplicate: Change, run: Change): Edits
  {
    [("label", TextChange(env, f.title)),
     ("emoji", TextChange(env, f.emoji)),
     ("schedule", ScheduleChange(f, env)),
     ("check", TextChange(env, f.check)),
     ("verify", TextChange(env, f.verify)),
     ("duplicate", duplicate),
     ("run", run),
     ("sendTo", SendToChange(f, env)),
     ("machines", MachinesChange(f, env))]
  }

  /** `apply`; None when a flag is refused. */
  function Applied(f: Fields, env: Env, job: Mapping): Option<Mapping>
  {
    var duplicate := DuplicateChange(f, Get(job, "duplicate"));
    if duplicate.None? then None
    else Some(DoAll(job, JobEdits(f, env, duplicate.value, RunChange(f, env, Get(job, "run")))))
  }

  // ---- the program's own way ----------------------------------------------------------------------------------

  /** A mapping that is edited in place. */
  class Table {
    var entries: Mapping

    constructor (entries: Mapping)
      ensures this.entries == entries
    {
      this.entries := entries;
    }

    method InsertEntry(key: string, v: Value)
      modifies this
      ensures entries == Insert(old(entries), key, v)
    {
      entries := Insert(entries, key, v);
    }

    method RemoveKey(key: string)
      modifies this
      ensures entries == Without(old(entries), {key})
    {
      entries := Without(entries, {key});
    }

    method InsertIf(key: string, value: Option<bool>)
      modifies this
      ensures entries == Do(old(entries), key, BoolChange(value))
    {
      if value.Some? {
        InsertEntry(key, Bool(value.value));
      }
    }

    method Flag(key: string, value: Option<bool>)
      modifies this
      ensures entries == Do(old(entries), key, FlagChange(value))
    {
      if value == Some(true) {
        InsertEntry(key, Bool(true));
      } else if value == Some(false) {
        RemoveKey(key);
      }
    }

    /** `put`. */
    method Put(env: Env, key: string, value: Option<string>)
      modifies this
      ensures entries == Do(old(entries), key, TextChange(env, value))
    {
      if value.Some? {
        var v := env.trim(value.value);
        if v == "" {
          RemoveKey(key);
        } else {
          InsertEntry(key, Text(v));
        }
      }
    }
  }

  /** `schedule`: built up in a fresh table. */
  method BuildSchedule(f: Fields, env: Env) returns (schedule: Mapping)
    ensures schedule == Schedule(f, env)
  {
    var table := new Table([]);
    if f.manual {
      table.InsertEntry("manual", Bool(true));
      return table.entries;
    }
    if f.cron.Some? {
      table.Put(env, "cron", f.cron);
      return table.entries;
    }
    FillTimes(f, env, table);
    return table.entries;
  }

  method FillTimes(f: Fields, env: Env, table: Table)
    requires table.entries == []
    modifies table
    ensures table.entries == DoAll([], ScheduleEdits(f, env))
  {
    ghost var e := ScheduleEdits(f, env);
    var ats := Trimmed(env, f.at);
    if |ats| == 1 {
      table.InsertEntry("at", ats[0]);
    } else if |ats| > 1 {
      table.InsertEntry("at", List(ats));
    }
    assert DoFrom(table.entries, e, 1) == DoAll([], e);
    table.Put(env, "until", f.until);
    assert DoFrom(table.entries, e, 2) == DoAll([], e);
    if f.times.Some? {
      table.InsertEntry("times", Number(f.times.value));
    }
    assert DoFrom(table.entries, e, 3) == DoAll([], e);
    if f.days.Some? {
      var days := env.daysValue(f.days.value);
      if days.Some? {
        table.InsertEntry("days", days.value);
      }
    }
    assert DoFrom(table.entries, e, 4) == DoAll([], e);
    if f.pickDays.Some? {
      table.InsertEntry("pickDays", Number(f.pickDays.value));
    }
    assert DoFrom(table.entries, e, 5) == DoAll([], e);
    table.Put(env, "shortMonths", f.shortMonths);
    assert DoFrom(table.entries, e, 6) == DoAll([], e);
    table.Put(env, "every", f.every);
    assert DoFrom(table.entries, e, 7) == DoAll([], e);
  }

  /** Schedule shapes exclude each other: one run by hand, or by a cron line, has nothing else. */
  lemma SchedulesAreOneShape(f: Fields, env: Env, k: string)
    ensures f.manual ==> (Get(Schedule(f, env), k).Some? <==> k == "manual")
    ensures !f.manual && f.cron.Some? ==> (Get(Schedule(f, env), k).Some? ==> k == "cron")
    ensures !f.manual && f.cron.None? ==>
              (Get(Schedule(f, env), k).Some? ==> k in ["at", "until", "times", "days", "pickDays", "shortMonths", "every"])
  {
    if f.manual {
      assert [("manual", Bool(true))][1..] == [];
    } else if f.cron.Some? {
      DoGet([], "cron", TextChange(env, f.cron), k);
    } else if k !in ["at", "until", "times", "days", "pickDays", "shortMonths", "every"] {
      DoFromOther([], ScheduleEdits(f, env), 0, k);
    }
  }

  method RemoveAiKeys(run: Table)
    modifies run
    ensures run.entries == Without(old(run.entries), AI_KEYS)
  {
    var keys := AI_KEYS;
    ghost var gone: set<string> := {};
    WithoutNone(run.entries, gone);
    while keys != {}
      invariant gone + keys == AI_KEYS
      invariant run.entries == Without(old(run.entries), gone)
      decreases keys
    {
      var key :| key in keys;
      WithoutTwice(old(run.entries), gone, {key});
      run.RemoveKey(key);
      gone, keys := gone + {key}, keys - {key};
    }
  }

  method ApplyTarget(f: Fields, env: Env, run: Table)
    modifies run
    ensures run.entries == Target(f, env, old(run.entries))
  {
    if f.cmd.Some? {
      run.entries := [];
      run.Put(env, "cmd", f.cmd);
    }
    if f.action.Some? {
      RemoveAiKeys(run);
      run.Put(env, "action", f.action);
    }
  }

  method ApplyAccount(f: Fields, env: Env, run: Table)
    modifies run
    ensures run.entries == Do(old(run.entries), "claudeAccount", AccountChange(env, f.claudeAccount))
  {
    if f.claudeAccount.Some? {
      var id := env.trim(f.claudeAccount.value);
      if id == "" {
        run.RemoveKey("claudeAccount");
      } else if id == "default" {
        run.InsertEntry("claudeAccount", Text(""));
      } else {
        run.InsertEntry("claudeAccount", Text(id));
      }
    }
  }

  /** `apply_run`. */
  method ApplyRun(f: Fields, env: Env, run: Table)
    modifies run
    ensures run.entries == RunOf(f, env, old(run.entries))
  {
    ApplyTarget(f, env, run);
    ghost var e := RunEdits(f, env);
    ghost var end := DoAll(run.entries, e);
    if f.prompt.Some? {
      run.RemoveKey("cmd");
    }
    assert DoFrom(run.entries, e, 1) == end;
    run.Put(env, "prompt", f.prompt);
    assert DoFrom(run.entries, e, 2) == end;
    run.Put(env, "agent", f.agent);
    assert DoFrom(run.entries, e, 3) == end;
    run.Put(env, "model", f.model);
    assert DoFrom(run.entries, e, 4) == end;
    run.Put(env, "effort", f.effort);
    assert DoFrom(run.entries, e, 5) == end;
    run.Put(env, "access", f.access);
    assert DoFrom(run.entries, e, 6) == end;
    run.Flag("quiet", f.quiet);
    assert DoFrom(run.entries, e, 7) == end;
    run.Flag("memory", f.memory);
    assert DoFrom(run.entries, e, 8) == end;
    ApplyAccount(f, env, run);
  }

  /** `apply_duplicate`: when it refuses the flags the entry is as it was. */
  method ApplyDuplicate(f: Fields, job: Table) returns (ok: bool)
    modifies job
    ensures var c := DuplicateChange(f, Get(old(job.entries), "duplicate"));
      && (ok <==> c.Some?)
      && job.entries == if ok then Do(old(job.entries), "duplicate", c.value) else old(job.entries)
  {
    if f.duplicate.None? && !CopyOptionsGiven(f) {
      return true;
    }
    var was := Get(job.entries, "duplicate");
    var options := new Table(OptionsOf(was));
    if f.duplicate == Some("off") {
      if CopyOptionsGiven(f) {
        return false;
      }
      job.RemoveKey("duplicate");
      return true;
    } else if f.duplicate == Some("worktree") {
      options.InsertEntry("mode", Text("worktree"));
    } else if f.duplicate.Some? {
      options.RemoveKey("mode");
    } else if !IsCopy(was) {
      return false;
    }
    ok := FillOptions(f, options, OptionsOf(was));
    if ok {
      job.InsertEntry("duplicate", if options.entries == [] then Bool(true) else Entries(options.entries));
    }
  }

  method FillOptions(f: Fields, options: Table, ghost was: Mapping) returns (ok: bool)
    requires options.entries == Do(was, "mode", ModeChange(f))
    modifies options
    ensures ok <==> !(IsWorktree(f, was) && (f.pullLatest.Some? || f.excludeUncommitted.Some?))
    ensures ok ==> options.entries == DoAll(was, OptionEdits(f, IsWorktree(f, was)))
  {
    DoGet(was, "mode", ModeChange(f), "mode");
    options.InsertIf("reinstallDeps", f.reinstallDeps);
    DoGet(Do(was, "mode", ModeChange(f)), "reinstallDeps", BoolChange(f.reinstallDeps), "mode");
    ghost var reinstalled := options.entries;
    ghost var e := OptionEdits(f, IsWorktree(f, was));
    assert DoAll(was, e) == DoFrom(Do(was, "mode", ModeChange(f)), e, 1) == DoFrom(reinstalled, e, 2);
    options.InsertIf("pullLatest", f.pullLatest);
    DoGet(reinstalled, "pullLatest", BoolChange(f.pullLatest), "mode");
    ghost var pulled := options.entries;
    options.InsertIf("excludeUncommitted", f.excludeUncommitted);
    DoGet(pulled, "excludeUncommitted", BoolChange(f.excludeUncommitted), "mode");
    if Get(options.entries, "mode") == Some(Text("worktree")) {
      if f.pullLatest.Some? || f.excludeUncommitted.Some? {
        return false;
      }
      options.RemoveKey("pullLatest");
      options.RemoveKey("excludeUncommitted");
    }
    ghost var next := Do(reinstalled, e[2].0, e[2].1);
    assert DoFrom(reinstalled, e, 2) == DoFrom(next, e, 3) == DoFrom(Do(next, e[3].0, e[3].1), e, 4);
    ok := true;
  }

  method ApplySendTo(f: Fields, env: Env, job: Table)
    modifies job
    ensures job.entries == Do(old(job.entries), "sendTo", SendToChange(f, env))
  {
    if f.sendTo.Some? {
      var destinations := Trimmed(env, f.sendTo.value);
      if destinations == [] {
        job.RemoveKey("sendTo");
      } else if |destinations| == 1 {
        job.InsertEntry("sendTo", destinations[0]);
      } else {
        job.InsertEntry("sendTo", List(destinations));
      }
    }
  }

  method ApplyRunField(f: Fields, env: Env, job: Table)
    modifies job
    ensures job.entries == Do(old(job.entries), "run", RunChange(f, env, Get(old(job.entries), "run")))
  {
    if RunGiven(f) {
      var run := new Table(OptionsOf(Get(job.entries, "run")));
      ApplyRun(f, env, run);
      job.InsertEntry("run", Entries(run.entries));
    }
  }

  /** `apply`: in place, key by key. */
  method Apply(f: Fields, env: Env, job: Table) returns (ok: bool)
    modifies job
    ensures ok <==> Applied(f, env, old(job.entries)).Some?
    ensures ok ==> job.entries == Applied(f, env, old(job.entries)).value
  {
    ghost var m := job.entries;
    ghost var c := DuplicateChange(f, Get(m, "duplicate"));
    ghost var e := JobEdits(f, env, if c.Some? then c.value else Keep, RunChange(f, env, Get(m, "run")));
    JobKeys(f, env, e[5].1, e[6].1);
    ghost var end := DoAll(m, e);
    ApplyFirst(f, env, job, e);
    DoGet(job.entries, "duplicate", e[5].1, "run");
    ok := ApplyDuplicate(f, job);
    if !ok {
      return;
    }
    assert DoFrom(job.entries, e, 6) == end;
    ApplyRunField(f, env, job);
    assert DoFrom(job.entries, e, 7) == end;
    ApplySendTo(f, env, job);
    assert DoFrom(job.entries, e, 8) == end;
    if f.machines.Some? {
      job.InsertEntry("machines", List(Trimmed(env, f.machines.value)));
    }
  }

  lemma JobKeys(f: Fields, env: Env, duplicate: Change, run: Change)
    ensures Once(JobEdits(f, env, duplicate, run))
  {
  }

  /** The fields before the copy it runs in. */
  method ApplyFirst(f: Fields, env: Env, job: Table, ghost e: Edits)
    requires Once(e) && |e| == 9 && e == JobEdits(f, env, e[5].1, e[6].1)
    modifies job
    ensures DoFrom(job.entries, e, 5) == DoAll(old(job.entries), e)
    ensures Get(job.entries, "duplicate") == Get(old(job.entries), "duplicate")
    ensures Get(job.entries, "run") == Get(old(job.entries), "run")
  {
    ghost var m := job.entries;
    job.Put(env, "label", f.title);
    Next(m, e, 0);
    Next(job.entries, e, 1);
    job.Put(env, "emoji", f.emoji);
    Next(job.entries, e, 2);
    if ScheduleGiven(f) {
      var schedule := BuildSchedule(f, env);
      job.InsertEntry("schedule", Entries(schedule));
    }
    Next(job.entries, e, 3);
    job.Put(env, "check", f.check);
    Next(job.entries, e, 4);
    job.Put(env, "verify", f.verify);
  }

  /** One change leaves those after it as they were to be, and the later keys alone. */
  lemma Next(m: Mapping, e: Edits, i: nat)
    requires Once(e) && i < 5 && |e| == 9
    ensures DoFrom(m, e, i) == DoFrom(Do(m, e[i].0, e[i].1), e, i + 1)
    ensures Get(Do(m, e[i].0, e[i].1), e[5].0) == Get(m, e[5].0)
    ensures Get(Do(m, e[i].0, e[i].1), e[6].0) == Get(m, e[6].0)
  {
    DoGet(m, e[i].0, e[i].1, e[5].0);
    DoGet(m, e[i].0, e[i].1, e[6].0);
  }

  // ---- the same flags twice ----------------------------------------------------------------------------------

  lemma RunTwice(f: Fields, env: Env, run: Mapping)
    ensures RunOf(f, env, RunOf(f, env, run)) == RunOf(f, env, run)
  {
    var e := RunEdits(f, env);
    var target := Target(f, env, run);
    var once := DoAll(target, e);
    if f.action.Some? {
      var action := TextChange(env, f.action);
      var r := if f.cmd.Some? then Do([], "cmd", TextChange(env, f.cmd)) else run;
      RunKeys(f, env);
      // What the action flag takes out again is what the later flags put in.
      DoFromHidden(target, e, 0, AI_KEYS);
      ActionSettles(r, action);
      assert Without(once, AI_KEYS) == target;
      ActionTwice(r, action);
    } else if f.cmd.None? {
      RunKeys(f, env);
      DoAllTwice(run, e);
    }
  }

  lemma RunKeys(f: Fields, env: Env)
    ensures Once(RunEdits(f, env)) && forall j :: 0 <= j < |RunEdits(f, env)| ==> RunEdits(f, env)[j].0 in AI_KEYS
  {
  }

  /** With the keys an action does not go with out of the way, its own key stays. */
  lemma ActionSettles(r: Mapping, action: Change)
    ensures Without(Do(Without(r, AI_KEYS), "action", action), AI_KEYS) == Do(Without(r, AI_KEYS), "action", action)
  {
    var target := Do(Without(r, AI_KEYS), "action", action);
    forall k | k in AI_KEYS
      ensures Get(target, k) == None
    {
      WithoutGet(r, AI_KEYS, k);
      DoGet(Without(r, AI_KEYS), "action", action, k);
    }
    WithoutNone(target, AI_KEYS);
  }

  lemma ActionTwice(r: Mapping, action: Change)
    ensures Do(Do(Without(r, AI_KEYS), "action", action), "action", action) == Do(Without(r, AI_KEYS), "action", action)
  {
    DoGet(Without(r, AI_KEYS), "action", action, "action");
    DoAgain(Do(Without(r, AI_KEYS), "action", action), "action", action);
  }

  lemma OptionKeys(f: Fields, worktree: bool)
    ensures Once(OptionEdits(f, worktree))
  {
  }

  lemma OptionsTwice(f: Fields, options: Mapping, worktree: bool)
    requires worktree == IsWorktree(f, options)
    ensures var once := DoAll(options, OptionEdits(f, worktree));
      IsWorktree(f, once) == worktree && DoAll(once, OptionEdits(f, worktree)) == once
  {
    var e := OptionEdits(f, worktree);
    OptionKeys(f, worktree);
    DoFromAt(options, e, 0, 0);
    DoAllTwice(options, e);
  }

  /** Flags that were taken once are taken again, and leave the copy's options as they are. */
  lemma DuplicateTwice(f: Fields, was: Option<Value>)
    requires DuplicateChange(f, was).Some?
    ensures var now := After(DuplicateChange(f, was).value, was);
      var again := DuplicateChange(f, now);
      again.Some? && After(again.value, now) == now
  {
    var c := DuplicateChange(f, was).value;
    if c.Set? {
      var options := OptionsOf(was);
      OptionsTwice(f, options, IsWorktree(f, options));
      var once := Options(f, was);
      assert OptionsOf(Some(DuplicateValue(once))) == once;
    }
  }

  /** The copy and the run as an edit leaves them. */
  lemma AppliedParts(f: Fields, env: Env, job: Mapping)
    requires Applied(f, env, job).Some?
    ensures var once, was, run := Applied(f, env, job).value, Get(job, "duplicate"), Get(job, "run");
      && Get(once, "duplicate") == After(DuplicateChange(f, was).value, was)
      && Get(once, "run") == After(RunChange(f, env, run), run)
  {
    var e := JobEdits(f, env, DuplicateChange(f, Get(job, "duplicate")).value, RunChange(f, env, Get(job, "run")));
    JobKeys(f, env, e[5].1, e[6].1);
    DoFromAt(job, e, 0, 5);
    DoFromAt(job, e, 0, 6);
  }

  /** The same flags twice are the flags once, in value and in order, and the second time never
      fails when the first did not. */
  lemma ApplyTwice(f: Fields, env: Env, job: Mapping)
    requires Applied(f, env, job).Some?
    ensures Applied(f, env, Applied(f, env, job).value) == Applied(f, env, job)
  {
    var once := Applied(f, env, job).value;
    var was, run := Get(job, "duplicate"), Get(job, "run");
    AppliedParts(f, env, job);
    DuplicateTwice(f, was);
    RunTwice(f, env, OptionsOf(run));
    var d, r := DuplicateChange(f, Get(once, "duplicate")).value, RunChange(f, env, Get(once, "run"));
    assert After(r, Get(once, "run")) == Get(once, "run");
    AppliedSettles(f, env, job, d, r);
  }

  /** What was applied stays when the copy and the run stay. */
  lemma AppliedSettles(f: Fields, env: Env, job: Mapping, d: Change, r: Change)
    requires Applied(f, env, job).Some?
    requires var once := Applied(f, env, job).value;
      After(d, Get(once, "duplicate")) == Get(once, "duplicate") && After(r, Get(once, "run")) == Get(once, "run")
    ensures DoAll(Applied(f, env, job).value, JobEdits(f, env, d, r)) == Applied(f, env, job).value
  {
    var once := Applied(f, env, job).value;
    var e := JobEdits(f, env, DuplicateChange(f, Get(job, "duplicate")).value, RunChange(f, env, Get(job, "run")));
    var again := JobEdits(f, env, d, r);
    JobKeys(f, env, e[5].1, e[6].1);
    forall j | 0 <= j < |again|
      ensures After(again[j].1, Get(once, again[j].0)) == Get(once, again[j].0)
    {
      DoFromAt(job, e, 0, j);
      assert again[j].0 == e[j].0;
      assert j != 5 && j != 6 ==> again[j].1 == e[j].1;
    }
    DoFromAgain(once, again, 0);
  }

  // ---- what an edit never writes -------------------------------------------------------------------------------

  /** Whether a flag for this key was given. */
  predicate Given(f: Fields, key: string)
  {
    match key
    case "label" => f.title.Some?
    case "emoji" => f.emoji.Some?
    case "schedule" => ScheduleGiven(f)
    case "check" => f.check.Some?
    case "verify" => f.verify.Some?
    case "duplicate" => f.duplicate.Some? || CopyOptionsGiven(f)
    case "run" => RunGiven(f)
    case "sendTo" => f.sendTo.Some?
    case "machines" => f.machines.Some?
    case _ => false
  }

  /** An edit changes only the fields given; any other key, the app's own included, is left as
      it is. */
  lemma OtherKeysStay(f: Fields, env: Env, job: Mapping, k: string)
    requires Applied(f, env, job).Some? && !Given(f, k)
    ensures Get(Applied(f, env, job).value, k) == Get(job, k)
  {
    var d, r := DuplicateChange(f, Get(job, "duplicate")).value, RunChange(f, env, Get(job, "run"));
    KeyStays(f, env, job, d, r, k);
  }

  lemma KeyStays(f: Fields, env: Env, job: Mapping, d: Change, r: Change, k: string)
    requires !Given(f, k)
    requires !Given(f, "duplicate") ==> d == Keep
    requires !Given(f, "run") ==> r == Keep
    ensures Get(DoAll(job, JobEdits(f, env, d, r)), k) == Get(job, k)
  {
    var e := JobEdits(f, env, d, r);
    JobKeys(f, env, d, r);
    if j :| 0 <= j < |e| && e[j].0 == k {
      DoFromAt(job, e, 0, j);
      NotGivenIsKept(f, env, d, r, j);
    } else {
      DoFromOther(job, e, 0, k);
    }
  }

  lemma NotGivenIsKept(f: Fields, env: Env, d: Change, r: Change, j: nat)
    requires j < 9 && !Given(f, JobEdits(f, env, d, r)[j].0)
    requires !Given(f, "duplicate") ==> d == Keep
    requires !Given(f, "run") ==> r == Keep
    ensures JobEdits(f, env, d, r)[j].1 == Keep
  {
  }

  /** A worktree an edit writes never carries what only applies to a copy. */
  lemma WorktreeIsBare(f: Fields, env: Env, job: Mapping)
    requires Applied(f, env, job).Some? && (f.duplicate.Some? || CopyOptionsGiven(f))
    ensures var options := OptionsOf(Get(Applied(f, env, job).value, "duplicate"));
      Get(options, "mode") == Some(Text("worktree")) ==>
        Get(options, "pullLatest") == None && Get(options, "excludeUncommitted") == None
  {
    AppliedParts(f, env, job);
    var was := Get(job, "duplicate");
    if DuplicateChange(f, was).value.Set? {
      var options := OptionsOf(was);
      var worktree := IsWorktree(f, options);
      var o := OptionEdits(f, worktree);
      OptionKeys(f, worktree);
      DoFromAt(options, o, 0, 0);
      DoFromAt(options, o, 0, 2);
      DoFromAt(options, o, 0, 3);
      assert OptionsOf(Some(DuplicateValue(Options(f, was)))) == Options(f, was);
    }
  }

  predicate Both(run: Mapping) { Get(run, "cmd").Some? && Get(run, "prompt").Some? }

  /** A command and a prompt never come to stand beside each other: where they do after an edit
      they did before. */
  lemma CommandOrPrompt(f: Fields, env: Env, run: Mapping)
    ensures Both(RunOf(f, env, run)) ==> Both(run) && f.cmd.None? && f.action.None? && f.prompt.None?
  {
    var target := Target(f, env, run);
    RunKeys(f, env);
    DoFromAt(target, RunEdits(f, env), 0, 0);
    DoFromAt(target, RunEdits(f, env), 0, 1);
    var r := if f.cmd.Some? then Do([], "cmd", TextChange(env, f.cmd)) else run;
    DoGet([], "cmd", TextChange(env, f.cmd), "prompt");
    WithoutGet(r, AI_KEYS, "cmd");
    DoGet(Without(r, AI_KEYS), "action", TextChange(env, f.action), "cmd");
  }

  lemma CommandOrPromptInJob(f: Fields, env: Env, job: Mapping)
    requires Applied(f, env, job).Some? && !Both(OptionsOf(Get(job, "run")))
    ensures !Both(OptionsOf(Get(Applied(f, env, job).value, "run")))
  {
    AppliedParts(f, env, job);
    CommandOrPrompt(f, env, OptionsOf(Get(job, "run")));
  }
}
