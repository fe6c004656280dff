/** What every flag of an automation leaves under its key (cli/src/job_fields.rs). */
module JobValues {
  import opened Hex
  import opened Mapping
  import opened JobFields

  /** A text flag writes its text without the blanks around it; an empty one clears the key, and
      without the flag the value is as it was. */
  function TextLeft(env: Env, flag: Option<string>, was: Option<Value>): Option<Value>
  {
    if flag.None? then was else if env.trim(flag.value) == "" then None else Some(Text(env.trim(flag.value)))
  }

  function BoolLeft(flag: Option<bool>, was: Option<Value>): Option<Value>
  {
    if flag.None? then was else Some(Bool(flag.value))
  }

  function TrueLeft(flag: Option<bool>, was: Option<Value>): Option<Value>
  {
    if flag.None? then was else if flag.value then Some(Bool(true)) else None
  }

  /** One of a list is written alone. */
  function ListLeft(values: seq<Value>): Option<Value>
  {
    if |values| == 0 then None else if |values| == 1 then Some(values[0]) else Some(List(values))
  }

  /** The values of a list are its texts without the blanks around them, the empty ones left out,
      in their order. */
  lemma {:induction false} TrimmedParts(env: Env, a: seq<string>, b: seq<string>)
    ensures Trimmed(env, a + b) == Trimmed(env, a) + Trimmed(env, b)
    ensures |b| == 1 ==> Trimmed(env, b) == if env.trim(b[0]) == "" then [] else [Text(env.trim(b[0]))]
    decreases |b|
  {
    if b == [] {
      assert a + b == a;
    } else {
      var init := b[..|b| - 1];
      assert (a + b)[..|a + b| - 1] == a + init;
      TrimmedParts(env, a, init);
    }
  }

  // ---- which flags are given -----------------------------------------------------------------

  predicate NoTimes(f: Fields)
  {
    f == f.(manual := false, every := None, at := [], until := None, times := None, days := None, pickDays := None,
            shortMonths := None, cron := None)
  }

  predicate NoRun(f: Fields)
  {
    f == f.(cmd := None, action := None, prompt := None, agent := None, model := None, effort := None, access := None,
            claudeAccount := None, quiet := None, memory := None)
  }

  predicate NoOptions(f: Fields) { f == f.(reinstallDeps := None, pullLatest := None, excludeUncommitted := None) }

  // ---- the schedule ------------------------------------------------------------------------

  function ScheduleLeft(f: Fields, env: Env, k: string): Option<Value>
  {
    if f.manual then if k == "manual" then Some(Bool(true)) else None
    else if f.cron.Some? then if k == "cron" then TextLeft(env, f.cron, None) else None
    else
      match k
      case "every" => TextLeft(env, f.every, None)
      case "at" => ListLeft(Trimmed(env, f.at))
      case "until" => TextLeft(env, f.until, None)
      case "times" => if f.times.Some? then Some(Number(f.times.value)) else None
      case "days" => if f.days.Some? then env.daysValue(f.days.value) else None
      case "pickDays" => if f.pickDays.Some? then Some(Number(f.pickDays.value)) else None
      case "shortMonths" => TextLeft(env, f.shortMonths, None)
      case _ => None
  }

  lemma TimeLeft(f: Fields, env: Env, j: nat)
    requires !f.manual && f.cron.None? && j < 7
    ensures Once(ScheduleEdits(f, env))
    ensures var e := ScheduleEdits(f, env); After(e[j].1, None) == ScheduleLeft(f, env, e[j].0)
  {
  }

  lemma NoTimeLeft(f: Fields, env: Env, k: string)
    requires !f.manual && f.cron.None? && forall j :: 0 <= j < 7 ==> ScheduleEdits(f, env)[j].0 != k
    ensures ScheduleLeft(f, env, k) == None
  {
    var e := ScheduleEdits(f, env);
    assert e[0].0 != k && e[1].0 != k && e[2].0 != k && e[3].0 != k && e[4].0 != k && e[5].0 != k && e[6].0 != k;
  }

  lemma TimesLeft(f: Fields, env: Env, k: string)
    requires !f.manual && f.cron.None?
    ensures Get(DoAll([], ScheduleEdits(f, env)), k) == ScheduleLeft(f, env, k)
  {
    var e := ScheduleEdits(f, env);
    if j: nat :| j < |e| && e[j].0 == k {
      TimeLeft(f, env, j);
      DoFromAt([], e, 0, j);
    } else {
      NoTimeLeft(f, env, k);
      DoFromOther([], e, 0, k);
    }
  }

  /** A schedule has under each key just what its flag says. */
  lemma ScheduleIs(f: Fields, env: Env, k: string)
    ensures Get(Schedule(f, env), k) == ScheduleLeft(f, env, k)
  {
    if f.manual {
      assert [("manual", Bool(true))][1..] == [];
    } else if f.cron.Some? {
      DoGet([], "cron", TextChange(env, f.cron), k);
    } else {
      TimesLeft(f, env, k);
    }
  }

  // ---- the copy it runs in -----------------------------------------------------------------

  predicate Worktree(f: Fields, options: Mapping)
  {
    f.duplicate == Some("worktree") || (f.duplicate.None? && Get(options, "mode") == Some(Text("worktree")))
  }

  /** The options of a copy; a worktree has none of those that are a copy's own. */
  function OptionLeft(f: Fields, options: Mapping, k: string): Option<Value>
  {
    var was := Get(options, k);
    match k
    case "mode" =>
      if f.duplicate.None? then was else if f.duplicate == Some("worktree") then Some(Text("worktree")) else None
    case "reinstallDeps" => BoolLeft(f.reinstallDeps, was)
    case "pullLatest" => if Worktree(f, options) then None else BoolLeft(f.pullLatest, was)
    case "excludeUncommitted" => if Worktree(f, options) then None else BoolLeft(f.excludeUncommitted, was)
    case _ => was
  }

  lemma OptionIs(f: Fields, options: Mapping, k: string)
    ensures Get(DoAll(options, OptionEdits(f, IsWorktree(f, options))), k) == OptionLeft(f, options, k)
  {
    var e := OptionEdits(f, IsWorktree(f, options));
    OptionKeys(f, IsWorktree(f, options));
    if j: nat :| j < |e| && e[j].0 == k {
      DoFromAt(options, e, 0, j);
    } else {
      assert forall j :: 0 <= j < |e| ==> e[j].0 != k;
      DoFromOther(options, e, 0, k);
      assert e[0].0 != k && e[1].0 != k && e[2].0 != k && e[3].0 != k;
    }
  }

  /** A copy's options given where there is no copy, or with `off`, or a copy's own ones for a
      worktree. */
  predicate IsRefused(f: Fields, was: Option<Value>)
  {
    || (!NoOptions(f) && (f.duplicate == Some("off") || (f.duplicate.None? && !IsCopy(was))))
    || ((f.pullLatest.Some? || f.excludeUncommitted.Some?) && f.duplicate != Some("off") && Worktree(f, OptionsOf(was)))
  }

  /** An edit is refused exactly for those flags. */
  lemma RefusedExactlyWhen(f: Fields, env: Env, job: Mapping)
    ensures Applied(f, env, job).None? <==> IsRefused(f, Get(job, "duplicate"))
  {
  }

  /** What an edit leaves of the copy: nothing with `off`, a bare `true` when no option is left,
      and otherwise its options as they come out. */
  ghost predicate CopyLeft(f: Fields, was: Option<Value>, now: Option<Value>)
  {
    if f.duplicate.None? && NoOptions(f) then now == was
    else if f.duplicate == Some("off") then now == None
    else
      && now.Some? && IsCopy(now)
      && (now.value.Entries? ==> now.value.entries != [])
      && forall k :: Get(OptionsOf(now), k) == OptionLeft(f, OptionsOf(was), k)
  }

  lemma CopyIs(f: Fields, was: Option<Value>)
    requires DuplicateChange(f, was).Some?
    ensures CopyLeft(f, was, After(DuplicateChange(f, was).value, was))
  {
    if DuplicateChange(f, was).value.Set? {
      var options := Options(f, was);
      assert OptionsOf(Some(DuplicateValue(options))) == options;
      forall k
        ensures Get(options, k) == OptionLeft(f, OptionsOf(was), k)
      {
        OptionIs(f, OptionsOf(was), k);
      }
    }
  }

  // ---- what it runs --------------------------------------------------------------------------

  /** What was there before, once another command or action took its place. */
  function Beside(f: Fields, was: Option<Value>): Option<Value>
  {
    if f.cmd.Some? || f.action.Some? then None else was
  }

  function AccountLeft(env: Env, flag: Option<string>, was: Option<Value>): Option<Value>
  {
    if flag.Some? && env.trim(flag.value) == "default" then Some(Text("")) else TextLeft(env, flag, was)
  }

  /** A command replaces the whole run, an action all that only an agent needs, and a prompt the
      command. */
  function RunLeft(f: Fields, env: Env, run: Mapping, k: string): Option<Value>
  {
    var was := Get(run, k);
    match k
    case "cmd" => if f.prompt.Some? || f.action.Some? then None else TextLeft(env, f.cmd, was)
    case "action" => TextLeft(env, f.action, if f.cmd.Some? then None else was)
    case "prompt" => TextLeft(env, f.prompt, Beside(f, was))
    case "agent" => TextLeft(env, f.agent, Beside(f, was))
    case "model" => TextLeft(env, f.model, Beside(f, was))
    case "effort" => TextLeft(env, f.effort, Beside(f, was))
    case "access" => TextLeft(env, f.access, Beside(f, was))
    case "quiet" => TrueLeft(f.quiet, Beside(f, was))
    case "memory" => TrueLeft(f.memory, Beside(f, was))
    case "claudeAccount" => AccountLeft(env, f.claudeAccount, Beside(f, was))
    case _ => if f.cmd.Some? then None else was
  }

  /** What the flags for a command and an action leave. */
  function TargetLeft(f: Fields, env: Env, run: Mapping, k: string): Option<Value>
  {
    var was := if f.cmd.Some? then None else Get(run, k);
    if k == "action" then TextLeft(env, f.action, was)
    else if f.action.Some? && k in AI_KEYS then None
    else if k == "cmd" then TextLeft(env, f.cmd, was)
    else was
  }

  lemma TargetIs(f: Fields, env: Env, run: Mapping, k: string)
    ensures Get(Target(f, env, run), k) == TargetLeft(f, env, run, k)
  {
    var r := if f.cmd.Some? then Do([], "cmd", TextChange(env, f.cmd)) else run;
    DoGet([], "cmd", TextChange(env, f.cmd), k);
    WithoutGet(r, AI_KEYS, k);
    DoGet(Without(r, AI_KEYS), "action", TextChange(env, f.action), k);
  }

  function EditLeft(f: Fields, env: Env, k: string, was: Option<Value>): Option<Value>
  {
    match k
    case "cmd" => if f.prompt.Some? then None else was
    case "prompt" => TextLeft(env, f.prompt, was)
    case "agent" => TextLeft(env, f.agent, was)
    case "model" => TextLeft(env, f.model, was)
    case "effort" => TextLeft(env, f.effort, was)
    case "access" => TextLeft(env, f.access, was)
    case "quiet" => TrueLeft(f.quiet, was)
    case "memory" => TrueLeft(f.memory, was)
    case "claudeAccount" => AccountLeft(env, f.claudeAccount, was)
    case _ => was
  }

  lemma OneEditLeft(f: Fields, env: Env, j: nat, was: Option<Value>)
    requires j < 9
    ensures var e := RunEdits(f, env); After(e[j].1, was) == EditLeft(f, env, e[j].0, was)
  {
  }

  lemma NoEditLeft(f: Fields, env: Env, k: string, was: Option<Value>)
    requires forall j :: 0 <= j < 9 ==> RunEdits(f, env)[j].0 != k
    ensures EditLeft(f, env, k, was) == was
  {
    var e := RunEdits(f, env);
    assert e[0].0 != k && e[1].0 != k && e[2].0 != k && e[3].0 != k && e[4].0 != k;
    assert e[5].0 != k && e[6].0 != k && e[7].0 != k && e[8].0 != k;
  }

  lemma EditIs(f: Fields, env: Env, m: Mapping, k: string)
    ensures Get(DoAll(m, RunEdits(f, env)), k) == EditLeft(f, env, k, Get(m, k))
  {
    var e := RunEdits(f, env);
    RunKeys(f, env);
    if j: nat :| j < |e| && e[j].0 == k {
      OneEditLeft(f, env, j, Get(m, k));
      DoFromAt(m, e, 0, j);
    } else {
      NoEditLeft(f, env, k, Get(m, k));
      DoFromOther(m, e, 0, k);
    }
  }

  lemma RunIs(f: Fields, env: Env, run: Mapping, k: string)
    ensures Get(RunOf(f, env, run), k) == RunLeft(f, env, run, k)
  {
    TargetIs(f, env, run, k);
    EditIs(f, env, Target(f, env, run), k);
  }

  // ---- the whole entry --------------------------------------------------------------------------

  ghost predicate ScheduleFrom(f: Fields, env: Env, was: Option<Value>, now: Option<Value>)
  {
    if NoTimes(f) then now == was
    else now.Some? && now.value.Entries? && forall k :: Get(now.value.entries, k) == ScheduleLeft(f, env, k)
  }

  ghost predicate RunFrom(f: Fields, env: Env, was: Option<Value>, now: Option<Value>)
  {
    if NoRun(f) then now == was
    else now.Some? && now.value.Entries? && forall k :: Get(now.value.entries, k) == RunLeft(f, env, OptionsOf(was), k)
  }

  /** What an edit leaves under a key, told from the flag for it alone. */
  ghost predicate Leaves(f: Fields, env: Env, k: string, was: Option<Value>, now: Option<Value>)
  {
    match k
    case "label" => now == TextLeft(env, f.title, was)
    case "emoji" => now == TextLeft(env, f.emoji, was)
    case "schedule" => ScheduleFrom(f, env, was, now)
    case "check" => now == TextLeft(env, f.check, was)
    case "verify" => now == TextLeft(env, f.verify, was)
    case "duplicate" => CopyLeft(f, was, now)
    case "run" => RunFrom(f, env, was, now)
    case "sendTo" => now == if f.sendTo.None? then was else ListLeft(Trimmed(env, f.sendTo.value))
    case "machines" => now == if f.machines.None? then was else Some(List(Trimmed(env, f.machines.value)))
    case _ => now == was
  }

  lemma ScheduleIsFrom(f: Fields, env: Env, was: Option<Value>)
    ensures ScheduleFrom(f, env, was, After(ScheduleChange(f, env), was))
  {
    forall k
      ensures Get(Schedule(f, env), k) == ScheduleLeft(f, env, k)
    {
      ScheduleIs(f, env, k);
    }
  }

  lemma RunIsFrom(f: Fields, env: Env, was: Option<Value>)
    ensures RunFrom(f, env, was, After(RunChange(f, env, was), was))
  {
    forall k
      ensures Get(RunOf(f, env, OptionsOf(was)), k) == RunLeft(f, env, OptionsOf(was), k)
    {
      RunIs(f, env, OptionsOf(was), k);
    }
  }

  lemma ChangeLeaves(f: Fields, env: Env, was: Option<Value>, d: Change, r: Change, j: nat)
    requires j < 9
    requires j == 5 ==> CopyLeft(f, was, After(d, was))
    requires j == 6 ==> RunFrom(f, env, was, After(r, was))
    ensures var e := JobEdits(f, env, d, r); Leaves(f, env, e[j].0, was, After(e[j].1, was))
  {
    if j == 2 {
      ScheduleIsFrom(f, env, was);
    }
  }

  /** After an edit every key has what its flag leaves there. */
  lemma EveryKeyIs(f: Fields, env: Env, job: Mapping, k: string)
    requires Applied(f, env, job).Some?
    ensures Leaves(f, env, k, Get(job, k), Get(Applied(f, env, job).value, k))
  {
    var d, r := DuplicateChange(f, Get(job, "duplicate")).value, RunChange(f, env, Get(job, "run"));
    var e := JobEdits(f, env, d, r);
    JobKeys(f, env, d, r);
    if j: nat :| j < |e| && e[j].0 == k {
      DoFromAt(job, e, 0, j);
      CopyIs(f, Get(job, "duplicate"));
      RunIsFrom(f, env, Get(job, "run"));
      ChangeLeaves(f, env, Get(job, k), d, r, j);
    } else {
      assert forall j :: 0 <= j < |e| ==> e[j].0 != k;
      DoFromOther(job, e, 0, k);
      assert e[0].0 != k && e[1].0 != k && e[2].0 != k && e[3].0 != k && e[4].0 != k;
      assert e[5].0 != k && e[6].0 != k && e[7].0 != k && e[8].0 != k;
    }
  }
}
