/** The agent scheduler: one loop goroutine that sweeps due tasks and serves triggers, with callers around it. */
module Scheduler {
  import opened Wrappers

  const TRIGGER_BUFFER: nat := 8

  datatype Task = Task(name: string, interval: nat, enabled: bool, lastRun: Option<nat>, runCount: nat, errCount: nat)

  /** Where the loop stands: waiting in its select, sweeping from task next on, or inside task.Run. */
  datatype Loop = Waiting | Sweeping(next: nat) | Running(task: nat, started: nat, resume: Option<nat>) | Stopped

  /** One completed run, by index of its task. */
  datatype Run = Run(task: nat, started: nat, ended: nat, triggered: bool, failed: bool)

  /** runs and accepted record history: the completed runs, and the names that entered the channel. */
  datatype State = State(tasks: seq<Task>, loop: Loop, triggers: seq<string>, done: bool, now: nat,
                         runs: seq<Run>, accepted: seq<string>)

  datatype Step =
    | Wait(time: nat)
    | Trigger(name: string)
    | Stop
    | BeginSweep            // ticker, or the first check on start
    | SweepOne
    | TakeTrigger
    | Finish(failed: bool)
    | Leave                 // the loop sees done

  function Started(tasks: seq<Task>): State {
    State(tasks, Sweeping(0), [], false, 0, [], [])
  }

  predicate Known(s: State, name: string) {
    exists i :: 0 <= i < |s.tasks| && s.tasks[i].name == name
  }

  /** The first task of that name. */
  function IndexOf(tasks: seq<Task>, name: string): (i: nat)
    requires exists i :: 0 <= i < |tasks| && tasks[i].name == name
    ensures i < |tasks| && tasks[i].name == name
  {
    if tasks[0].name == name then 0 else 1 + IndexOf(tasks[1..], name)
  }

  predicate Due(t: Task, now: nat) {
    t.enabled && (t.lastRun.None? || now - t.lastRun.value >= t.interval)
  }

  predicate Enabled(s: State, step: Step) {
    match step
    case Wait(_) => true
    case Trigger(_) => true
    case Stop => true
    case BeginSweep => s.loop.Waiting?
    case SweepOne => s.loop.Sweeping?
    case TakeTrigger => s.loop.Waiting? && s.triggers != [] && Known(s, s.triggers[0])
    case Finish(_) => s.loop.Running? && s.loop.task < |s.tasks|
    case Leave => s.loop.Waiting? && s.done
  }

  function Apply(s: State, step: Step): State
    requires Enabled(s, step)
  {
    match step
    case Wait(time) => s.(now := s.now + time)
    case Trigger(name) =>
      if Known(s, name) && |s.triggers| < TRIGGER_BUFFER then
        s.(triggers := s.triggers + [name], accepted := s.accepted + [name])
      else s
    case Stop => s.(done := true)
    case BeginSweep => s.(loop := Sweeping(0))
    case SweepOne =>
      var i := s.loop.next;
      if s.done || i >= |s.tasks| then s.(loop := Waiting)
      else if !Due(s.tasks[i], s.now) then s.(loop := Sweeping(i + 1))
      else s.(loop := Running(i, s.now, Some(i + 1)))
    case TakeTrigger =>
      s.(triggers := s.triggers[1..], loop := Running(IndexOf(s.tasks, s.triggers[0]), s.now, None))
    case Finish(failed) =>
      var i, t := s.loop.task, s.tasks[s.loop.task];
      s.(tasks := s.tasks[i := t.(lastRun := Some(s.now), runCount := t.runCount + 1,
                                  errCount := t.errCount + if failed then 1 else 0)],
         runs := s.runs + [Run(i, s.loop.started, s.now, s.loop.resume.None?, failed)],
         loop := if s.loop.resume.Some? then Sweeping(s.loop.resume.value) else Waiting)
    case Leave => s.(loop := Stopped)
  }

  /** What Trigger returns. */
  predicate TriggerAnswer(s: State, name: string) {
    Known(s, name)
  }

  predicate Possible(s: State, steps: seq<Step>)
    decreases |steps|
  {
    |steps| == 0 || (Enabled(s, steps[0]) && Possible(Apply(s, steps[0]), steps[1..]))
  }

  function After(s: State, steps: seq<Step>): State
    requires Possible(s, steps)
    decreases |steps|
  {
    if |steps| == 0 then s else After(Apply(s, steps[0]), steps[1..])
  }

  // ---- What every run keeps ----

  /** The names of the triggered runs, in the order of the runs. */
  function Triggered(tasks: seq<Task>, runs: seq<Run>): seq<string> {
    if |runs| == 0 then []
    else
      var last := runs[|runs| - 1];
      Triggered(tasks, runs[..|runs| - 1]) +
      (if last.triggered && last.task < |tasks| then [tasks[last.task].name] else [])
  }

  /** The triggered run under way, if any. */
  function Serving(s: State): seq<string> {
    if s.loop.Running? && s.loop.resume.None? && s.loop.task < |s.tasks| then [s.tasks[s.loop.task].name] else []
  }

  function RunsOf(runs: seq<Run>, task: nat, failedOnly: bool): nat {
    if |runs| == 0 then 0
    else RunsOf(runs[..|runs| - 1], task, failedOnly) +
         (if runs[|runs| - 1].task == task && (failedOnly ==> runs[|runs| - 1].failed) then 1 else 0)
  }

  /** A run that starts by schedule does so an interval after the task's previous completion. */
  ghost predicate Spaced(tasks: seq<Task>, earlier: Run, later: Run) {
    earlier.task == later.task < |tasks| && !later.triggered ==>
      later.started >= earlier.ended + tasks[later.task].interval
  }

  ghost predicate RunsOk(s: State) {
    && (forall i :: 0 <= i < |s.runs| ==>
         s.runs[i].task < |s.tasks| && s.runs[i].started <= s.runs[i].ended <= s.now &&
         (!s.tasks[s.runs[i].task].enabled ==> s.runs[i].triggered))
    && (forall i, j :: 0 <= i < j < |s.runs| ==>
         s.runs[i].ended <= s.runs[j].started && Spaced(s.tasks, s.runs[i], s.runs[j]))
  }

  ghost predicate LastRunsOk(s: State) {
    forall i, k :: 0 <= i < |s.runs| && 0 <= k < |s.tasks| && s.runs[i].task == k ==>
      s.tasks[k].lastRun.Some? && s.runs[i].ended <= s.tasks[k].lastRun.value <= s.now
  }

  ghost predicate LoopOk(s: State) {
    s.loop.Running? ==>
      && s.loop.task < |s.tasks| && s.loop.started <= s.now
      && (forall i :: 0 <= i < |s.runs| ==> s.runs[i].ended <= s.loop.started)
      && (s.loop.resume.Some? ==>
           s.tasks[s.loop.task].enabled &&
           forall i :: 0 <= i < |s.runs| && s.runs[i].task == s.loop.task ==>
             s.loop.started >= s.runs[i].ended + s.tasks[s.loop.task].interval)
  }

  ghost predicate CountsOk(s: State) {
    && s.accepted == Triggered(s.tasks, s.runs) + Serving(s) + s.triggers
    && |s.triggers| <= TRIGGER_BUFFER
    && (forall name :: name in s.triggers ==> Known(s, name))
    && (forall k :: 0 <= k < |s.tasks| ==>
         s.tasks[k].runCount == RunsOf(s.runs, k, false) && s.tasks[k].errCount == RunsOf(s.runs, k, true))
  }

  ghost predicate Inv(s: State) {
    RunsOk(s) && LastRunsOk(s) && LoopOk(s) && CountsOk(s)
  }

  lemma FinishKeepsRuns(s: State, failed: bool)
    requires Inv(s) && Enabled(s, Finish(failed))
    ensures RunsOk(Apply(s, Finish(failed)))
  {
    var t := Apply(s, Finish(failed));
    forall i, j | 0 <= i < j < |t.runs|
      ensures t.runs[i].ended <= t.runs[j].started && Spaced(t.tasks, t.runs[i], t.runs[j])
    {
      if j < |s.runs| {
        assert Spaced(s.tasks, s.runs[i], s.runs[j]);
      }
    }
  }

  lemma FinishKeepsTimes(s: State, failed: bool)
    requires Inv(s) && Enabled(s, Finish(failed))
    ensures LastRunsOk(Apply(s, Finish(failed))) && LoopOk(Apply(s, Finish(failed)))
  {
  }

  /** Appending one run adds it to its own counts only. */
  lemma CountsOfOneMore(runs: seq<Run>, r: Run, k: nat)
    ensures RunsOf(runs + [r], k, false) == RunsOf(runs, k, false) + (if r.task == k then 1 else 0)
    ensures RunsOf(runs + [r], k, true) == RunsOf(runs, k, true) + (if r.task == k && r.failed then 1 else 0)
  {
    assert (runs + [r])[..|runs|] == runs;
  }

  ghost predicate SameNames(before: seq<Task>, after: seq<Task>) {
    |before| == |after| && forall k :: 0 <= k < |before| ==> after[k].name == before[k].name
  }

  /** The names of the triggered runs depend on the tasks' names only. */
  lemma {:induction false} TriggeredByName(before: seq<Task>, after: seq<Task>, runs: seq<Run>)
    requires SameNames(before, after)
    ensures Triggered(before, runs) == Triggered(after, runs)
    decreases |runs|
  {
    if |runs| > 0 {
      TriggeredByName(before, after, runs[..|runs| - 1]);
    }
  }

  /** A finished run moves from the hands of the loop to the record. */
  lemma FinishKeepsOrder(s: State, failed: bool)
    requires CountsOk(s) && Enabled(s, Finish(failed))
    ensures var t := Apply(s, Finish(failed)); t.accepted == Triggered(t.tasks, t.runs) + Serving(t) + t.triggers
  {
    var t := Apply(s, Finish(failed));
    TriggeredByName(s.tasks, t.tasks, s.runs);
    assert t.runs[..|s.runs|] == s.runs;
    assert Serving(t) == [];
    assert Triggered(t.tasks, t.runs) == Triggered(t.tasks, s.runs) + Serving(s);
  }

  /** A step that keeps the tasks' names keeps the names known. */
  lemma StaysKnown(s: State, t: State, name: string)
    requires Known(s, name) && |t.tasks| == |s.tasks|
    requires forall i :: 0 <= i < |s.tasks| ==> t.tasks[i].name == s.tasks[i].name
    ensures Known(t, name)
  {
    var i :| 0 <= i < |s.tasks| && s.tasks[i].name == name;
    assert t.tasks[i].name == name;
  }

  lemma FinishKeepsCounters(s: State, failed: bool, k: nat)
    requires Enabled(s, Finish(failed)) && k < |s.tasks|
    requires s.tasks[k].runCount == RunsOf(s.runs, k, false) && s.tasks[k].errCount == RunsOf(s.runs, k, true)
    ensures var t := Apply(s, Finish(failed));
      t.tasks[k].runCount == RunsOf(t.runs, k, false) && t.tasks[k].errCount == RunsOf(t.runs, k, true)
  {
    var r := Run(s.loop.task, s.loop.started, s.now, s.loop.resume.None?, failed);
    CountsOfOneMore(s.runs, r, k);
    assert Apply(s, Finish(failed)).runs == s.runs + [r];
  }

  lemma FinishKeepsCounts(s: State, failed: bool)
    requires Inv(s) && Enabled(s, Finish(failed))
    ensures CountsOk(Apply(s, Finish(failed)))
  {
    var t := Apply(s, Finish(failed));
    FinishKeepsOrder(s, failed);
    forall name | name in t.triggers
      ensures Known(t, name)
    {
      StaysKnown(s, t, name);
    }
    forall k | 0 <= k < |t.tasks|
      ensures t.tasks[k].runCount == RunsOf(t.runs, k, false) && t.tasks[k].errCount == RunsOf(t.runs, k, true)
    {
      FinishKeepsCounters(s, failed, k);
    }
  }

  lemma SweepKeepsCounts(s: State)
    requires CountsOk(s) && Enabled(s, SweepOne)
    ensures CountsOk(Apply(s, SweepOne))
  {
    assert Serving(Apply(s, SweepOne)) == Serving(s) == [];
    assert forall name :: Known(s, name) ==> Known(Apply(s, SweepOne), name);
  }

  lemma SweepKeepsLoop(s: State)
    requires RunsOk(s) && LastRunsOk(s) && Enabled(s, SweepOne)
    ensures LoopOk(Apply(s, SweepOne))
  {
  }

  lemma SweepKeepsInv(s: State)
    requires Inv(s) && Enabled(s, SweepOne)
    ensures Inv(Apply(s, SweepOne))
  {
    SweepKeepsCounts(s);
    SweepKeepsLoop(s);
    var t := Apply(s, SweepOne);
    assert t.tasks == s.tasks && t.runs == s.runs && t.now == s.now;
    assert RunsOk(t) && LastRunsOk(t);
  }

  lemma TriggerKeepsCounts(s: State, name: string)
    requires CountsOk(s) && Known(s, name) && |s.triggers| < TRIGGER_BUFFER
    ensures CountsOk(Apply(s, Trigger(name)))
  {
    var t := Apply(s, Trigger(name));
    assert t.accepted == Triggered(t.tasks, t.runs) + Serving(t) + t.triggers;
    forall other | other in t.triggers
      ensures Known(t, other)
    {
      assert other == name || other in s.triggers;
      StaysKnown(s, t, other);
    }
  }

  lemma TriggerKeepsInv(s: State, name: string)
    requires Inv(s)
    ensures Inv(Apply(s, Trigger(name)))
  {
    if Known(s, name) && |s.triggers| < TRIGGER_BUFFER {
      TriggerKeepsCounts(s, name);
    }
  }

  lemma TakeKeepsInv(s: State)
    requires Inv(s) && Enabled(s, TakeTrigger)
    ensures Inv(Apply(s, TakeTrigger))
  {
    assert forall name :: name in s.triggers[1..] ==> name in s.triggers;
  }

  lemma IdleStepKeepsInv(s: State, step: Step)
    requires Inv(s) && Enabled(s, step) && (step.Wait? || step.Stop? || step.BeginSweep? || step.Leave?)
    ensures Inv(Apply(s, step))
  {
  }

  lemma StepKeepsInv(s: State, step: Step)
    requires Inv(s) && Enabled(s, step)
    ensures Inv(Apply(s, step))
  {
    match step
    case Finish(failed) =>
      FinishKeepsRuns(s, failed);
      FinishKeepsTimes(s, failed);
      FinishKeepsCounts(s, failed);
    case SweepOne => SweepKeepsInv(s);
    case Trigger(name) => TriggerKeepsInv(s, name);
    case TakeTrigger => TakeKeepsInv(s);
    case _ => IdleStepKeepsInv(s, step);
  }

  /** Tasks as they are registered: never run. */
  predicate Registered(tasks: seq<Task>) {
    forall k :: 0 <= k < |tasks| ==> tasks[k].lastRun.None? && tasks[k].runCount == 0 && tasks[k].errCount == 0
  }

  lemma {:induction false} InvAlways(s: State, steps: seq<Step>)
    requires Inv(s) && Possible(s, steps)
    ensures Inv(After(s, steps))
    decreases |steps|
  {
    if |steps| > 0 {
      StepKeepsInv(s, steps[0]);
      InvAlways(Apply(s, steps[0]), steps[1..]);
    }
  }

  /** Intervals and enabled flags are fixed at registration. */
  ghost predicate SameSettings(before: seq<Task>, after: seq<Task>) {
    |before| == |after| &&
    forall k :: 0 <= k < |before| ==> after[k].interval == before[k].interval && after[k].enabled == before[k].enabled
  }

  lemma {:induction false} SettingsFixed(s: State, steps: seq<Step>)
    requires Possible(s, steps)
    ensures SameSettings(s.tasks, After(s, steps).tasks)
    decreases |steps|
  {
    if |steps| > 0 {
      SettingsFixed(Apply(s, steps[0]), steps[1..]);
    }
  }

  /** Runs that never overlap, spaced by schedule; those of disabled tasks only by trigger. */
  ghost predicate Orderly(tasks: seq<Task>, runs: seq<Run>) {
    && (forall i, j :: 0 <= i < j < |runs| ==> runs[i].ended <= runs[j].started)
    && (forall i, j :: 0 <= i < j < |runs| ==> Spaced(tasks, runs[i], runs[j]))
    && (forall i :: 0 <= i < |runs| && runs[i].task < |tasks| && !tasks[runs[i].task].enabled ==> runs[i].triggered)
  }

  lemma OrderlyBefore(before: seq<Task>, t: State)
    requires RunsOk(t) && SameSettings(before, t.tasks)
    ensures Orderly(before, t.runs)
  {
    forall i, j | 0 <= i < j < |t.runs|
      ensures t.runs[i].ended <= t.runs[j].started && Spaced(before, t.runs[i], t.runs[j])
    {
      assert Spaced(t.tasks, t.runs[i], t.runs[j]);
    }
  }

  /** In every run: at most one task runs at a time; a scheduled run starts at least an interval after every earlier
      completion of its task; disabled tasks run only by trigger. */
  lemma SchedulerIsSafe(tasks: seq<Task>, steps: seq<Step>)
    requires Registered(tasks) && Possible(Started(tasks), steps)
    ensures Orderly(tasks, After(Started(tasks), steps).runs)
  {
    InvAlways(Started(tasks), steps);
    SettingsFixed(Started(tasks), steps);
    OrderlyBefore(tasks, After(Started(tasks), steps));
  }

  /** A sweep starts the task it has come to if that is enabled and has never run, or not for an interval; any other
      it passes over. After the last task, or once it sees done, it ends. */
  lemma SweepStartsExactly(s: State)
    requires s.loop.Sweeping?
    ensures var i, t := s.loop.next, Apply(s, SweepOne);
      if s.done || i >= |s.tasks| then t == s.(loop := Waiting)
      else
        var task := s.tasks[i];
        if task.enabled && (task.lastRun.None? || s.now >= task.lastRun.value + task.interval)
        then t == s.(loop := Running(i, s.now, Some(i + 1))) else t == s.(loop := Sweeping(i + 1))
  {
  }

  /** The steps of a sweep by itself: passing over tasks, and running them to their ends. */
  predicate SweepStep(step: Step) {
    step == SweepOne || step == Finish(false)
  }

  /** A sweep that is not told to stop reaches every task it has not come to yet, and starts it if it is due then. */
  lemma {:induction false} SweepReaches(s: State, k: nat) returns (steps: seq<Step>)
    requires s.loop.Sweeping? && s.loop.next <= k < |s.tasks| && !s.done
    ensures Possible(s, steps) && forall i :: 0 <= i < |steps| ==> SweepStep(steps[i])
    ensures var t := After(s, steps);
      && t.loop == Sweeping(k) && !t.done && |t.tasks| == |s.tasks| && t.tasks[k] == s.tasks[k] && t.now == s.now
    decreases k - s.loop.next
  {
    steps := [];
    if s.loop.next < k {
      var next := Apply(s, SweepOne);
      if next.loop.Running? {
        var later := Apply(next, Finish(false));
        var rest := SweepReaches(later, k);
        steps := [SweepOne, Finish(false)] + rest;
        assert steps[1..] == [Finish(false)] + rest && steps[1..][1..] == rest;
      } else {
        var rest := SweepReaches(next, k);
        steps := [SweepOne] + rest;
        assert steps[1..] == rest;
      }
    }
  }

  /** Every accepted trigger is accounted for by name and in order: first those run, then the one running, then those
      still queued. Counters match the runs. */
  lemma TriggersAreConserved(tasks: seq<Task>, steps: seq<Step>)
    requires Registered(tasks) && Possible(Started(tasks), steps)
    ensures var s := After(Started(tasks), steps);
      && s.accepted == Triggered(s.tasks, s.runs) + Serving(s) + s.triggers
      && forall k :: 0 <= k < |s.tasks| ==>
           s.tasks[k].runCount == RunsOf(s.runs, k, false) && s.tasks[k].errCount == RunsOf(s.runs, k, true)
  {
    InvAlways(Started(tasks), steps);
  }

  /** In every reachable state a trigger of a known task is answered with true, and it is kept exactly when fewer than
      eight are queued; otherwise nothing at all changes, so no later tick can make up for it. */
  lemma TriggerKeptExactly(tasks: seq<Task>, steps: seq<Step>, name: string)
    requires Registered(tasks) && Possible(Started(tasks), steps)
    requires TriggerAnswer(After(Started(tasks), steps), name)
    ensures var s := After(Started(tasks), steps);
      var t := Apply(s, Trigger(name));
      && |s.triggers| <= 8
      && (t.accepted == s.accepted + [name] <==> |s.triggers| < 8)
      && (t == s <==> |s.triggers| == 8)
  {
    InvAlways(Started(tasks), steps);
    var s := After(Started(tasks), steps);
    assert |s.triggers + [name]| == |s.triggers| + 1 && |s.accepted + [name]| == |s.accepted| + 1;
  }

  function Repeated(name: string, n: nat): seq<Step> {
    if n == 0 then [] else [Trigger(name)] + Repeated(name, n - 1)
  }

  lemma {:induction false} TriggersPileUp(s: State, name: string, n: nat)
    requires Known(s, name) && |s.triggers| + n <= TRIGGER_BUFFER
    ensures Possible(s, Repeated(name, n))
    ensures var t := After(s, Repeated(name, n));
      t.tasks == s.tasks && |t.triggers| == |s.triggers| + n && |t.accepted| == |s.accepted| + n
    decreases n
  {
    if n > 0 {
      var next := Apply(s, Trigger(name));
      assert Repeated(name, n)[1..] == Repeated(name, n - 1);
      assert next.tasks == s.tasks && |next.triggers| == |s.triggers| + 1;
      TriggersPileUp(next, name, n - 1);
    }
  }

  /** The full channel is reached: while the loop is in its first sweep, eight triggers fill it, and the ninth is
      answered with true and forgotten. */
  lemma NinthTriggerIsForgotten(tasks: seq<Task>, name: string)
    requires Registered(tasks) && Known(Started(tasks), name)
    ensures Possible(Started(tasks), Repeated(name, 8))
    ensures var s := After(Started(tasks), Repeated(name, 8));
      |s.accepted| == 8 && TriggerAnswer(s, name) && Apply(s, Trigger(name)) == s
  {
    TriggersPileUp(Started(tasks), name, 8);
    var s := After(Started(tasks), Repeated(name, 8));
    StaysKnown(Started(tasks), s, name);
    TriggerKeptExactly(tasks, Repeated(name, 8), name);
  }
}
